/** `formatTime` from src/utils/dataUtils.js: whole seconds rendered as
    `Dd HH:MM:SS`, `H:MM:SS` or `M:SS`, and a reader that inverts it. */
module TimeFormat {
  import opened Wrappers

  const SecondsPerDay := 86400
  const SecondsPerHour := 3600
  const SecondsPerMinute := 60

  predicate IsDigit(c: char) { '0' <= c <= '9' }

  predicate AllDigits(s: string) { forall i :: 0 <= i < |s| ==> IsDigit(s[i]) }

  function DigitChar(d: nat): (c: char)
    requires d < 10
    ensures IsDigit(c) && c as int - '0' as int == d
  {
    ('0' as int + d) as char
  }

  /** The decimal numeral of `n`, without leading zeros (`toString`). */
  function Digits(n: nat): (r: string)
    ensures |r| >= 1 && AllDigits(r)
    ensures n < 10 <==> |r| == 1
  {
    if n < 10 then [DigitChar(n)] else Digits(n / 10) + [DigitChar(n % 10)]
  }

  /** `padStart(2, '0')` applied to a numeral. */
  function Pad2(n: nat): (r: string)
    ensures |r| >= 2 && AllDigits(r)
  {
    if n < 10 then ['0'] + Digits(n) else Digits(n)
  }

  /** The value of a string of decimal digits. */
  function ParseDigits(s: string): nat
    requires AllDigits(s)
  {
    if s == [] then 0
    else ParseDigits(s[..|s| - 1]) * 10 + (s[|s| - 1] as int - '0' as int)
  }

  /** The day, hour, minute and second fields `formatTime` prints. */
  function DaysOf(s: nat): nat { s / SecondsPerDay }
  function HoursOf(s: nat): nat { (s % SecondsPerDay) / SecondsPerHour }
  function MinutesOf(s: nat): nat { (s % SecondsPerHour) / SecondsPerMinute }
  function SecsOf(s: nat): nat { s % SecondsPerMinute }

  /** `head:MM:SS` with minutes and seconds padded to two digits. */
  function Clock(head: string, m: nat, sec: nat): string
  {
    head + ":" + Pad2(m) + ":" + Pad2(sec)
  }

  /** `Dd HH`: the day count, then the hours padded to two digits. */
  function DayHead(d: nat, h: nat): string
  {
    Digits(d) + "d " + Pad2(h)
  }

  function FormatTime(s: nat): string
  {
    var days, hours, minutes, secs := DaysOf(s), HoursOf(s), MinutesOf(s), SecsOf(s);
    if days > 0 then Clock(DayHead(days, hours), minutes, secs)
    else if hours > 0 then Clock(Digits(hours), minutes, secs)
    else Digits(minutes) + ":" + Pad2(secs)
  }

  /** The four fields decompose `s` exactly, each below its radix. */
  lemma {:induction false} Decomposition(s: nat)
    ensures s == DaysOf(s) * SecondsPerDay + HoursOf(s) * SecondsPerHour
                 + MinutesOf(s) * SecondsPerMinute + SecsOf(s)
    ensures HoursOf(s) < 24 && MinutesOf(s) < 60 && SecsOf(s) < 60
  {
    var r := s % SecondsPerDay;
    assert s == DaysOf(s) * SecondsPerDay + r;
    assert r == HoursOf(s) * SecondsPerHour + r % SecondsPerHour;
    assert r % SecondsPerHour == s % SecondsPerHour;
  }

  /** The layout `formatTime` picks: days only when there is a whole day,
      hours only when there is a whole hour. */
  lemma {:induction false} LayoutChoice(s: nat)
    ensures s >= SecondsPerDay ==>
      FormatTime(s) == Clock(DayHead(DaysOf(s), HoursOf(s)), MinutesOf(s), SecsOf(s))
    ensures SecondsPerHour <= s < SecondsPerDay ==>
      FormatTime(s) == Clock(Digits(HoursOf(s)), MinutesOf(s), SecsOf(s))
    ensures s < SecondsPerHour ==> FormatTime(s) == Digits(MinutesOf(s)) + ":" + Pad2(SecsOf(s))
  {
  }

  lemma {:induction false} ParseDigitsOfDigits(n: nat)
    ensures ParseDigits(Digits(n)) == n
  {
    if n >= 10 {
      var d := Digits(n);
      assert d[..|d| - 1] == Digits(n / 10);
      ParseDigitsOfDigits(n / 10);
    }
  }

  lemma {:induction false} ParseDigitsLeadingZero(s: string)
    requires AllDigits(s)
    ensures AllDigits(['0'] + s) && ParseDigits(['0'] + s) == ParseDigits(s)
  {
    if s != [] {
      assert (['0'] + s)[..|['0'] + s| - 1] == ['0'] + s[..|s| - 1];
      ParseDigitsLeadingZero(s[..|s| - 1]);
    }
  }

  lemma {:induction false} ParseDigitsOfPad2(n: nat)
    ensures ParseDigits(Pad2(n)) == n
  {
    ParseDigitsOfDigits(n);
    if n < 10 { ParseDigitsLeadingZero(Digits(n)); }
  }

  /** Index of the first `c` in `s`, or `|s|` when there is none. */
  function IndexOf(s: string, c: char): (i: nat)
    ensures i <= |s| && c !in s[..i] && (i < |s| ==> s[i] == c)
  {
    if s == [] then 0 else if s[0] == c then 0 else 1 + IndexOf(s[1..], c)
  }

  /** The pieces of `s` between occurrences of `c` (`String.prototype.split`). */
  function Split(s: string, c: char): (r: seq<string>)
    ensures |r| >= 1
    decreases |s|
  {
    var i := IndexOf(s, c);
    if i == |s| then [s] else [s[..i]] + Split(s[i + 1..], c)
  }

  lemma {:induction false} IndexOfPrefix(a: string, b: string, c: char)
    requires c !in a
    ensures IndexOf(a + [c] + b, c) == |a|
  {
    if a != [] {
      assert (a + [c] + b)[1..] == a[1..] + [c] + b;
      IndexOfPrefix(a[1..], b, c);
    }
  }

  lemma {:induction false} IndexOfAbsent(a: string, c: char)
    requires c !in a
    ensures IndexOf(a, c) == |a|
  {
    if a != [] { IndexOfAbsent(a[1..], c); }
  }

  lemma {:induction false} SplitCons(a: string, b: string, c: char)
    requires c !in a
    ensures Split(a + [c] + b, c) == [a] + Split(b, c)
  {
    IndexOfPrefix(a, b, c);
    var s := a + [c] + b;
    assert s[..|a|] == a;
    assert s[|a| + 1..] == b;
  }

  lemma {:induction false} SplitSingle(a: string, c: char)
    requires c !in a
    ensures Split(a, c) == [a]
  {
    IndexOfAbsent(a, c);
  }

  lemma {:induction false} DigitsFree(s: string, c: char)
    requires AllDigits(s) && !IsDigit(c)
    ensures c !in s
  {
  }

  /** Reads the part before the first colon of a three-field layout: `H`, or
      `Dd HH`; the result is in seconds. */
  function ParseHead(h: string): Option<nat>
  {
    var pieces := Split(h, ' ');
    if |pieces| == 1 && AllDigits(pieces[0]) then
      Some(ParseDigits(pieces[0]) * SecondsPerHour)
    else if |pieces| == 2 && |pieces[0]| >= 1 && pieces[0][|pieces[0]| - 1] == 'd'
            && AllDigits(pieces[0][..|pieces[0]| - 1]) && AllDigits(pieces[1]) then
      Some(ParseDigits(pieces[0][..|pieces[0]| - 1]) * SecondsPerDay
           + ParseDigits(pieces[1]) * SecondsPerHour)
    else None
  }

  /** Reads back a string in one of the three layouts `formatTime` emits. */
  function ParseTime(t: string): Option<nat>
  {
    var parts := Split(t, ':');
    if |parts| == 2 && AllDigits(parts[0]) && AllDigits(parts[1]) then
      Some(ParseDigits(parts[0]) * SecondsPerMinute + ParseDigits(parts[1]))
    else if |parts| == 3 && AllDigits(parts[1]) && AllDigits(parts[2]) && ParseHead(parts[0]).Some? then
      Some(ParseHead(parts[0]).value + ParseDigits(parts[1]) * SecondsPerMinute + ParseDigits(parts[2]))
    else None
  }

  lemma {:induction false} ParseMinutesLayout(m: nat, sec: nat)
    ensures ParseTime(Digits(m) + ":" + Pad2(sec)) == Some(m * SecondsPerMinute + sec)
  {
    ParseDigitsOfPad2(sec);
    DigitsFree(Pad2(sec), ':');
    SplitSingle(Pad2(sec), ':');
    assert Digits(m) + ":" + Pad2(sec) == Digits(m) + [':'] + Pad2(sec);
    DigitsFree(Digits(m), ':');
    SplitCons(Digits(m), Pad2(sec), ':');
    ParseDigitsOfDigits(m);
  }

  /** Splitting `head:MM:SS` at the colons. */
  lemma {:induction false} SplitClock(head: string, m: nat, sec: nat)
    requires ':' !in head
    ensures Split(Clock(head, m, sec), ':') == [head, Pad2(m), Pad2(sec)]
  {
    DigitsFree(Pad2(m), ':');
    DigitsFree(Pad2(sec), ':');
    SplitSingle(Pad2(sec), ':');
    assert head + ":" + Pad2(m) + ":" + Pad2(sec) == head + [':'] + (Pad2(m) + [':'] + Pad2(sec));
    SplitCons(head, Pad2(m) + [':'] + Pad2(sec), ':');
    SplitCons(Pad2(m), Pad2(sec), ':');
  }

  lemma {:induction false} ParseClockLayout(head: string, m: nat, sec: nat)
    requires ':' !in head && ParseHead(head).Some?
    ensures ParseTime(Clock(head, m, sec)) == Some(ParseHead(head).value + m * SecondsPerMinute + sec)
  {
    SplitClock(head, m, sec);
    ParseDigitsOfPad2(m);
    ParseDigitsOfPad2(sec);
  }

  lemma {:induction false} ParseHoursHead(h: nat)
    ensures ParseHead(Digits(h)) == Some(h * SecondsPerHour)
  {
    DigitsFree(Digits(h), ' ');
    SplitSingle(Digits(h), ' ');
    ParseDigitsOfDigits(h);
  }

  lemma {:induction false} SplitDayHead(d: nat, h: nat)
    ensures Split(DayHead(d, h), ' ') == [Digits(d) + ['d'], Pad2(h)]
  {
    var dd := Digits(d) + ['d'];
    assert DayHead(d, h) == dd + [' '] + Pad2(h);
    DigitsFree(Digits(d), ' ');
    DigitsFree(Pad2(h), ' ');
    assert ' ' !in dd;
    SplitCons(dd, Pad2(h), ' ');
    SplitSingle(Pad2(h), ' ');
  }

  lemma {:induction false} ParseDaysHead(d: nat, h: nat)
    ensures ParseHead(DayHead(d, h)) == Some(d * SecondsPerDay + h * SecondsPerHour)
  {
    SplitDayHead(d, h);
    var dd := Digits(d) + ['d'];
    assert dd[..|dd| - 1] == Digits(d);
    ParseDigitsOfDigits(d);
    ParseDigitsOfPad2(h);
  }

  lemma {:induction false} ParseHoursLayout(h: nat, m: nat, sec: nat)
    ensures ParseTime(Clock(Digits(h), m, sec)) == Some(h * SecondsPerHour + m * SecondsPerMinute + sec)
  {
    DigitsFree(Digits(h), ':');
    ParseHoursHead(h);
    ParseClockLayout(Digits(h), m, sec);
  }

  lemma {:induction false} ParseDaysLayout(d: nat, h: nat, m: nat, sec: nat)
    ensures ParseTime(Clock(DayHead(d, h), m, sec)) == Some(d * SecondsPerDay + h * SecondsPerHour + m * SecondsPerMinute + sec)
  {
    DayHeadHasNoColon(d, h);
    ParseDaysHead(d, h);
    ParseClockLayout(DayHead(d, h), m, sec);
  }

  lemma {:induction false} DayHeadHasNoColon(d: nat, h: nat)
    ensures ':' !in DayHead(d, h)
  {
    DigitsFree(Digits(d), ':');
    DigitsFree(Pad2(h), ':');
    assert DayHead(d, h) == Digits(d) + ['d', ' '] + Pad2(h);
  }

  lemma {:induction false} RoundTripDays(s: nat)
    requires s >= SecondsPerDay
    ensures ParseTime(FormatTime(s)) == Some(s)
  {
    LayoutChoice(s);
    Decomposition(s);
    ParseDaysLayout(DaysOf(s), HoursOf(s), MinutesOf(s), SecsOf(s));
  }

  lemma {:induction false} RoundTripHours(s: nat)
    requires SecondsPerHour <= s < SecondsPerDay
    ensures ParseTime(FormatTime(s)) == Some(s)
  {
    LayoutChoice(s);
    Decomposition(s);
    ParseHoursLayout(HoursOf(s), MinutesOf(s), SecsOf(s));
  }

  lemma {:induction false} RoundTripMinutes(s: nat)
    requires s < SecondsPerHour
    ensures ParseTime(FormatTime(s)) == Some(s)
  {
    LayoutChoice(s);
    Decomposition(s);
    ParseMinutesLayout(MinutesOf(s), SecsOf(s));
  }

  /** `formatTime` loses nothing: its text determines the number of seconds. */
  lemma {:induction false} FormatTimeRoundTrip(s: nat)
    ensures ParseTime(FormatTime(s)) == Some(s)
  {
    if s >= SecondsPerDay {
      RoundTripDays(s);
    } else if s >= SecondsPerHour {
      RoundTripHours(s);
    } else {
      RoundTripMinutes(s);
    }
  }

  /** Two different durations never print the same. */
  lemma {:induction false} FormatTimeInjective(a: nat, b: nat)
    requires FormatTime(a) == FormatTime(b)
    ensures a == b
  {
    FormatTimeRoundTrip(a);
    FormatTimeRoundTrip(b);
  }

  /** Worked examples of the three layouts. */
  lemma {:induction false} FormatDayExample()
    ensures FormatTime(90061) == "1d 01:01:01"
  {
  }

  lemma {:induction false} FormatHourExample()
    ensures FormatTime(3600) == "1:00:00"
  {
  }

  lemma {:induction false} FormatMinuteExamples()
    ensures FormatTime(59) == "0:59"
    ensures FormatTime(60) == "1:00"
  {
    assert Digits(59) == "59";
  }
}
