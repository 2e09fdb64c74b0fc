/** The person directory of src/components/PersonDirectory.jsx: the list of
    tracked persons, the timer buttons acting on it, the user and session
    dialogs' save handlers, drag-and-drop reordering, and the search box.
    Wall-clock time and fresh `Date.now()` ids are parameters, and the
    answer to each `window.confirm` is a boolean input. */
module Directory {
  import opened Wrappers
  import opened Sessions
  import Seqs

  /** The toggle button on one person: stop if running, else start. */
  function Toggle(p: Person, now: int, id: int): Person
  {
    if p.isRunning then StopSession(p, now, id) else StartSession(p, now)
  }

  /** `handleToggleTimer`'s map: every person with id `pid` is toggled, the
      others are kept. */
  function Toggled(ps: seq<Person>, pid: int, now: int, id: int): (r: seq<Person>)
    ensures |r| == |ps|
    ensures forall i :: 0 <= i < |r| && ps[i].id != pid ==> r[i] == ps[i]
  {
    seq(|ps|, i requires 0 <= i < |ps| => if ps[i].id == pid then Toggle(ps[i], now, id) else ps[i])
  }

  /** `handleStopAllTimers`' map: every running person is stopped. */
  function StoppedAll(ps: seq<Person>, now: int, id: int): (r: seq<Person>)
    ensures |r| == |ps|
    ensures forall i :: 0 <= i < |r| && !ps[i].isRunning ==> r[i] == ps[i]
  {
    seq(|ps|, i requires 0 <= i < |ps| => if ps[i].isRunning then StopSession(ps[i], now, id) else ps[i])
  }

  /** `handleResetAllTimers`' map. */
  function ResetAll(ps: seq<Person>): (r: seq<Person>)
    ensures |r| == |ps|
    ensures forall i :: 0 <= i < |r| ==> r[i].id == ps[i].id && r[i].name == ps[i].name
  {
    seq(|ps|, i requires 0 <= i < |ps| => ResetPersonSessions(ps[i]))
  }

  /** `persons.find(p => p.id === pid)`. */
  function FindPerson(ps: seq<Person>, pid: int): (r: Option<Person>)
    ensures r.Some? ==> r.value in ps && r.value.id == pid
    ensures r.None? <==> forall p :: p in ps ==> p.id != pid
  {
    if ps == [] then None
    else if ps[0].id == pid then Some(ps[0])
    else
      assert forall p :: p in ps[1..] ==> p in ps;
      FindPerson(ps[1..], pid)
  }

  /** What the user dialog saves: name and appearance. */
  datatype UserData = UserData(name: string, look: Look)

  /** The record `handleSaveUser` creates: no sessions, not running. */
  function NewPerson(userData: UserData, freshId: int): (p: Person)
    ensures p.id == freshId && p.name == userData.name && p.look == userData.look
    ensures p.sessions == Some([]) && !p.isRunning && p.currentSessionStart.None?
  {
    Person(freshId, userData.name, userData.look, Some([]), false, None, 0)
  }

  /** Edit: the dialog's fields are merged onto every person with id `pid`. */
  function Merged(ps: seq<Person>, pid: int, userData: UserData): (r: seq<Person>)
    ensures |r| == |ps|
    ensures forall i :: 0 <= i < |r| ==>
      if ps[i].id == pid then r[i] == ps[i].(name := userData.name, look := userData.look) else r[i] == ps[i]
  {
    seq(|ps|, i requires 0 <= i < |ps| =>
      if ps[i].id == pid then ps[i].(name := userData.name, look := userData.look) else ps[i])
  }

  /** `handleSaveSessions`' map: the person with the updated record's id is
      replaced by it. */
  function Replaced(ps: seq<Person>, updated: Person): (r: seq<Person>)
    ensures |r| == |ps|
    ensures forall i :: 0 <= i < |r| ==> r[i] == if ps[i].id == updated.id then updated else ps[i]
  {
    seq(|ps|, i requires 0 <= i < |ps| => if ps[i].id == updated.id then updated else ps[i])
  }

  /** `handleDeletePerson`'s filter. */
  function Without(ps: seq<Person>, pid: int): (r: seq<Person>)
    ensures forall p :: p in r <==> p in ps && p.id != pid
  {
    Seqs.Filter(ps, (p: Person) => p.id != pid)
  }

  /** `splice(i, 1)`. */
  function RemoveAt<T>(s: seq<T>, i: nat): (r: seq<T>)
    requires i < |s|
    ensures |r| == |s| - 1
    ensures forall j :: 0 <= j < |r| ==> r[j] == if j < i then s[j] else s[j + 1]
    ensures multiset(r) + multiset{s[i]} == multiset(s)
  {
    assert s == s[..i] + [s[i]] + s[i + 1..];
    s[..i] + s[i + 1..]
  }

  /** `splice(i, 0, x)`. */
  function InsertAt<T>(s: seq<T>, i: nat, x: T): (r: seq<T>)
    requires i <= |s|
    ensures |r| == |s| + 1
    ensures r[i] == x
    ensures forall j :: 0 <= j < |s| ==> s[j] == if j < i then r[j] else r[j + 1]
    ensures multiset(r) == multiset(s) + multiset{x}
  {
    assert s == s[..i] + s[i..];
    s[..i] + [x] + s[i..]
  }

  /** Removing what was just inserted gives the list back. */
  lemma {:induction false} RemoveInserted<T>(s: seq<T>, i: nat, x: T)
    requires i <= |s|
    ensures RemoveAt(InsertAt(s, i, x), i) == s
  {
    var r := RemoveAt(InsertAt(s, i, x), i);
    assert forall j :: 0 <= j < |s| ==> r[j] == s[j];
  }

  /** Where the dragged item is put back once removed. */
  function InsertIndex(from: nat, to: nat): nat
  {
    if from < to then to - 1 else to
  }

  /** The reorder: the item at `from` is removed, then inserted at
      `InsertIndex(from, to)`. */
  function Moved<T>(s: seq<T>, from: nat, to: nat): seq<T>
    requires from < |s| && to < |s|
  {
    InsertAt(RemoveAt(s, from), InsertIndex(from, to), s[from])
  }

  /** The reorder is a permutation of the same length; the moved item lands
      immediately before the item it was dropped on; and removing the moved
      item from the old and the new order gives the same list, so every
      other item keeps its relative order. */
  lemma {:induction false} MovedPermutes<T>(s: seq<T>, from: nat, to: nat)
    requires from < |s| && to < |s| && from != to
    ensures var r, k := Moved(s, from, to), InsertIndex(from, to);
      && |r| == |s|
      && multiset(r) == multiset(s)
      && r[k] == s[from]
      && r[k + 1] == s[to]
      && RemoveAt(r, k) == RemoveAt(s, from)
  {
    var rest, k := RemoveAt(s, from), InsertIndex(from, to);
    RemoveInserted(rest, k, s[from]);
    assert rest[k] == s[to];
  }

  /** Dropping an item on the card just below it changes nothing. */
  lemma {:induction false} DropOnNextKeepsOrder<T>(s: seq<T>, i: nat)
    requires i + 1 < |s|
    ensures Moved(s, i, i + 1) == s
  {
    assert s == s[..i] + [s[i]] + s[i + 1..];
  }

  /** ASCII lower-casing of one character. */
  function LowerChar(c: char): char
  {
    if 'A' <= c <= 'Z' then (c as int + 32) as char else c
  }

  function Lower(s: string): string
  {
    seq(|s|, i requires 0 <= i < |s| => LowerChar(s[i]))
  }

  /** `s.includes(t)`: `t` occurs in `s` at some position. */
  function Contains(s: string, t: string): bool
  {
    t <= s || (s != [] && Contains(s[1..], t))
  }

  /** `t` occurs in `s` starting at position `i`. */
  predicate OccursAt(s: string, t: string, i: int)
  {
    0 <= i <= |s| - |t| && s[i..i + |t|] == t
  }

  lemma {:induction false} ContainsWitness(s: string, t: string) returns (i: int)
    requires Contains(s, t)
    ensures OccursAt(s, t, i)
    decreases |s|
  {
    if t <= s {
      i := 0;
      assert s[0..|t|] == s[..|t|];
    } else {
      var j := ContainsWitness(s[1..], t);
      i := j + 1;
      assert s[i..i + |t|] == s[1..][j..j + |t|];
    }
  }

  lemma {:induction false} OccursContains(s: string, t: string, i: int)
    requires OccursAt(s, t, i)
    ensures Contains(s, t)
    decreases i
  {
    if i == 0 {
      assert s[..|t|] == s[0..|t|];
    } else {
      assert s[1..][i - 1..i - 1 + |t|] == s[i..i + |t|];
      OccursContains(s[1..], t, i - 1);
    }
  }

  /** `includes` finds `t` exactly when it occurs at some position. */
  lemma {:induction false} ContainsMeans(s: string, t: string)
    ensures Contains(s, t) <==> exists i :: OccursAt(s, t, i)
  {
    if Contains(s, t) {
      var i := ContainsWitness(s, t);
    }
    forall i | OccursAt(s, t, i) ensures Contains(s, t) {
      OccursContains(s, t, i);
    }
  }

  /** The search filter's test: the lower-cased name contains the
      lower-cased term. */
  predicate Matches(p: Person, term: string)
  {
    Contains(Lower(p.name), Lower(term))
  }

  /** `filteredPersons`. */
  function Filtered(ps: seq<Person>, term: string): (r: seq<Person>)
    ensures |r| <= |ps|
    ensures forall p :: p in r <==> p in ps && Matches(p, term)
  {
    Seqs.Filter(ps, (p: Person) => Matches(p, term))
  }

  /** An empty search keeps every person, in order. */
  lemma {:induction false} EmptySearchKeepsAll(ps: seq<Person>)
    ensures Filtered(ps, "") == ps
  {
    forall i | 0 <= i < |ps| ensures Matches(ps[i], "") {
      assert Lower("") == [];
      assert [] <= Lower(ps[i].name);
    }
    Seqs.FilterKeepsAll(ps, (p: Person) => Matches(p, ""));
  }

  lemma {:induction false} LowerIdempotent(s: string)
    ensures Lower(Lower(s)) == Lower(s)
  {
  }

  /** The search ignores the case of the term: an upper-case term finds the
      same persons as its lower-case form. */
  lemma {:induction false} SearchIgnoresCase(ps: seq<Person>, term: string)
    ensures Filtered(ps, Lower(term)) == Filtered(ps, term)
  {
    LowerIdempotent(term);
    Seqs.FilterSameTest(ps, (p: Person) => Matches(p, Lower(term)), (p: Person) => Matches(p, term));
  }

  predicate Running(p: Person) { p.isRunning }

  /** `runningCount`, counted one person at a time: the length of the list
      of running persons. */
  function CountRunning(ps: seq<Person>): (r: nat)
    ensures r <= |ps|
    ensures r == |Seqs.Filter(ps, Running)|
  {
    if ps == [] then 0 else CountRunning(ps[..|ps| - 1]) + (if ps[|ps| - 1].isRunning then 1 else 0)
  }

  /** `totalTime`: the sum of every person's `calculateTotalTime`. */
  function SumTotals(ps: seq<Person>, now: int): (r: int)
    ensures (forall i :: 0 <= i < |ps| ==> TotalTime(ps[i], now) >= 0) ==> r >= 0
  {
    if ps == [] then 0
    else
      assert forall i :: 0 <= i < |ps| - 1 ==> ps[..|ps| - 1][i] == ps[i];
      SumTotals(ps[..|ps| - 1], now) + TotalTime(ps[|ps| - 1], now)
  }

  /** No one is running exactly when the running count is zero. */
  lemma {:induction false} CountRunningZero(ps: seq<Person>)
    ensures CountRunning(ps) == 0 <==> forall i :: 0 <= i < |ps| ==> !ps[i].isRunning
  {
    if ps != [] {
      var init := ps[..|ps| - 1];
      CountRunningZero(init);
      assert forall i :: 0 <= i < |init| ==> init[i] == ps[i];
    }
  }

  /** Lists with the same totals position by position have the same sum. */
  lemma {:induction false} SumTotalsPointwise(ps: seq<Person>, qs: seq<Person>, now: int)
    requires |ps| == |qs|
    requires forall i :: 0 <= i < |ps| ==> TotalTime(ps[i], now) == TotalTime(qs[i], now)
    ensures SumTotals(ps, now) == SumTotals(qs, now)
  {
    if ps != [] {
      var n := |ps| - 1;
      assert forall i :: 0 <= i < n ==> ps[..n][i] == ps[i] && qs[..n][i] == qs[i];
      SumTotalsPointwise(ps[..n], qs[..n], now);
    }
  }

  /** The records every directory operation keeps well formed: running
      exactly when a start time is set, and no legacy figure hiding a
      session list that stopping would create. */
  predicate WellFormed(ps: seq<Person>)
  {
    forall i :: 0 <= i < |ps| ==> Consistent(ps[i]) && (ps[i].sessions.Some? || ps[i].legacyTotal == 0)
  }

  /** A toggle flips the timer of every matching person and keeps records
      well formed; it does not change the directory's total at the instant
      of the click. */
  lemma {:induction false} ToggleKeepsTotal(ps: seq<Person>, pid: int, now: int, id: int)
    requires WellFormed(ps) && now != 0
    ensures var r := Toggled(ps, pid, now, id);
      && WellFormed(r)
      && (forall i :: 0 <= i < |r| ==> r[i].id == ps[i].id)
      && (forall i :: 0 <= i < |r| && ps[i].id == pid ==> r[i].isRunning == !ps[i].isRunning)
      && SumTotals(r, now) == SumTotals(ps, now)
  {
    var r := Toggled(ps, pid, now, id);
    forall i | 0 <= i < |ps|
      ensures TotalTime(r[i], now) == TotalTime(ps[i], now)
      ensures Consistent(r[i]) && (r[i].sessions.Some? || r[i].legacyTotal == 0)
      ensures r[i].id == ps[i].id
      ensures ps[i].id == pid ==> r[i].isRunning == !ps[i].isRunning
    {
      TimerTransitions(ps[i], now, id);
      StopKeepsTotal(ps[i], now, id);
    }
    SumTotalsPointwise(r, ps, now);
  }

  /** Stop-all leaves no one running and keeps the directory's total at
      that instant. */
  lemma {:induction false} StopAllKeepsTotal(ps: seq<Person>, now: int, id: int)
    requires WellFormed(ps) && now != 0
    ensures var r := StoppedAll(ps, now, id);
      && WellFormed(r)
      && CountRunning(r) == 0
      && SumTotals(r, now) == SumTotals(ps, now)
  {
    var r := StoppedAll(ps, now, id);
    forall i | 0 <= i < |ps|
      ensures TotalTime(r[i], now) == TotalTime(ps[i], now)
      ensures Consistent(r[i]) && (r[i].sessions.Some? || r[i].legacyTotal == 0)
      ensures !r[i].isRunning
    {
      TimerTransitions(ps[i], now, id);
      StopKeepsTotal(ps[i], now, id);
    }
    SumTotalsPointwise(r, ps, now);
    CountRunningZero(r);
  }

  /** After reset-all no one is running and every total is zero. */
  lemma {:induction false} ResetAllZeroes(ps: seq<Person>, now: int)
    ensures var r := ResetAll(ps);
      && WellFormed(r)
      && CountRunning(r) == 0
      && SumTotals(r, now) == 0
  {
    var r := ResetAll(ps);
    CountRunningZero(r);
    SumTotalsZero(r, now);
  }

  lemma {:induction false} SumTotalsZero(ps: seq<Person>, now: int)
    requires forall i :: 0 <= i < |ps| ==> TotalTime(ps[i], now) == 0
    ensures SumTotals(ps, now) == 0
  {
    if ps != [] {
      var n := |ps| - 1;
      assert forall i :: 0 <= i < n ==> ps[..n][i] == ps[i];
      SumTotalsZero(ps[..n], now);
    }
  }

  /** The two splices on a copy of the card list. */
  method Reorder(cards: seq<Person>, from: nat, to: nat) returns (newPersons: seq<Person>)
    requires from < |cards| && to < |cards|
    ensures newPersons == Moved(cards, from, to)
  {
    newPersons := cards;
    var draggedPerson := newPersons[from];
    newPersons := RemoveAt(newPersons, from);
    var insertIndex := InsertIndex(from, to);
    newPersons := InsertAt(newPersons, insertIndex, draggedPerson);
  }

  /** The directory screen. `draggedItem` and `dragOverIndex` are card
      indices in the filtered list. */
  class PersonDirectory {
    var persons: seq<Person>
    var searchTerm: string
    var userToEdit: Option<Person>
    var draggedItem: Option<nat>
    var dragOverIndex: Option<nat>
    var isTouchDragging: bool

    /** Everything but the person list. */
    function UiState(): (string, Option<Person>, Option<nat>, Option<nat>, bool)
      reads this
    {
      (searchTerm, userToEdit, draggedItem, dragOverIndex, isTouchDragging)
    }

    constructor (initial: seq<Person>)
      ensures persons == initial && searchTerm == [] && userToEdit.None?
      ensures draggedItem.None? && dragOverIndex.None? && !isTouchDragging
    {
      persons := initial;
      searchTerm := [];
      userToEdit := None;
      draggedItem := None;
      dragOverIndex := None;
      isTouchDragging := false;
    }

    method ToggleTimer(pid: int, now: int, id: int)
      modifies this
      ensures persons == Toggled(old(persons), pid, now, id) && UiState() == old(UiState())
    {
      persons := Toggled(persons, pid, now, id);
    }

    /** Returns how many timers were running (the count the notice shows);
        with none running nothing changes. */
    method StopAllTimers(now: int, id: int) returns (runningCount: nat)
      modifies this
      ensures runningCount == CountRunning(old(persons))
      ensures persons == if runningCount == 0 then old(persons) else StoppedAll(old(persons), now, id)
      ensures UiState() == old(UiState())
    {
      runningCount := CountRunning(persons);
      if runningCount == 0 {
        return;
      }
      persons := StoppedAll(persons, now, id);
    }

    method ResetAllTimers(confirmed: bool)
      modifies this
      ensures persons == if confirmed then ResetAll(old(persons)) else old(persons)
      ensures UiState() == old(UiState())
    {
      if confirmed {
        persons := ResetAll(persons);
      }
    }

    /** The "add person" button: the dialog opens with no user. */
    method AddPerson()
      modifies this
      ensures userToEdit.None? && persons == old(persons)
      ensures searchTerm == old(searchTerm) && draggedItem == old(draggedItem)
      ensures dragOverIndex == old(dragOverIndex) && isTouchDragging == old(isTouchDragging)
    {
      userToEdit := None;
    }

    /** The edit button: the dialog opens on the first person with the id. */
    method EditUser(userId: int)
      modifies this
      ensures userToEdit == FindPerson(persons, userId) && persons == old(persons)
      ensures searchTerm == old(searchTerm) && draggedItem == old(draggedItem)
      ensures dragOverIndex == old(dragOverIndex) && isTouchDragging == old(isTouchDragging)
    {
      userToEdit := FindPerson(persons, userId);
    }

    /** `handleSaveUser`: an edit merges the dialog's fields onto the person
        being edited; otherwise exactly one new person is appended. */
    method SaveUser(userData: UserData, freshId: int)
      modifies this
      ensures userToEdit.Some? ==> persons == Merged(old(persons), userToEdit.value.id, userData)
      ensures userToEdit.None? ==> persons == old(persons) + [NewPerson(userData, freshId)]
      ensures UiState() == old(UiState())
    {
      if userToEdit.Some? {
        persons := Merged(persons, userToEdit.value.id, userData);
      } else {
        var newPerson := NewPerson(userData, freshId);
        persons := persons + [newPerson];
      }
    }

    method SaveSessions(updatedUser: Person)
      modifies this
      ensures persons == Replaced(old(persons), updatedUser) && UiState() == old(UiState())
    {
      persons := Replaced(persons, updatedUser);
    }

    /** `handleDeletePerson`: only an existing person, and only once
        confirmed, is removed, with every other record of the same id. */
    method DeletePerson(pid: int, confirmed: bool) returns (deleted: bool)
      modifies this
      ensures deleted <==> confirmed && exists p :: p in old(persons) && p.id == pid
      ensures persons == if deleted then Without(old(persons), pid) else old(persons)
      ensures UiState() == old(UiState())
    {
      var person := FindPerson(persons, pid);
      deleted := person.Some? && confirmed;
      if deleted {
        persons := Without(persons, pid);
      }
    }

    method SetSearchTerm(term: string)
      modifies this
      ensures searchTerm == term && persons == old(persons) && userToEdit == old(userToEdit)
      ensures draggedItem == old(draggedItem) && dragOverIndex == old(dragOverIndex)
      ensures isTouchDragging == old(isTouchDragging)
    {
      searchTerm := term;
    }

    method DragStart(index: nat)
      modifies this
      ensures draggedItem == Some(index) && persons == old(persons) && searchTerm == old(searchTerm)
      ensures dragOverIndex == old(dragOverIndex) && isTouchDragging == old(isTouchDragging)
      ensures userToEdit == old(userToEdit)
    {
      draggedItem := Some(index);
    }

    /** Entering another card than the dragged one marks it as the target. */
    method DragEnter(index: nat)
      modifies this
      ensures dragOverIndex == if draggedItem.Some? && draggedItem != Some(index) then Some(index) else old(dragOverIndex)
      ensures persons == old(persons) && searchTerm == old(searchTerm) && draggedItem == old(draggedItem)
      ensures isTouchDragging == old(isTouchDragging) && userToEdit == old(userToEdit)
    {
      if draggedItem.Some? && draggedItem != Some(index) {
        dragOverIndex := Some(index);
      }
    }

    method DragEnd()
      modifies this
      ensures draggedItem.None? && dragOverIndex.None?
      ensures persons == old(persons) && searchTerm == old(searchTerm)
      ensures isTouchDragging == old(isTouchDragging) && userToEdit == old(userToEdit)
    {
      draggedItem := None;
      dragOverIndex := None;
    }

    /** `handleDrop` on the card at `dropIndex`: nothing moves when no card
        is dragged or it is dropped on itself; otherwise the filtered list is
        reordered, and the new order is kept only when no search is set. The
        target mark is cleared in every case. */
    method Drop(dropIndex: nat) returns (applied: bool)
      requires dropIndex < |Filtered(persons, searchTerm)|
      requires draggedItem.Some? ==> draggedItem.value < |Filtered(persons, searchTerm)|
      modifies this
      ensures applied <==> old(draggedItem).Some? && old(draggedItem).value != dropIndex && old(searchTerm) == []
      ensures applied ==> persons == Moved(Filtered(old(persons), old(searchTerm)), old(draggedItem).value, dropIndex)
      ensures !applied ==> persons == old(persons)
      ensures dragOverIndex.None?
      ensures draggedItem == old(draggedItem) && searchTerm == old(searchTerm)
      ensures isTouchDragging == old(isTouchDragging) && userToEdit == old(userToEdit)
    {
      applied := false;
      if draggedItem.None? || draggedItem.value == dropIndex {
        dragOverIndex := None;
        return;
      }
      var from := draggedItem.value;
      var newPersons := Reorder(Filtered(persons, searchTerm), from, dropIndex);
      if searchTerm == [] {
        persons := newPersons;
        applied := true;
      }
      dragOverIndex := None;
    }

    /** A touch starts a drag on its card, unless a search is set. */
    method TouchStart(index: nat)
      modifies this
      ensures searchTerm != [] ==> UiState() == old(UiState())
      ensures searchTerm == [] ==> draggedItem == Some(index) && !isTouchDragging && dragOverIndex == old(dragOverIndex)
      ensures persons == old(persons) && searchTerm == old(searchTerm) && userToEdit == old(userToEdit)
    {
      if searchTerm != [] {
        return;
      }
      draggedItem := Some(index);
      isTouchDragging := false;
    }

    /** A touch move; `farEnough` is the finger having moved more than ten
        pixels and `target` the card under it. */
    method TouchMove(farEnough: bool, target: Option<nat>)
      modifies this
      ensures searchTerm != [] || draggedItem.None? || !farEnough ==> UiState() == old(UiState())
      ensures searchTerm == [] && draggedItem.Some? && farEnough ==>
        && isTouchDragging
        && dragOverIndex == (if target.Some? && target != draggedItem then target else old(dragOverIndex))
        && draggedItem == old(draggedItem)
      ensures persons == old(persons) && searchTerm == old(searchTerm) && userToEdit == old(userToEdit)
    {
      if searchTerm != [] || draggedItem.None? {
        return;
      }
      if farEnough {
        isTouchDragging := true;
        if target.Some? && target != draggedItem {
          dragOverIndex := target;
        }
      }
    }

    /** `handleTouchEnd`: with no search set, a real drag onto another card
        reorders the list; the drag state is then cleared. */
    method TouchEnd() returns (applied: bool)
      requires draggedItem.Some? ==> draggedItem.value < |Filtered(persons, searchTerm)|
      requires dragOverIndex.Some? ==> dragOverIndex.value < |Filtered(persons, searchTerm)|
      modifies this
      ensures searchTerm != [] ==> !applied && UiState() == old(UiState()) && persons == old(persons)
      ensures applied <==> (searchTerm == [] && old(isTouchDragging) && old(draggedItem).Some?
        && old(dragOverIndex).Some? && old(draggedItem) != old(dragOverIndex))
      ensures applied ==> persons == Moved(Filtered(old(persons), old(searchTerm)), old(draggedItem).value, old(dragOverIndex).value)
      ensures !applied ==> persons == old(persons)
      ensures searchTerm == [] ==> draggedItem.None? && dragOverIndex.None? && !isTouchDragging
      ensures searchTerm == old(searchTerm) && userToEdit == old(userToEdit)
    {
      applied := false;
      if searchTerm != [] {
        return;
      }
      if isTouchDragging && draggedItem.Some? && dragOverIndex.Some? && draggedItem != dragOverIndex {
        var from, to := draggedItem.value, dragOverIndex.value;
        persons := Reorder(Filtered(persons, searchTerm), from, to);
        applied := true;
      }
      draggedItem := None;
      dragOverIndex := None;
      isTouchDragging := false;
    }

    /** `runningCount`: zero exactly when no timer runs. */
    function RunningCount(): (r: nat)
      reads this
      ensures r <= |persons|
      ensures r == 0 <==> forall i :: 0 <= i < |persons| ==> !persons[i].isRunning
    {
      CountRunningZero(persons);
      CountRunning(persons)
    }

    /** `totalTime` at time `now`. */
    function TotalTimeAt(now: int): (r: int)
      reads this
      ensures (forall i :: 0 <= i < |persons| ==> TotalTime(persons[i], now) >= 0) ==> r >= 0
    {
      SumTotals(persons, now)
    }
  }
}
