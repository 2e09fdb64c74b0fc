# Time Hogger, modelled in Dafny

Time Hogger is a browser time tracker. It keeps a directory of persons. Each
person has a start/stop timer and a list of recorded sessions. This project
models the core of that program:

- the session arithmetic of `src/utils/dataUtils.js`: formatting a number
  of seconds, the total time, starting, stopping and resetting a timer, and
  choosing the chart unit;
- the timeline of `src/components/TimelineChart.jsx`:
  - collecting every session into one list, sorted by start time;
  - the time-range window;
  - the cumulative and daily charts;
  - the leaderboard;
  - the rank and medal beside each name;
  - the per-view time-range selector;
- the session editor of `src/components/SessionEditModal.jsx`, as a class
  holding the working list of sessions and the draft of a new session;
- the directory of `src/components/PersonDirectory.jsx`, as a class holding
  the persons, the search term and the drag/touch reordering state;
- the statistics panel of `src/components/Statistics.jsx`.

The clock is never read. `Date.now()` becomes a parameter `now` (in
milliseconds), and a fresh `Date.now()` id becomes a parameter `id`. The
local calendar (midnight, `toDateString`) becomes a `Calendar` value. That
value is constrained by `ValidCalendar`: days are consecutive intervals of
time.

JavaScript truthiness is written out. A timestamp `t` counts as set when it
is present and non-zero (`IsSet`), and `a || b` on timestamps is `Either`.
`Math.floor` of a difference in milliseconds divided by 1000 is `Elapsed`,
which is floor division and is correct for negative differences too.
`Array.prototype.sort` is stable, so it is modelled as a stable insertion
sort (`Seqs.SortBy`). Comparators `b - a` become a negated key.

Modules:

| file | module | source |
|---|---|---|
| wrappers.dfy | `Wrappers` | `Option` |
| seqs.dfy | `Seqs` | `filter` and the stable `sort` |
| sessions.dfy | `Sessions` | `src/utils/dataUtils.js` |
| time_format.dfy | `TimeFormat` | `formatTime` |
| timeline.dfy | `Timeline` | the timeline memo of `TimelineChart.jsx` |
| cumulative.dfy | `Cumulative` | the cumulative view |
| daily.dfy | `Daily` | the daily view |
| leaderboard.dfy | `Leaderboard` | the leaderboard memo |
| gantt.dfy | `Gantt` | rank and medal |
| view_state.dfy | `ViewState` | the view and time-range state |
| session_editor.dfy | `SessionEditor` | `SessionEditModal.jsx` |
| directory.dfy | `Directory` | `PersonDirectory.jsx` |
| statistics.dfy | `Statistics` | `Statistics.jsx` |

## Model

| member | source | states |
|---|---|---|
| Sessions.Either | src/components/TimelineChart.jsx:348-349 | `a \|\| b` on timestamps: `a` when it is set (present and non-zero), otherwise `b` |
| Sessions.Elapsed | src/utils/dataUtils.js:206 | whole seconds elapsed, rounded down: `r*1000 <= now-from < r*1000+1000`, and never negative when `from <= now` |
| Sessions.CalculateTotalTime | src/utils/dataUtils.js:193-215 | the loop's total is `TotalTime`: the stored durations, plus the open interval while a start time is set, except that a person without a session list reports the legacy total when that total is non-zero |
| Sessions.CurrentSessionTime | src/utils/dataUtils.js:218-225 | 0 unless running with a set start time; otherwise the whole seconds since the start |
| Sessions.StartSession | src/utils/dataUtils.js:228-236 | a running person is returned unchanged; otherwise the person becomes running from `now`, with every other field kept |
| Sessions.StopSession | src/utils/dataUtils.js:239-258 | not running, or no start time: unchanged; otherwise exactly one closed session is appended after the old ones, the timer is cleared, and nothing else changes |
| Sessions.ResetPersonSessions | src/utils/dataUtils.js:261-268 | empty session list, stopped, no start time, every other field kept |
| Sessions.TimerTransitions | src/utils/dataUtils.js:228-268 | start/stop/reset keep the running flag and start time in agreement; the resulting timer state; a stop adds a session exactly when the timer was running |
| Sessions.StopKeepsTotal | src/utils/dataUtils.js:193-215 | for a person with a session list (or no legacy figure), stopping at `now` leaves the total at `now` unchanged: the open interval becomes a stored session of the same length |
| Sessions.StopDropsLegacyTotal | src/utils/dataUtils.js:209-212 | a running legacy record reports its legacy figure; once stopped it reports only the new session's seconds, so the legacy figure is lost |
| Sessions.ResetZeroesTotal | src/utils/dataUtils.js:261-268 | after a reset the total is 0 |
| Sessions.StartThenStop | src/utils/dataUtils.js:228-258 | for a stopped person with a session list (or no legacy figure), start at t1 then stop at t2 appends one session of non-negative duration, and the total grows by exactly that duration |
| Sessions.TotalTimeMonotone | src/utils/dataUtils.js:204-207 | the total never decreases as the clock advances |
| Sessions.TotalTimeTicks | src/utils/dataUtils.js:204-207 | while a timer is open on a person with a session list (or no legacy figure), the total grows by one for every 1000 ms |
| Sessions.MaxTotal | src/utils/dataUtils.js:47 | the largest total of a non-empty list: it bounds every total and is attained |
| Sessions.BestUnit | src/utils/dataUtils.js:46-65 | days exactly when some total reaches 86400 seconds, hours otherwise (also for an empty list) |
| Sessions.ChartColor | src/components/TimelineChart.jsx:435 | `person.color \|\| '#9CA3AF'`: the person's colour when set, grey otherwise; never empty |
| TimeFormat.Decomposition | src/utils/dataUtils.js:3-6 | days, hours, minutes and seconds recompose the input; hours < 24, minutes < 60, seconds < 60 |
| TimeFormat.LayoutChoice | src/utils/dataUtils.js:8-13 | the three layouts `Nd HH:MM:SS`, `H:MM:SS` and `M:SS`, chosen by whether days, then hours, are positive |
| TimeFormat.FormatTimeRoundTrip | src/utils/dataUtils.js:2-14 | parsing the formatted text gives back the number of seconds |
| TimeFormat.FormatTimeInjective | src/utils/dataUtils.js:2-14 | two different durations never print the same |
| TimeFormat.FormatDayExample | src/utils/dataUtils.js:8-9 | 90061 seconds prints as `1d 01:01:01` |
| TimeFormat.FormatHourExample | src/utils/dataUtils.js:10-11 | 3600 seconds prints as `1:00:00` |
| TimeFormat.FormatMinuteExamples | src/utils/dataUtils.js:13 | 59 prints as `0:59` and 60 as `1:00` |
| Timeline.SessionEntries | src/components/TimelineChart.jsx:342-354 | one entry per stored session, in order, with `start \|\| startTime` and `end \|\| endTime` |
| Timeline.PushPerson | src/components/TimelineChart.jsx:340-367 | one person's stored sessions and then the open session are appended to the list |
| Timeline.CollectSessions | src/components/TimelineChart.jsx:330-371 | the loop builds exactly the unified timeline of the persons that have sessions or are running |
| Timeline.PushedCount | src/components/TimelineChart.jsx:340-367 | the list holds one entry per stored session plus one per open timer |
| Timeline.PushedEntries | src/components/TimelineChart.jsx:357-366 | every open entry ends at `now` and lasts the elapsed whole seconds; every entry belongs to a listed person |
| Timeline.UnifiedTimelineShape | src/components/TimelineChart.jsx:330-371 | the timeline is sorted by start time, has the stored+open count of the persons with sessions, and is a permutation of the pushed entries |
| Timeline.OfPerson | src/components/TimelineChart.jsx:414 | the entries of one person, and only those |
| Timeline.DayOfWithin | src/components/TimelineChart.jsx:379-385 | a time between the start of day d and the start of day d+1 belongs to day d |
| Timeline.DayOfMonotone | src/components/TimelineChart.jsx:451 | later times never fall on earlier days |
| Timeline.Bounds | src/components/TimelineChart.jsx:374-398 | 7d and 30d end at `now` and span exactly 7 and 30 days; "all" starts at the first entry and ends at `now` (24h: `Timeline.TodayCoversNow`) |
| Timeline.TimelineData | src/components/TimelineChart.jsx:335-407 | nothing when no one has sessions, or when no entry falls in the window; otherwise the window of the sorted timeline with its start and end dates |
| Timeline.WindowKeepsExactly | src/components/TimelineChart.jsx:373-406 | the window keeps exactly the entries starting at or after the start date, still sorted; it is empty exactly when every entry starts earlier |
| Timeline.AllRangeKeepsEverything | src/components/TimelineChart.jsx:395-397 | the "all" range keeps the whole timeline and starts at its first entry |
| Timeline.TodayCoversNow | src/components/TimelineChart.jsx:377-386 | the 24h range runs from the start to the end of the current day, and `now` lies in it |
| Cumulative.Steps | src/components/TimelineChart.jsx:420-427 | two points per session (their positions and levels are stated by `StepsAt`) |
| Cumulative.CumulativeSeries | src/components/TimelineChart.jsx:413-441 | the series carries the person's id, name and chart colour; the loop builds the staircase: 0 at the start date, the running total before and after each session, and the final total at the end date |
| Cumulative.CumulativeChart | src/components/TimelineChart.jsx:411-444 | one series per person with sessions, in directory order, each in the person's chart colour and the staircase of that person's window entries |
| Cumulative.StepsAt | src/components/TimelineChart.jsx:420-427 | point 2j is session j's start at the total of the sessions before it; point 2j+1 is its end at the total including it |
| Cumulative.StaircaseLevel | src/components/TimelineChart.jsx:417-430 | the staircase has 2n+2 points; point i is at the total of the first i/2 sessions |
| Cumulative.StaircaseRises | src/components/TimelineChart.jsx:413-431 | with non-negative durations the curve never goes down |
| Daily.BuildDailyData | src/components/TimelineChart.jsx:448-459 | each (day, person) bucket holds the summed durations of that person's entries starting that day; a day has a bucket exactly when some entry starts on it |
| Daily.DayAxis | src/components/TimelineChart.jsx:461-470 | every day from the start date's day to the end date's day, consecutively, and none when the end day is earlier |
| Daily.DaySeries | src/components/TimelineChart.jsx:473-488 | the person's id, name and chart colour, and one point per axis day, holding that person's day total in hours (0 for a missing bucket) |
| Daily.DailyChart | src/components/TimelineChart.jsx:446-492 | one series per person with sessions, each in the person's chart colour, with one point per day of the axis, holding that person's total in hours for that day |
| Daily.IdleDayIsZero | src/components/TimelineChart.jsx:476 | a day on which a person started nothing shows 0 |
| Daily.DailyConservation | src/components/TimelineChart.jsx:448-477 | when every entry falls on the axis, the day totals of a person add up to the person's window total |
| Daily.WindowOnAxis | src/components/TimelineChart.jsx:400-406 | every window entry that starts at or before the end date falls on a day of the axis |
| Daily.FutureEntryOffAxis | src/components/TimelineChart.jsx:400-402 | the window has no upper bound: an entry starting after today stays in the 7-day window, but its day lies after the last axis day, so the daily view holds none of it |
| Leaderboard.FirstIndex | src/components/TimelineChart.jsx:503-520 | the position of a person's first entry, or the length when there is none |
| Leaderboard.AnyRunningMeans | src/components/TimelineChart.jsx:518 | the running flag is set exactly when some entry of the person is open |
| Leaderboard.TalliesCorrect | src/components/TimelineChart.jsx:501-521 | one tally per person that appears, in order of first appearance, each holding the person's summed duration, number of entries and running flag |
| Leaderboard.Unranked | src/components/TimelineChart.jsx:524-528 | one row per tally, each with its average duration |
| Leaderboard.LeaderboardData | src/components/TimelineChart.jsx:495-531 | nothing without a window; otherwise the ranked rows of the window's entries |
| Leaderboard.RowsFigures | src/components/TimelineChart.jsx:501-528 | each row's total, count, average and running flag are the figures of that person's entries |
| Leaderboard.RowsRanked | src/components/TimelineChart.jsx:529 | totals never increase down the board; equal totals keep order of first appearance |
| Leaderboard.RowsOnePerPerson | src/components/TimelineChart.jsx:501-529 | exactly one row per person that appears in the window, and no two rows for one person |
| Leaderboard.RowOfPerson | src/components/TimelineChart.jsx:501-529 | a person has a row exactly when the person has an entry in the window |
| Gantt.Ranked | src/components/TimelineChart.jsx:39-41 | the listed persons with at least one entry in the window |
| Gantt.IndexOfId | src/components/TimelineChart.jsx:147 | `findIndex`: the first position holding the id, or -1 exactly when none does |
| Gantt.MedalFor | src/components/TimelineChart.jsx:148-149 | a medal exactly for ranks 0, 1, 2 when more than one person is ranked: gold, silver and bronze in that order |
| Gantt.StandingsOf | src/components/TimelineChart.jsx:139-145 | every standing is a ranked person's id with that person's window total |
| Gantt.RankOfRanked | src/components/TimelineChart.jsx:135-147 | every ranked person has a rank inside the list, at which the person's own total is found |
| Gantt.RankFollowsTotals | src/components/TimelineChart.jsx:139-147 | a strictly larger total gives a strictly better rank |
| Gantt.RanksDistinct | src/components/TimelineChart.jsx:147 | two different persons never share a rank |
| Gantt.GoldIsLeader | src/components/TimelineChart.jsx:147-149 | the gold medallist's total is at least everyone else's |
| Gantt.GoldAwarded | src/components/TimelineChart.jsx:147-149 | with more than one person ranked, someone gets gold |
| ViewState.Ranges.Set | src/components/TimelineChart.jsx:310-315 | the chosen view gets the new range, and every other view keeps its own |
| ViewState.RangeSelector.constructor | src/components/TimelineChart.jsx:298-304 | the sessions view, with every range at 7 days |
| ViewState.RangeSelector.SetTimeRange | src/components/TimelineChart.jsx:310-315 | only the current view's range changes; a range that the view offers never puts the daily view on 24h |
| ViewState.RangeSelector.HandleViewTypeChange | src/components/TimelineChart.jsx:318-327 | the view switches; the daily range goes from 24h to 7 days when the daily view is entered; other ranges are untouched; the daily view is never on 24h afterwards |
| SessionEditor.CalculateDuration | src/components/SessionEditModal.jsx:48-50 | never negative: the whole seconds between start and end, or 0 when the end is earlier |
| SessionEditor.WorkingList | src/components/SessionEditModal.jsx:12-29 | the stored sessions, followed by one current-session placeholder exactly while the timer runs with a set start time |
| SessionEditor.OpenedTotalMatches | src/components/SessionEditModal.jsx:12-29 | for a consistent person, the editor's total when it opens is the person's total |
| SessionEditor.InsertedTotal | src/components/SessionEditModal.jsx:74 | inserting a session, wherever the sort places it, adds exactly its duration to the sum of the list |
| SessionEditor.Inserted | src/components/SessionEditModal.jsx:74 | the new session is added to the list, the result is sorted by start time, and equal start times keep their order |
| SessionEditor.Edited | src/components/SessionEditModal.jsx:78-97 | only the edited field changes; the duration is recomputed when both times are set and in order, and kept otherwise |
| SessionEditor.SavedSessions | src/components/SessionEditModal.jsx:111-117 | the sessions kept on save are exactly those that are not current and have set, ordered times and a positive duration |
| SessionEditor.SaveWarnsOnDrop | src/components/SessionEditModal.jsx:119-121 | the warning appears exactly when some non-current session is dropped |
| SessionEditor.Editor.constructor | src/components/SessionEditModal.jsx:4-10 | no person, no sessions, an empty draft |
| SessionEditor.Editor.Open | src/components/SessionEditModal.jsx:12-31 | the working list of the opened person; for a consistent person the editor's total is then the person's total |
| SessionEditor.Editor.SetDraft | src/components/SessionEditModal.jsx:6-10 | the draft holds the typed start and end times |
| SessionEditor.Editor.Add | src/components/SessionEditModal.jsx:52-76 | a missing time or an end not after the start is refused with nothing changed; otherwise the session is inserted in start order, the draft cleared, and the editor's total grows by the new duration |
| SessionEditor.Editor.Edit | src/components/SessionEditModal.jsx:78-97 | every session with the edited id is updated as `Edited` says; the others are kept in place |
| SessionEditor.Editor.Delete | src/components/SessionEditModal.jsx:99-107 | the current session is refused; a confirmed delete removes exactly the sessions with that id; a cancelled delete changes nothing |
| SessionEditor.Editor.Save | src/components/SessionEditModal.jsx:109-127 | the person is returned with the kept sessions; the warning is raised exactly when a non-current session is dropped |
| SessionEditor.Editor.GetTotalTime | src/components/SessionEditModal.jsx:130-132 | 0 for an empty list, never negative when no duration is; its value after `Open` and `Add` is stated by their contracts |
| SessionEditor.SaveDropsTimerSessions | src/components/SessionEditModal.jsx:111-117 | a session recorded by the timer is not kept on save, even though the timeline accepts it |
| SessionEditor.Normalized | src/components/SessionEditModal.jsx:111-117 | the session's times read as `startTime \|\| start` and `endTime \|\| end`, with every other field kept |
| SessionEditor.IntendedSaveKeepsTimerSessions | src/components/SessionEditModal.jsx:111-117 | with times normalised, a timer session is kept; an editor-written session is judged as before, and is kept unchanged |
| Directory.Toggled | src/components/PersonDirectory.jsx:105-122 | only the person with the given id changes |
| Directory.ToggleKeepsTotal | src/components/PersonDirectory.jsx:105-122 | for a well-formed directory (flag and start time agree, no legacy record): the toggled person's running flag flips, ids and well-formedness are kept, and the summed total at `now` is unchanged |
| Directory.StoppedAll | src/components/PersonDirectory.jsx:129-134 | stopped persons are left as they are |
| Directory.StopAllKeepsTotal | src/components/PersonDirectory.jsx:125-137 | for a well-formed directory: afterwards nobody runs and the summed total is unchanged |
| Directory.ResetAll | src/components/PersonDirectory.jsx:142 | ids and names are kept |
| Directory.ResetAllZeroes | src/components/PersonDirectory.jsx:140-145 | afterwards nobody runs and the summed total is 0 |
| Directory.CountRunning | src/components/PersonDirectory.jsx:352 | the running count is the length of the list of running persons, at most the number of persons |
| Directory.SumTotals | src/components/PersonDirectory.jsx:353 | the directory's total; never negative when no person's total is |
| Directory.CountRunningZero | src/components/PersonDirectory.jsx:126-127 | the running count is 0 exactly when nobody runs |
| Directory.FindPerson | src/components/PersonDirectory.jsx:155 | `find`: a listed person with the id, or nothing exactly when no one has it |
| Directory.NewPerson | src/components/PersonDirectory.jsx:179-186 | the fresh id, the entered name and look, no sessions, stopped |
| Directory.Merged | src/components/PersonDirectory.jsx:171-175 | the edited person takes the entered name and look; everyone else is unchanged |
| Directory.Replaced | src/components/PersonDirectory.jsx:193-198 | the person with the updated person's id is replaced; everyone else is unchanged |
| Directory.Without | src/components/PersonDirectory.jsx:201-207 | exactly the persons with another id remain |
| Directory.RemoveAt | src/components/PersonDirectory.jsx:261 | `splice(i, 1)`: the element at i is gone and the rest close up |
| Directory.InsertAt | src/components/PersonDirectory.jsx:265 | `splice(i, 0, x)`: x sits at i and the rest move up |
| Directory.MovedPermutes | src/components/PersonDirectory.jsx:256-265 | reordering is a permutation: the dragged card lands just before the drop target, and the other cards keep their relative order |
| Directory.DropOnNextKeepsOrder | src/components/PersonDirectory.jsx:264 | dropping a card on the card after it leaves the order unchanged |
| Directory.Reorder | src/components/PersonDirectory.jsx:257-265 | the two splices compute the move |
| Directory.ContainsMeans | src/components/PersonDirectory.jsx:349 | `includes` holds exactly when the term occurs at some position |
| Directory.Filtered | src/components/PersonDirectory.jsx:347-350 | exactly the persons whose lower-cased name contains the lower-cased term |
| Directory.EmptySearchKeepsAll | src/components/PersonDirectory.jsx:347-350 | an empty search shows everyone, in order |
| Directory.SearchIgnoresCase | src/components/PersonDirectory.jsx:349 | searching for a term and for its lower-case form shows the same persons |
| Directory.PersonDirectory.constructor | src/components/PersonDirectory.jsx:36-43 | the given persons, an empty search, nothing being edited or dragged |
| Directory.PersonDirectory.ToggleTimer | src/components/PersonDirectory.jsx:105-122 | the persons become `Toggled`; the rest of the state is unchanged |
| Directory.PersonDirectory.StopAllTimers | src/components/PersonDirectory.jsx:125-137 | reports the running count; with nobody running nothing changes, otherwise every running timer is stopped |
| Directory.PersonDirectory.ResetAllTimers | src/components/PersonDirectory.jsx:140-145 | confirmed: every person is reset; cancelled: nothing changes |
| Directory.PersonDirectory.AddPerson | src/components/PersonDirectory.jsx:148-151 | nobody is being edited afterwards |
| Directory.PersonDirectory.EditUser | src/components/PersonDirectory.jsx:154-158 | the person with the id, if any, is being edited |
| Directory.PersonDirectory.SaveUser | src/components/PersonDirectory.jsx:168-190 | edits merge into the edited person; otherwise a new person is appended |
| Directory.PersonDirectory.SaveSessions | src/components/PersonDirectory.jsx:193-198 | the updated person replaces the stored one |
| Directory.PersonDirectory.DeletePerson | src/components/PersonDirectory.jsx:201-207 | deletes exactly when the delete is confirmed and the id is listed, removing that id |
| Directory.PersonDirectory.SetSearchTerm | src/components/PersonDirectory.jsx:36 | only the search term changes |
| Directory.PersonDirectory.DragStart | src/components/PersonDirectory.jsx:210-216 | the card is recorded as dragged |
| Directory.PersonDirectory.DragEnter | src/components/PersonDirectory.jsx:230-235 | the hovered index is recorded only during a drag, and only when it is not the dragged card |
| Directory.PersonDirectory.DragEnd | src/components/PersonDirectory.jsx:218-221 | the drag state is cleared |
| Directory.PersonDirectory.Drop | src/components/PersonDirectory.jsx:248-278 | the reorder is applied exactly when a different card is dragged and there is no search, and it becomes the visible list with the dragged card moved; the hover index is cleared |
| Directory.PersonDirectory.TouchStart | src/components/PersonDirectory.jsx:285-293 | ignored during a search; otherwise the touched card is dragged, not yet moving |
| Directory.PersonDirectory.TouchMove | src/components/PersonDirectory.jsx:295-318 | ignored during a search or with no dragged card; past 10 px the drag is on, and a card under the finger other than the dragged card becomes the target |
| Directory.PersonDirectory.RunningCount | src/components/PersonDirectory.jsx:352 | at most the number of persons, and 0 exactly when no timer runs |
| Directory.PersonDirectory.TotalTimeAt | src/components/PersonDirectory.jsx:353 | the directory's total at `now`; never negative when no person's total is (the statistics panel shows the same figure: `Statistics.TotalMatchesDirectory`) |
| Directory.PersonDirectory.TouchEnd | src/components/PersonDirectory.jsx:320-345 | ignored during a search; otherwise the move is applied exactly when a touch drag reached a different card, and all drag state is cleared |
| Statistics.ShownPersons | src/components/Statistics.jsx:28-31 | exactly the persons with some time or a running timer |
| Statistics.Bars | src/components/Statistics.jsx:46-55 | one bar per shown person (the label and height of each bar are stated by `TooltipMatchesBar` and `BarsInRange`) |
| Statistics.UnitIgnoresHidden | src/components/Statistics.jsx:50 | the unit of the shown persons is the unit of the whole directory |
| Statistics.BarsInRange | src/components/Statistics.jsx:50-55 | in days, some bar reaches 1; in hours, every bar is below 24 |
| Statistics.TableSorted | src/components/Statistics.jsx:186-187 | the table lists every shown person once, totals never increase down it, and ties keep directory order |
| Statistics.SessionCount | src/components/Statistics.jsx:192 | at least the number of stored sessions, and more exactly while the timer runs |
| Statistics.SessionCountMatchesTimeline | src/components/Statistics.jsx:192 | for a consistent person, the session count is the number of that person's timeline entries |
| Statistics.GlobalFigures | src/components/Statistics.jsx:248-266 | active people is the number shown; the running figure is the length of the running sublist and at most the people shown; the total is never negative when no total is |
| Statistics.RunningMatchesDirectory | src/components/Statistics.jsx:264-266 | the panel's running count equals the directory's |
| Statistics.TotalMatchesDirectory | src/components/Statistics.jsx:256-258 | when no total is negative, the panel's total equals the directory's |
| Statistics.TooltipMislabels | src/components/Statistics.jsx:89-99 | the tooltip reads the list after the table sorted it in place, so bar "A" reports B |
| Statistics.TooltipMatchesBar | src/components/Statistics.jsx:89-99 | read from the bar's own person, the tooltip names the bar's person and reports that person's total |
| Seqs.SortByCorrect | src/components/TimelineChart.jsx:371 | the stable sort: a permutation, sorted by the key, and each key class in its original order |
| Seqs.FilterKeepsAll | src/components/PersonDirectory.jsx:348-350 | a filter returns its input exactly when every element passes |

## Left out

- Floating point: the chart heights are `real` hours or days. `toFixed`, `parseFloat` and the rounding they do are not modelled.
- The Gantt row layout, avatars, bar geometry and chart options are not modelled. Of the colours, only the line colour of the cumulative and daily series is modelled (`Sessions.ChartColor`). No tooltip text is modelled other than the person it reads.
- `Leaderboard.Row` does not carry the colour or the avatar of a row.
- Persistence is outside the model: local storage, server sync, backup, CSV/JSON export and import, and `src/services/apiService.js`. Notifications and `alert`/`confirm` dialogs appear only as inputs (`confirmed`) and results (`warned`, `refused`).
- `src/hooks/useTimerManager.js` and its interval refresh are not part of this model. The clock is the `now` parameter.
- `UserEditModal.jsx` is modelled only as the shape of the data it returns (`UserData`: name and look). Its validation and image upload are not modelled.
- Modal open/close flags, the grid/statistics view switch and `handleEditSessions` are not modelled. That handler only selects the person handed to `SessionEditor.Editor.Open`.
- Sessions.StopKeepsTotal: excludes a running record of the legacy format (no session list, a non-zero legacy total). Stopping such a record replaces the legacy figure by the new session's seconds, as `Sessions.StopDropsLegacyTotal` shows.
- Sessions.StartThenStop: excludes legacy records for the same reason.
- Sessions.TotalTimeTicks: excludes legacy records; their total is the legacy figure and does not tick.
- Directory.ToggleKeepsTotal: assumes a well-formed directory, which has no legacy record; toggling a running legacy record drops its legacy figure.
- Directory.StopAllKeepsTotal: assumes a well-formed directory, for the same reason.
- Future-dated sessions: the window has no upper bound, so a session starting after today counts on the leaderboard, in the Gantt ranks and in the cumulative view, but on no day of the daily view. The model keeps this behaviour (`Daily.FutureEntryOffAxis`); `Daily.DailyConservation` holds only when every entry falls on the axis.
- Timeline.TimelineData: requires every stored session to have set start and end times (`WellRecorded`). The source would push `undefined`, and then sort by NaN.
- SessionEditor.Inserted: sorts a session without a start time under key 0. The source's comparator gives NaN for it, and the order is then unspecified.
- SessionEditor.Editor.Open: requires a session list. Spreading a missing list throws in the source.
- SessionEditor.Editor.SetDraft: the `datetime-local` text is modelled as an already-parsed optional timestamp. An unparsable text (NaN) is not modelled.
- Directory.Filtered: lower-cases ASCII letters only. `toLowerCase` also folds the rest of Unicode.
- Directory.PersonDirectory.Drop: requires the dragged and the drop index to be card positions of the visible list. The browser supplies them from rendered cards.
- Directory.PersonDirectory.TouchEnd: requires the dragged and the target index to be card positions of the visible list.
- Directory.PersonDirectory.TouchMove: the 10-pixel test and the hit test under the finger are inputs (`farEnough`, `target`). Touch coordinates are not modelled.
- ViewState.RangeSelector.SetTimeRange: the invariant that the daily view is never on 24h is preserved only for ranges the view offers. The hidden button is what makes this hold in the source.
- Identifiers made from `Date.now()` are a parameter. Two sessions created in the same millisecond would share an id in the source.

## Findings

| source | as written | input that shows it | evidently intended | confidence | as-written member | corrected member |
|---|---|---|---|---|---|---|
| src/components/SessionEditModal.jsx:111-117 | the save filter reads `startTime`/`endTime`, but sessions recorded by the timer (src/utils/dataUtils.js:245-250) carry `start`/`end`, so every timer session is dropped when the editor is saved | a person with one timer session `{start: 1000, end: 61000, duration: 60}`: open the editor, save, and the session list is empty (with the "invalid data" warning) | read the times as `startTime \|\| start` and `endTime \|\| end`, as the timeline does (src/components/TimelineChart.jsx:348-349) | not executed | SessionEditor.SaveDropsTimerSessions | SessionEditor.IntendedSaveKeepsTimerSessions |
| src/components/Statistics.jsx:89-99 | the tooltip of bar i reads `personsWithTimeOrRunning[i]`, but the table sorts that same array in place (line 186-187) before any tooltip is shown, so bar i reports the person at table position i | two persons A (100 s) and B (200 s), listed A first: bar 0 is labelled A, and its tooltip shows B's formatted total and status | the tooltip reads the person of the bar itself (sort a copy for the table) | not executed | Statistics.TooltipMislabels | Statistics.TooltipMatchesBar |
