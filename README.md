# Agenda digest of `example_orgheader.py`, modelled in Dafny

`example_orgheader.py` reads org-mode outlines and prints a short digest:
the events coming up within the next five days, the scheduled items and
deadlines that have passed without being closed, counters for PROJECT
entries, and a terse status-bar line written to a file. This project models
that digest:

- `closest` in `selector.dfy`: pick, among the dates of one kind, the
  nearest one that is not in the past, or else the most recent past one.
- `get_incoming` in `classify.dfy`: for every entry and every kind of date
  (timestamps, range starts, SCHEDULED, DEADLINE), route the selected date
  to the incoming list (0 to 5 days ahead) or the unfinished list (past).
  When an entry has a status and its immediate parent is a tracked PROJECT,
  that status is counted once for every tracked PROJECT among its
  ancestors. An entry under a plain heading credits no project.
- `get_totals_stat` in `totals.dfy`: count the entries with a status but no date, and
  how many of them are still open.
- `report_stat` in `stats.dfy`: count each upcoming entry once, at its
  earliest event, into today / tomorrow / later. Then render
  `<today>-><tomorrow>--><later> <open>/<all>`.
- `_get_marker`, `_get_delta`, `report_incoming` and `report_unfinished` in
  `report.dfy`: which lines are printed, in which order, and with which
  marker and distance phrase.

Shared pieces:

- `time.dfy`: instants and `until`.
- `sorting.dfy`: Python's sort as a pure insertion sort.
- `entries.dfy`: the outline entries and the configuration constants.
- `util.dfy`: Python's `str()` of a count and its reader.

Instants are integer seconds. A date-only value for day `d` stands for
23:59:59 of that day. A distance is kept in seconds, where the source uses
fractional days, so "at most 5 days ahead" is `delta <= 5 * 86400`.

Entries are a sequence; an entry's `parent` is the index of the enclosing
entry. `ParentsFirst` requires that a parent comes before its children; the
rollup lemmas need only that. `ValidDb` adds `DatesComparable`: an entry
whose status is not DONE, CANCELLED or DEFERRED does not mix date-only and
timed values in its timestamps or in its range starts. The dates of an
ignored entry are never sorted, so they may be mixed.

The imperative functions are methods whose loops follow the source. Each
method is proved equal to a reference definition:

| method | reference definition |
|---|---|
| `Closest` | `Nearest`, a fold over the unsorted dates |
| `GetIncoming` | `Routed` and `ProjectsUpTo` |
| `GetTotalsStat` | the sets `UntimedTasks` and `OpenUntimedTasks` |
| `ReportStat` | `TodayOf`, `TomorrowOf` and `LaterOf` |
| `ReportIncoming`, `ReportUnfinished` | `Items`, `FirstOtherDay` and `DueOnly` |

Separate lemmas prove what those definitions mean.

`_get_delta` floors the distance to whole hours before comparing it with
0.1, so "NOW" means less than one hour ahead; the model follows that.

## Model

| member | source | states |
|---|---|---|
| Time.Until | example_orgheader.py:41-53 | the first component is the value's instant; the distance satisfies `relative + delta == instant`; the distance is negative exactly when the date lies before `relative` |
| Time.Converted | example_orgheader.py:47-49 | a date-only value becomes 23:59:59 of its own day; a timed value is kept as it is |
| Time.EndOfDay | example_orgheader.py:197-198 | the result is on the same day as `t`, at 23:59:59, and `t <= e < t + one day` |
| Time.ConvertedMonotonic | example_orgheader.py:67 | on two values of the same kind, Python's `<` agrees with `<` on converted instants, and equal instants mean equal values |
| Sorting.SortBy | example_orgheader.py:67 | the result is sorted by the key, is a permutation (same multiset) and has the same members and length |
| Selector.NearestIsNearest | example_orgheader.py:56-84 | the reference selection is empty exactly for an empty list; otherwise it is a member with its `until` values, the earliest non-past date when one exists, else the latest past date |
| Selector.NearestUnique | example_orgheader.py:67-78 | on a list of one kind, any selection meeting that description equals the reference selection |
| Selector.StopIsNearest | example_orgheader.py:74-78 | when the sorted scan breaks at the first non-past date, that date meets the description |
| Selector.EndIsNearest | example_orgheader.py:67-76 | when every date is past, the last date of the sorted scan (or nothing, for no dates) meets the description |
| Selector.Closest | example_orgheader.py:56-84 | the sort-and-scan loop with `continue`/`break` returns exactly the reference selection |
| Classify.AnalyzeDates | example_orgheader.py:123-139 | appends the selection to the unfinished list when its distance is negative, or to the incoming list when it is between 0 and 5 days; otherwise, or with no dates, nothing changes |
| Classify.AnalyzeKind | example_orgheader.py:142-155 | the call for one kind, including its `if rangelist` / `if scheduled` / `if deadline` guard, appends that kind's routed selection |
| Classify.AnalyzeEntry | example_orgheader.py:142-155 | the four calls append the entry's routed selections in the order timestamp, range, scheduled, deadline |
| Classify.RoutedStep | example_orgheader.py:107-155 | after one more entry, each list is the old list followed by that entry's contribution |
| Classify.RoutedSound | example_orgheader.py:119-155 | every pair in either list is keyed by its converted date and comes from a non-ignored entry already seen; its list admits its distance, and it is that entry's selection for its kind |
| Classify.RoutedComplete | example_orgheader.py:119-155 | conversely, every selection of a non-ignored entry whose distance a list admits is in that list |
| Classify.RoutedInEntryOrder | example_orgheader.py:107-155 | pairs appear by entry in document order and by kind within an entry; so no entry yields two events of the same kind to one list |
| Classify.CreditEffect | example_orgheader.py:113-117 | the ancestor walk keeps the project keys and adds one under the status to exactly those tracked projects that are ancestors of the entry |
| Classify.RollupEffect | example_orgheader.py:110-117 | a counter changes only if the entry has a status and its immediate parent is tracked, and then by one, under that status, for every tracked ancestor; ignored statuses count too |
| Classify.RollupEntry | example_orgheader.py:110-117 | the `while current_entry.parent` loop computes the walk's result |
| Classify.ProjectKeys | example_orgheader.py:158-159 | after the first `n` entries, the tracked projects are exactly the earlier entries whose status is PROJECT |
| Classify.CountStep | example_orgheader.py:110-117 | one entry adds one to a tracked project's counter under `s` exactly when it credits that project |
| Classify.ProjectCounts | example_orgheader.py:110-117 | a project's counter for status `s` equals the number of entries credited to it. An entry is credited when its status is `s`, its parent is a PROJECT and the project is one of its ancestors |
| Classify.GetIncoming | example_orgheader.py:87-161 | the loop returns exactly the reference incoming list, unfinished list and project counters |
| Totals.OpenWithinTotal | example_orgheader.py:184-188 | there are never more open untimed tasks than untimed tasks |
| Totals.GetTotalsStat | example_orgheader.py:163-190 | `count_total` is the number of entries that have a status and no date of any kind; `count_open` is how many of those are not DONE/CANCELLED/DEFERRED; `count_open <= count_total` |
| Stats.EarliestIsLeast | example_orgheader.py:207-211 | an entry's earliest key belongs to one of its pairs and is at most every key of its pairs |
| Stats.EarliestOfPermutation | example_orgheader.py:195 | sorting changes neither the set of entries nor any entry's earliest key |
| Stats.FirstIsEarliest | example_orgheader.py:207-211 | in a list sorted by key, the first pair of an entry holds its earliest key, so counting at the first pair counts at the earliest |
| Stats.BucketsPartition | example_orgheader.py:213-220 | today, tomorrow and later are pairwise disjoint and cover all entries, so `stat_total - stat_today - stat_tomorrow` is the size of the later bucket |
| Stats.CountBuckets | example_orgheader.py:201-218 | the counting loop yields the sizes of the today and tomorrow buckets and the number of distinct entries |
| Stats.ReportStat | example_orgheader.py:193-234 | the returned line is the status line of the three bucket sizes and the two task counts |
| Stats.RenderStat | example_orgheader.py:222-233 | the appends build exactly the status line |
| Stats.StatLineRoundTrip | example_orgheader.py:222-233 | reading the status line back recovers all five counts, including which optional segments were absent |
| Stats.StatLineExample | example_orgheader.py:222-233 | two today, none tomorrow, three later and 4 of 10 open render as `2-->3 4/10` |
| Util.NatToStringRoundTrip | example_orgheader.py:224 | `str(n)` read back as digits gives `n` |
| Report.Marker | example_orgheader.py:236-245 | `D` exactly for deadlines, `S` for scheduled dates, `R` for ranges, a blank for timestamps |
| Report.FixedPhrases | example_orgheader.py:247-267 | "NOW" exactly for a timed event less than one hour ahead; "today" exactly for a date-only event within the day; "today in 1 hour" exactly one to two hours ahead; "1 day" exactly one to two days ahead |
| Report.TodayInHours | example_orgheader.py:252-259 | a timed event `n` (2 to 23) whole hours ahead reads "today in n hours" |
| Report.InDays | example_orgheader.py:262-263 | an event `n >= 2` whole days ahead reads "in n days" |
| Report.DaysAgo | example_orgheader.py:264-265 | a past event reads "n days ago", where `n >= 1` is the distance in days rounded up |
| Report.AccurateIffTimed | example_orgheader.py:291-292 | `converted_date == date` holds exactly when the date carries a time |
| Report.IncomingItemMarker | example_orgheader.py:284-300 | an incoming line has the kind letter and the arrow `--> ` exactly when the event is timed and less than 3 hours ahead; a missing status shows as TASK; the phrase is `_get_delta`'s |
| Report.FirstOtherDay | example_orgheader.py:279-288 | the position of the first pair not on today's day: every earlier pair is on today's day |
| Report.SeparatorStep | example_orgheader.py:286-288 | one loop step emits the separator exactly once, just before the first pair on another day |
| Report.IncomingLines | example_orgheader.py:277-301 | over the sorted pairs, the lines are one per pair. A separator sits before the first pair on another day, and only when the first pair is on today's day |
| Report.ReportIncoming | example_orgheader.py:270-301 | nothing for an empty list; otherwise the lines above for the list sorted by converted date |
| Report.DueOnly | example_orgheader.py:316-317 | keeps exactly the scheduled and deadline pairs |
| Report.DueOnlySorted | example_orgheader.py:309-317 | dropping pairs keeps the sorted order |
| Report.DueLines | example_orgheader.py:310-328 | one DUE line per scheduled or deadline pair, in order; the flag says whether any line was emitted |
| Report.ReportUnfinished | example_orgheader.py:304-329 | the result is None for an empty list, else whether some line was printed. The lines are the DUE lines of the sorted list, and there is one exactly when some pair is a scheduled date or deadline |

## Left out

- Loading the agenda files and the Orgnode parser (`load_data`): the entry list is an input.
- `main`: the call order, the prints and the write of the status line to a file.
- `report_projects`: it only prints.
- Printing in general. The report functions return their lines as values with four fields. The `%9s` / `%-20s` column padding is not modelled.
- `datetime.today()` and `datetime.now()`: each becomes a parameter `now`. The model does not capture the clock moving between calls.
- Floating point: distances are exact integer seconds, where the source has fractional days. So `delta <= 5.0` and `delta * 24 < 3` are exact comparisons in seconds, and rounding is not modelled. Sub-second parts, time zones and DST are not modelled either.
- IncomingLines: compares whole day numbers where the source compares `.day`, the day of the month. Any two dates with the same day of the month (31 January and 31 March, say) count as the same day in the source and not in the model. Within the 5-day horizon of the incoming list the two comparisons agree.
- Closest: requires a date list of one kind, and GetIncoming requires that of every non-ignored entry (`DatesComparable`). Python 2 raises `TypeError` when it sorts a mix of `date` and `datetime`, and that error path is not modelled.
- SortBy: orders by the converted date alone and keeps equal keys in their input order. Python also compares the `data` dictionaries on ties.
- Sorting in place: `incoming_list.sort()` and `unfinished_list.sort()` also reorder the caller's list. The model sorts a copy, so it does not capture that aliasing.
- ParentsFirst: requires that a parent comes before its children, as an outline in document order does. A parent cycle, which the source would loop on, is not modelled.
- Projects are keyed by entry index rather than by the entry object. A missing counter reads as 0, like the source's `defaultdict`.
