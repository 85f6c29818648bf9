# StudyFlow planning core in Dafny

This project models the server-side core of the StudyFlow study planner:

- **The record models** (`api/models.py`): tasks, time blocks, availability and planning requests. It covers their enumerated-string and range constraints and the defaults a record gets when a field is left out. Module `Models`.
- **The greedy weekly planner** (`generate_plan` in `api/planning.py`). Tasks are sorted stably by priority, then task type, then due date (a missing due date sorts last). Completed tasks are skipped. Each remaining task gets at most one block: on the first day from tomorrow through fourteen days ahead where three things hold. The weekday is allowed, the day's study time is under the daily limit, and the block, placed after the time already used that day, ends no later than the availability window's close. A task that fits on none of those days gets no block.
  - The functional specification is `Planning.Plan`, a fold over the sorted tasks.
  - `Planning.GeneratePlan` is the imperative loop, proved to produce `Plan`'s blocks.
  - `PlanProperties` proves what the plan guarantees.
- **The rule-based deadline extractor** (`parse_tasks_from_text` in `api/extract.py`). Each regular-expression match is given as the tuple of its captured groups.
  - A match becomes a task, nothing, or an exception that ends the call.
  - `Extract.ParseTasksFromText` is the nested loop over patterns and matches, proved equal to the functional `Extract.Extracted`.

Supporting modules:

- `Text`: the Python `str` operations used: `lower`, `upper`, `capitalize`, `strip`, `in`, `replace(pat, "")`, and `int` on digit strings.
- `Calendar`: Gregorian dates as `datetime` validates them, day ordinals and weekday names, and instants in seconds.
- `IsoDates`: `datetime.fromisoformat` on `YYYY-MM-DD`, with its round trip.
- `Wrappers`: `Option` and `Result`.

The extractor is parameterised by a `Reading`:

- `AsWritten` keeps the file's own slips: the dropped task type, the case-sensitive suffix removal and the mis-encoded names. It shares the reductions listed under Left out (matches given as groups, ASCII digits, `YYYY-MM-DD` dates only, case mapping within Latin-1).
- `Intended` corrects four slips in it, listed under Findings.

The general properties (well-formed tasks, the all-or-nothing behaviour of exceptions, the loop's agreement with the fold) are proved for both readings.

Representation choices:

- A day is a proleptic Gregorian ordinal, as `date.toordinal()` gives it.
- An instant is `ordinal * 86400 + seconds past midnight`.
- Times of day are seconds past midnight.
- The planner's per-day study time is kept in whole minutes.

## Model

| member | source | states |
|---|---|---|
| Models.ValidTask | api/models.py:16-24 | the task type is one of homework, exam, project, reading, other; the priority one of low, medium, high, urgent; the status one of todo, in_progress, completed, cancelled; each date present is a valid datetime |
| Models.ValidTimeBlock | api/models.py:36-39 | the block type is one of study, break, exam, class, other; each timestamp present is a valid datetime |
| Models.ValidAvailability | api/models.py:44-45 | both ends of the window are times of day, from midnight up to the last second before the next midnight |
| Models.ValidPlanRequest | api/models.py:52-54 | the daily study hours are from 1 to 12, the availability is valid, and so is every task |
| Models.NewTask | api/models.py:9-24 | a task given only user and title is valid homework of medium priority, to do, with no due date or estimate |
| Models.NewTimeBlock | api/models.py:27-39 | a block given only its required fields is a valid, uncompleted study block carrying those fields |
| Models.NewAvailability | api/models.py:42-46 | the default days are exactly the weekdays Monday to Friday, all of them weekday names |
| Models.NewPlanRequest | api/models.py:49-54 | the default daily limit is four hours; the request is valid whenever its availability and tasks are |
| Calendar.DaysInMonth | api/extract.py:75-78 | months have 28 to 31 days; 31 exactly for the long months, 30 for April, June, September and November, and February has 29 exactly in leap years |
| Calendar.ValidDate | api/extract.py:75-78 | the triples `datetime(y, m, d)` accepts: a year from 1 to 9999, a month from 1 to 12, and a day within that month; `FrenchItemRules` and `IsoDates.IsoDate` prove that every other captured triple makes the item raise or be skipped |
| Calendar.Weekday | api/planning.py:78 | `weekday()` is a number from 0 to 6 |
| Calendar.WeekdayName | api/planning.py:78 | `strftime('%A').lower()` is one of the seven names; `WeekdayNameDeterminesWeekday` proves two days share a name exactly when they share a weekday |
| Calendar.AtOrBeforeTotalOrder | api/planning.py:50 | `datetime` comparison is a total order: reflexive, total, antisymmetric, transitive |
| Calendar.WeekdayNameDeterminesWeekday | api/planning.py:78-81 | two days have the same `strftime('%A').lower()` name exactly when they are the same weekday |
| Calendar.InstantOf | api/planning.py:96-100 | `datetime.combine(day, t)` recovers the day and the time of day from the instant |
| Text.Lower | api/extract.py:53 | `lower()` keeps the length and lower-cases each character |
| Text.Upper | api/extract.py:94 | `upper()` keeps the length and upper-cases each character, one to one (the Latin-1 exceptions are under Left out) |
| Text.Capitalize | api/planning.py:109 | `capitalize()` upper-cases the first character and lower-cases the rest |
| Text.Strip | api/extract.py:58 | `strip()` yields an infix with no white space at either end, and everything cut off on both sides is white space |
| Text.ContainsPrefix | api/extract.py:62 | a text containing `examen` contains `exam` |
| Text.ParseNat | api/extract.py:55-57 | `int()` succeeds exactly on a non-empty run of digits and gives its decimal value |
| Text.RemoveAll | api/extract.py:55 | `replace(pat, '')` never lengthens the text; `RemoveAllAbsent`, `Extract.RemoveTrailing` and `Extract.DayWithOrdinal` prove what it removes from a day |
| Text.RemoveAllAbsent | api/extract.py:55 | `replace` of a pattern whose first character does not occur changes nothing |
| IsoDates.IsoDate | api/extract.py:112-116 | `fromisoformat` gives a valid datetime at midnight, or fails |
| IsoDates.IsoDateOfIsoFormat | api/extract.py:112-116 | every real date written `YYYY-MM-DD` reads back as midnight of that date |
| IsoDates.IsoFormatOfIsoDate | api/extract.py:112-116 | every string that reads as a date is that date written `YYYY-MM-DD` |
| IsoDates.DigitsValueOfDigits | api/extract.py:114 | a number written with enough zero-padded digits reads back as itself |
| IsoDates.DigitsOfDigitsValue | api/extract.py:114 | a digit string is its value written back with its own width |
| Planning.PriorityRank | api/planning.py:28-33 | urgent 4 > high 3 > medium 2 > low 1; 0 exactly for a string that names no priority |
| Planning.TaskTypeRank | api/planning.py:36-42 | ranks are positive exactly for the five task types, and highest exactly for exams |
| Planning.TaskTypeRankOrder | api/planning.py:35-42 | exam > project > homework > reading > other, one step apart |
| Planning.KeyOrderIsTotal | api/planning.py:45-52 | the sort key order (priority, type, then due date with none last) is a total order |
| Planning.InsertKeepsSorted | api/planning.py:45-52 | inserting into a sorted sequence keeps it sorted |
| Planning.SortBy | api/planning.py:45-52 | the sort is a permutation of its input and sorted by the key |
| Planning.SortIsStable | api/planning.py:45-52 | the sort keeps the input order of elements with equal keys |
| Planning.SortTasks | api/planning.py:45-52 | the tasks in planning order are a permutation of the request's tasks, ordered by key, and stable |
| Planning.DurationMinutes | api/planning.py:72 | the duration is the estimate when it is non-zero, and 120 minutes exactly when it is missing or zero; never zero |
| Planning.FitsAt | api/planning.py:76-102 | the day is one of the allowed weekday names, its booked study time is under the daily limit, and the block, placed after that time, ends no later than the window's close |
| Planning.MakeBlock | api/planning.py:105-114 | the block built for a task; `PlanProperties.MakeBlockFields` proves it copies the user, task id and title, is uncompleted and valid, and is an exam block exactly for an exam |
| Planning.FirstFit | api/planning.py:76-102 | the search returns an offset under 14 at which the block fits and before which none fits, or nothing when no offset fits |
| Planning.FirstFitIsLeast | api/planning.py:76-102 | the search finds exactly the least fitting offset |
| Planning.PlacementFound | api/planning.py:76-121 | when the loop stops at an offset, the task's block goes on that day after the time already used, and its minutes are charged there |
| Planning.PlacementNone | api/planning.py:76-102 | when no day of the look-ahead fits, nothing changes |
| Planning.StepMatchesPlacement | api/planning.py:66-121 | for a task that is not completed, one step of the fold does what the loop body does |
| Planning.Step | api/planning.py:66-121 | one pass of the loop body: a completed task leaves the state alone, any other goes through the fourteen-day search; `StepMatchesPlacement` and `PlanProperties.StepAppends` prove what it appends |
| Planning.Run | api/planning.py:66-121 | the loop over the sorted tasks as a fold of `Step`; `RunStep` and `PlanProperties.RunInvariant` prove its prefixes and its invariant |
| Planning.Plan | api/planning.py:9-123 | the whole plan from tomorrow; `GeneratePlan` is proved to return its blocks and `PlanProperties` proves what they guarantee |
| Planning.RunStep | api/planning.py:66-121 | the state after `i + 1` tasks is one step on from the state after `i` |
| Planning.CheckDay | api/planning.py:77-102 | the day passes the three tests exactly when the block fits there, with the used time, start and end the code computes |
| Planning.PlaceTask | api/planning.py:71-121 | the fourteen-day search leaves the blocks and per-day minutes the placement specification gives |
| Planning.GeneratePlan | api/planning.py:9-123 | the loop returns exactly the blocks of the plan specification |
| PlanProperties.MakeBlockFields | api/planning.py:105-114 | a block copies the user, task id and title, is not completed, is valid, and is an exam block exactly for an exam |
| PlanProperties.StepAppends | api/planning.py:66-121 | a step skips a completed task, appends one block on the first fitting day, or leaves the state as it was when no day fits |
| PlanProperties.InvariantStep | api/planning.py:66-121 | one step keeps the plan invariant: blocks for distinct tasks in order, inside the window, days tiled |
| PlanProperties.RunInvariant | api/planning.py:66-121 | the invariant holds after every prefix of the sorted tasks |
| PlanProperties.PlanInvariant | api/planning.py:9-123 | the invariant holds of the whole plan |
| PlanProperties.SortedTasksAreTasks | api/planning.py:45-52 | every sorted task is a task of the request, and there are as many |
| PlanProperties.PlanBlocksAreForTasks | api/planning.py:66-116 | at most one block per task, in sorted order, only for tasks of the request that are not completed; each block copies its task, lasts the task's duration, and is valid |
| PlanProperties.PlanBlocksInWindow | api/planning.py:76-102 | every block is on an allowed weekday within the fourteen days after today, ends by the window's close, and starts under the daily limit |
| PlanProperties.PlanDaysTiled | api/planning.py:84-119 | the minutes charged to a day are the lengths of its blocks; each block starts where the day's earlier blocks end |
| PlanProperties.PlanInSortOrder | api/planning.py:45-66 | blocks come out in the order of their tasks' sort keys |
| PlanProperties.PlanBlocksDoNotOverlap | api/planning.py:91-119 | with positive durations and a valid window, every block lies inside its day's window and no two blocks overlap |
| PlanProperties.RunExtends | api/planning.py:66-121 | later steps only append blocks for later tasks |
| PlanProperties.PlanPlacesTask | api/planning.py:66-121 | a task gets a block exactly when it is not completed and some day of the look-ahead fits, given the time booked before it; the block is on the first such day, after that day's booked time |
| Extract.MonthsAreMonths | api/extract.py:29-33 | every month name maps to a month from 1 to 12, and every month has a name |
| Extract.AccentedMonthsAgree | api/extract.py:29-33 | intended: accented and unaccented spellings of février, août and décembre give the same month |
| Extract.ParseDay | api/extract.py:55 | `int(day.replace('er', ''))`; `DayWithOrdinal`, `UpperCaseOrdinalDay` and `DaySuffixAnyCase` prove which days it reads and as what |
| Extract.RemoveTrailing | api/extract.py:55 | removing `er` from digits followed by `er` leaves the digits |
| Extract.DayWithOrdinal | api/extract.py:55 | a day of digits, with or without `er`, reads as its number |
| Extract.FirstOfMonth | api/extract.py:55 | `1er` reads as day 1 |
| Extract.KindOf | api/extract.py:61-73 | a description always yields a valid task type and priority |
| Extract.KindRules | api/extract.py:61-73 | exam exactly when the description contains `exam`; otherwise project exactly when it names a project word; otherwise other; priority urgent, high, medium accordingly |
| Extract.HeadingOf | api/extract.py:94-109 | a leading word always yields a valid task type and priority |
| Extract.HeadingRules | api/extract.py:94-109 | TP is high-priority homework, TD medium-priority homework, Exam or Examen an urgent exam titled `Exam`, and anything else medium-priority homework titled with the word and the number |
| Extract.ExtractedTask | api/extract.py:80-88 | the built task has the given title, priority and due date; as written its type is homework, intended it is the computed type; it is well formed |
| Extract.IsFrench | api/extract.py:53 | a match is a French item when it has four groups and the lower-cased second one is a key of the month table |
| Extract.FrenchItem | api/extract.py:53-90 | every task a dated French item yields is well formed |
| Extract.IsoItem | api/extract.py:92-128 | every task an ISO-dated item yields is well formed |
| Extract.ClassifyMatch | api/extract.py:50-128 | every task a match yields belongs to the user, is to do, lasts 120 minutes, has a due date and is valid |
| Extract.FrenchItemRules | api/extract.py:53-90 | a French item with a numeric day and year yields a task exactly for a real date and nothing otherwise; its task has the stripped description as title, is due at 09:00 that day, and is typed by its description |
| Extract.FrenchItemBadDay | api/extract.py:55 | a French item whose day is not a number raises `ValueError` |
| Extract.IsoItemRules | api/extract.py:92-128 | an ISO item yields a task exactly when its date parses and nothing otherwise; its task has the heading's title and priority and is due at that date's midnight |
| Extract.Outcomes | api/extract.py:49-50 | one outcome per match, each the classification of that match |
| Extract.Collect | api/extract.py:49-89 | a run of outcomes that succeeds yields at most one task per outcome; `CollectOutcome` proves which ones |
| Extract.CollectAppend | api/extract.py:49-89 | collecting two runs of outcomes in turn is collecting them joined |
| Extract.ExtractFromAppend | api/extract.py:49-128 | processing two runs of matches in turn is processing them joined |
| Extract.ExtractedIsFlat | api/extract.py:47-128 | the whole extraction is the extraction of all matches, pattern after pattern |
| Extract.Extracted | api/extract.py:47-130 | a call that succeeds yields at most one task per match of all the patterns; `ExtractedOutcome` proves which ones |
| Extract.CollectOutcome | api/extract.py:49-128 | a run succeeds exactly when no outcome raises, yielding one task per emitted outcome, each one of them |
| Extract.ExtractedOutcome | api/extract.py:47-130 | the call succeeds exactly when no match raises; it then yields at most one task per match, all well formed |
| Extract.CollectSnoc | api/extract.py:49-89 | one more outcome extends, ends or leaves the run as its kind says |
| Extract.ParseTasksFromText | api/extract.py:10-130 | the nested loop returns exactly the extraction specification, the first exception included |
| Extract.ExtractedStopsAt | api/extract.py:47-130 | a match that raises ends the whole call with its exception |
| Extract.ExtractedPrefixErr | api/extract.py:47-130 | once a prefix of the patterns fails, the whole call fails the same way |
| Extract.ExamItemStoredAsHomework | api/extract.py:119-127 | as written, an `Exam` item is stored as homework; intended, as an exam |
| Extract.IntendedTaskCarriesType | api/extract.py:80-88 | intended, every task carries the type its description or heading was classified as |
| Extract.UpperCaseOrdinalDay | api/extract.py:55 | as written, `1ER` does not read as a number; intended, it reads as 1 |
| Extract.UpperCaseOrdinalRaises | api/extract.py:55 | as written, a French item on `1ER` raises `ValueError` |
| Extract.DaySuffixAnyCase | api/extract.py:55 | intended, digits followed by `er` in any case read as the digits' value |
| Extract.LowerHasNoCapitalTilde | api/extract.py:53 | a lower-cased string never holds `Ã` |
| Extract.AccentedMonthNeverFound | api/extract.py:30-32 | as written, no lower-cased capture equals a mis-encoded month name |
| Extract.NoSmallTildeInMonths | api/extract.py:29-33 | no as-written month name has `ã` second |
| Extract.AccentedMonthNotFrench | api/extract.py:53 | as written, a match on `fÃĐvrier` is not read as a French item |
| Extract.AccentedMonthSkipped | api/extract.py:53-116 | as written, such a match is skipped when its description is not an ISO date |
| Extract.AccentedMonthFound | api/extract.py:53-56 | intended, `février` is read as a French item in February |
| Extract.MissingCharNotContained | api/extract.py:68 | a text lacking one of a word's characters does not contain the word |
| Extract.PresentationNeverMatches | api/extract.py:68 | as written, the mis-encoded `présentation` keyword never occurs in a lower-cased description |
| Extract.PresentationIsProject | api/extract.py:68-73 | intended, a description whose only project word is `présentation` is a high-priority project; as written it is other, medium |

## Left out

- `api/main.py`, `api/db.py` and `api/auth.py` (HTTP routes, storage, authentication), and `extract_tasks_with_llm` (a network call to a language model) are not part of this model.
- The regular-expression engine is not modelled. Each pattern's matches are given as the tuples of their captured groups, in text order. The `text` argument is therefore absent.
- The pattern at `api/extract.py:44` spells the accented month names with the same mis-encoded pairs as the table. The `Intended` reading assumes the pattern spells them correctly as well.
- `datetime.now()` is a parameter: today's date as a day ordinal. Microseconds and time zones are not modelled.
- Planning.GeneratePlan: the per-day study time is a float number of hours in the source (`duration_minutes / 60`). The model keeps whole minutes. It does not model floating-point rounding in `hours_used >= study_hours_per_day` or in `timedelta(hours=hours_used)`.
- Planning.GeneratePlan: instants are unbounded integers. The source's `block_start + timedelta(minutes=duration_minutes)` raises `OverflowError` when the end leaves years 1 to 9999 (for instance an estimate of -10000000000 minutes), which aborts the whole call. The model instead places such a block wherever it fits.
- PlanProperties.PlanBlocksDoNotOverlap: `estimated_duration` is an unconstrained integer, so a negative estimate gives a block that ends before it starts. Non-overlap is proved only when every duration is positive.
- IsoDates.IsoDate: `fromisoformat` also accepts times, offsets and other forms. Only `YYYY-MM-DD` is read; any other string is treated as a failure. This matters where a match that is not read as a French item sends its last group, the free description, to `fromisoformat`: a description written in one of the other forms gives a task in the source but is skipped in the model.
- Text.ParseNat: only the ASCII digits `0`-`9` are digits here. The patterns' `\d` also captures other Unicode decimal digits (such as the full-width `３`), which `int()` reads; the model treats such a capture as not a number, so a French item on it raises `ValueError` where the source would build a task. Surrounding white space, signs and underscores, which `int()` also accepts, never occur in the captures.
- Text.Lower: case mapping covers the one-to-one ASCII and Latin-1 letter pairs only. Mappings beyond them, such as `Đ` to `đ`, are left out; none of the proved properties depends on them.
- Text.Upper: the Latin-1 upper-casings that leave the one-to-one pairs are not modelled: `ß` to `SS`, `ÿ` to `Ÿ` and `µ` to `Μ`. They only matter for the TP/TD/EXAM tests, which no word containing them can pass.
- Extract.ParseTasksFromText: the default `user_id="demo"` at `api/extract.py:10` is not modelled. The user id is always an argument, and a caller that relies on the default passes `"demo"`.
- Exceptions are named by their class (`ValueError`, `AttributeError`, `TypeError`, `IndexError`); their messages are not modelled.
- Pydantic's validation of the task built by the extractor is modelled as `Models.ValidTask`, which every built task is proved to satisfy.

## Findings

| source | as written | input that shows it | evidently intended | confidence | as-written member | corrected member |
|---|---|---|---|---|---|---|
| api/extract.py:80-88 | the type is passed as `type=`, a field `Task` does not have, so it is dropped and every extracted task is stored as homework | `Exam - Date: 2025-01-20` gives a homework task | `task_type=task_type` | high, not executed | Extract.ExamItemStoredAsHomework | Extract.IntendedTaskCarriesType |
| api/extract.py:55 | `replace('er', '')` is case-sensitive while the pattern ignores case, so an upper-case suffix stays, `int()` raises, and the whole call fails | `- 1ER mars 2025: Examen` | remove the suffix in any case | high, not executed | Extract.UpperCaseOrdinalRaises | Extract.DaySuffixAnyCase |
| api/extract.py:30-32 | the accented month keys are mis-encoded (`ÃĐ` for `é`, `Ãŧ` for `û`); `lower()` turns `Ã` into `ã`, so no capture ever equals them, and such a match is skipped when its description is not an ISO date | `- 3 fÃĐvrier 2025: Examen` | keys `février`, `août`, `décembre` | medium, not executed | Extract.AccentedMonthSkipped | Extract.AccentedMonthFound |
| api/extract.py:68 | the keyword `présentation` is mis-encoded the same way and can never occur in a lower-cased description | `- 3 mars 2025: présentation orale` is typed other, medium | the keyword `présentation`, giving project, high | medium, not executed | Extract.PresentationNeverMatches | Extract.PresentationIsProject |
