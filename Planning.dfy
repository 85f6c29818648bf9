/**
 * The weekly study planner: sort the tasks by priority, then task type, then due
 * date, and give each task that is not completed at most one block: on the first day,
 * from tomorrow through fourteen days ahead, that is an allowed weekday, still has
 * study time left under the daily limit, and can hold a block that ends no later than
 * the availability window's close. A task that fits on no such day gets no block.
 * Blocks on one day follow each other from the window's start.
 */
module Planning {
  import opened Wrappers
  import opened Calendar
  import opened Text
  import opened Models

  const LookAheadDays := 14
  const DefaultDurationMinutes := 120

  // ---------------------------------------------------------------------------
  // The sort order

  /** Rank of a priority level in the sort, higher first; 0 for a string that names no level. */
  function PriorityRank(p: string): (r: nat)
    ensures r <= 4
    ensures r > 0 <==> p in Priorities
    ensures p in Priorities ==> Priorities[r - 1] == p
  {
    if p == "urgent" then 4 else if p == "high" then 3 else if p == "medium" then 2
    else if p == "low" then 1 else 0
  }

  /** Rank of a task type in the sort, higher first; 0 for a string that names no type. */
  function TaskTypeRank(t: string): (r: nat)
    ensures r <= 5
    ensures r > 0 <==> t in TaskTypes
    ensures r == 5 <==> t == "exam"
  {
    if t == "exam" then 5 else if t == "project" then 4 else if t == "homework" then 3
    else if t == "reading" then 2 else if t == "other" then 1 else 0
  }

  /** Task types rank exam > project > homework > reading > other, one apart. */
  lemma TaskTypeRankOrder()
    ensures TaskTypeRank("exam") == TaskTypeRank("project") + 1 == TaskTypeRank("homework") + 2
    ensures TaskTypeRank("homework") == TaskTypeRank("reading") + 1 == TaskTypeRank("other") + 2
  {
  }

  /** What the sort compares: the two ranks and the due date. */
  datatype SortKey = SortKey(priority: nat, kind: nat, due: Option<DateTime>)

  function KeyOf(t: Task): SortKey {
    SortKey(PriorityRank(t.priority), TaskTypeRank(t.taskType), t.dueDate)
  }

  /** Due dates ascending, a missing one (sorted as `datetime.max`) after every date. */
  predicate DueAtOrBefore(a: Option<DateTime>, b: Option<DateTime>) {
    match (a, b)
    case (_, None) => true
    case (None, Some(_)) => false
    case (Some(x), Some(y)) => AtOrBefore(x, y)
  }

  /**
   * `a` may come before `b`: Python's `<=` on the tuples
   * `(-priority rank, -type rank, due date or datetime.max)`.
   */
  predicate KeyAtOrBefore(a: SortKey, b: SortKey) {
    if a.priority != b.priority then a.priority > b.priority
    else if a.kind != b.kind then a.kind > b.kind
    else DueAtOrBefore(a.due, b.due)
  }

  /** The sort key order is total and antisymmetric, so equivalent keys are equal keys. */
  lemma KeyOrderIsTotal(a: SortKey, b: SortKey, c: SortKey)
    ensures KeyAtOrBefore(a, a)
    ensures KeyAtOrBefore(a, b) || KeyAtOrBefore(b, a)
    ensures KeyAtOrBefore(a, b) && KeyAtOrBefore(b, a) ==> a == b
    ensures KeyAtOrBefore(a, b) && KeyAtOrBefore(b, c) ==> KeyAtOrBefore(a, c)
  {
    if a.due.Some? && b.due.Some? && c.due.Some? {
      AtOrBeforeTotalOrder(a.due.value, b.due.value, c.due.value);
    } else if a.due.Some? && b.due.Some? {
      AtOrBeforeTotalOrder(a.due.value, b.due.value, a.due.value);
    }
    if a.due.Some? {
      AtOrBeforeTotalOrder(a.due.value, a.due.value, a.due.value);
    }
  }

  /** `s` is in key order: every element's key may come before every later element's. */
  predicate SortedBy<T>(s: seq<T>, key: T -> SortKey) {
    forall i, j :: 0 <= i < j < |s| ==> KeyAtOrBefore(key(s[i]), key(s[j]))
  }

  /** Places `x` in front of the first element of `s` it may precede. */
  function Insert<T(==)>(x: T, s: seq<T>, key: T -> SortKey): (r: seq<T>)
    ensures multiset(r) == multiset(s) + multiset{x}
  {
    if s == [] then [x]
    else if KeyAtOrBefore(key(x), key(s[0])) then [x] + s
    else
      assert s == [s[0]] + s[1..];
      [s[0]] + Insert(x, s[1..], key)
  }

  /** Inserting into a sorted sequence keeps it sorted. */
  lemma {:induction false} InsertKeepsSorted<T>(x: T, s: seq<T>, key: T -> SortKey)
    requires SortedBy(s, key)
    ensures SortedBy(Insert(x, s, key), key)
  {
    if s == [] {
    } else if KeyAtOrBefore(key(x), key(s[0])) {
      var r := [x] + s;
      forall i, j | 0 <= i < j < |r| ensures KeyAtOrBefore(key(r[i]), key(r[j])) {
        if i == 0 {
          KeyOrderIsTotal(key(x), key(s[0]), key(s[j - 1]));
        } else {
          assert r[i] == s[i - 1] && r[j] == s[j - 1];
        }
      }
    } else {
      KeyOrderIsTotal(key(x), key(s[0]), key(s[0]));
      var rest := Insert(x, s[1..], key);
      InsertKeepsSorted(x, s[1..], key);
      var r := [s[0]] + rest;
      forall i, j | 0 <= i < j < |r| ensures KeyAtOrBefore(key(r[i]), key(r[j])) {
        if i == 0 {
          var y := rest[j - 1];
          assert y in multiset(rest);
          if y != x {
            assert y in multiset(s[1..]);
            var m :| 0 <= m < |s[1..]| && s[1..][m] == y;
            assert s[m + 1] == y;
          }
        } else {
          assert r[i] == rest[i - 1] && r[j] == rest[j - 1];
        }
      }
    }
  }

  /** Python's `sorted(s, key=key)`: a stable sort, here insertion from the back. */
  function SortBy<T(==)>(s: seq<T>, key: T -> SortKey): (r: seq<T>)
    ensures multiset(r) == multiset(s)
    ensures SortedBy(r, key)
  {
    if s == [] then []
    else
      var rest := SortBy(s[1..], key);
      InsertKeepsSorted(s[0], rest, key);
      assert s == [s[0]] + s[1..];
      Insert(s[0], rest, key)
  }

  /** The elements of `s` whose key is `k`, in their order in `s`. */
  function WithKey<T>(s: seq<T>, key: T -> SortKey, k: SortKey): seq<T> {
    if s == [] then [] else (if key(s[0]) == k then [s[0]] else []) + WithKey(s[1..], key, k)
  }

  /** `WithKey` of a sequence with one element in front. */
  lemma WithKeyCons<T>(y: T, s: seq<T>, key: T -> SortKey, k: SortKey)
    ensures WithKey([y] + s, key, k) == (if key(y) == k then [y] else []) + WithKey(s, key, k)
  {
    assert ([y] + s)[1..] == s;
  }

  /** Two prefixes of which one is empty commute. */
  lemma SwapWhenOneEmpty<T>(a: seq<T>, b: seq<T>, t: seq<T>)
    requires a == [] || b == []
    ensures a + (b + t) == b + (a + t)
  {
    if a == [] {
      assert a + (b + t) == b + t && a + t == t;
    } else {
      assert b + (a + t) == a + t && b + t == t;
    }
  }

  /** Inserting `x` puts it among the elements with its key after all of them that `s` has. */
  lemma {:induction false} InsertWithKey<T>(x: T, s: seq<T>, key: T -> SortKey, k: SortKey)
    ensures WithKey(Insert(x, s, key), key, k) == (if key(x) == k then [x] else []) + WithKey(s, key, k)
  {
    if s == [] {
      WithKeyCons(x, [], key, k);
    } else if KeyAtOrBefore(key(x), key(s[0])) {
      WithKeyCons(x, s, key, k);
    } else {
      KeyOrderIsTotal(key(x), key(s[0]), key(s[0]));
      var rest := Insert(x, s[1..], key);
      InsertWithKey(x, s[1..], key, k);
      WithKeyCons(s[0], rest, key, k);
      var own := if key(x) == k then [x] else [];
      var first := if key(s[0]) == k then [s[0]] else [];
      SwapWhenOneEmpty(first, own, WithKey(s[1..], key, k));
    }
  }

  /** The sort is stable: elements with equal keys keep their input order. */
  lemma {:induction false} SortIsStable<T>(s: seq<T>, key: T -> SortKey, k: SortKey)
    ensures WithKey(SortBy(s, key), key, k) == WithKey(s, key, k)
  {
    if s != [] {
      SortIsStable(s[1..], key, k);
      InsertWithKey(s[0], SortBy(s[1..], key), key, k);
    }
  }

  /** The tasks in planning order. */
  function SortTasks(ts: seq<Task>): (r: seq<Task>)
    ensures multiset(r) == multiset(ts)
    ensures forall i, j :: 0 <= i < j < |r| ==> KeyAtOrBefore(KeyOf(r[i]), KeyOf(r[j]))
    ensures forall k :: WithKey(r, KeyOf, k) == WithKey(ts, KeyOf, k)
  {
    var r := SortBy(ts, KeyOf);
    forall k ensures WithKey(r, KeyOf, k) == WithKey(ts, KeyOf, k) {
      SortIsStable(ts, KeyOf, k);
    }
    r
  }

  // ---------------------------------------------------------------------------
  // The slot search

  /** `task.estimated_duration or 120`, in minutes: the estimate unless it is missing or zero. */
  function DurationMinutes(t: Task): (d: int)
    ensures d != 0
    ensures d == DefaultDurationMinutes || t.estimatedDuration == Some(d)
    ensures t.estimatedDuration.None? || t.estimatedDuration == Some(0) ==> d == DefaultDurationMinutes
    ensures t.estimatedDuration.Some? && t.estimatedDuration.value != 0 ==> d == t.estimatedDuration.value
  {
    match t.estimatedDuration
    case Some(m) => if m != 0 then m else DefaultDurationMinutes
    case None => DefaultDurationMinutes
  }

  /** Where the availability window opens on the day `day` (an ordinal). */
  function DayOpen(req: PlanRequest, day: int): int {
    InstantOf(day, req.availability.startTime)
  }

  /** Where the availability window closes on the day `day`. */
  function DayClose(req: PlanRequest, day: int): int {
    InstantOf(day, req.availability.endTime)
  }

  /** `daily_hours.get(day, 0)`, kept in minutes. */
  function UsedOn(used: map<int, int>, day: int): int {
    if day in used then used[day] else 0
  }

  /**
   * A block of `dur` minutes may go on the day `off` days after `tomorrow`: the day is
   * allowed, the day's study time is under the limit, and the block, starting after the
   * time already used, ends by the window's close.
   */
  predicate FitsAt(req: PlanRequest, tomorrow: int, used: map<int, int>, dur: int, off: int) {
    var day := tomorrow + off;
    && WeekdayName(day) in req.availability.days
    && UsedOn(used, day) < req.studyHoursPerDay * 60
    && BlockStart(req, day, UsedOn(used, day)) + dur * 60 <= DayClose(req, day)
  }

  /** The first offset from `off` on, below the look-ahead, at which the block fits. */
  function FirstFit(req: PlanRequest, tomorrow: int, used: map<int, int>, dur: int, off: nat): (r: Option<nat>)
    requires off <= LookAheadDays
    ensures r.Some? ==> off <= r.value < LookAheadDays && FitsAt(req, tomorrow, used, dur, r.value)
    ensures r.Some? ==> forall o :: off <= o < r.value ==> !FitsAt(req, tomorrow, used, dur, o)
    ensures r.None? ==> forall o :: off <= o < LookAheadDays ==> !FitsAt(req, tomorrow, used, dur, o)
    decreases LookAheadDays - off
  {
    if off == LookAheadDays then None
    else if FitsAt(req, tomorrow, used, dur, off) then Some(off)
    else FirstFit(req, tomorrow, used, dur, off + 1)
  }

  /** The search finds exactly the least offset at which the block fits, if there is one. */
  lemma FirstFitIsLeast(req: PlanRequest, tomorrow: int, used: map<int, int>, dur: int, off: nat)
    requires off <= LookAheadDays
    requires forall o :: 0 <= o < off ==> !FitsAt(req, tomorrow, used, dur, o)
    ensures off < LookAheadDays && FitsAt(req, tomorrow, used, dur, off) ==> FirstFit(req, tomorrow, used, dur, 0) == Some(off)
    ensures off == LookAheadDays ==> FirstFit(req, tomorrow, used, dur, 0) == None
  {
  }

  /** The block `generate_plan` builds for `t` from `start` to `end`. */
  function MakeBlock(req: PlanRequest, t: Task, start: int, end: int): TimeBlock {
    TimeBlock(
      None, req.userId, t.id, t.title, Some(Capitalize(t.taskType) + " - " + t.title),
      start, end,
      if t.taskType != "exam" then "study" else "exam",
      false, None, None)
  }

  /** Where a block starts on the day `day` once `usedMinutes` of study are booked there. */
  function BlockStart(req: PlanRequest, day: int, usedMinutes: int): int {
    DayOpen(req, day) + usedMinutes * 60
  }

  // ---------------------------------------------------------------------------
  // The plan as a function of the sorted tasks

  /**
   * The planner's state after some tasks: the blocks so far, the study minutes used per
   * day, and, for the proofs, the index of the task each block is for and its day.
   */
  datatype PlanState = PlanState(blocks: seq<TimeBlock>, used: map<int, int>, placed: seq<nat>, days: seq<int>)

  /** The state once the task `t`, at index `i` of the sorted tasks, has its block on the day `day`. */
  function StepOn(req: PlanRequest, s: PlanState, t: Task, i: nat, day: int): PlanState {
    var p := PlaceOn(req, t, s.blocks, s.used, day);
    PlanState(p.0, p.1, s.placed + [i], s.days + [day])
  }

  /** The state after the search for `t` has come out with `found`. */
  function StepFound(found: Option<nat>, req: PlanRequest, tomorrow: int, s: PlanState, t: Task, i: nat): PlanState {
    if found.None? then s else StepOn(req, s, t, i, tomorrow + found.value)
  }

  /** One iteration of the task loop, for the task `t` at index `i` of the sorted tasks. */
  function Step(req: PlanRequest, tomorrow: int, s: PlanState, t: Task, i: nat): PlanState {
    if t.status == "completed" then s
    else StepFound(FirstFit(req, tomorrow, s.used, DurationMinutes(t), 0), req, tomorrow, s, t, i)
  }

  /** Whatever the search finds, the step's blocks and minutes are those of the placement. */
  lemma StepFoundAgrees(found: Option<nat>, req: PlanRequest, tomorrow: int, s: PlanState, t: Task, i: nat)
    ensures StepFound(found, req, tomorrow, s, t, i).blocks == PlaceFound(found, req, tomorrow, t, s.blocks, s.used).0
    ensures StepFound(found, req, tomorrow, s, t, i).used == PlaceFound(found, req, tomorrow, t, s.blocks, s.used).1
  {
  }

  /** For a task that is not completed, a step does what `PlaceTask` does to the blocks and minutes. */
  lemma StepMatchesPlacement(req: PlanRequest, tomorrow: int, s: PlanState, t: Task, i: nat)
    requires t.status != "completed"
    ensures Step(req, tomorrow, s, t, i).blocks == Placement(req, tomorrow, t, s.blocks, s.used).0
    ensures Step(req, tomorrow, s, t, i).used == Placement(req, tomorrow, t, s.blocks, s.used).1
  {
    StepFoundAgrees(FirstFit(req, tomorrow, s.used, DurationMinutes(t), 0), req, tomorrow, s, t, i);
  }

  /** The state after the task loop has run over `ts`, in order. */
  function Run(req: PlanRequest, tomorrow: int, ts: seq<Task>): PlanState
    decreases |ts|
  {
    if ts == [] then PlanState([], map[], [], [])
    else Step(req, tomorrow, Run(req, tomorrow, ts[..|ts| - 1]), ts[|ts| - 1], |ts| - 1)
  }

  /** The state after the first `i + 1` tasks is one step on from the state after the first `i`. */
  lemma RunStep(req: PlanRequest, tomorrow: int, ts: seq<Task>, i: nat)
    requires i < |ts|
    ensures Run(req, tomorrow, ts[..i + 1]) == Step(req, tomorrow, Run(req, tomorrow, ts[..i]), ts[i], i)
  {
    assert ts[..i + 1][..i] == ts[..i];
  }

  /** The whole plan, scheduling from the day after `today` (a day ordinal). */
  function Plan(req: PlanRequest, today: int): PlanState {
    Run(req, today + 1, SortTasks(req.tasks))
  }

  // ---------------------------------------------------------------------------
  // The planner itself

  /**
   * The task `t`'s block on the day `day`, after the study time already used there,
   * appended to `blocks`, and its minutes charged to that day.
   */
  function PlaceOn(req: PlanRequest, t: Task, blocks: seq<TimeBlock>, used: map<int, int>, day: int)
    : (seq<TimeBlock>, map<int, int>)
  {
    var u := UsedOn(used, day);
    var start := BlockStart(req, day, u);
    (blocks + [MakeBlock(req, t, start, start + DurationMinutes(t) * 60)], used[day := u + DurationMinutes(t)])
  }

  /** The outcome of the search, `found` offsets after `tomorrow`, or nothing when no day fits. */
  function PlaceFound(found: Option<nat>, req: PlanRequest, tomorrow: int, t: Task, blocks: seq<TimeBlock>, used: map<int, int>)
    : (seq<TimeBlock>, map<int, int>)
  {
    if found.None? then (blocks, used) else PlaceOn(req, t, blocks, used, tomorrow + found.value)
  }

  /**
   * What the body of `generate_plan`'s task loop does for a task that is not completed:
   * the task's block goes on the first day of the look-ahead it fits; when no day fits,
   * nothing changes.
   */
  function Placement(req: PlanRequest, tomorrow: int, t: Task, blocks: seq<TimeBlock>, used: map<int, int>)
    : (seq<TimeBlock>, map<int, int>)
  {
    PlaceFound(FirstFit(req, tomorrow, used, DurationMinutes(t), 0), req, tomorrow, t, blocks, used)
  }

  /** A search that found an offset places the block on that day. */
  lemma PlaceFoundSome(req: PlanRequest, tomorrow: int, t: Task, blocks: seq<TimeBlock>, used: map<int, int>, off: nat, day: int)
    requires day == tomorrow + off
    ensures PlaceFound(Some(off), req, tomorrow, t, blocks, used) == PlaceOn(req, t, blocks, used, day)
  {
  }

  /** `PlaceOn` in terms of the values the planner's loop computes on its way. */
  lemma PlaceOnValues(req: PlanRequest, t: Task, blocks: seq<TimeBlock>, used: map<int, int>, day: int, u: int, start: int, end: int)
    requires u == UsedOn(used, day) && start == BlockStart(req, day, u) && end == start + DurationMinutes(t) * 60
    ensures PlaceOn(req, t, blocks, used, day) == (blocks + [MakeBlock(req, t, start, end)], used[day := u + DurationMinutes(t)])
  {
  }

  /** The placement on the day the search finds. */
  lemma PlacementAt(req: PlanRequest, tomorrow: int, t: Task, blocks: seq<TimeBlock>, used: map<int, int>, off: nat, day: int)
    requires FirstFit(req, tomorrow, used, DurationMinutes(t), 0) == Some(off) && day == tomorrow + off
    ensures Placement(req, tomorrow, t, blocks, used) == PlaceOn(req, t, blocks, used, day)
  {
    PlaceFoundSome(req, tomorrow, t, blocks, used, off, day);
  }

  /**
   * The placement when the loop of `generate_plan` stops at the offset `off`: every
   * earlier offset failed, and at `off` the day is allowed, under its limit, and the
   * block from `start` to `end` ends by the day's close.
   */
  lemma PlacementFound(req: PlanRequest, tomorrow: int, t: Task, blocks: seq<TimeBlock>, used: map<int, int>,
                       off: nat, day: int, u: int, start: int, end: int)
    requires off < LookAheadDays && day == tomorrow + off
    requires forall o :: 0 <= o < off ==> !FitsAt(req, tomorrow, used, DurationMinutes(t), o)
    requires WeekdayName(day) in req.availability.days
    requires u == UsedOn(used, day) && u < req.studyHoursPerDay * 60
    requires start == BlockStart(req, day, u) && end == start + DurationMinutes(t) * 60
    requires end <= DayClose(req, day)
    ensures Placement(req, tomorrow, t, blocks, used) == (blocks + [MakeBlock(req, t, start, end)], used[day := u + DurationMinutes(t)])
  {
    assert FitsAt(req, tomorrow, used, DurationMinutes(t), off);
    FirstFitIsLeast(req, tomorrow, used, DurationMinutes(t), off);
    PlacementAt(req, tomorrow, t, blocks, used, off, day);
    PlaceOnValues(req, t, blocks, used, day, u, start, end);
  }

  /** When no offset of the look-ahead fits, the placement changes nothing. */
  lemma PlacementNone(req: PlanRequest, tomorrow: int, t: Task, blocks: seq<TimeBlock>, used: map<int, int>)
    requires forall o :: 0 <= o < LookAheadDays ==> !FitsAt(req, tomorrow, used, DurationMinutes(t), o)
    ensures Placement(req, tomorrow, t, blocks, used) == (blocks, used)
  {
    FirstFitIsLeast(req, tomorrow, used, DurationMinutes(t), LookAheadDays);
  }

  /**
   * The body of `generate_plan`'s task loop for a task that is not completed: the
   * search over the next fourteen days.
   */
  method PlaceTask(req: PlanRequest, currentDate: int, task: Task, timeBlocks: seq<TimeBlock>, dailyMinutes: map<int, int>)
    returns (newBlocks: seq<TimeBlock>, newMinutes: map<int, int>)
    ensures (newBlocks, newMinutes) == Placement(req, currentDate, task, timeBlocks, dailyMinutes)
  {
    var durationMinutes := DurationMinutes(task);
    for dayOffset := 0 to LookAheadDays
      invariant forall o :: 0 <= o < dayOffset ==> !FitsAt(req, currentDate, dailyMinutes, durationMinutes, o)
    {
      var checkDate := currentDate + dayOffset;
      var fits, minutesUsed, blockStart, blockEnd := CheckDay(req, currentDate, dailyMinutes, durationMinutes, dayOffset);
      if !fits {
        continue;
      }
      PlacementFound(req, currentDate, task, timeBlocks, dailyMinutes, dayOffset, checkDate, minutesUsed, blockStart, blockEnd);
      newBlocks := timeBlocks + [MakeBlock(req, task, blockStart, blockEnd)];
      newMinutes := dailyMinutes[checkDate := minutesUsed + durationMinutes];
      return;
    }
    PlacementNone(req, currentDate, task, timeBlocks, dailyMinutes);
    newBlocks, newMinutes := timeBlocks, dailyMinutes;
  }

  /**
   * The three tests `generate_plan` makes of the day `dayOffset` days after
   * `currentDate`: the weekday is allowed, the day's study time is under the limit, and
   * the block ends by the window's close; with the start and end it computes on the way.
   */
  method CheckDay(req: PlanRequest, currentDate: int, dailyMinutes: map<int, int>, durationMinutes: int, dayOffset: nat)
    returns (fits: bool, minutesUsed: int, blockStart: int, blockEnd: int)
    ensures fits == FitsAt(req, currentDate, dailyMinutes, durationMinutes, dayOffset)
    ensures fits ==> WeekdayName(currentDate + dayOffset) in req.availability.days
    ensures fits ==> minutesUsed == UsedOn(dailyMinutes, currentDate + dayOffset) && minutesUsed < req.studyHoursPerDay * 60
    ensures fits ==> blockStart == BlockStart(req, currentDate + dayOffset, minutesUsed) && blockEnd == blockStart + durationMinutes * 60
    ensures fits ==> blockEnd <= DayClose(req, currentDate + dayOffset)
  {
    var checkDate := currentDate + dayOffset;
    minutesUsed, blockStart, blockEnd := 0, 0, 0;
    if WeekdayName(checkDate) !in req.availability.days {
      return false, minutesUsed, blockStart, blockEnd;
    }
    minutesUsed := UsedOn(dailyMinutes, checkDate);
    if minutesUsed >= req.studyHoursPerDay * 60 {
      return false, minutesUsed, blockStart, blockEnd;
    }
    blockStart := BlockStart(req, checkDate, minutesUsed);
    blockEnd := blockStart + durationMinutes * 60;
    if blockEnd > DayClose(req, checkDate) {
      return false, minutesUsed, blockStart, blockEnd;
    }
    fits := true;
  }

  /** `generate_plan`: `today` stands for the date of `datetime.now()`, as a day ordinal. */
  method GeneratePlan(req: PlanRequest, today: int) returns (timeBlocks: seq<TimeBlock>)
    ensures timeBlocks == Plan(req, today).blocks
  {
    timeBlocks := [];
    var sortedTasks := SortTasks(req.tasks);
    var currentDate := today + 1;
    var dailyMinutes: map<int, int> := map[];
    for i := 0 to |sortedTasks|
      invariant timeBlocks == Run(req, currentDate, sortedTasks[..i]).blocks
      invariant dailyMinutes == Run(req, currentDate, sortedTasks[..i]).used
    {
      RunStep(req, currentDate, sortedTasks, i);
      var task := sortedTasks[i];
      if task.status == "completed" {
        continue;
      }
      StepMatchesPlacement(req, currentDate, Run(req, currentDate, sortedTasks[..i]), task, i);
      timeBlocks, dailyMinutes := PlaceTask(req, currentDate, task, timeBlocks, dailyMinutes);
    }
    assert sortedTasks[..|sortedTasks|] == sortedTasks;
  }
}
