/**
 * What the weekly planner guarantees about the plan it builds: which tasks get a block,
 * where and when the blocks lie, how the blocks of one day follow each other, and the
 * order they come out in.
 */
module PlanProperties {
  import opened Wrappers
  import opened Calendar
  import opened Text
  import opened Models
  import opened Planning

  // ---------------------------------------------------------------------------
  // One step of the task loop

  /** The block for `t` from `start` to `end` copies the task's fields and is a valid block. */
  lemma MakeBlockFields(req: PlanRequest, t: Task, start: int, end: int)
    ensures var b := MakeBlock(req, t, start, end);
      && b.userId == req.userId && b.taskId == t.id && b.title == t.title
      && b.description == Some(Capitalize(t.taskType) + " - " + t.title)
      && b.startTime == start && b.endTime == end
      && (b.blockType == "exam" <==> t.taskType == "exam")
      && (b.blockType == "study" <==> t.taskType != "exam")
      && !b.isCompleted
      && ValidTimeBlock(b)
  {
    var b := MakeBlock(req, t, start, end);
    assert b.blockType == BlockTypes[0] || b.blockType == BlockTypes[2];
  }

  /** `StepOn` spelled out with the values the planner computes. */
  lemma StepOnValues(req: PlanRequest, s: PlanState, t: Task, i: nat, day: int, u: int, start: int)
    requires u == UsedOn(s.used, day) && start == BlockStart(req, day, u)
    ensures StepOn(req, s, t, i, day).blocks == s.blocks + [MakeBlock(req, t, start, start + DurationMinutes(t) * 60)]
    ensures StepOn(req, s, t, i, day).used == s.used[day := u + DurationMinutes(t)]
    ensures StepOn(req, s, t, i, day).placed == s.placed + [i]
    ensures StepOn(req, s, t, i, day).days == s.days + [day]
  {
  }

  /** A search that found an offset puts the block on that day. */
  lemma StepFoundSome(found: Option<nat>, req: PlanRequest, tomorrow: int, s: PlanState, t: Task, i: nat, day: int)
    requires found.Some? && day == tomorrow + found.value
    ensures StepFound(found, req, tomorrow, s, t, i) == StepOn(req, s, t, i, day)
  {
  }

  /** A step that searched and found an offset puts the block on that day. */
  lemma StepFoundDay(req: PlanRequest, tomorrow: int, s: PlanState, t: Task, i: nat, found: Option<nat>, day: int)
    requires Step(req, tomorrow, s, t, i) == StepFound(found, req, tomorrow, s, t, i)
    requires found.Some? && day == tomorrow + found.value
    ensures Step(req, tomorrow, s, t, i) == StepOn(req, s, t, i, day)
  {
    StepFoundSome(found, req, tomorrow, s, t, i, day);
  }

  /** A task that is not completed is searched for. */
  lemma StepSearches(req: PlanRequest, tomorrow: int, s: PlanState, t: Task, i: nat)
    requires t.status != "completed"
    ensures Step(req, tomorrow, s, t, i) == StepFound(FirstFit(req, tomorrow, s.used, DurationMinutes(t), 0), req, tomorrow, s, t, i)
  {
  }

  // ---------------------------------------------------------------------------
  // What holds of the state after every prefix of the sorted tasks

  /** The blocks, task indexes and days line up one to one. */
  predicate Aligned(s: PlanState) {
    |s.blocks| == |s.placed| == |s.days|
  }

  /** Each block is for a different task among the first `n`, in the order of the tasks. */
  predicate PlacedInOrder(n: nat, s: PlanState) {
    && Aligned(s)
    && (forall k :: 0 <= k < |s.placed| ==> s.placed[k] < n)
    && (forall j, k :: 0 <= j < k < |s.placed| ==> s.placed[j] < s.placed[k])
  }

  /** `b` is the block of the task `t`, which is not completed, and lasts the task's duration. */
  predicate BlockFor(req: PlanRequest, t: Task, b: TimeBlock) {
    && t.status != "completed"
    && b == MakeBlock(req, t, b.startTime, b.endTime)
    && b.endTime == b.startTime + DurationMinutes(t) * 60
  }

  /** Every block is the block of the task it was placed for. */
  predicate BlocksForTasks(req: PlanRequest, ts: seq<Task>, s: PlanState)
    requires PlacedInOrder(|ts|, s)
  {
    forall k :: 0 <= k < |s.blocks| ==> BlockFor(req, ts[s.placed[k]], s.blocks[k])
  }

  /**
   * `b`, on the day `day`, lies in the look-ahead on an allowed weekday, ends by the
   * window's close and starts while the day is still under its study limit.
   */
  predicate BlockInWindow(req: PlanRequest, tomorrow: int, b: TimeBlock, day: int) {
    && tomorrow <= day < tomorrow + LookAheadDays
    && WeekdayName(day) in req.availability.days
    && b.endTime <= DayClose(req, day)
    && b.startTime < DayOpen(req, day) + req.studyHoursPerDay * 3600
  }

  predicate InWindow(req: PlanRequest, tomorrow: int, s: PlanState)
    requires Aligned(s)
  {
    forall k :: 0 <= k < |s.blocks| ==> BlockInWindow(req, tomorrow, s.blocks[k], s.days[k])
  }

  /** The seconds booked on the day `d` by the blocks whose days are `days`. */
  function Booked(blocks: seq<TimeBlock>, days: seq<int>, d: int): int
    requires |blocks| == |days|
    decreases |blocks|
  {
    if |blocks| == 0 then 0
    else
      var n := |blocks| - 1;
      Booked(blocks[..n], days[..n], d) + (if days[n] == d then blocks[n].endTime - blocks[n].startTime else 0)
  }

  /** One more block adds its length to its own day only. */
  lemma BookedSnoc(blocks: seq<TimeBlock>, days: seq<int>, b: TimeBlock, e: int, d: int)
    requires |blocks| == |days|
    ensures Booked(blocks + [b], days + [e], d) == Booked(blocks, days, d) + (if e == d then b.endTime - b.startTime else 0)
  {
    assert (blocks + [b])[..|blocks|] == blocks;
    assert (days + [e])[..|days|] == days;
  }

  /**
   * The minutes charged to each day are the blocks booked on it, and each block starts
   * at the window's opening plus the time booked on its day by the blocks before it.
   */
  ghost predicate Tiled(req: PlanRequest, s: PlanState)
    requires Aligned(s)
  {
    && (forall d :: UsedOn(s.used, d) * 60 == Booked(s.blocks, s.days, d))
    && (forall k :: 0 <= k < |s.blocks| ==>
          s.blocks[k].startTime == DayOpen(req, s.days[k]) + Booked(s.blocks[..k], s.days[..k], s.days[k]))
  }

  /** All of the above for the state after the first `m` tasks of `ts`. */
  ghost predicate Invariant(req: PlanRequest, tomorrow: int, ts: seq<Task>, m: nat, s: PlanState) {
    && m <= |ts|
    && PlacedInOrder(m, s)
    && BlocksForTasks(req, ts, s)
    && InWindow(req, tomorrow, s)
    && Tiled(req, s)
  }

  /**
   * `s2` is `s` with the task `t`, at index `i`, given its block on the day `day`, after
   * the time already booked there, and its minutes charged to that day.
   */
  predicate Appends(req: PlanRequest, s: PlanState, t: Task, i: nat, day: int, s2: PlanState) {
    var u := UsedOn(s.used, day);
    var start := BlockStart(req, day, u);
    && s2.blocks == s.blocks + [MakeBlock(req, t, start, start + DurationMinutes(t) * 60)]
    && s2.used == s.used[day := u + DurationMinutes(t)]
    && s2.placed == s.placed + [i]
    && s2.days == s.days + [day]
  }

  /** Placing on a day appends exactly as `Appends` describes. */
  lemma StepOnAppends(req: PlanRequest, s: PlanState, t: Task, i: nat, day: int)
    ensures Appends(req, s, t, i, day, StepOn(req, s, t, i, day))
  {
    var u := UsedOn(s.used, day);
    StepOnValues(req, s, t, i, day, u, BlockStart(req, day, u));
  }

  /**
   * What a step does, without the search in sight: either nothing, or the task, which is
   * not completed, gets its block on the day `off` days after `tomorrow`, the first day
   * of the look-ahead that fits. Nothing is done exactly when the task is completed or no
   * day fits.
   */
  lemma StepAppends(req: PlanRequest, tomorrow: int, s: PlanState, t: Task, i: nat, s2: PlanState)
    returns (placed: bool, off: nat, day: int)
    requires s2 == Step(req, tomorrow, s, t, i)
    ensures t.status == "completed" ==> !placed
    ensures !placed ==> s2 == s
    ensures placed ==> t.status != "completed" && off < LookAheadDays && day == tomorrow + off
    ensures !placed && t.status != "completed" ==>
      forall o :: 0 <= o < LookAheadDays ==> !FitsAt(req, tomorrow, s.used, DurationMinutes(t), o)
    ensures placed ==> FitsAt(req, tomorrow, s.used, DurationMinutes(t), off)
    ensures placed ==> forall o :: 0 <= o < off ==> !FitsAt(req, tomorrow, s.used, DurationMinutes(t), o)
    ensures placed ==> Appends(req, s, t, i, day, s2)
  {
    var found := FirstFit(req, tomorrow, s.used, DurationMinutes(t), 0);
    if t.status == "completed" {
      placed, off, day := false, 0, tomorrow;
    } else {
      StepSearches(req, tomorrow, s, t, i);
      if found.None? {
        placed, off, day := false, 0, tomorrow;
      } else {
        placed, off, day := true, found.value, tomorrow + found.value;
        StepFoundDay(req, tomorrow, s, t, i, found, day);
        StepOnAppends(req, s, t, i, day);
      }
    }
  }

  /** Appending a block keeps the blocks for distinct tasks, in task order. */
  lemma AppendKeepsOrder(req: PlanRequest, m: nat, s: PlanState, t: Task, day: int, s2: PlanState)
    requires PlacedInOrder(m, s) && Appends(req, s, t, m, day, s2)
    ensures PlacedInOrder(m + 1, s2)
  {
  }

  /** Appending the block of a task that is not completed keeps every block the block of its task. */
  lemma AppendKeepsBlocksFor(req: PlanRequest, ts: seq<Task>, m: nat, s: PlanState, day: int, s2: PlanState)
    requires m < |ts| && ts[m].status != "completed"
    requires PlacedInOrder(m, s) && BlocksForTasks(req, ts, s) && Appends(req, s, ts[m], m, day, s2)
    ensures PlacedInOrder(m + 1, s2) && BlocksForTasks(req, ts, s2)
  {
    var t := ts[m];
    var start := BlockStart(req, day, UsedOn(s.used, day));
    MakeBlockFields(req, t, start, start + DurationMinutes(t) * 60);
    assert s2.placed[|s.placed|] == m;
    assert BlockFor(req, t, s2.blocks[|s.blocks|]);
  }

  /** Appending a block on a day that fits keeps every block in its window. */
  lemma AppendKeepsWindow(req: PlanRequest, tomorrow: int, s: PlanState, t: Task, m: nat, off: nat, day: int, s2: PlanState)
    requires off < LookAheadDays && day == tomorrow + off && FitsAt(req, tomorrow, s.used, DurationMinutes(t), off)
    requires Aligned(s) && InWindow(req, tomorrow, s) && Appends(req, s, t, m, day, s2)
    ensures Aligned(s2) && InWindow(req, tomorrow, s2)
  {
    var start := BlockStart(req, day, UsedOn(s.used, day));
    MakeBlockFields(req, t, start, start + DurationMinutes(t) * 60);
    assert BlockInWindow(req, tomorrow, s2.blocks[|s.blocks|], day);
  }

  /** Appending a block keeps the blocks of each day tiled from the window's opening. */
  lemma AppendKeepsTiling(req: PlanRequest, s: PlanState, t: Task, m: nat, day: int, s2: PlanState)
    requires Aligned(s) && Tiled(req, s) && Appends(req, s, t, m, day, s2)
    ensures Aligned(s2) && Tiled(req, s2)
  {
    var u := UsedOn(s.used, day);
    var start := BlockStart(req, day, u);
    var b := MakeBlock(req, t, start, start + DurationMinutes(t) * 60);
    MakeBlockFields(req, t, start, start + DurationMinutes(t) * 60);
    var n := |s.blocks|;
    forall d
      ensures UsedOn(s2.used, d) * 60 == Booked(s2.blocks, s2.days, d)
    {
      BookedSnoc(s.blocks, s.days, b, day, d);
    }
    forall k | 0 <= k < |s2.blocks|
      ensures s2.blocks[k].startTime == DayOpen(req, s2.days[k]) + Booked(s2.blocks[..k], s2.days[..k], s2.days[k])
    {
      if k < n {
        assert s2.blocks[..k] == s.blocks[..k] && s2.days[..k] == s.days[..k];
        assert s2.blocks[k] == s.blocks[k] && s2.days[k] == s.days[k];
      } else {
        assert s2.blocks[..k] == s.blocks && s2.days[..k] == s.days;
      }
    }
  }

  /** One step, whatever it does, keeps the invariant. */
  lemma InvariantStep(req: PlanRequest, tomorrow: int, ts: seq<Task>, m: nat, s: PlanState, s2: PlanState)
    requires m < |ts| && Invariant(req, tomorrow, ts, m, s)
    requires s2 == Step(req, tomorrow, s, ts[m], m)
    ensures Invariant(req, tomorrow, ts, m + 1, s2)
  {
    var placed, off, day := StepAppends(req, tomorrow, s, ts[m], m, s2);
    if placed {
      AppendKeepsBlocksFor(req, ts, m, s, day, s2);
      AppendKeepsWindow(req, tomorrow, s, ts[m], m, off, day, s2);
      AppendKeepsTiling(req, s, ts[m], m, day, s2);
    }
  }

  lemma RunEmpty(req: PlanRequest, tomorrow: int, ts: seq<Task>)
    ensures Invariant(req, tomorrow, ts, 0, Run(req, tomorrow, ts[..0]))
  {
    assert ts[..0] == [];
  }

  lemma RunInvariantStep(req: PlanRequest, tomorrow: int, ts: seq<Task>, i: nat)
    requires i < |ts| && Invariant(req, tomorrow, ts, i, Run(req, tomorrow, ts[..i]))
    ensures Invariant(req, tomorrow, ts, i + 1, Run(req, tomorrow, ts[..i + 1]))
  {
    RunStep(req, tomorrow, ts, i);
    InvariantStep(req, tomorrow, ts, i, Run(req, tomorrow, ts[..i]), Run(req, tomorrow, ts[..i + 1]));
  }

  /** The invariant holds after every prefix of the tasks. */
  lemma {:induction false} RunInvariant(req: PlanRequest, tomorrow: int, ts: seq<Task>, m: nat)
    requires m <= |ts|
    ensures Invariant(req, tomorrow, ts, m, Run(req, tomorrow, ts[..m]))
  {
    if m == 0 {
      RunEmpty(req, tomorrow, ts);
    } else {
      var k := m - 1;
      RunInvariant(req, tomorrow, ts, k);
      RunInvariantStep(req, tomorrow, ts, k);
      assert k + 1 == m;
    }
  }

  // ---------------------------------------------------------------------------
  // Consequences of the invariant, for any state that satisfies it

  /** A strictly increasing sequence of naturals has each element at least its index. */
  lemma {:induction false} IncreasingAtLeastIndex(p: seq<nat>, k: nat)
    requires forall a, b :: 0 <= a < b < |p| ==> p[a] < p[b]
    requires k < |p|
    ensures k <= p[k]
  {
    if k > 0 {
      IncreasingAtLeastIndex(p, k - 1);
    }
  }

  /** There are no more blocks than tasks. */
  lemma FewerBlocksThanTasks(n: nat, s: PlanState)
    requires PlacedInOrder(n, s)
    ensures |s.blocks| <= n
  {
    if |s.placed| > 0 {
      IncreasingAtLeastIndex(s.placed, |s.placed| - 1);
    }
  }

  /** The seconds booked on a day by the first `j` blocks; taking more blocks never books less. */
  lemma {:induction false} BookedGrows(blocks: seq<TimeBlock>, days: seq<int>, d: int, j: nat, k: nat)
    requires |blocks| == |days| && j <= k <= |blocks|
    requires forall x :: 0 <= x < |blocks| ==> blocks[x].startTime <= blocks[x].endTime
    ensures Booked(blocks[..j], days[..j], d) <= Booked(blocks[..k], days[..k], d)
  {
    if j < k {
      BookedGrows(blocks, days, d, j, k - 1);
      BookedTake(blocks, days, d, k - 1);
    }
  }

  /** Booking the block at index `j` adds its length to its own day. */
  lemma BookedTake(blocks: seq<TimeBlock>, days: seq<int>, d: int, j: nat)
    requires |blocks| == |days| && j < |blocks|
    ensures Booked(blocks[..j + 1], days[..j + 1], d)
         == Booked(blocks[..j], days[..j], d) + (if days[j] == d then blocks[j].endTime - blocks[j].startTime else 0)
  {
    assert blocks[..j + 1] == blocks[..j] + [blocks[j]];
    assert days[..j + 1] == days[..j] + [days[j]];
    BookedSnoc(blocks[..j], days[..j], blocks[j], days[j], d);
  }

  /** Blocks of tasks with a positive duration never run backwards. */
  lemma BlocksRunForward(req: PlanRequest, ts: seq<Task>, s: PlanState)
    requires PlacedInOrder(|ts|, s) && BlocksForTasks(req, ts, s)
    requires forall t :: t in ts ==> DurationMinutes(t) > 0
    ensures forall k :: 0 <= k < |s.blocks| ==> s.blocks[k].startTime < s.blocks[k].endTime
  {
    forall k | 0 <= k < |s.blocks|
      ensures s.blocks[k].startTime < s.blocks[k].endTime
    {
      assert ts[s.placed[k]] in ts;
    }
  }

  /**
   * Two blocks of one day follow each other: the earlier-placed one ends before the later
   * one starts; and every block starts at or after the window opens.
   */
  lemma SameDayInSequence(req: PlanRequest, s: PlanState, j: nat, k: nat)
    requires Aligned(s) && Tiled(req, s)
    requires forall x :: 0 <= x < |s.blocks| ==> s.blocks[x].startTime <= s.blocks[x].endTime
    requires j < k < |s.blocks| && s.days[j] == s.days[k]
    ensures s.blocks[j].endTime <= s.blocks[k].startTime
  {
    var d := s.days[k];
    BookedTake(s.blocks, s.days, d, j);
    BookedGrows(s.blocks, s.days, d, j + 1, k);
  }

  /** Every block starts at or after its day's window opens. */
  lemma StartsAfterOpening(req: PlanRequest, s: PlanState, k: nat)
    requires Aligned(s) && Tiled(req, s)
    requires forall x :: 0 <= x < |s.blocks| ==> s.blocks[x].startTime <= s.blocks[x].endTime
    requires k < |s.blocks|
    ensures DayOpen(req, s.days[k]) <= s.blocks[k].startTime
  {
    BookedGrows(s.blocks, s.days, s.days[k], 0, k);
  }

  /** Blocks on different days are apart: the one on the earlier day ends first. */
  lemma OtherDayApart(req: PlanRequest, tomorrow: int, s: PlanState, j: nat, k: nat)
    requires ValidAvailability(req.availability)
    requires Aligned(s) && Tiled(req, s) && InWindow(req, tomorrow, s)
    requires forall x :: 0 <= x < |s.blocks| ==> s.blocks[x].startTime <= s.blocks[x].endTime
    requires j < |s.blocks| && k < |s.blocks| && s.days[j] < s.days[k]
    ensures s.blocks[j].endTime <= s.blocks[k].startTime
  {
    StartsAfterOpening(req, s, k);
    assert BlockInWindow(req, tomorrow, s.blocks[j], s.days[j]);
  }

  /** No two blocks of a state satisfying the invariant overlap. */
  lemma InvariantNoOverlap(req: PlanRequest, tomorrow: int, ts: seq<Task>, s: PlanState)
    requires ValidAvailability(req.availability)
    requires forall t :: t in ts ==> DurationMinutes(t) > 0
    requires Invariant(req, tomorrow, ts, |ts|, s)
    ensures forall j, k :: 0 <= j < k < |s.blocks| ==>
      s.blocks[j].endTime <= s.blocks[k].startTime || s.blocks[k].endTime <= s.blocks[j].startTime
  {
    BlocksRunForward(req, ts, s);
    forall j, k | 0 <= j < k < |s.blocks|
      ensures s.blocks[j].endTime <= s.blocks[k].startTime || s.blocks[k].endTime <= s.blocks[j].startTime
    {
      if s.days[j] == s.days[k] {
        SameDayInSequence(req, s, j, k);
      } else if s.days[j] < s.days[k] {
        OtherDayApart(req, tomorrow, s, j, k);
      } else {
        OtherDayApart(req, tomorrow, s, k, j);
      }
    }
  }

  // ---------------------------------------------------------------------------
  // What the plan for a request looks like

  /** The invariant holds of the whole plan. */
  lemma PlanInvariant(req: PlanRequest, today: int)
    ensures Invariant(req, today + 1, SortTasks(req.tasks), |SortTasks(req.tasks)|, Plan(req, today))
  {
    var ts := SortTasks(req.tasks);
    RunInvariant(req, today + 1, ts, |ts|);
    assert ts[..|ts|] == ts;
  }

  /** Every block is the block of a distinct task that is not completed, in task order. */
  lemma InvariantBlocks(req: PlanRequest, tomorrow: int, ts: seq<Task>, s: PlanState)
    requires Invariant(req, tomorrow, ts, |ts|, s)
    ensures |s.blocks| == |s.placed| == |s.days| && |s.blocks| <= |ts|
    ensures forall j, k :: 0 <= j < k < |s.placed| ==> s.placed[j] < s.placed[k]
    ensures forall k :: 0 <= k < |s.blocks| ==>
      && s.placed[k] < |ts|
      && ts[s.placed[k]].status != "completed"
      && s.blocks[k] == MakeBlock(req, ts[s.placed[k]], s.blocks[k].startTime, s.blocks[k].endTime)
      && s.blocks[k].endTime == s.blocks[k].startTime + DurationMinutes(ts[s.placed[k]]) * 60
      && ValidTimeBlock(s.blocks[k])
      && (s.blocks[k].blockType == "exam" <==> ts[s.placed[k]].taskType == "exam")
  {
    FewerBlocksThanTasks(|ts|, s);
    forall k | 0 <= k < |s.blocks|
      ensures ValidTimeBlock(s.blocks[k])
      ensures s.blocks[k].blockType == "exam" <==> ts[s.placed[k]].taskType == "exam"
    {
      var b := s.blocks[k];
      MakeBlockFields(req, ts[s.placed[k]], b.startTime, b.endTime);
    }
  }

  /**
   * The plan gives each task at most one block, in the order of the sorted tasks, and
   * only to tasks of the request that are not completed; each block copies its task's
   * fields, lasts the task's duration, is an exam block exactly for an exam, and is valid.
   */
  lemma PlanBlocksAreForTasks(req: PlanRequest, today: int)
    ensures var p := Plan(req, today);
      && |p.blocks| == |p.placed| == |p.days| && |p.blocks| <= |req.tasks|
      && (forall j, k :: 0 <= j < k < |p.placed| ==> p.placed[j] < p.placed[k])
    ensures var p, ts := Plan(req, today), SortTasks(req.tasks);
      forall k :: 0 <= k < |p.blocks| ==>
        && p.placed[k] < |ts|
        && ts[p.placed[k]] in req.tasks
        && ts[p.placed[k]].status != "completed"
        && p.blocks[k] == MakeBlock(req, ts[p.placed[k]], p.blocks[k].startTime, p.blocks[k].endTime)
        && p.blocks[k].endTime == p.blocks[k].startTime + DurationMinutes(ts[p.placed[k]]) * 60
        && ValidTimeBlock(p.blocks[k])
        && (p.blocks[k].blockType == "exam" <==> ts[p.placed[k]].taskType == "exam")
  {
    var ts := SortTasks(req.tasks);
    PlanInvariant(req, today);
    InvariantBlocks(req, today + 1, ts, Plan(req, today));
    SortedTasksAreTasks(req.tasks);
  }

  /** The sorted tasks are the request's tasks. */
  lemma SortedTasksAreTasks(tasks: seq<Task>)
    ensures |SortTasks(tasks)| == |tasks|
    ensures forall x :: 0 <= x < |SortTasks(tasks)| ==> SortTasks(tasks)[x] in tasks
  {
    var ts := SortTasks(tasks);
    assert |multiset(ts)| == |multiset(tasks)|;
    forall x | 0 <= x < |ts|
      ensures ts[x] in tasks
    {
      assert ts[x] in multiset(ts);
    }
  }

  /**
   * Every block lies in the look-ahead, on an allowed weekday, ends by the window's close
   * and starts while its day is still under the daily study limit.
   */
  lemma PlanBlocksInWindow(req: PlanRequest, today: int)
    ensures var p := Plan(req, today);
      forall k :: 0 <= k < |p.blocks| && k < |p.days| ==>
        && today < p.days[k] <= today + LookAheadDays
        && WeekdayName(p.days[k]) in req.availability.days
        && p.blocks[k].endTime <= DayClose(req, p.days[k])
        && p.blocks[k].startTime < DayOpen(req, p.days[k]) + req.studyHoursPerDay * 3600
  {
    PlanInvariant(req, today);
  }

  /**
   * The minutes charged to each day are the lengths of that day's blocks, and each block
   * starts where the blocks of its day placed before it end, at the window's opening for
   * the first.
   */
  lemma PlanDaysTiled(req: PlanRequest, today: int)
    ensures var p := Plan(req, today);
      && |p.blocks| == |p.days|
      && (forall d :: UsedOn(p.used, d) * 60 == Booked(p.blocks, p.days, d))
      && (forall k :: 0 <= k < |p.blocks| ==>
            p.blocks[k].startTime == DayOpen(req, p.days[k]) + Booked(p.blocks[..k], p.days[..k], p.days[k]))
  {
    PlanInvariant(req, today);
  }

  /** The blocks come out in the order of their tasks' sort keys. */
  lemma PlanInSortOrder(req: PlanRequest, today: int)
    ensures var p, ts := Plan(req, today), SortTasks(req.tasks);
      forall k :: 0 <= k < |p.placed| ==> p.placed[k] < |ts|
    ensures var p, ts := Plan(req, today), SortTasks(req.tasks);
      forall j, k :: 0 <= j < k < |p.placed| ==>
        KeyAtOrBefore(KeyOf(ts[p.placed[j]]), KeyOf(ts[p.placed[k]]))
  {
    PlanInvariant(req, today);
  }

  /**
   * When every task lasts a positive time, every block lies inside its day's availability
   * window and no two blocks overlap.
   */
  lemma PlanBlocksDoNotOverlap(req: PlanRequest, today: int)
    requires ValidAvailability(req.availability)
    requires forall t :: t in req.tasks ==> DurationMinutes(t) > 0
    ensures var p := Plan(req, today);
      forall k :: 0 <= k < |p.blocks| && k < |p.days| ==>
        DayOpen(req, p.days[k]) <= p.blocks[k].startTime < p.blocks[k].endTime <= DayClose(req, p.days[k])
    ensures var p := Plan(req, today);
      forall j, k :: 0 <= j < k < |p.blocks| ==>
        p.blocks[j].endTime <= p.blocks[k].startTime || p.blocks[k].endTime <= p.blocks[j].startTime
  {
    var ts := SortTasks(req.tasks);
    PlanInvariant(req, today);
    SortedTasksAreTasks(req.tasks);
    InvariantInsideDays(req, today + 1, ts, Plan(req, today));
    InvariantNoOverlap(req, today + 1, ts, Plan(req, today));
  }

  /** With positive durations, each block lies inside its day's availability window. */
  lemma InvariantInsideDays(req: PlanRequest, tomorrow: int, ts: seq<Task>, s: PlanState)
    requires forall t :: t in ts ==> DurationMinutes(t) > 0
    requires Invariant(req, tomorrow, ts, |ts|, s)
    ensures forall k :: 0 <= k < |s.blocks| ==>
      DayOpen(req, s.days[k]) <= s.blocks[k].startTime < s.blocks[k].endTime <= DayClose(req, s.days[k])
  {
    BlocksRunForward(req, ts, s);
    forall k | 0 <= k < |s.blocks|
      ensures DayOpen(req, s.days[k]) <= s.blocks[k].startTime
      ensures s.blocks[k].endTime <= DayClose(req, s.days[k])
    {
      StartsAfterOpening(req, s, k);
      assert BlockInWindow(req, tomorrow, s.blocks[k], s.days[k]);
    }
  }

  // ---------------------------------------------------------------------------
  // Which tasks get a block, and where

  /** `b` carries on from `a`: its blocks, task indexes and days extend those of `a`, with indexes from `i` on. */
  predicate Extends(a: PlanState, b: PlanState, i: nat) {
    && a.placed <= b.placed && a.days <= b.days && a.blocks <= b.blocks
    && forall x :: |a.placed| <= x < |b.placed| ==> i <= b.placed[x]
  }

  lemma ExtendsTransitive(a: PlanState, b: PlanState, c: PlanState, i: nat, k: nat)
    requires Extends(a, b, i) && Extends(b, c, k) && i <= k
    ensures Extends(a, c, i)
  {
    forall x | |a.placed| <= x < |c.placed|
      ensures i <= c.placed[x]
    {
      if x < |b.placed| {
        assert c.placed[x] == b.placed[x];
      }
    }
  }

  /** A step extends the state it starts from, with the index of its task. */
  lemma StepExtends(req: PlanRequest, tomorrow: int, s: PlanState, t: Task, i: nat, s2: PlanState)
    requires s2 == Step(req, tomorrow, s, t, i)
    ensures Extends(s, s2, i)
  {
    var placed, off, day := StepAppends(req, tomorrow, s, t, i, s2);
  }

  lemma RunExtendsStep(req: PlanRequest, tomorrow: int, ts: seq<Task>, m: nat)
    requires m < |ts|
    ensures Extends(Run(req, tomorrow, ts[..m]), Run(req, tomorrow, ts[..m + 1]), m)
  {
    RunStep(req, tomorrow, ts, m);
    StepExtends(req, tomorrow, Run(req, tomorrow, ts[..m]), ts[m], m, Run(req, tomorrow, ts[..m + 1]));
  }

  /** Later prefixes of the tasks extend earlier ones, with the indexes of the later tasks. */
  lemma {:induction false} RunExtends(req: PlanRequest, tomorrow: int, ts: seq<Task>, i: nat, m: nat)
    requires i <= m <= |ts|
    ensures Extends(Run(req, tomorrow, ts[..i]), Run(req, tomorrow, ts[..m]), i)
  {
    if i < m {
      var k := m - 1;
      RunExtends(req, tomorrow, ts, i, k);
      RunExtendsStep(req, tomorrow, ts, k);
      ExtendsTransitive(Run(req, tomorrow, ts[..i]), Run(req, tomorrow, ts[..k]), Run(req, tomorrow, ts[..k + 1]), i, k);
      assert k + 1 == m;
    }
  }

  /**
   * Where the task at index `i` ends up in the final state `p`, given the state `s` before
   * its step and `s1` after it: it has a block exactly when it is not completed and some
   * day of the look-ahead fits, and that block is on the first such day, after the time
   * already booked there.
   */
  lemma TaskTrace(req: PlanRequest, tomorrow: int, t: Task, i: nat, s: PlanState, s1: PlanState, p: PlanState,
                  placed: bool, off: nat, day: int)
    requires PlacedInOrder(i, s) && Aligned(p)
    requires forall j, k :: 0 <= j < k < |p.placed| ==> p.placed[j] < p.placed[k]
    requires t.status == "completed" ==> !placed
    requires !placed ==> s1 == s
    requires !placed && t.status != "completed" ==>
      forall o :: 0 <= o < LookAheadDays ==> !FitsAt(req, tomorrow, s.used, DurationMinutes(t), o)
    requires placed ==> t.status != "completed" && off < LookAheadDays && day == tomorrow + off
    requires placed ==> FitsAt(req, tomorrow, s.used, DurationMinutes(t), off)
    requires placed ==> forall o :: 0 <= o < off ==> !FitsAt(req, tomorrow, s.used, DurationMinutes(t), o)
    requires placed ==> Appends(req, s, t, i, day, s1)
    requires Extends(s1, p, i + 1)
    ensures (i in p.placed) <==>
      (t.status != "completed" && exists o :: 0 <= o < LookAheadDays && FitsAt(req, tomorrow, s.used, DurationMinutes(t), o))
    ensures forall k :: 0 <= k < |p.placed| && p.placed[k] == i ==>
      && tomorrow <= p.days[k] < tomorrow + LookAheadDays
      && FitsAt(req, tomorrow, s.used, DurationMinutes(t), p.days[k] - tomorrow)
      && (forall o :: 0 <= o < p.days[k] - tomorrow ==> !FitsAt(req, tomorrow, s.used, DurationMinutes(t), o))
      && p.blocks[k].startTime == BlockStart(req, p.days[k], UsedOn(s.used, p.days[k]))
  {
    var n := |s.placed|;
    if placed {
      assert s1.placed[n] == i && p.placed[n] == i;
      assert s1.days[n] == day && p.days[n] == day;
      assert p.blocks[n] == s1.blocks[n];
      forall k | 0 <= k < |p.placed| && p.placed[k] == i
        ensures k == n
      {
      }
    } else {
      assert s1.placed == s.placed;
      forall k | 0 <= k < |p.placed|
        ensures p.placed[k] != i
      {
        if k < n {
          assert p.placed[k] == s.placed[k];
        }
      }
    }
  }

  /**
   * The task at sorted index `i` gets a block exactly when it is not completed and, with
   * the minutes the tasks before it booked, some day of the look-ahead fits; the block is
   * on the first such day and starts after the time already booked that day. The plan
   * for `today` is the run from `tomorrow`, the next day.
   */
  lemma PlanPlacesTask(req: PlanRequest, tomorrow: int, i: nat)
    requires i < |SortTasks(req.tasks)|
    ensures var ts := SortTasks(req.tasks);
      var p, used := Run(req, tomorrow, ts), Run(req, tomorrow, ts[..i]).used;
      (i in p.placed) <==>
        (ts[i].status != "completed" && exists o :: 0 <= o < LookAheadDays && FitsAt(req, tomorrow, used, DurationMinutes(ts[i]), o))
    ensures var ts := SortTasks(req.tasks);
      var p, used := Run(req, tomorrow, ts), Run(req, tomorrow, ts[..i]).used;
      forall k :: 0 <= k < |p.placed| && p.placed[k] == i ==>
        && k < |p.days| && k < |p.blocks|
        && tomorrow <= p.days[k] < tomorrow + LookAheadDays
        && FitsAt(req, tomorrow, used, DurationMinutes(ts[i]), p.days[k] - tomorrow)
        && (forall o :: 0 <= o < p.days[k] - tomorrow ==> !FitsAt(req, tomorrow, used, DurationMinutes(ts[i]), o))
        && p.blocks[k].startTime == BlockStart(req, p.days[k], UsedOn(used, p.days[k]))
  {
    var ts := SortTasks(req.tasks);
    RunExtends(req, tomorrow, ts, i + 1, |ts|);
    RunInvariant(req, tomorrow, ts, |ts|);
    assert ts[..|ts|] == ts;
    TaskTraceAt(req, tomorrow, ts, i, Run(req, tomorrow, ts));
  }

  /** `TaskTrace` for the step of the task at index `i`, into any later state `p`. */
  lemma TaskTraceAt(req: PlanRequest, tomorrow: int, ts: seq<Task>, i: nat, p: PlanState)
    requires i < |ts| && Aligned(p)
    requires forall j, k :: 0 <= j < k < |p.placed| ==> p.placed[j] < p.placed[k]
    requires Extends(Run(req, tomorrow, ts[..i + 1]), p, i + 1)
    ensures var used := Run(req, tomorrow, ts[..i]).used;
      (i in p.placed) <==>
        (ts[i].status != "completed" && exists o :: 0 <= o < LookAheadDays && FitsAt(req, tomorrow, used, DurationMinutes(ts[i]), o))
    ensures var used := Run(req, tomorrow, ts[..i]).used;
      forall k :: 0 <= k < |p.placed| && p.placed[k] == i ==>
        && tomorrow <= p.days[k] < tomorrow + LookAheadDays
        && FitsAt(req, tomorrow, used, DurationMinutes(ts[i]), p.days[k] - tomorrow)
        && (forall o :: 0 <= o < p.days[k] - tomorrow ==> !FitsAt(req, tomorrow, used, DurationMinutes(ts[i]), o))
        && p.blocks[k].startTime == BlockStart(req, p.days[k], UsedOn(used, p.days[k]))
  {
    var s := Run(req, tomorrow, ts[..i]);
    var s1 := Run(req, tomorrow, ts[..i + 1]);
    RunInvariant(req, tomorrow, ts, i);
    RunStep(req, tomorrow, ts, i);
    var placed, off, day := StepAppends(req, tomorrow, s, ts[i], i, s1);
    TaskTrace(req, tomorrow, ts[i], i, s, s1, p, placed, off, day);
  }
}
