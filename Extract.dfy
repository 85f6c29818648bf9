/**
 * The rule-based deadline extractor: each match of the four deadline patterns, given
 * as the tuple of its captured groups, becomes at most one task, and the tasks come out
 * pattern by pattern, each pattern's matches in text order.
 *
 * The extractor is modelled in two readings. `AsWritten` keeps the file's own slips:
 * the task type it computes is passed to the task under a field name the record does
 * not have, so every task is stored with the default type; `"er"` is removed from the
 * day case-sensitively; and the accented month names and the keyword `présentation` are
 * spelled with mis-encoded character pairs (`ÃĐ` for `é`, `Ãŧ` for `û`). `Intended`
 * corrects these four slips; the properties below hold of it. Both readings share the
 * reductions the model makes throughout: matches arrive as their captured groups,
 * digits are ASCII, ISO dates are the `YYYY-MM-DD` form, and case is mapped over
 * Latin-1 only.
 */
module Extract {
  import opened Wrappers
  import opened Text
  import opened Calendar
  import opened IsoDates
  import opened Models

  /** The captured groups of one match; `None` for an optional group that took no part. */
  type Groups = seq<Option<string>>

  datatype Reading = AsWritten | Intended

  /** What one match contributes: a task, nothing, or an exception that ends the whole call. */
  datatype Outcome = Emit(task: Task) | Skip | Raise(error: string)

  const DefaultDurationMinutes := 120
  const DueHour := 9

  // ---------------------------------------------------------------------------
  // French month names

  /** The month table as the file spells it. */
  const MonthsAsWritten: map<string, nat> := map[
    "janvier" := 1, "f\U{C3}\U{110}vrier" := 2, "fevrier" := 2, "mars" := 3, "avril" := 4,
    "mai" := 5, "juin" := 6, "juillet" := 7, "ao\U{C3}\U{167}t" := 8, "aout" := 8,
    "septembre" := 9, "octobre" := 10, "novembre" := 11, "d\U{C3}\U{110}cembre" := 12, "decembre" := 12]

  /** The month table with `février`, `août` and `décembre` spelled with their accents. */
  const MonthsIntended: map<string, nat> := map[
    "janvier" := 1, "f\U{E9}vrier" := 2, "fevrier" := 2, "mars" := 3, "avril" := 4,
    "mai" := 5, "juin" := 6, "juillet" := 7, "ao\U{FB}t" := 8, "aout" := 8,
    "septembre" := 9, "octobre" := 10, "novembre" := 11, "d\U{E9}cembre" := 12, "decembre" := 12]

  function FrenchMonths(r: Reading): map<string, nat> {
    if r == AsWritten then MonthsAsWritten else MonthsIntended
  }

  /** Every month name maps to a month number, and every month has a name. */
  lemma MonthsAreMonths(r: Reading)
    ensures forall k :: k in FrenchMonths(r) ==> 1 <= FrenchMonths(r)[k] <= 12
    ensures forall m :: 1 <= m <= 12 ==> m in FrenchMonths(r).Values
  {
    var months := FrenchMonths(r);
    var names := ["janvier", "fevrier", "mars", "avril", "mai", "juin", "juillet", "aout",
                  "septembre", "octobre", "novembre", "decembre"];
    forall m | 1 <= m <= 12
      ensures m in months.Values
    {
      assert names[m - 1] in months && months[names[m - 1]] == m;
    }
  }

  /** Accented and unaccented spellings of a month name give the same month. */
  lemma AccentedMonthsAgree()
    ensures MonthsIntended["f\U{E9}vrier"] == MonthsIntended["fevrier"] == 2
    ensures MonthsIntended["ao\U{FB}t"] == MonthsIntended["aout"] == 8
    ensures MonthsIntended["d\U{E9}cembre"] == MonthsIntended["decembre"] == 12
  {
  }

  // ---------------------------------------------------------------------------
  // Reading the pieces of a match

  /** `int(day.replace('er', ''))`, the intended reading removing the suffix in any case. */
  function ParseDay(r: Reading, day: string): Option<nat> {
    if r == AsWritten then ParseNat(RemoveAll(day, "er")) else ParseNat(RemoveAll(Lower(day), "er"))
  }

  /** Removing `pat` from digits followed by `pat` leaves the digits. */
  lemma {:induction false} RemoveTrailing(digits: string, pat: string)
    requires pat != [] && AllDigits(digits) && !IsDigit(pat[0])
    ensures RemoveAll(digits + pat, pat) == digits
    decreases |digits|
  {
    if digits == [] {
      assert pat[|pat|..] == [];
    } else {
      assert (digits + pat)[..|pat|][0] == digits[0];
      assert (digits + pat)[1..] == digits[1..] + pat;
      RemoveTrailing(digits[1..], pat);
    }
  }

  /** Lower-casing leaves digits alone. */
  lemma LowerDigits(digits: string)
    requires AllDigits(digits)
    ensures Lower(digits) == digits
  {
  }

  /** A day of one or two digits, with or without `er`, reads as its number. */
  lemma DayWithOrdinal(r: Reading, digits: string)
    requires digits != [] && AllDigits(digits)
    ensures ParseDay(r, digits) == Some(DigitsValue(digits))
    ensures ParseDay(r, digits + "er") == Some(DigitsValue(digits))
  {
    LowerDigits(digits);
    RemoveAllAbsent(digits, "er");
    RemoveTrailing(digits, "er");
    assert Lower(digits + "er") == digits + "er";
  }

  /** `1er` is the first of the month. */
  lemma FirstOfMonth(r: Reading)
    ensures ParseDay(r, "1er") == Some(1)
  {
    DayWithOrdinal(r, "1");
    assert "1" + "er" == "1er";
  }

  /** The keyword that marks a presentation, as each reading spells it. */
  function PresentationKeyword(r: Reading): string {
    if r == AsWritten then "pr\U{C3}\U{110}sentation" else "pr\U{E9}sentation"
  }

  /** The type and priority a French item gets from its lower-cased description. */
  datatype Kind = Kind(taskType: string, priority: string)

  function KindOf(r: Reading, descLower: string): (k: Kind)
    ensures k.taskType in TaskTypes && k.priority in Priorities
  {
    if Contains(descLower, "examen") || Contains(descLower, "exam") then Kind("exam", "urgent")
    else if Contains(descLower, "projet") || Contains(descLower, "project") then Kind("project", "high")
    else if Contains(descLower, "remise") || Contains(descLower, "rendu") || Contains(descLower, PresentationKeyword(r))
    then Kind("project", "high")
    else Kind("other", "medium")
  }

  /**
   * A description makes an exam exactly when it mentions `exam`; otherwise a project
   * exactly when it mentions one of the project words; otherwise something else. The
   * priority follows the type.
   */
  lemma KindRules(r: Reading, d: string)
    ensures KindOf(r, d).taskType == "exam" <==> Contains(d, "exam")
    ensures KindOf(r, d).taskType == "project" <==>
      !Contains(d, "exam") &&
      (Contains(d, "projet") || Contains(d, "project") || Contains(d, "remise") || Contains(d, "rendu")
       || Contains(d, PresentationKeyword(r)))
    ensures KindOf(r, d).taskType == "other" <==>
      !Contains(d, "exam") && !Contains(d, "projet") && !Contains(d, "project") && !Contains(d, "remise")
      && !Contains(d, "rendu") && !Contains(d, PresentationKeyword(r))
    ensures KindOf(r, d).priority == (if KindOf(r, d).taskType == "exam" then "urgent"
                                      else if KindOf(r, d).taskType == "project" then "high" else "medium")
  {
    if Contains(d, "examen") {
      ContainsPrefix(d, "examen", 4);
      assert "examen"[..4] == "exam";
    }
  }

  /** The type, title and priority an ISO-dated item gets from its leading word. */
  datatype Heading = Heading(taskType: string, title: string, priority: string)

  /** `head` followed by the item number when the pattern captured a non-empty one. */
  function Titled(head: string, number: Option<string>): string {
    if number.Some? then head + " " + number.value else head
  }

  function HeadingOf(word: string, number: Option<string>): (h: Heading)
    ensures h.taskType in TaskTypes && h.priority in Priorities
  {
    var w := Upper(word);
    if w == "TP" then Heading("homework", Titled("TP", number), "high")
    else if w == "TD" then Heading("homework", Titled("TD", number), "medium")
    else if w == "EXAM" || w == "EXAMEN" then Heading("exam", "Exam", "urgent")
    else Heading("homework", Titled(word, number), "medium")
  }

  /**
   * `TP n` is homework of high priority, `TD n` homework of medium priority, both titled
   * with the canonical prefix and the number; `Exam` and `Examen` are urgent exams titled
   * `Exam`; any other word is medium-priority homework titled with the word and number.
   */
  lemma HeadingRules(word: string, number: Option<string>)
    ensures HeadingOf(word, number).taskType == "exam" <==> Upper(word) in ["EXAM", "EXAMEN"]
    ensures Upper(word) in ["EXAM", "EXAMEN"] ==> HeadingOf(word, number) == Heading("exam", "Exam", "urgent")
    ensures Upper(word) == "TP" ==> HeadingOf(word, number) == Heading("homework", Titled("TP", number), "high")
    ensures Upper(word) == "TD" ==> HeadingOf(word, number) == Heading("homework", Titled("TD", number), "medium")
    ensures Upper(word) !in ["TP", "TD", "EXAM", "EXAMEN"] ==>
      HeadingOf(word, number) == Heading("homework", Titled(word, number), "medium")
  {
  }

  // ---------------------------------------------------------------------------
  // One match

  /**
   * What every extracted task looks like: the user's, still to do, the default two hours
   * long, with a due date, and valid.
   */
  predicate WellFormed(t: Task, userId: string) {
    && t.userId == userId && t.status == "todo" && t.estimatedDuration == Some(DefaultDurationMinutes)
    && t.dueDate.Some? && ValidTask(t)
  }

  /**
   * The task the extractor builds. The as-written call passes the type under a field
   * name `Task` does not have, so the stored type is the default, homework.
   */
  function ExtractedTask(r: Reading, userId: string, title: string, taskType: string, priority: string, due: DateTime): (t: Task)
    ensures taskType in TaskTypes && priority in Priorities && ValidDateTime(due) ==> WellFormed(t, userId)
    ensures t.title == title && t.priority == priority && t.dueDate == Some(due)
    ensures t.taskType == (if r == AsWritten then "homework" else taskType)
  {
    Task(None, userId, None, title, None, if r == AsWritten then "homework" else taskType, priority,
         "todo", Some(due), Some(DefaultDurationMinutes), None, None, None, None)
  }

  /** A dated French item: day, month number, year and description. */
  function FrenchItem(r: Reading, userId: string, dayGroup: Option<string>, month: nat,
                      yearGroup: Option<string>, descGroup: Option<string>): (o: Outcome)
    ensures o.Emit? ==> WellFormed(o.task, userId)
  {
    if dayGroup.None? then Raise("AttributeError")
    else
      match ParseDay(r, dayGroup.value)
      case None => Raise("ValueError")
      case Some(day) =>
        if yearGroup.None? then Raise("TypeError")
        else
          match ParseNat(yearGroup.value)
          case None => Raise("ValueError")
          case Some(year) =>
            if descGroup.None? then Raise("AttributeError")
            else
              var description := Strip(descGroup.value);
              var kind := KindOf(r, Lower(description));
              if !ValidDate(year, month, day) then Skip
              else Emit(ExtractedTask(r, userId, description, kind.taskType, kind.priority, DateTime(year, month, day, DueHour, 0, 0)))
  }

  /** The item number, when the second group holds a non-empty one. */
  function NumberOf(g: Groups): Option<string> {
    if |g| > 1 && g[1].Some? && g[1].value != "" then g[1] else None
  }

  /** An item with a leading word, an optional number and an ISO date as its last group. */
  function IsoItem(r: Reading, userId: string, g: Groups): (o: Outcome)
    ensures o.Emit? ==> WellFormed(o.task, userId)
  {
    if |g| == 0 then Raise("IndexError")
    else if g[0].None? then Raise("AttributeError")
    else
      var heading := HeadingOf(g[0].value, NumberOf(g));
      match g[|g| - 1]
      case None => Raise("TypeError")
      case Some(dateText) =>
        match IsoDate(dateText)
        case None => Skip
        case Some(due) => Emit(ExtractedTask(r, userId, heading.title, heading.taskType, heading.priority, due))
  }

  /** Whether a match is read as a dated French item: four groups, the second a known month. */
  predicate IsFrench(r: Reading, g: Groups) {
    |g| == 4 && g[1].Some? && Lower(g[1].value) in FrenchMonths(r)
  }

  /**
   * The outcome of one match. Every task it yields belongs to the user, is still to do,
   * lasts the default two hours, has a due date, and passes the task validation.
   */
  function ClassifyMatch(r: Reading, userId: string, g: Groups): (o: Outcome)
    ensures o.Emit? ==> WellFormed(o.task, userId)
  {
    if |g| == 4 && g[1].None? then Raise("AttributeError")
    else if IsFrench(r, g) then FrenchItem(r, userId, g[0], FrenchMonths(r)[Lower(g[1].value)], g[2], g[3])
    else IsoItem(r, userId, g)
  }

  /**
   * A French item yields the task titled with its stripped description, due at 09:00 on
   * its date, typed by its description; an impossible calendar date yields nothing.
   */
  lemma FrenchItemRules(r: Reading, userId: string, g: Groups, day: nat, year: nat)
    requires IsFrench(r, g) && g[0].Some? && g[2].Some? && g[3].Some?
    requires ParseDay(r, g[0].value) == Some(day) && ParseNat(g[2].value) == Some(year)
    ensures var month := FrenchMonths(r)[Lower(g[1].value)];
      ClassifyMatch(r, userId, g).Skip? <==> !ValidDate(year, month, day)
    ensures var month := FrenchMonths(r)[Lower(g[1].value)];
      ClassifyMatch(r, userId, g).Emit? <==> ValidDate(year, month, day)
    ensures var month := FrenchMonths(r)[Lower(g[1].value)];
      ClassifyMatch(r, userId, g).Emit? ==>
        var t := ClassifyMatch(r, userId, g).task;
        var kind := KindOf(r, Lower(Strip(g[3].value)));
        && t.title == Strip(g[3].value)
        && t.dueDate == Some(DateTime(year, month, day, DueHour, 0, 0))
        && t.priority == kind.priority
        && (r == Intended ==> t.taskType == kind.taskType)
  {
  }

  /** A French item whose day is not a number raises `ValueError`, ending the whole call. */
  lemma FrenchItemBadDay(r: Reading, userId: string, g: Groups)
    requires IsFrench(r, g) && g[0].Some? && ParseDay(r, g[0].value).None?
    ensures ClassifyMatch(r, userId, g) == Raise("ValueError")
  {
  }

  /** An ISO-dated item yields the task its heading describes, due at midnight of its date. */
  lemma IsoItemRules(r: Reading, userId: string, g: Groups)
    requires !IsFrench(r, g) && |g| > 0 && g[0].Some? && g[|g| - 1].Some? && (|g| == 4 ==> g[1].Some?)
    ensures ClassifyMatch(r, userId, g).Skip? <==> IsoDate(g[|g| - 1].value).None?
    ensures ClassifyMatch(r, userId, g).Emit? <==> IsoDate(g[|g| - 1].value).Some?
    ensures ClassifyMatch(r, userId, g).Emit? ==>
      var h := HeadingOf(g[0].value, NumberOf(g));
      var t := ClassifyMatch(r, userId, g).task;
      && t.title == h.title && t.priority == h.priority
      && t.dueDate == IsoDate(g[|g| - 1].value)
      && (r == Intended ==> t.taskType == h.taskType)
  {
  }

  // ---------------------------------------------------------------------------
  // All matches

  /** The outcomes of a run of matches, one per match. */
  function Outcomes(r: Reading, userId: string, ms: seq<Groups>): (os: seq<Outcome>)
    ensures |os| == |ms|
    ensures forall k {:trigger ClassifyMatch(r, userId, ms[k])} :: 0 <= k < |ms| ==> os[k] == ClassifyMatch(r, userId, ms[k])
  {
    seq(|ms|, k requires 0 <= k < |ms| => ClassifyMatch(r, userId, ms[k]))
  }

  /** The tasks of a run of outcomes, in order; the first exception ends the run. */
  function Collect(os: seq<Outcome>): (r: Result<seq<Task>, string>)
    ensures r.Ok? ==> |r.value| <= |os|
    decreases |os|
  {
    if os == [] then Ok([])
    else
      match Collect(os[..|os| - 1])
      case Err(e) => Err(e)
      case Ok(ts) =>
        match os[|os| - 1]
        case Raise(e) => Err(e)
        case Skip => Ok(ts)
        case Emit(t) => Ok(ts + [t])
  }

  /** The tasks of the matches of one pattern, in order; the first exception ends the call. */
  function ExtractFrom(r: Reading, userId: string, ms: seq<Groups>): Result<seq<Task>, string> {
    Collect(Outcomes(r, userId, ms))
  }

  /** The tasks of all patterns: each pattern's tasks after those of the patterns before it. */
  function Extracted(r: Reading, userId: string, patterns: seq<seq<Groups>>): (res: Result<seq<Task>, string>)
    ensures res.Ok? ==> |res.value| <= |Flatten(patterns)|
    decreases |patterns|
  {
    if patterns == [] then Ok([])
    else
      match Extracted(r, userId, patterns[..|patterns| - 1])
      case Err(e) => Err(e)
      case Ok(ts) =>
        match ExtractFrom(r, userId, patterns[|patterns| - 1])
        case Err(e) => Err(e)
        case Ok(more) => Ok(ts + more)
  }

  /** The matches one after the other, pattern by pattern. */
  function Flatten(patterns: seq<seq<Groups>>): seq<Groups>
    decreases |patterns|
  {
    if patterns == [] then [] else Flatten(patterns[..|patterns| - 1]) + patterns[|patterns| - 1]
  }

  /** Collecting two runs in turn is collecting them joined. */
  lemma {:induction false} CollectAppend(a: seq<Outcome>, b: seq<Outcome>)
    ensures Collect(a + b) ==
      match Collect(a)
      case Err(e) => Err(e)
      case Ok(ts) =>
        match Collect(b)
        case Err(e) => Err(e)
        case Ok(more) => Ok(ts + more)
    decreases |b|
  {
    if b == [] {
      assert a + b == a;
      if Collect(a).Ok? {
        assert Collect(a).value + [] == Collect(a).value;
      }
    } else {
      var n := |b| - 1;
      assert (a + b)[..|a + b| - 1] == a + b[..n];
      assert (a + b)[|a + b| - 1] == b[n];
      CollectAppend(a, b[..n]);
      if Collect(a).Ok? && Collect(b[..n]).Ok? && b[n].Emit? {
        var ts, more, t := Collect(a).value, Collect(b[..n]).value, b[n].task;
        assert ts + (more + [t]) == (ts + more) + [t];
      }
    }
  }

  lemma OutcomesAppend(r: Reading, userId: string, a: seq<Groups>, b: seq<Groups>)
    ensures Outcomes(r, userId, a + b) == Outcomes(r, userId, a) + Outcomes(r, userId, b)
  {
    var x, y := Outcomes(r, userId, a + b), Outcomes(r, userId, a) + Outcomes(r, userId, b);
    forall k | 0 <= k < |x|
      ensures x[k] == y[k]
    {
      if k < |a| {
        assert (a + b)[k] == a[k];
      } else {
        assert (a + b)[k] == b[k - |a|];
      }
    }
  }

  /** Processing two runs of matches in turn is processing them joined. */
  lemma ExtractFromAppend(r: Reading, userId: string, a: seq<Groups>, b: seq<Groups>)
    ensures ExtractFrom(r, userId, a + b) ==
      match ExtractFrom(r, userId, a)
      case Err(e) => Err(e)
      case Ok(ts) =>
        match ExtractFrom(r, userId, b)
        case Err(e) => Err(e)
        case Ok(more) => Ok(ts + more)
  {
    OutcomesAppend(r, userId, a, b);
    CollectAppend(Outcomes(r, userId, a), Outcomes(r, userId, b));
  }

  /** The whole extraction is the extraction of all matches in pattern order. */
  lemma {:induction false} ExtractedIsFlat(r: Reading, userId: string, patterns: seq<seq<Groups>>)
    ensures Extracted(r, userId, patterns) == ExtractFrom(r, userId, Flatten(patterns))
    decreases |patterns|
  {
    if patterns != [] {
      var n := |patterns| - 1;
      ExtractedIsFlat(r, userId, patterns[..n]);
      ExtractFromAppend(r, userId, Flatten(patterns[..n]), patterns[n]);
    }
  }

  /** The number of outcomes that are tasks. */
  function EmitCount(os: seq<Outcome>): nat
    decreases |os|
  {
    if os == [] then 0 else EmitCount(os[..|os| - 1]) + (if os[|os| - 1].Emit? then 1 else 0)
  }

  /**
   * A run collects exactly when none of its outcomes is an exception; it then yields one
   * task per outcome that is a task, each task being one of those outcomes.
   */
  lemma {:induction false} CollectOutcome(os: seq<Outcome>)
    ensures Collect(os).Ok? <==> forall k :: 0 <= k < |os| ==> !os[k].Raise?
    ensures Collect(os).Ok? ==>
      && |Collect(os).value| == EmitCount(os) <= |os|
      && forall t :: t in Collect(os).value ==> Emit(t) in os
    decreases |os|
  {
    if os != [] {
      var n := |os| - 1;
      CollectOutcome(os[..n]);
      assert forall k :: 0 <= k < n ==> os[..n][k] == os[k];
      if Collect(os).Ok? {
        forall t | t in Collect(os).value
          ensures Emit(t) in os
        {
          if t in Collect(os[..n]).value {
            assert Emit(t) in os[..n];
          }
        }
      }
    }
  }

  /**
   * The extraction succeeds exactly when no match raises; it then yields at most one task
   * per match, and every task it yields is well formed.
   */
  lemma ExtractedOutcome(r: Reading, userId: string, patterns: seq<seq<Groups>>)
    ensures var ms := Flatten(patterns);
      Extracted(r, userId, patterns).Ok? <==> forall k :: 0 <= k < |ms| ==> !ClassifyMatch(r, userId, ms[k]).Raise?
    ensures Extracted(r, userId, patterns).Ok? ==>
      && |Extracted(r, userId, patterns).value| <= |Flatten(patterns)|
      && forall t :: t in Extracted(r, userId, patterns).value ==> WellFormed(t, userId)
  {
    var os := Outcomes(r, userId, Flatten(patterns));
    ExtractedIsFlat(r, userId, patterns);
    CollectOutcome(os);
    if Collect(os).Ok? {
      forall t | t in Collect(os).value
        ensures WellFormed(t, userId)
      {
        var k :| 0 <= k < |os| && os[k] == Emit(t);
      }
    }
  }

  // ---------------------------------------------------------------------------
  // The extraction loop

  /** One more outcome decides how the run of the outcomes before it continues. */
  lemma CollectSnoc(os: seq<Outcome>, j: nat)
    requires j < |os|
    ensures Collect(os[..j + 1]) ==
      match Collect(os[..j])
      case Err(e) => Err(e)
      case Ok(ts) =>
        match os[j]
        case Raise(e) => Err(e)
        case Skip => Ok(ts)
        case Emit(t) => Ok(ts + [t])
  {
    assert os[..j + 1][..j] == os[..j];
  }

  /**
   * `parse_tasks_from_text`, given for each pattern the groups of its matches in text
   * order; `Err` carries the name of the exception that escapes the call.
   */
  method ParseTasksFromText(r: Reading, userId: string, patterns: seq<seq<Groups>>)
    returns (result: Result<seq<Task>, string>)
    ensures result == Extracted(r, userId, patterns)
  {
    var tasks: seq<Task> := [];
    for p := 0 to |patterns|
      invariant Extracted(r, userId, patterns[..p]) == Ok(tasks)
    {
      var outcomes := Outcomes(r, userId, patterns[p]);
      var before := tasks;
      for j := 0 to |outcomes|
        invariant Collect(outcomes[..j]).Ok?
        invariant tasks == before + Collect(outcomes[..j]).value
      {
        CollectSnoc(outcomes, j);
        match outcomes[j]
        case Raise(e) =>
          ExtractedStopsAt(r, userId, patterns, p, j);
          return Err(e);
        case Skip =>
        case Emit(t) =>
          tasks := tasks + [t];
      }
      assert outcomes[..|outcomes|] == outcomes;
      assert patterns[..p + 1][..p] == patterns[..p];
    }
    assert patterns[..|patterns|] == patterns;
    return Ok(tasks);
  }

  /** A match that raises ends the whole extraction with its exception. */
  lemma ExtractedStopsAt(r: Reading, userId: string, patterns: seq<seq<Groups>>, p: nat, j: nat)
    requires p < |patterns| && j < |patterns[p]|
    requires Extracted(r, userId, patterns[..p]).Ok?
    requires Collect(Outcomes(r, userId, patterns[p])[..j]).Ok?
    requires Outcomes(r, userId, patterns[p])[j].Raise?
    ensures Extracted(r, userId, patterns) == Err(Outcomes(r, userId, patterns[p])[j].error)
  {
    var os := Outcomes(r, userId, patterns[p]);
    CollectSnoc(os, j);
    CollectAppend(os[..j + 1], os[j + 1..]);
    assert os[..j + 1] + os[j + 1..] == os;
    assert patterns[..p + 1][..p] == patterns[..p];
    ExtractedPrefixErr(r, userId, patterns, p + 1);
  }

  /** Once a prefix of the patterns fails, the whole extraction fails the same way. */
  lemma {:induction false} ExtractedPrefixErr(r: Reading, userId: string, patterns: seq<seq<Groups>>, m: nat)
    requires m <= |patterns| && Extracted(r, userId, patterns[..m]).Err?
    ensures Extracted(r, userId, patterns) == Extracted(r, userId, patterns[..m])
    decreases |patterns| - m
  {
    if m == |patterns| {
      assert patterns[..m] == patterns;
    } else {
      assert patterns[..m + 1][..m] == patterns[..m];
      ExtractedPrefixErr(r, userId, patterns, m + 1);
    }
  }

  // ---------------------------------------------------------------------------
  // The as-written reading against the intended one

  /** The exam heading is stored as homework: the computed type never reaches the task. */
  lemma ExamItemStoredAsHomework(userId: string, date: string)
    requires IsoDate(date).Some?
    ensures ClassifyMatch(AsWritten, userId, [Some("Exam"), Some(date)]).Emit?
    ensures ClassifyMatch(AsWritten, userId, [Some("Exam"), Some(date)]).task.taskType == "homework"
    ensures ClassifyMatch(Intended, userId, [Some("Exam"), Some(date)]).task.taskType == "exam"
  {
    assert Upper("Exam") == "EXAM";
  }

  /** Every task of the intended reading carries the type its item was classified as. */
  lemma IntendedTaskCarriesType(userId: string, g: Groups)
    requires ClassifyMatch(Intended, userId, g).Emit?
    ensures var t := ClassifyMatch(Intended, userId, g).task;
      if IsFrench(Intended, g) then t.taskType == KindOf(Intended, Lower(t.title)).taskType
      else t.taskType == HeadingOf(g[0].value, NumberOf(g)).taskType
  {
  }

  /** The day `1ER` does not read as a number as written; the intended reading gives 1. */
  lemma UpperCaseOrdinalDay()
    ensures ParseDay(AsWritten, "1ER") == None
    ensures ParseDay(Intended, "1ER") == Some(1)
  {
    assert RemoveAll("1ER", "er") == "1ER";
    assert !IsDigit("1ER"[1]);
    DaySuffixAnyCase("1", "ER");
    assert "1" + "ER" == "1ER";
  }

  /** A French item on `1ER`, which the case-blind pattern captures, raises as written. */
  lemma UpperCaseOrdinalRaises(userId: string, g: Groups)
    requires IsFrench(AsWritten, g) && g[0] == Some("1ER")
    ensures ClassifyMatch(AsWritten, userId, g) == Raise("ValueError")
    ensures ParseDay(Intended, g[0].value) == Some(1)
  {
    UpperCaseOrdinalDay();
    FrenchItemBadDay(AsWritten, userId, g);
  }

  /** The intended day reading accepts the ordinal suffix in any case. */
  lemma DaySuffixAnyCase(digits: string, suffix: string)
    requires digits != [] && AllDigits(digits)
    requires Lower(suffix) == "er"
    ensures ParseDay(Intended, digits + suffix) == Some(DigitsValue(digits))
  {
    LowerDigits(digits);
    LowerAppend(digits, suffix);
    RemoveTrailing(digits, "er");
  }

  lemma LowerAppend(a: string, b: string)
    ensures Lower(a + b) == Lower(a) + Lower(b)
  {
    assert forall i :: 0 <= i < |a + b| ==> (a + b)[i] == if i < |a| then a[i] else b[i - |a|];
  }

  /** A lower-cased string never holds `Ã`, which every mis-encoded accented name does. */
  lemma LowerHasNoCapitalTilde(s: string)
    ensures forall i :: 0 <= i < |Lower(s)| ==> Lower(s)[i] != '\U{C3}'
  {
  }

  /** A string lacking one of the characters of `sub` does not contain `sub`. */
  lemma MissingCharNotContained(s: string, sub: string, j: nat)
    requires j < |sub| && forall i :: 0 <= i < |s| ==> s[i] != sub[j]
    ensures !Contains(s, sub)
  {
    forall i | 0 <= i <= |s| - |sub|
      ensures !OccursAt(s, sub, i)
    {
      assert s[i..i + |sub|][j] == s[i + j];
    }
  }

  /** As written, no accented month name survives `lower()`. */
  lemma AccentedMonthNeverFound(s: string)
    ensures forall k :: k in MonthsAsWritten && '\U{C3}' in k ==> Lower(s) != k
  {
    LowerHasNoCapitalTilde(s);
    forall k | k in MonthsAsWritten && '\U{C3}' in k
      ensures Lower(s) != k
    {
      var i :| 0 <= i < |k| && k[i] == '\U{C3}';
      if |Lower(s)| == |k| {
        assert Lower(s)[i] != k[i];
      }
    }
  }

  /**
   * As written, a match on `fÃĐvrier`, one of the mis-encoded spellings the pattern
   * captures (with `aoÃŧt` and `dÃĐcembre`), is not read as a French item; the ISO
   * branch then finds no date in its description and skips it.
   */
  lemma AccentedMonthSkipped(userId: string, g: Groups)
    requires |g| == 4 && g[0].Some? && g[1] == Some("f\U{C3}\U{110}vrier")
    requires g[3].Some? && IsoDate(g[3].value).None?
    ensures ClassifyMatch(AsWritten, userId, g) == Skip
  {
    AccentedMonthNotFrench(g);
  }

  /** No month name of the as-written table has `ã` as its second character. */
  lemma NoSmallTildeInMonths()
    ensures forall k :: k in MonthsAsWritten ==> |k| < 2 || k[1] != '\U{E3}'
  {
  }

  /** As written, `fÃĐvrier` lower-cases to `fãđvrier`-like text that names no month. */
  lemma AccentedMonthNotFrench(g: Groups)
    requires |g| == 4 && g[1] == Some("f\U{C3}\U{110}vrier")
    ensures !IsFrench(AsWritten, g)
  {
    var l := Lower(g[1].value);
    assert l[1] == LowerChar('\U{C3}') == '\U{E3}';
    NoSmallTildeInMonths();
  }

  /** The intended reading takes `février`, spelled with its accent, for February. */
  lemma AccentedMonthFound(g: Groups)
    requires |g| == 4 && g[1] == Some("f\U{E9}vrier")
    ensures IsFrench(Intended, g) && FrenchMonths(Intended)[Lower(g[1].value)] == 2
  {
    assert Lower("f\U{E9}vrier") == "f\U{E9}vrier";
  }

  /** As written, the presentation keyword can never occur in a lower-cased description. */
  lemma PresentationNeverMatches(d: string)
    ensures !Contains(Lower(d), PresentationKeyword(AsWritten))
  {
    LowerHasNoCapitalTilde(d);
    MissingCharNotContained(Lower(d), PresentationKeyword(AsWritten), 2);
  }

  /**
   * A lower-case description whose only project word is `présentation` is a project in
   * the intended reading and falls through to `other` as written.
   */
  lemma PresentationIsProject(d: string)
    requires d == Lower(d) && Contains(d, PresentationKeyword(Intended))
    requires !Contains(d, "exam") && !Contains(d, "projet") && !Contains(d, "project")
    requires !Contains(d, "remise") && !Contains(d, "rendu")
    ensures KindOf(Intended, d) == Kind("project", "high")
    ensures KindOf(AsWritten, d) == Kind("other", "medium")
  {
    KindRules(Intended, d);
    KindRules(AsWritten, d);
    PresentationNeverMatches(d);
  }
}
