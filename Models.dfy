/**
 * The request and response records of the study planner: a task, a scheduled time
 * block, the student's weekly availability and a planning request, with the
 * enumerated-string and range constraints their fields are validated against and
 * the defaults a record gets when a field is omitted.
 */
module Models {
  import opened Wrappers
  import opened Calendar

  /** An academic task. Durations are in minutes. */
  datatype Task = Task(
    id: Option<string>,
    userId: string,
    courseId: Option<string>,
    title: string,
    description: Option<string>,
    taskType: string,
    priority: string,
    status: string,
    dueDate: Option<DateTime>,
    estimatedDuration: Option<int>,
    actualDuration: Option<int>,
    completedAt: Option<DateTime>,
    createdAt: Option<DateTime>,
    updatedAt: Option<DateTime>)

  /** A scheduled study session; start and end are instants in seconds (see `Calendar.InstantOf`). */
  datatype TimeBlock = TimeBlock(
    id: Option<string>,
    userId: string,
    taskId: Option<string>,
    title: string,
    description: Option<string>,
    startTime: int,
    endTime: int,
    blockType: string,
    isCompleted: bool,
    createdAt: Option<DateTime>,
    updatedAt: Option<DateTime>)

  /** The daily study window, as seconds past midnight, and the weekday names it applies to. */
  datatype Availability = Availability(startTime: int, endTime: int, days: seq<string>)

  datatype PlanRequest = PlanRequest(
    userId: string,
    tasks: seq<Task>,
    availability: Availability,
    studyHoursPerDay: int)

  const TaskTypes: seq<string> := ["homework", "exam", "project", "reading", "other"]
  const Priorities: seq<string> := ["low", "medium", "high", "urgent"]
  const Statuses: seq<string> := ["todo", "in_progress", "completed", "cancelled"]
  const BlockTypes: seq<string> := ["study", "break", "exam", "class", "other"]
  const DefaultDays: seq<string> := ["monday", "tuesday", "wednesday", "thursday", "friday"]
  const MinStudyHours := 1
  const MaxStudyHours := 12

  predicate ValidOptionalDateTime(t: Option<DateTime>) {
    t.Some? ==> ValidDateTime(t.value)
  }

  /** The constraints a `Task` is validated against. */
  predicate ValidTask(t: Task) {
    && t.taskType in TaskTypes
    && t.priority in Priorities
    && t.status in Statuses
    && ValidOptionalDateTime(t.dueDate)
    && ValidOptionalDateTime(t.completedAt)
    && ValidOptionalDateTime(t.createdAt)
    && ValidOptionalDateTime(t.updatedAt)
  }

  /** The constraints a `TimeBlock` is validated against. */
  predicate ValidTimeBlock(b: TimeBlock) {
    && b.blockType in BlockTypes
    && ValidOptionalDateTime(b.createdAt)
    && ValidOptionalDateTime(b.updatedAt)
  }

  /** Both ends of the window are times of day. */
  predicate ValidAvailability(a: Availability) {
    0 <= a.startTime < SecondsPerDay && 0 <= a.endTime < SecondsPerDay
  }

  /** The constraints a `PlanRequest` is validated against, its tasks' included. */
  predicate ValidPlanRequest(r: PlanRequest) {
    && MinStudyHours <= r.studyHoursPerDay <= MaxStudyHours
    && ValidAvailability(r.availability)
    && forall t :: t in r.tasks ==> ValidTask(t)
  }

  /** A task given only its required fields: type homework, priority medium, status todo. */
  function NewTask(userId: string, title: string): (t: Task)
    ensures ValidTask(t)
    ensures t.userId == userId && t.title == title
    ensures t.taskType == "homework" && t.priority == "medium" && t.status == "todo"
    ensures t.dueDate.None? && t.estimatedDuration.None?
  {
    Task(None, userId, None, title, None, "homework", "medium", "todo", None, None, None, None, None, None)
  }

  /** A time block given only its required fields: a study block, not completed. */
  function NewTimeBlock(userId: string, title: string, startTime: int, endTime: int): (b: TimeBlock)
    ensures ValidTimeBlock(b)
    ensures b.blockType == "study" && !b.isCompleted
    ensures b.userId == userId && b.title == title && b.startTime == startTime && b.endTime == endTime
  {
    TimeBlock(None, userId, None, title, None, startTime, endTime, "study", false, None, None)
  }

  /** An availability given only its window: Monday to Friday. */
  function NewAvailability(startTime: int, endTime: int): (a: Availability)
    ensures a.startTime == startTime && a.endTime == endTime
    ensures forall o :: WeekdayName(o) in a.days <==> Weekday(o) < 5
    ensures forall d :: d in a.days ==> d in WeekdayNames
  {
    Availability(startTime, endTime, DefaultDays)
  }

  /** A planning request given no daily limit: four study hours a day. */
  function NewPlanRequest(userId: string, tasks: seq<Task>, availability: Availability): (r: PlanRequest)
    ensures r.studyHoursPerDay == 4
    ensures r.userId == userId && r.tasks == tasks && r.availability == availability
    ensures ValidAvailability(availability) && (forall t :: t in tasks ==> ValidTask(t)) ==> ValidPlanRequest(r)
  {
    PlanRequest(userId, tasks, availability, 4)
  }
}
