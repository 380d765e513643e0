/**
 * The API's request model `TaskRequest`: its field constraints and the due-date validator
 * that turns a naive datetime into a UTC one and refuses a due date in the past.
 */
module ApiSchema {
  import opened Wrappers
  import opened DateTimes

  /**
   * What the request body holds for `due_date` once parsed: nothing (absent or null),
   * a datetime, or a value that is not a datetime at all.
   */
  datatype RawDueDate = NoDueDate | DueDateValue(value: DateTime) | Unparsable

  /** The request body as received; None is a field that is missing or not a string. */
  datatype RawTaskRequest = RawTaskRequest(
    title: Option<string>,
    description: Option<string>,
    priority: Option<string>,
    dueDate: RawDueDate)

  /** A validated request; an accepted due date is always aware. */
  datatype TaskRequest = TaskRequest(
    title: string,
    description: string,
    priority: string,
    dueDate: Option<DateTime>)

  const Priorities: set<string> := {"low", "medium", "high"}

  /** A parsed datetime is always a real one. */
  predicate WellTyped(raw: RawTaskRequest) {
    raw.dueDate.DueDateValue? ==> ValidDateTime(raw.dueDate.value)
  }

  predicate TitleOk(t: Option<string>) {
    t.Some? && 1 <= |t.value| <= 200
  }

  predicate DescriptionOk(d: Option<string>) {
    d.Some? && 1 <= |d.value|
  }

  predicate PriorityOk(p: Option<string>) {
    p.Some? && p.value in Priorities
  }

  /** The datetime the validator compares: a naive one is read as UTC. */
  function AsAware(v: DateTime): (r: DateTime)
    requires ValidDateTime(v)
    ensures ValidDateTime(r) && r.offset.Some?
    ensures v.offset.Some? ==> r == v
    ensures v.offset.None? ==> r == WithUtc(v)
  {
    if v.offset.None? then WithUtc(v) else v
  }

  /** What a validated request promises the router. */
  predicate WellFormed(req: TaskRequest) {
    && 1 <= |req.title| <= 200
    && 1 <= |req.description|
    && req.priority in Priorities
    && (req.dueDate.Some? ==> ValidDateTime(req.dueDate.value) && req.dueDate.value.offset.Some?)
  }

  /**
   * `due_date_must_be_future`, with `now` the instant `datetime.now(timezone.utc)` reads.
   * A due date equal to now is accepted: only a strictly earlier one is refused.
   */
  function ValidateDueDate(d: RawDueDate, now: int): (r: Result<Option<DateTime>, string>)
    requires d.DueDateValue? ==> ValidDateTime(d.value)
    ensures d.NoDueDate? ==> r == Success(None)
    ensures d.Unparsable? ==> r.Failure?
    ensures d.DueDateValue? ==>
      (r.Success? <==> now <= Instant(AsAware(d.value)))
    ensures r.Success? && r.value.Some? ==>
      && d.DueDateValue?
      && r.value.value == AsAware(d.value)
      && now <= Instant(r.value.value)
  {
    match d
    case NoDueDate => Success(None)
    case Unparsable => Failure("invalid datetime format")
    case DueDateValue(v) =>
      var u := AsAware(v);
      if Instant(u) < now then Failure("due_date must be in the future") else Success(Some(u))
  }

  function ErrorIf(failed: bool, field: string): seq<string> {
    if failed then [field] else []
  }

  /**
   * Pydantic's validation of the request body: every field is checked, and the names of
   * the fields that failed are reported in declaration order (the 422 response).
   */
  function ValidateTaskRequest(raw: RawTaskRequest, now: int): (r: Result<TaskRequest, seq<string>>)
    requires WellTyped(raw)
    ensures r.Success? <==>
      && TitleOk(raw.title) && DescriptionOk(raw.description) && PriorityOk(raw.priority)
      && ValidateDueDate(raw.dueDate, now).Success?
    ensures r.Success? ==>
      && WellFormed(r.value)
      && Some(r.value.title) == raw.title
      && Some(r.value.description) == raw.description
      && Some(r.value.priority) == raw.priority
      && r.value.dueDate == ValidateDueDate(raw.dueDate, now).value
      && (r.value.dueDate.Some? ==> now <= Instant(r.value.dueDate.value))
    ensures r.Failure? ==>
      && r.error != []
      && ("title" in r.error <==> !TitleOk(raw.title))
      && ("description" in r.error <==> !DescriptionOk(raw.description))
      && ("priority" in r.error <==> !PriorityOk(raw.priority))
      && ("due_date" in r.error <==> ValidateDueDate(raw.dueDate, now).Failure?)
  {
    var due := ValidateDueDate(raw.dueDate, now);
    var errors :=
      ErrorIf(!TitleOk(raw.title), "title")
      + ErrorIf(!DescriptionOk(raw.description), "description")
      + ErrorIf(!PriorityOk(raw.priority), "priority")
      + ErrorIf(due.Failure?, "due_date");
    if errors == [] then
      Success(TaskRequest(raw.title.value, raw.description.value, raw.priority.value, due.value))
    else
      Failure(errors)
  }

  /** A naive due date is stored as the same wall clock in UTC. */
  lemma NaiveDueDateBecomesUtc(v: DateTime, now: int)
    requires ValidDateTime(v) && v.offset.None?
    requires ValidateDueDate(DueDateValue(v), now).Success?
    ensures ValidateDueDate(DueDateValue(v), now) == Success(Some(v.(offset := Some(0))))
  {
  }

  /**
   * The validator is monotone in time: if a due date is accepted, so is every later one
   * written with the same offset (or both naive).
   */
  lemma LaterDueDateAccepted(a: DateTime, b: DateTime, now: int)
    requires ValidDateTime(a) && ValidDateTime(b) && a.offset == b.offset
    requires FieldsBefore(a, b)
    requires ValidateDueDate(DueDateValue(a), now).Success?
    ensures ValidateDueDate(DueDateValue(b), now).Success?
  {
    InstantChronological(AsAware(a), AsAware(b));
  }

  /** Once the clock has passed a due date it is refused, whatever the rest of the request. */
  lemma PastDueDateRefused(raw: RawTaskRequest, now: int)
    requires WellTyped(raw) && raw.dueDate.DueDateValue?
    requires Instant(AsAware(raw.dueDate.value)) < now
    ensures ValidateTaskRequest(raw, now).Failure?
    ensures "due_date" in ValidateTaskRequest(raw, now).error
  {
  }

  /** A request without a due date does not depend on the clock. */
  lemma NoDueDateIgnoresClock(raw: RawTaskRequest, now1: int, now2: int)
    requires raw.dueDate.NoDueDate?
    ensures ValidateTaskRequest(raw, now1) == ValidateTaskRequest(raw, now2)
  {
  }

  /** A request body with no title is refused, and the error names `title`. */
  lemma MissingTitleRefused(now: int)
    ensures ValidateTaskRequest(RawTaskRequest(None, Some("Desc"), Some("low"), NoDueDate), now)
      == Failure(["title"])
  {
    assert !TitleOk(None) && DescriptionOk(Some("Desc")) && PriorityOk(Some("low"));
    assert ErrorIf(true, "title") + [] + [] + [] == ["title"];
  }

  /** A priority outside low/medium/high, such as "urgent", is refused. */
  lemma UnknownPriorityRefused(now: int)
    ensures ValidateTaskRequest(RawTaskRequest(Some("Task"), Some("Desc"), Some("urgent"), NoDueDate), now)
      == Failure(["priority"])
  {
    assert TitleOk(Some("Task")) && DescriptionOk(Some("Desc"));
    assert !PriorityOk(Some("urgent"));
    assert [] + [] + ErrorIf(true, "priority") + [] == ["priority"];
  }

  /** A 201-character title is one too many. */
  lemma LongTitleRefused(title: string, now: int)
    requires |title| == 201
    ensures ValidateTaskRequest(RawTaskRequest(Some(title), Some("Desc"), Some("low"), NoDueDate), now)
      == Failure(["title"])
  {
    assert !TitleOk(Some(title)) && DescriptionOk(Some("Desc")) && PriorityOk(Some("low"));
    assert ErrorIf(true, "title") + [] + [] + [] == ["title"];
  }
}
