/**
 * The processor's `TaskPayload` model: which decoded messages it accepts and the task it
 * makes of them. Keys it does not know are ignored; a later duplicate key wins, as in the
 * dict `json.loads` builds.
 */
module ProcessorSchema {
  import opened Wrappers
  import opened Json

  datatype TaskPayload = TaskPayload(
    taskId: string,
    title: string,
    description: string,
    priority: string,
    dueDate: Option<string>)

  const PayloadFields: seq<string> := ["task_id", "title", "description", "priority", "due_date"]

  /** The string under `key`; None when the key is missing or holds null. */
  function StringField(obj: JsonObject, key: string): (r: Option<string>)
    ensures r.Some? <==> Lookup(obj, key).Some? && Lookup(obj, key).value.JString?
    ensures r.Some? ==> Lookup(obj, key) == Some(JString(r.value))
  {
    match Lookup(obj, key)
    case Some(JString(s)) => Some(s)
    case _ => None
  }

  predicate TaskIdOk(obj: JsonObject) {
    var v := StringField(obj, "task_id");
    v.Some? && 1 <= |v.value|
  }

  predicate TitleOk(obj: JsonObject) {
    var v := StringField(obj, "title");
    v.Some? && 1 <= |v.value| <= 200
  }

  predicate DescriptionOk(obj: JsonObject) {
    var v := StringField(obj, "description");
    v.Some? && 1 <= |v.value|
  }

  predicate PriorityOk(obj: JsonObject) {
    var v := StringField(obj, "priority");
    v.Some? && v.value in {"low", "medium", "high"}
  }

  /** Every payload field constraint holds; `due_date` (an optional string) always does. */
  predicate PayloadOk(obj: JsonObject) {
    TaskIdOk(obj) && TitleOk(obj) && DescriptionOk(obj) && PriorityOk(obj)
  }

  function FieldError(ok: bool, field: string): seq<string> {
    if ok then [] else [field]
  }

  /**
   * `TaskPayload(**task)`: the payload when every constraint holds, otherwise the names
   * of the failing fields in declaration order.
   */
  function ValidatePayload(obj: JsonObject): (r: Result<TaskPayload, seq<string>>)
    ensures r.Success? <==> PayloadOk(obj)
    ensures r.Success? ==>
      && Some(r.value.taskId) == StringField(obj, "task_id")
      && Some(r.value.title) == StringField(obj, "title")
      && Some(r.value.description) == StringField(obj, "description")
      && Some(r.value.priority) == StringField(obj, "priority")
      && r.value.dueDate == StringField(obj, "due_date")
    ensures r.Failure? ==>
      && r.error != []
      && ("task_id" in r.error <==> !TaskIdOk(obj))
      && ("title" in r.error <==> !TitleOk(obj))
      && ("description" in r.error <==> !DescriptionOk(obj))
      && ("priority" in r.error <==> !PriorityOk(obj))
      && "due_date" !in r.error
  {
    var errors :=
      FieldError(TaskIdOk(obj), "task_id")
      + FieldError(TitleOk(obj), "title")
      + FieldError(DescriptionOk(obj), "description")
      + FieldError(PriorityOk(obj), "priority");
    if errors == [] then
      Success(TaskPayload(
        StringField(obj, "task_id").value,
        StringField(obj, "title").value,
        StringField(obj, "description").value,
        StringField(obj, "priority").value,
        StringField(obj, "due_date")))
    else
      Failure(errors)
  }

  /** A key the model does not declare changes nothing: pydantic ignores extra fields. */
  lemma ExtraKeyIgnored(obj: JsonObject, m: Member)
    requires m.key !in PayloadFields
    ensures ValidatePayload(obj + [m]) == ValidatePayload(obj)
  {
    forall k | k in PayloadFields
      ensures StringField(obj + [m], k) == StringField(obj, k)
    {
      LookupAppend(obj, m, k);
    }
  }

  /** A message with no `task_id` is refused, and the error names it. */
  lemma MissingTaskIdRefused(obj: JsonObject)
    requires "task_id" !in Keys(obj)
    ensures ValidatePayload(obj).Failure?
    ensures "task_id" in ValidatePayload(obj).error
  {
    LookupFound(obj, "task_id");
  }

  /** An empty title is refused whatever else the message holds. */
  lemma EmptyTitleRefused(obj: JsonObject)
    requires Lookup(obj, "title") == Some(JString(""))
    ensures ValidatePayload(obj).Failure?
    ensures "title" in ValidatePayload(obj).error
  {
  }

  /** A null where a required string belongs is refused like a missing key. */
  lemma NullPriorityRefused(obj: JsonObject)
    requires Lookup(obj, "priority") == Some(JNull)
    ensures "priority" in ValidatePayload(obj).error
  {
  }
}
