/**
 * `TaskProcessor.process`: validate the decoded message as a `TaskPayload` and log it.
 * It has no side effects, so it is a function: the same message always gives the same
 * outcome, which is what makes a redelivered message safe to process again.
 */
module TaskProcessor {
  import opened Wrappers
  import opened Json
  import opened ProcessorSchema

  /** Returns normally exactly when the payload is valid; otherwise raises naming the bad fields. */
  function Process(task: JsonObject): (r: Outcome<seq<string>>)
    ensures r.Pass? <==> PayloadOk(task)
    ensures r.Fail? ==>
      && r.error != []
      && forall f | f in r.error :: f in PayloadFields
  {
    match ValidatePayload(task)
    case Success(_) => Pass
    case Failure(fields) =>
      assert forall f | f in fields :: f in PayloadFields by {
        forall f | f in fields ensures f in PayloadFields {
          var errors :=
            FieldError(TaskIdOk(task), "task_id") + FieldError(TitleOk(task), "title")
            + FieldError(DescriptionOk(task), "description") + FieldError(PriorityOk(task), "priority");
          assert fields == errors;
        }
      }
      Fail(fields)
  }
}
