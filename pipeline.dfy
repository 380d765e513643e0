/**
 * The two halves of the pipeline put together: the message the API sends for an accepted
 * request is one the processor accepts, with the same task id and fields, and a batch of
 * such messages is processed in the order the requests were made.
 */
module Pipeline {
  import opened Wrappers
  import opened DateTimes
  import opened Json
  import ApiSchema
  import opened SqsProvider
  import opened TasksRouter
  import ProcessorSchema
  import opened Handler

  /** The `due_date` the processor reads back: the isoformat text, or nothing. */
  function DueDateText(due: Option<DateTime>): (t: Option<string>)
    requires due.Some? ==> ValidDateTime(due.value)
    ensures t.None? <==> due.None?
    ensures DueDateJson(due) == if t.None? then JNull else JString(t.value)
  {
    match DueDateJson(due)
    case JNull => None
    case JString(s) => Some(s)
  }

  /** The task the processor makes of the payload built for `task` under `taskId`. */
  function Received(taskId: string, task: ApiSchema.TaskRequest): ProcessorSchema.TaskPayload
    requires ApiSchema.WellFormed(task)
  {
    ProcessorSchema.TaskPayload(taskId, task.title, task.description, task.priority, DueDateText(task.dueDate))
  }

  /**
   * The processor's rules are no stricter than the API's: a payload built from a validated
   * request under a nonempty id passes `TaskPayload`, which reads back the same id and fields.
   */
  lemma PayloadAccepted(taskId: string, task: ApiSchema.TaskRequest)
    requires ApiSchema.WellFormed(task) && taskId != ""
    ensures ProcessorSchema.ValidatePayload(BuildPayload(taskId, task)) == Success(Received(taskId, task))
  {
    PayloadFields(taskId, task);
    var due := DueDateText(task.dueDate);
    AcceptedFromFields(BuildPayload(taskId, task), taskId, task.title, task.description, task.priority, due);
  }

  /** A message whose five keys look up to valid values is accepted with exactly those values. */
  lemma AcceptedFromFields(
    p: JsonObject, taskId: string, title: string, description: string, priority: string, due: Option<string>)
    requires taskId != "" && 1 <= |title| <= 200 && description != "" && priority in ApiSchema.Priorities
    requires Lookup(p, "task_id") == Some(JString(taskId))
    requires Lookup(p, "title") == Some(JString(title))
    requires Lookup(p, "description") == Some(JString(description))
    requires Lookup(p, "priority") == Some(JString(priority))
    requires Lookup(p, "due_date") == Some(if due.None? then JNull else JString(due.value))
    ensures ProcessorSchema.ValidatePayload(p) == Success(ProcessorSchema.TaskPayload(taskId, title, description, priority, due))
  {
  }

  /**
   * The body the API sends for an accepted request, once it reaches the handler, decodes to
   * the payload and passes the processor.
   */
  lemma SentMessagePasses(taskId: string, task: ApiSchema.TaskRequest)
    requires ApiSchema.WellFormed(task) && taskId != ""
    ensures var p := BuildPayload(taskId, task);
      RecordStep(Record(Some(Dumps(p)))) == Step(Some(p), Pass)
  {
    var p := BuildPayload(taskId, task);
    DumpsLoadsRoundTrip(p);
    PayloadAccepted(taskId, task);
    ValidRecordPasses(Dumps(p), p);
  }

  /**
   * The id a successful request answers with is the one the message carries in `task_id`
   * and the one SQS deduplicates on.
   */
  lemma SameIdEverywhere(
    task: ApiSchema.TaskRequest, env: map<string, string>, reply: Result<SendResponse, string>,
    calls0: seq<SendCall>, calls1: seq<SendCall>, issued0: seq<string>, issued1: seq<string>,
    r: ApiResponse)
    requires ApiSchema.WellFormed(task)
    requires CreateTaskEffect(task, env, reply, calls0, calls1, issued0, issued1, r)
    requires r.Created?
    ensures |calls1| == |calls0| + 1
    ensures var sent := calls1[|calls0|];
      && sent.messageDeduplicationId == r.taskId
      && sent.messageGroupId == MessageGroupId
      && Loads(sent.messageBody).Some?
      && Lookup(Loads(sent.messageBody).value, "task_id") == Some(JString(r.taskId))
  {
    var p := BuildPayload(r.taskId, task);
    assert calls1[|calls0|] == SendCall(ConfiguredQueueUrl(env).value, Dumps(p), MessageGroupId, r.taskId);
    DumpsLoadsRoundTrip(p);
    PayloadFields(r.taskId, task);
  }

  /**
   * A naive due date goes out as the UTC instant with the same wall clock: its isoformat
   * followed by "+00:00".
   */
  lemma NaiveDueDateSentAsUtc(raw: ApiSchema.RawTaskRequest, now: int, taskId: string)
    requires ApiSchema.WellTyped(raw)
    requires raw.dueDate.DueDateValue? && raw.dueDate.value.offset.None?
    requires ApiSchema.ValidateTaskRequest(raw, now).Success?
    ensures Lookup(BuildPayload(taskId, ApiSchema.ValidateTaskRequest(raw, now).value), "due_date")
      == Some(JString(IsoFormat(raw.dueDate.value) + "+00:00"))
  {
    var v := raw.dueDate.value;
    var task := ApiSchema.ValidateTaskRequest(raw, now).value;
    ApiSchema.NaiveDueDateBecomesUtc(v, now);
    assert task.dueDate == Some(WithUtc(v));
    IsoFormatWithUtc(v);
    PayloadFields(taskId, task);
  }

  /** The records SQS delivers for the messages sent for `tasks` under `ids`, in send order. */
  function SentRecords(ids: seq<string>, tasks: seq<ApiSchema.TaskRequest>): (recs: seq<Record>)
    requires |ids| == |tasks|
    requires forall i | 0 <= i < |tasks| :: ApiSchema.WellFormed(tasks[i])
    ensures |recs| == |tasks|
    ensures forall i | 0 <= i < |tasks| :: recs[i] == Record(Some(Dumps(BuildPayload(ids[i], tasks[i]))))
  {
    seq(|tasks|, i requires 0 <= i < |tasks| => Record(Some(Dumps(BuildPayload(ids[i], tasks[i])))))
  }

  /**
   * A batch made only of messages the API sent is handled without error, and the processor
   * sees every payload exactly once, in the order the requests were made.
   */
  lemma SentBatchProcessedInOrder(ids: seq<string>, tasks: seq<ApiSchema.TaskRequest>)
    requires |ids| == |tasks|
    requires forall i | 0 <= i < |tasks| :: ApiSchema.WellFormed(tasks[i]) && ids[i] != ""
    ensures var ss := Steps(SentRecords(ids, tasks));
      && FirstFailure(ss) == Pass
      && |Attempted(ss)| == |tasks|
      && forall i | 0 <= i < |tasks| :: Attempted(ss)[i] == BuildPayload(ids[i], tasks[i])
  {
    var recs := SentRecords(ids, tasks);
    var ss := Steps(recs);
    forall i | 0 <= i < |tasks|
      ensures ss[i] == Step(Some(BuildPayload(ids[i], tasks[i])), Pass)
    {
      SentMessagePasses(ids[i], tasks[i]);
    }
    BatchPassesIffAllPass(ss);
    AllPassInOrder(ss);
  }

  /**
   * When a valid message is followed by one whose title is empty, the batch raises the
   * validation error naming `title`, after the first message has been processed.
   */
  lemma EmptyTitleSecondStopsBatch(taskId: string, task: ApiSchema.TaskRequest, body: string, bad: JsonObject)
    requires ApiSchema.WellFormed(task) && taskId != ""
    requires Loads(body) == Some(bad)
    requires Lookup(bad, "title") == Some(JString(""))
    ensures var ss := Steps([Record(Some(Dumps(BuildPayload(taskId, task)))), Record(Some(body))]);
      && FirstFailure(ss).Fail?
      && FirstFailure(ss).error.ValidationError?
      && "title" in FirstFailure(ss).error.fields
      && Attempted(ss) == [BuildPayload(taskId, task), bad]
  {
    var good := Record(Some(Dumps(BuildPayload(taskId, task))));
    SentMessagePasses(taskId, task);
    ProcessorSchema.EmptyTitleRefused(bad);
    FailsSecond(Steps([good, Record(Some(body))]), BuildPayload(taskId, task), bad);
  }
}
