/**
 * `POST /tasks`: the body is validated into a `TaskRequest` (422 on failure), a fresh task
 * id is drawn, the payload dict is built, and the task is enqueued through a freshly built
 * SQS provider; any failure from there on is a 500 with a fixed detail, success is a 201
 * with the task id.
 */
module TasksRouter {
  import opened Wrappers
  import opened Text
  import opened DateTimes
  import opened Json
  import opened ApiSchema
  import opened SqsProvider
  import opened QueueService

  /** The HTTP outcome of a request: 201 with the id, 422 with the failing fields, or 500. */
  datatype ApiResponse = Created(taskId: string) | Unprocessable(fields: seq<string>) | ServerError(detail: string)

  function StatusCode(r: ApiResponse): int {
    match r
    case Created(_) => 201
    case Unprocessable(_) => 422
    case ServerError(_) => 500
  }

  const EnqueueFailed: string := "Failed to enqueue task"

  const PayloadKeys: seq<string> := ["task_id", "title", "description", "priority", "due_date"]

  /**
   * The source of task ids (`str(uuid4())`): every id it hands out differs from all the
   * ones before it. `issued` is the history of ids handed out.
   */
  class IdSource {
    var count: nat
    ghost var issued: seq<string>

    ghost predicate Valid()
      reads this
    {
      && |issued| == count
      && forall i | 0 <= i < count :: issued[i] == Decimal(i)
    }

    constructor ()
      ensures Valid() && issued == []
    {
      count := 0;
      issued := [];
    }

    method NewId() returns (id: string)
      requires Valid()
      modifies this
      ensures Valid()
      ensures issued == old(issued) + [id]
      ensures id !in old(issued) && id != ""
    {
      id := Decimal(count);
      forall i | 0 <= i < count
        ensures issued[i] != id
      {
        if issued[i] == id {
          DecimalInjective(i, count);
        }
      }
      issued := issued + [id];
      count := count + 1;
    }
  }

  /** The `due_date` entry of the payload: its isoformat, or null when there is none. */
  function DueDateJson(due: Option<DateTime>): (v: JsonValue)
    requires due.Some? ==> ValidDateTime(due.value)
    ensures v.JNull? <==> due.None?
  {
    match due
    case None => JNull
    case Some(d) => JString(IsoFormat(d))
  }

  /** The payload dict, in the key order the router writes it. */
  function BuildPayload(taskId: string, task: TaskRequest): (p: JsonObject)
    requires WellFormed(task)
    ensures Keys(p) == PayloadKeys
  {
    [ Member("task_id", JString(taskId)),
      Member("title", JString(task.title)),
      Member("description", JString(task.description)),
      Member("priority", JString(task.priority)),
      Member("due_date", DueDateJson(task.dueDate)) ]
  }

  /** Looking the payload up by key gives back the id and the request's fields. */
  lemma PayloadFields(taskId: string, task: TaskRequest)
    requires WellFormed(task)
    ensures var p := BuildPayload(taskId, task);
      && Lookup(p, "task_id") == Some(JString(taskId))
      && Lookup(p, "title") == Some(JString(task.title))
      && Lookup(p, "description") == Some(JString(task.description))
      && Lookup(p, "priority") == Some(JString(task.priority))
      && Lookup(p, "due_date") == Some(DueDateJson(task.dueDate))
  {
    var p := BuildPayload(taskId, task);
    PayloadKeyUnique(p, 0);
    PayloadKeyUnique(p, 1);
    PayloadKeyUnique(p, 2);
    PayloadKeyUnique(p, 3);
    PayloadKeyUnique(p, 4);
  }

  /** In an object with the payload's keys, member `i` is the one found under its key. */
  lemma PayloadKeyUnique(p: JsonObject, i: nat)
    requires Keys(p) == PayloadKeys && i < 5
    ensures Lookup(p, PayloadKeys[i]) == Some(p[i].value)
  {
    assert Keys(p[i + 1..]) == PayloadKeys[i + 1..];
    assert p[i].key == PayloadKeys[i];
    LookupLastWins(p, i);
  }

  /**
   * What one call of `create_task` does, from the client's calls and the issued ids before
   * (`calls0`, `issued0`) to after (`calls1`, `issued1`): one new id is always drawn; with
   * no queue URL nothing is sent and the answer is a 500; otherwise exactly one message
   * carrying the JSON payload is sent, and the answer is 201 with the new id if the send
   * succeeded and a 500 if it raised.
   */
  ghost predicate CreateTaskEffect(
    task: TaskRequest, env: map<string, string>, reply: Result<SendResponse, string>,
    calls0: seq<SendCall>, calls1: seq<SendCall>, issued0: seq<string>, issued1: seq<string>,
    r: ApiResponse)
    requires WellFormed(task)
  {
    && |issued1| == |issued0| + 1
    && issued1[..|issued0|] == issued0
    && var id := issued1[|issued0|];
    && id !in issued0
    && id != ""
    && match ConfiguredQueueUrl(env)
       case None => calls1 == calls0 && r == ServerError(EnqueueFailed)
       case Some(url) =>
         && calls1 == calls0 + [SendCall(url, Dumps(BuildPayload(id, task)), MessageGroupId, id)]
         && r == (if reply.Success? then Created(id) else ServerError(EnqueueFailed))
  }

  /** Two successful requests in a row answer with different task ids. */
  lemma DistinctTaskIds(
    task1: TaskRequest, task2: TaskRequest, env: map<string, string>, reply: Result<SendResponse, string>,
    calls0: seq<SendCall>, calls1: seq<SendCall>, calls2: seq<SendCall>,
    issued0: seq<string>, issued1: seq<string>, issued2: seq<string>, r1: ApiResponse, r2: ApiResponse)
    requires WellFormed(task1) && WellFormed(task2)
    requires CreateTaskEffect(task1, env, reply, calls0, calls1, issued0, issued1, r1)
    requires CreateTaskEffect(task2, env, reply, calls1, calls2, issued1, issued2, r2)
    requires r1.Created? && r2.Created?
    ensures r1.taskId != r2.taskId
  {
    assert r1.taskId == issued1[|issued0|];
    assert r2.taskId == issued2[|issued1|];
  }

  /** `create_task` on a validated request. */
  method CreateTask(task: TaskRequest, env: map<string, string>, client: SqsClient, ids: IdSource)
    returns (r: ApiResponse)
    requires WellFormed(task) && ids.Valid()
    modifies client, ids
    ensures ids.Valid()
    ensures StatusCode(r) == 201 || StatusCode(r) == 500
    ensures CreateTaskEffect(task, env, client.reply, old(client.calls), client.calls,
                             old(ids.issued), ids.issued, r)
  {
    var taskId := ids.NewId();
    var payload := BuildPayload(taskId, task);
    assert ids.issued[..|old(ids.issued)|] == old(ids.issued);
    var provider := SqsQueueProvider.Create(env, client);
    if provider.Failure? {
      return ServerError(EnqueueFailed);
    }
    var service := new TaskQueueService(provider.value);
    var sent := service.EnqueueTask(payload, taskId);
    if sent.Failure? {
      return ServerError(EnqueueFailed);
    }
    r := Created(taskId);
  }

  /**
   * The route as a whole: a body that fails validation is a 422 naming the failing fields,
   * with no id drawn and nothing sent; a valid one goes through `create_task`.
   */
  method PostTask(raw: RawTaskRequest, now: int, env: map<string, string>, client: SqsClient, ids: IdSource)
    returns (r: ApiResponse)
    requires WellTyped(raw) && ids.Valid()
    modifies client, ids
    ensures ids.Valid()
    ensures StatusCode(r) == 422 <==> ValidateTaskRequest(raw, now).Failure?
    ensures ValidateTaskRequest(raw, now).Failure? ==>
      && r == Unprocessable(ValidateTaskRequest(raw, now).error)
      && client.calls == old(client.calls)
      && ids.issued == old(ids.issued)
    ensures ValidateTaskRequest(raw, now).Success? ==>
      CreateTaskEffect(ValidateTaskRequest(raw, now).value, env, client.reply,
                       old(client.calls), client.calls, old(ids.issued), ids.issued, r)
  {
    var task := ValidateTaskRequest(raw, now);
    if task.Failure? {
      return Unprocessable(task.error);
    }
    r := CreateTask(task.value, env, client, ids);
  }
}
