# queue-processing-app, modelled in Dafny

The system is a two-sided task pipeline.

On the ingestion side, `POST /tasks` validates a `TaskRequest`: a title of 1–200 characters, a non-empty description, a priority of `low`, `medium` or `high`, and an optional due date that must not lie in the past, where a naive datetime is read as UTC. The route then draws a fresh task id and builds a five-key payload dict. It enqueues the payload through `TaskQueueService`, which serialises it once with `json.dumps`. The service hands it to `SQSQueueProvider`, which sends it to a FIFO queue:

- the message group is always `"tasks"`;
- the deduplication id is the task id.

Any failure from building the provider onwards becomes one opaque HTTP 500.

On the processor side, the Lambda `handle` walks the SQS records in order. It calls `json.loads` on each body and validates the result as a `TaskPayload` (`TaskProcessor.process`). The first record that fails re-raises its exception, and the records after it are skipped.

The project is organised as follows:

| file | module | what it holds |
|---|---|---|
| `wrappers.dfy` | `Wrappers` | `Option`, `Result` and `Outcome` (return normally, or raise an error) |
| `text.dfy` | `Text` | decimal numerals and zero-padding |
| `json.dfy` | `Json` | `json.dumps` with default settings and `json.loads` on flat objects of string/null values; dict lookup where a later duplicate key wins; the round trip `Loads(Dumps(o)) == Some(o)` |
| `datetimes.dfy` | `DateTimes` | the part of `datetime` the API uses: fields, the proleptic ordinal, the UTC instant of an aware datetime, `replace(tzinfo=utc)`, `isoformat()` |
| `api_schema.dfy` | `ApiSchema` | `TaskRequest` and `due_date_must_be_future`, with `now` as a parameter |
| `sqs_provider.dfy` | `SqsProvider` | the boto3 client, as a class recording each call; `SQSQueueProvider` as a class |
| `queue_service.dfy` | `QueueService` | `TaskQueueService` as a class |
| `tasks_router.dfy` | `TasksRouter` | `create_task`; the id source standing for `uuid4`; the payload |
| `processor_schema.dfy` | `ProcessorSchema` | `TaskPayload` |
| `task_processor.dfy` | `TaskProcessor` | `TaskProcessor.process` |
| `handler.dfy` | `Handler` | `handle` as a method with a `while` loop and a ghost trace of the messages handed to the processor |
| `pipeline.dfy` | `Pipeline` | both halves together: what the API sends, the processor accepts, in order |

The handler's loop is proved against two specification functions over the per-record steps:

- `FirstFailure` is the batch outcome;
- `Attempted` is the list of messages passed to `process`.

Separate lemmas then prove what those functions promise.

Three details of the code are easy to misread, and the model follows the code in each:

- The validator is named `due_date_must_be_future` and its message says the due date "must be in the future" (services/api/schemas/task.py:14,22). The test itself is `v < now` (services/api/schemas/task.py:21), so a due date equal to `now` is accepted.
- `services/api/app.py` refuses to start without `QUEUE_URL` (services/api/app.py:15-17), but that module is not part of this model. In the modelled route, the check happens when `SQSQueueProvider` is built (services/api/services/queue/sqs_provider.py:13-15). That is inside the route's `try` (services/api/routers/tasks.py:26-34), so a missing or empty `QUEUE_URL` is a 500 on each request.
- The processor's `TaskPayload` has no whitespace-only-title check: `" "` is a valid title there (services/processor/schemas/task.py:7).

## Model

| member | source | states |
|---|---|---|
| `ApiSchema.ValidateTaskRequest` | services/api/schemas/task.py:7-11 | a request is accepted iff the title has 1–200 characters, the description is non-empty, the priority is low/medium/high and the due-date validator accepts; an accepted request copies the title, description and priority, carries exactly the due date the validator returned (none, or its aware form), and is well formed, with that due date no earlier than now; a refusal is non-empty and names exactly the failing fields |
| `ApiSchema.ValidateDueDate` | services/api/schemas/task.py:13-23 | no due date passes as None; an unparsable one is refused; a datetime is accepted iff now is not after the instant of its UTC-aware form, and the accepted value is that aware form |
| `ApiSchema.AsAware` | services/api/schemas/task.py:19-20 | a naive datetime gets offset zero with the same wall clock; an aware one is unchanged |
| `ApiSchema.NaiveDueDateBecomesUtc` | services/api/schemas/task.py:19-23 | an accepted naive due date is returned as the same fields with offset zero |
| `ApiSchema.LaterDueDateAccepted` | services/api/schemas/task.py:21-22 | if a due date is accepted, so is any later one with the same offset |
| `ApiSchema.PastDueDateRefused` | services/api/schemas/task.py:21-22 | a due date whose instant is before now makes the whole request fail, naming `due_date` |
| `ApiSchema.NoDueDateIgnoresClock` | services/api/schemas/task.py:15 | without a due date the outcome does not depend on the clock |
| `ApiSchema.MissingTitleRefused` | services/api/schemas/task.py:8 | a body without a title is refused with exactly `["title"]` |
| `ApiSchema.UnknownPriorityRefused` | services/api/schemas/task.py:10 | priority "urgent" is refused with exactly `["priority"]` |
| `ApiSchema.LongTitleRefused` | services/api/schemas/task.py:8 | a 201-character title is refused with exactly `["title"]` |
| `DateTimes.Instant` | services/api/schemas/task.py:21 | the instant an aware datetime is compared by lies within a day of its wall-clock date read as UTC, because the offset is less than a day |
| `DateTimes.IsoFormat` | services/api/routers/tasks.py:23 | `isoformat()` has the layout YYYY-MM-DDTHH:MM:SS, with the separators at their fixed places; a naive datetime's text is 19 characters, or 26 with microseconds |
| `DateTimes.WithUtc` | services/api/schemas/task.py:20 | `replace(tzinfo=timezone.utc)` keeps the wall clock (year through microsecond) and validity, and sets the offset to zero |
| `DateTimes.OrdinalMonotone` | services/api/schemas/task.py:21 | an earlier calendar date has a smaller ordinal |
| `DateTimes.InstantChronological` | services/api/schemas/task.py:21 | with equal offsets, the datetime whose fields read earlier is the earlier instant |
| `DateTimes.InstantIgnoresOffsetShift` | services/api/schemas/task.py:21 | shifting the wall clock and the offset by the same amount leaves the instant unchanged: aware datetimes are compared as absolute instants |
| `DateTimes.IsoFormatWithUtc` | services/api/routers/tasks.py:23 | the isoformat of a naive datetime made UTC is its own isoformat followed by "+00:00" |
| `Text.Decimal` | services/api/routers/tasks.py:16 | an id numeral is non-empty and made of digits |
| `Text.DecimalInjective` | services/api/routers/tasks.py:16 | different counts give different ids |
| `Json.Dumps` | services/api/services/queue/queue_service.py:33 | `json.dumps` of the payload is an object text, from `{` to `}`, in ASCII only (the default `ensure_ascii`) |
| `Json.Loads` | services/processor/handler.py:19 | the model decodes only object documents; a blank body is a decode error |
| `Json.Lookup` | services/processor/schemas/task.py:5-10 | a value found under a key is the value of a member with that key |
| `Json.DumpsLoadsRoundTrip` | services/api/services/queue/queue_service.py:33 | `json.loads` of `json.dumps(obj)` is `obj` again, members and order included |
| `Json.EscapeRoundTrip` | services/api/services/queue/queue_service.py:33 | every string escaped by `json.dumps` (two-character escapes, printable ASCII, `\uXXXX`) reads back to itself |
| `Json.UnicodeEscapeRoundTrip` | services/api/services/queue/queue_service.py:33 | a non-ASCII character's `\uXXXX` escape, as a surrogate pair above U+FFFF, decodes to that character |
| `Json.LookupFound` | services/processor/services/task_processor.py:22 | a key is found in the decoded dict iff some member carries it |
| `Json.LookupLastWins` | services/processor/handler.py:19 | the value found under a key is that of its last occurrence |
| `Json.LookupAppend` | services/processor/handler.py:19 | a member added at the end decides its own key and leaves every other key's value unchanged |
| `SqsProvider.ConfiguredQueueUrl` | services/api/services/queue/sqs_provider.py:13-15 | the queue URL is available iff `QUEUE_URL` is set and non-empty, and it is then that value |
| `SqsProvider.SqsQueueProvider.Create` | services/api/services/queue/sqs_provider.py:11-15 | construction fails iff `QUEUE_URL` is unset or empty; otherwise a new provider bound to that URL and the client |
| `SqsProvider.SqsQueueProvider.constructor` | services/api/services/queue/sqs_provider.py:13-24 | the provider stores the queue URL and the client |
| `SqsProvider.SqsQueueProvider.SendMessage` | services/api/services/queue/sqs_provider.py:26-45 | exactly one client call with the provider's URL, the body unchanged, group "tasks" and the task id as deduplication id; the client's reply is returned unchanged |
| `SqsProvider.SqsQueueProvider.GetProviderName` | services/api/services/queue/sqs_provider.py:47-48 | the provider's name is "sqs" |
| `SqsProvider.SqsClient.SendMessage` | services/api/services/queue/sqs_provider.py:39-44 | a client call is recorded once, at the end of the call log, and answered with the configured reply or error |
| `SqsProvider.SqsClient.constructor` | services/api/services/queue/sqs_provider.py:24 | a new client has sent nothing |
| `QueueService.TaskQueueService.constructor` | services/api/services/queue/queue_service.py:13-20 | the service keeps the provider it is given |
| `QueueService.TaskQueueService.EnqueueTask` | services/api/services/queue/queue_service.py:22-38 | exactly one send, of `json.dumps(task_data)` with the task id, through the stored provider; the body decodes back to `task_data`; the provider's reply or error is passed on |
| `TasksRouter.IdSource.NewId` | services/api/routers/tasks.py:16 | each new id is non-empty and differs from every id issued before |
| `TasksRouter.DueDateJson` | services/api/routers/tasks.py:23 | `due_date` is null exactly when the request has none |
| `TasksRouter.BuildPayload` | services/api/routers/tasks.py:18-24 | the payload has exactly the keys task_id, title, description, priority and due_date, in that order |
| `TasksRouter.PayloadFields` | services/api/routers/tasks.py:18-24 | the payload holds the task id and the request's title, description and priority unchanged, and the due date's isoformat or null |
| `TasksRouter.DistinctTaskIds` | services/api/routers/tasks.py:16 | two successful requests in a row answer with different task ids |
| `TasksRouter.CreateTask` | services/api/routers/tasks.py:14-36 | one id is drawn; without a queue URL nothing is sent and the answer is a 500 "Failed to enqueue task"; otherwise exactly one message is sent. It carries the JSON payload, the group "tasks" and the id as deduplication id. The answer is 201 with that id, or the same 500 when the send raised; the status is never 422 |
| `TasksRouter.PostTask` | services/api/routers/tasks.py:14-15 | the status is 422 exactly when the body is invalid; an invalid body names the failing fields, with nothing sent and no id drawn; a valid one behaves as `create_task` |
| `ProcessorSchema.StringField` | services/processor/schemas/task.py:6-10 | a field reads as a string only when the key is present with a string value, and then it is that value |
| `ProcessorSchema.ValidatePayload` | services/processor/schemas/task.py:5-10 | a message is accepted iff task_id and description are non-empty, the title has 1–200 characters and the priority is low/medium/high; the payload holds exactly those values and the optional due_date; a refusal names exactly the failing fields, never due_date |
| `ProcessorSchema.ExtraKeyIgnored` | services/processor/schemas/task.py:5 | a key outside the model's fields does not change the outcome |
| `ProcessorSchema.MissingTaskIdRefused` | services/processor/schemas/task.py:6 | a message without task_id is refused, naming it |
| `ProcessorSchema.EmptyTitleRefused` | services/processor/schemas/task.py:7 | an empty title is refused, naming it |
| `ProcessorSchema.NullPriorityRefused` | services/processor/schemas/task.py:9 | a null priority is refused, naming it |
| `TaskProcessor.Process` | services/processor/services/task_processor.py:12-31 | `process` returns normally iff the message validates as a `TaskPayload`; otherwise it raises with a non-empty list of payload field names |
| `Handler.Records` | services/processor/handler.py:17 | `event.get("Records", [])`: the event's records, or none when the key is absent |
| `Handler.Decode` | services/processor/handler.py:19 | a missing body raises the missing-key error; otherwise the body decodes iff `json.loads` accepts it, to that object; decoding never raises a validation error |
| `Handler.FirstFailure` | services/processor/handler.py:21-23 | the error the batch raises is one of the records' own errors, re-raised unchanged |
| `Handler.RecordStep` | services/processor/handler.py:18-23 | a record hands a message to the processor iff its body is present and decodes; it passes iff that message is valid; a missing body or a decode failure raises that error |
| `Handler.Steps` | services/processor/handler.py:17 | the batch's steps are the records' steps, one each, in order |
| `Handler.HandleRecord` | services/processor/handler.py:18-23 | the loop body computes exactly the record's step |
| `Handler.Handle` | services/processor/handler.py:11-23 | the handler's outcome is the first failing record's own error, or a normal return; the messages passed to `process` are those of `Attempted`, in record order |
| `Handler.BatchPassesIffAllPass` | services/processor/handler.py:17-23 | the batch returns normally iff every record passes |
| `Handler.HandlePassesIffAllValid` | services/processor/handler.py:17-23 | `handle` returns normally iff every record's body decodes to a message the processor accepts |
| `Handler.AllPassProcessedInOrder` | services/processor/handler.py:17-20 | when every record passes, each decoded message is processed exactly once, in record order |
| `Handler.StopsAtFirstFailure` | services/processor/handler.py:21-23 | the error raised is that of the first failing record, unwrapped; the messages processed are those of the records before it, then its own if it decoded, and none after it |
| `Handler.FailureAfterProcessed` | services/processor/handler.py:17-23 | when record k is the first to fail, its error is raised after every earlier record's decoded message was processed, in order, followed by record k's own message if it decoded |
| `Handler.ValidRecordPasses` | services/processor/handler.py:19-20 | a body that decodes to a valid message passes and hands that message on |
| `Handler.FailsSecond` | services/processor/handler.py:17-23 | a passing record followed by a failing one raises the second one's error after both messages were handed on |
| `Handler.NoRecordsNothingProcessed` | services/processor/handler.py:17 | an event without "Records" returns normally with nothing processed |
| `Handler.InvalidJsonRaisesDecodeError` | services/processor/handler.py:19 | the body "not-valid-json" raises the decode error and nothing reaches the processor |
| `Handler.MissingBodyRaises` | services/processor/handler.py:19 | a first record without a body raises at once and nothing is processed |
| `Pipeline.PayloadAccepted` | services/processor/schemas/task.py:5-10 | the processor accepts the router's payload for any validated request and a non-empty id, and reads back the same id and fields |
| `Pipeline.SentMessagePasses` | services/processor/handler.py:19-20 | the body the API sends decodes to the payload and passes the processor |
| `Pipeline.SameIdEverywhere` | services/api/routers/tasks.py:16-36 | a successful request sends one message; the id it answers with is that message's deduplication id and the `task_id` its body decodes to; the group is "tasks" |
| `Pipeline.NaiveDueDateSentAsUtc` | services/api/routers/tasks.py:23 | a naive due date goes out as its own isoformat followed by "+00:00" |
| `Pipeline.SentBatchProcessedInOrder` | services/processor/handler.py:17-20 | a batch of messages sent by the API is handled without error, and each payload is processed once, in send order |
| `Pipeline.EmptyTitleSecondStopsBatch` | services/processor/handler.py:17-23 | a valid message followed by one with an empty title raises a validation error naming title, after the first was processed |

## Left out

- The `QueueProvider` base class (services/api/services/queue/base.py) is not a separate abstraction: `TaskQueueService` holds an `SqsQueueProvider` directly, the one binding the repository has.
- The boto3 client's construction and retry configuration (5 attempts, backoff with jitter) are not modelled. The client is a class that records each call and answers with a fixed reply or error; retries happen inside the foreign library.
- `send_message`'s `**kwargs` are accepted and ignored by the source; the model's method has no such parameter.
- SQS FIFO delivery order and the deduplication window are provided by the queue service, not by repository code. The batch lemmas take the records in the order they were sent, which is what a single message group delivers.
- `uuid4()`: ids are the decimal numerals of a counter, distinct and non-empty, not random 128-bit UUID text.
- `datetime.now(timezone.utc)` is the parameter `now`, a UTC instant in microseconds.
- Pydantic's parsing of a datetime string into a `datetime` is not modelled. A body value that is not a datetime is the `Unparsable` case, refused as the library refuses it.
- Json.Loads covers objects whose values are strings or null, the only shape the router writes. Numbers, booleans, arrays, nesting and lone surrogates are treated as a decode error. So is any document that is not an object, such as `null`, `"x"` or `[]`. Python decodes such a document, then `TaskPayload(**task)` raises `TypeError` (services/processor/services/task_processor.py:22), and `handle` re-raises that `TypeError`. The model raises `DecodeError` instead: the batch still fails at that record, but with a different error class. The handler differs more on one shape: a body with an extra numeric, boolean or array member raises `DecodeError` in the model. `json.loads` would decode it, and `TaskPayload` would ignore the extra key, so the record would pass. Pydantic's coercion of such values is not modelled either.
- A request body's fields arrive already typed: a missing or non-string title, description or priority is `None`.
- Logging calls and `services/api/app.py` are not part of this model; neither is an event whose "Records" key holds null.
- `TaskProcessor.process` is a function, so repeating it on the same message gives the same outcome by construction; no separate idempotence lemma is stated.
