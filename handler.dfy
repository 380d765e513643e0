/**
 * The Lambda entry point for the SQS event source: records are handled one at a time in
 * the order they arrive; the first record whose body is missing, is not JSON or fails
 * validation stops the batch, and its error is raised again unchanged so that SQS retries
 * the batch (and eventually moves it to the dead-letter queue).
 */
module Handler {
  import opened Wrappers
  import opened Json
  import opened ProcessorSchema
  import opened TaskProcessor

  /** An SQS record; `body` is None when the record has no "body" key. */
  datatype Record = Record(body: Option<string>)

  /** The Lambda event; `records` is None when it has no "Records" key. */
  datatype Event = Event(records: Option<seq<Record>>)

  /** The exception a record raises: KeyError, JSONDecodeError or a validation error. */
  datatype ProcessError = MissingBody | DecodeError | ValidationError(fields: seq<string>)

  /** `event.get("Records", [])`. */
  function Records(event: Event): (recs: seq<Record>)
    ensures event.records.None? ==> recs == []
    ensures event.records.Some? ==> recs == event.records.value
  {
    event.records.GetOr([])
  }

  /** `json.loads(record["body"])`. */
  function Decode(rec: Record): (r: Result<JsonObject, ProcessError>)
    ensures r.Failure? ==> !r.error.ValidationError?
    ensures r == Failure(MissingBody) <==> rec.body.None?
    ensures r.Success? <==> rec.body.Some? && Loads(rec.body.value).Some?
    ensures r.Success? ==> Loads(rec.body.value) == Some(r.value)
  {
    match rec.body
    case None => Failure(MissingBody)
    case Some(body) =>
      match Loads(body)
      case None => Failure(DecodeError)
      case Some(task) => Success(task)
  }

  /**
   * What the loop does with one record: the message handed to the processor, if the body
   * decoded, and the outcome (Pass, or the exception raised).
   */
  datatype Step = Step(task: Option<JsonObject>, outcome: Outcome<ProcessError>)

  function RecordStep(rec: Record): (s: Step)
    ensures s.task.None? <==> Decode(rec).Failure?
    ensures s.task.Some? ==> Decode(rec) == Success(s.task.value)
    ensures s.outcome.Pass? <==> s.task.Some? && PayloadOk(s.task.value)
    ensures Decode(rec).Failure? ==> s.outcome == Fail(Decode(rec).error)
  {
    match Decode(rec)
    case Failure(e) => Step(None, Fail(e))
    case Success(task) =>
      match Process(task)
      case Pass => Step(Some(task), Pass)
      case Fail(fields) => Step(Some(task), Fail(ValidationError(fields)))
  }

  /** Every record's step, in arrival order. */
  function Steps(recs: seq<Record>): (ss: seq<Step>)
    ensures |ss| == |recs|
    ensures forall i | 0 <= i < |recs| :: ss[i] == RecordStep(recs[i])
  {
    seq(|recs|, i requires 0 <= i < |recs| => RecordStep(recs[i]))
  }

  /** The outcome of the whole batch: the first failing record's error, or success. */
  function FirstFailure(ss: seq<Step>): (r: Outcome<ProcessError>)
    ensures r.Fail? ==> exists i | 0 <= i < |ss| :: ss[i].outcome == r
  {
    if ss == [] then Pass
    else if ss[0].outcome.Fail? then ss[0].outcome
    else
      var r := FirstFailure(ss[1..]);
      assert r.Fail? ==> exists i | 0 <= i < |ss| :: ss[i].outcome == r by {
        if r.Fail? {
          var i :| 0 <= i < |ss[1..]| && ss[1..][i].outcome == r;
          assert ss[i + 1].outcome == r;
        }
      }
      r
  }

  /**
   * The messages handed to `TaskProcessor.process`, in order: every record up to and
   * including the first failing one, if that one decoded.
   */
  function Attempted(ss: seq<Step>): seq<JsonObject> {
    if ss == [] then []
    else Handed(ss[0]) + (if ss[0].outcome.Fail? then [] else Attempted(ss[1..]))
  }

  /** The message a step handed to the processor, if it had one. */
  function Handed(st: Step): seq<JsonObject> {
    if st.task.Some? then [st.task.value] else []
  }

  /**
   * The body of the loop for one record: `json.loads(record["body"])` then
   * `TaskProcessor.process`; `task` is the message handed to the processor, if any.
   */
  method HandleRecord(rec: Record) returns (r: Outcome<ProcessError>, ghost task: Option<JsonObject>)
    ensures Step(task, r) == RecordStep(rec)
  {
    if rec.body.None? {
      return Fail(MissingBody), None;
    }
    var decoded := Loads(rec.body.value);
    if decoded.None? {
      return Fail(DecodeError), None;
    }
    task := decoded;
    var outcome := Process(decoded.value);
    if outcome.Fail? {
      return Fail(ValidationError(outcome.error)), task;
    }
    r := Pass;
  }

  /**
   * `handle(event, context)`: `r` is its outcome (Pass for a normal return) and
   * `processed` the messages it passed to the processor.
   */
  method Handle(event: Event) returns (r: Outcome<ProcessError>, ghost processed: seq<JsonObject>)
    ensures r == FirstFailure(Steps(Records(event)))
    ensures processed == Attempted(Steps(Records(event)))
  {
    var recs := Records(event);
    ghost var ss := Steps(recs);
    processed := [];
    var i := 0;
    while i < |recs|
      invariant 0 <= i <= |recs|
      invariant FirstFailure(ss) == FirstFailure(ss[i..])
      invariant Attempted(ss) == processed + Attempted(ss[i..])
    {
      var outcome, task := HandleRecord(recs[i]);
      StepAdvance(ss, i, Step(task, outcome), processed);
      processed := processed + Handed(Step(task, outcome));
      if outcome.Fail? {
        return outcome, processed;
      }
      i := i + 1;
    }
    r := Pass;
  }

  /** Handling record `i` moves `FirstFailure` and `Attempted` of the rest of the batch on by one. */
  lemma StepAdvance(ss: seq<Step>, i: nat, st: Step, done: seq<JsonObject>)
    requires i < |ss| && ss[i] == st
    ensures FirstFailure(ss[i..]) == if st.outcome.Fail? then st.outcome else FirstFailure(ss[i + 1..])
    ensures done + Attempted(ss[i..])
      == (done + Handed(st)) + (if st.outcome.Fail? then [] else Attempted(ss[i + 1..]))
  {
    assert ss[i..][0] == st && ss[i..][1..] == ss[i + 1..];
  }

  /** A record whose body decodes to a valid payload passes and hands that payload on. */
  lemma ValidRecordPasses(body: string, task: JsonObject)
    requires Loads(body) == Some(task) && PayloadOk(task)
    ensures RecordStep(Record(Some(body))) == Step(Some(task), Pass)
  {
  }

  /**
   * `handle` returns normally exactly when every record has a body that decodes to a
   * message the processor accepts.
   */
  lemma HandlePassesIffAllValid(recs: seq<Record>)
    ensures FirstFailure(Steps(recs)).Pass? <==>
      forall i | 0 <= i < |recs| :: Decode(recs[i]).Success? && PayloadOk(Decode(recs[i]).value)
  {
    BatchPassesIffAllPass(Steps(recs));
  }

  /** The batch succeeds exactly when every record does. */
  lemma {:induction false} BatchPassesIffAllPass(ss: seq<Step>)
    ensures FirstFailure(ss).Pass? <==> forall i | 0 <= i < |ss| :: ss[i].outcome.Pass?
  {
    if ss != [] {
      BatchPassesIffAllPass(ss[1..]);
      assert forall i | 1 <= i < |ss| :: ss[1..][i - 1] == ss[i];
    }
  }

  /**
   * When every record succeeds, each message is processed exactly once and in the order
   * the records arrived.
   */
  lemma {:induction false} AllPassProcessedInOrder(recs: seq<Record>)
    requires forall i | 0 <= i < |recs| :: RecordStep(recs[i]).outcome.Pass?
    ensures |Attempted(Steps(recs))| == |recs|
    ensures forall i | 0 <= i < |recs| :: Decode(recs[i]) == Success(Attempted(Steps(recs))[i])
  {
    AllPassInOrder(Steps(recs));
  }

  lemma {:induction false} AllPassInOrder(ss: seq<Step>)
    requires forall i | 0 <= i < |ss| :: ss[i].outcome.Pass? && ss[i].task.Some?
    ensures |Attempted(ss)| == |ss|
    ensures forall i | 0 <= i < |ss| :: ss[i].task == Some(Attempted(ss)[i])
  {
    if ss != [] {
      AllPassInOrder(ss[1..]);
      assert forall i | 1 <= i < |ss| :: ss[1..][i - 1] == ss[i];
    }
  }

  /**
   * The error raised is that of the first failing record, unwrapped; the records before it
   * were all processed, its own message too if it decoded, and no record after it.
   */
  lemma {:induction false} StopsAtFirstFailure(ss: seq<Step>, k: nat)
    requires k < |ss| && ss[k].outcome.Fail?
    requires forall j | 0 <= j < k :: ss[j].outcome.Pass?
    ensures FirstFailure(ss) == ss[k].outcome
    ensures Attempted(ss) == Attempted(ss[..k + 1])
    ensures Attempted(ss) == Attempted(ss[..k]) + Handed(ss[k])
  {
    FirstFailureAt(ss, k);
    PassingPrefix(ss, k);
    var front := ss[..k + 1];
    assert front[..k] == ss[..k] && front[k] == ss[k];
    PassingPrefix(front, k);
    FailingHead(ss[k..]);
    FailingHead(front[k..]);
    assert ss[k..][0] == ss[k] && front[k..][0] == ss[k];
  }

  lemma {:induction false} FirstFailureAt(ss: seq<Step>, k: nat)
    requires k < |ss| && ss[k].outcome.Fail?
    requires forall j | 0 <= j < k :: ss[j].outcome.Pass?
    ensures FirstFailure(ss) == ss[k].outcome
  {
    if k > 0 {
      assert forall j | 0 <= j < k - 1 :: ss[1..][j] == ss[j + 1];
      FirstFailureAt(ss[1..], k - 1);
    }
  }

  /** A failing step hands on its own message, if it had one, and nothing after it. */
  lemma FailingHead(ss: seq<Step>)
    requires ss != [] && ss[0].outcome.Fail?
    ensures Attempted(ss) == Handed(ss[0])
  {
  }

  /** Over a prefix of passing steps, `Attempted` splits into the prefix's and the rest's. */
  lemma {:induction false} PassingPrefix(ss: seq<Step>, k: nat)
    requires k <= |ss|
    requires forall j | 0 <= j < k :: ss[j].outcome.Pass?
    ensures Attempted(ss) == Attempted(ss[..k]) + Attempted(ss[k..])
  {
    if k == 0 {
      assert ss[..0] == [] && ss[0..] == ss;
    } else {
      var tail := ss[1..];
      assert forall j | 0 <= j < k - 1 :: tail[j] == ss[j + 1];
      PassingPrefix(tail, k - 1);
      var front := ss[..k];
      assert front[0] == ss[0] && front[1..] == tail[..k - 1];
      assert tail[k - 1..] == ss[k..];
      Glue(Attempted(ss), Handed(ss[0]), Attempted(tail), Attempted(tail[..k - 1]), Attempted(ss[k..]),
           Attempted(front));
    }
  }

  lemma Glue<T>(a: seq<T>, h: seq<T>, b: seq<T>, c: seq<T>, d: seq<T>, e: seq<T>)
    requires a == h + b && b == c + d && e == h + c
    ensures a == e + d
  {
  }

  /** `a == b + c`: `a` starts with the elements of `b`. */
  lemma PrefixElements<T>(a: seq<T>, b: seq<T>, c: seq<T>)
    requires a == b + c
    ensures |a| == |b| + |c|
    ensures forall j | 0 <= j < |b| :: a[j] == b[j]
    ensures forall j | 0 <= j < |c| :: a[|b| + j] == c[j]
  {
  }

  /**
   * The records of a batch, up to its first failing one: every record before it was decoded
   * and handed to the processor, in order, then the failing one's message if it decoded, and
   * the error raised is that record's own.
   */
  lemma FailureAfterProcessed(recs: seq<Record>, k: nat)
    requires k < |recs| && RecordStep(recs[k]).outcome.Fail?
    requires forall j | 0 <= j < k :: RecordStep(recs[j]).outcome.Pass?
    ensures FirstFailure(Steps(recs)) == RecordStep(recs[k]).outcome
    ensures |Attempted(Steps(recs))| == k + (if Decode(recs[k]).Success? then 1 else 0)
    ensures forall j | 0 <= j < k :: Decode(recs[j]) == Success(Attempted(Steps(recs))[j])
    ensures Decode(recs[k]).Success? ==> Attempted(Steps(recs))[k] == Decode(recs[k]).value
  {
    var ss := Steps(recs);
    PassedBeforeFailure(ss, k);
    forall j | 0 <= j < k
      ensures Decode(recs[j]) == Success(Attempted(ss)[j])
    {
      assert ss[j] == RecordStep(recs[j]);
    }
    assert ss[k] == RecordStep(recs[k]);
  }

  /** `FailureAfterProcessed` over the steps themselves. */
  lemma PassedBeforeFailure(ss: seq<Step>, k: nat)
    requires k < |ss| && ss[k].outcome.Fail?
    requires forall j | 0 <= j < k :: ss[j].outcome.Pass? && ss[j].task.Some?
    ensures FirstFailure(ss) == ss[k].outcome
    ensures |Attempted(ss)| == k + |Handed(ss[k])|
    ensures forall j | 0 <= j < k :: ss[j].task == Some(Attempted(ss)[j])
    ensures ss[k].task.Some? ==> Attempted(ss)[k] == ss[k].task.value
  {
    StopsAtFirstFailure(ss, k);
    var pre := ss[..k];
    assert forall j | 0 <= j < k :: pre[j] == ss[j];
    AllPassInOrder(pre);
    PrefixElements(Attempted(ss), Attempted(pre), Handed(ss[k]));
  }

  /** A failing record after a passing one: the batch raises its error after both were handed on. */
  lemma FailsSecond(ss: seq<Step>, task: JsonObject, bad: JsonObject)
    requires |ss| == 2 && ss[0] == Step(Some(task), Pass)
    requires ss[1].task == Some(bad) && ss[1].outcome.Fail?
    ensures FirstFailure(ss) == ss[1].outcome
    ensures Attempted(ss) == [task, bad]
  {
    StopsAtFirstFailure(ss, 1);
    assert ss[..2] == ss;
  }

  /** An event without "Records" is a normal return with nothing processed. */
  lemma NoRecordsNothingProcessed()
    ensures FirstFailure(Steps(Records(Event(None)))) == Pass
    ensures Attempted(Steps(Records(Event(None)))) == []
  {
  }

  /** A body that is not JSON raises the decode error, and nothing reaches the processor. */
  lemma InvalidJsonRaisesDecodeError()
    ensures var ss := Steps([Record(Some("not-valid-json"))]);
      FirstFailure(ss) == Fail(DecodeError) && Attempted(ss) == []
  {
    SkipWsStops("not-valid-json");
    assert Steps([Record(Some("not-valid-json"))]) == [Step(None, Fail(DecodeError))];
  }

  /** A record with no "body" key raises, and nothing reaches the processor. */
  lemma MissingBodyRaises(rest: seq<Record>)
    ensures var ss := Steps([Record(None)] + rest);
      FirstFailure(ss) == Fail(MissingBody) && Attempted(ss) == []
  {
    assert Steps([Record(None)] + rest)[0] == Step(None, Fail(MissingBody));
  }
}
