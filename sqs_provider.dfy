/**
 * The SQS queue provider: reads the queue URL from the environment when it is built and
 * sends each message body to the FIFO queue with a fixed message group and the task id as
 * deduplication id. The boto3 client is modelled by `SqsClient`, which records every call.
 */
module SqsProvider {
  import opened Wrappers

  /** The keyword arguments of one `send_message` call on the boto3 client. */
  datatype SendCall = SendCall(
    queueUrl: string,
    messageBody: string,
    messageGroupId: string,
    messageDeduplicationId: string)

  /** What a successful `send_message` returns (MessageId and the like). */
  type SendResponse = map<string, string>

  /** Every message goes to one message group, so SQS delivers them in send order. */
  const MessageGroupId: string := "tasks"

  const QueueUrlVariable: string := "QUEUE_URL"

  /** The name `get_provider_name` reports. */
  const ProviderName: string := "sqs"

  /**
   * The SQS client as the provider sees it: each call is recorded, and answered with the
   * configured reply, which is either a response or the error the call raises.
   */
  class SqsClient {
    var calls: seq<SendCall>
    const reply: Result<SendResponse, string>

    constructor (reply: Result<SendResponse, string>)
      ensures calls == [] && this.reply == reply
    {
      calls := [];
      this.reply := reply;
    }

    method SendMessage(call: SendCall) returns (r: Result<SendResponse, string>)
      modifies this
      ensures calls == old(calls) + [call]
      ensures r == reply
    {
      calls := calls + [call];
      r := reply;
    }
  }

  /** `os.environ.get("QUEUE_URL")` accepted only when it is set and not empty. */
  function ConfiguredQueueUrl(env: map<string, string>): (r: Option<string>)
    ensures r.Some? <==> QueueUrlVariable in env && env[QueueUrlVariable] != ""
    ensures r.Some? ==> r.value == env[QueueUrlVariable] && r.value != ""
  {
    if QueueUrlVariable in env && env[QueueUrlVariable] != "" then Some(env[QueueUrlVariable]) else None
  }

  class SqsQueueProvider {
    const queueUrl: string
    const client: SqsClient

    constructor (queueUrl: string, client: SqsClient)
      requires queueUrl != ""
      ensures this.queueUrl == queueUrl && this.client == client
    {
      this.queueUrl := queueUrl;
      this.client := client;
    }

    /**
     * `SQSQueueProvider()`: fails (RuntimeError) when QUEUE_URL is missing or empty,
     * otherwise a provider bound to that URL and to the given client.
     */
    static method Create(env: map<string, string>, client: SqsClient) returns (r: Result<SqsQueueProvider, string>)
      ensures r.Failure? <==> ConfiguredQueueUrl(env).None?
      ensures r.Success? ==>
        && fresh(r.value)
        && r.value.queueUrl == env[QueueUrlVariable]
        && r.value.client == client
    {
      var url := ConfiguredQueueUrl(env);
      if url.None? {
        return Failure("QUEUE_URL environment variable is not set");
      }
      var provider := new SqsQueueProvider(url.value, client);
      r := Success(provider);
    }

    /**
     * One client call with the provider's queue URL, the body, the group "tasks" and the
     * task id as deduplication id; the client's response or error is passed on unchanged.
     */
    method SendMessage(messageBody: string, taskId: string) returns (r: Result<SendResponse, string>)
      modifies client
      ensures client.calls == old(client.calls) + [SendCall(queueUrl, messageBody, MessageGroupId, taskId)]
      ensures r == client.reply
    {
      r := client.SendMessage(SendCall(queueUrl, messageBody, MessageGroupId, taskId));
    }

    /** `get_provider_name`. */
    function GetProviderName(): (name: string)
      ensures name == "sqs"
    {
      ProviderName
    }
  }
}
