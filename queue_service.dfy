/** The queue service: serialises a task payload to JSON and hands it to its provider. */
module QueueService {
  import opened Wrappers
  import opened Json
  import opened SqsProvider

  class TaskQueueService {
    const provider: SqsQueueProvider

    constructor (provider: SqsQueueProvider)
      ensures this.provider == provider
    {
      this.provider := provider;
    }

    /**
     * `enqueue_task`: exactly one send whose body is `json.dumps(task_data)` and whose
     * deduplication id is the task id; that body decodes back to the payload, and the
     * provider's response (or its error) is what the caller gets.
     */
    method EnqueueTask(taskData: JsonObject, taskId: string) returns (r: Result<SendResponse, string>)
      modifies provider.client
      ensures provider.client.calls
        == old(provider.client.calls) + [SendCall(provider.queueUrl, Dumps(taskData), MessageGroupId, taskId)]
      ensures Loads(provider.client.calls[|provider.client.calls| - 1].messageBody) == Some(taskData)
      ensures r == provider.client.reply
    {
      var messageBody := Dumps(taskData);
      r := provider.SendMessage(messageBody, taskId);
      DumpsLoadsRoundTrip(taskData);
    }
  }
}
