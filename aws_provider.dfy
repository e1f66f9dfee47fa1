/**
 * PreconfiguredAwsProvider: a queue whose SNS topic and SQS queue are
 * configured outside the application. The SNS and SQS clients are modelled
 * by the log of calls made on them; what a call answers is an input.
 */
module AwsQueue {
  import opened Messages
  import opened AwsRequests

  /** The client operations the provider uses. */
  datatype Operation = SnsPublish | SqsSendMessage | SqsReceiveMessage | SqsDeleteMessage

  /** One call on a client: the operation and its argument array. */
  datatype Call = Call(op: Operation, request: Request)

  /** The exceptions the provider throws itself. */
  datatype Error = LogicException | RuntimeException

  /** `$message->getMetadata()->get('ReceiptHandle')`: null when the metadata has none. */
  function ReceiptOf(message: Message): (handle: Json)
    ensures handle == JNull <==> "ReceiptHandle" !in message.metadata
    ensures handle != JNull ==> handle == JString(message.metadata["ReceiptHandle"])
  {
    if "ReceiptHandle" in message.metadata then JString(message.metadata["ReceiptHandle"]) else JNull
  }

  /**
   * Acknowledging a received message deletes it from the configured queue
   * by the receipt handle SQS gave with its record.
   */
  lemma AcknowledgeUsesReceipt(queueUrl: Json, r: SqsRecord, decode: string -> Json)
    ensures DeleteRequest(queueUrl, ReceiptOf(ConvertRecord(r, decode))) ==
            map["QueueUrl" := queueUrl, "ReceiptHandle" := JString(r.receiptHandle)]
  {
  }

  class PreconfiguredAwsProvider {
    /** getName() and getNameWithPrefix(), as AbstractProvider computes them. */
    const name: string
    const prefixedName: string
    const options: Options
    /** json_encode and json_decode($text, true). */
    const encode: Json -> string
    const decode: string -> Json

    /** Every call made on the SNS and SQS clients, oldest first. */
    var calls: seq<Call>

    constructor (name: string, prefixedName: string, options: Options, encode: Json -> string, decode: string -> Json)
      ensures this.name == name && this.prefixedName == prefixedName && this.options == options
      ensures this.encode == encode && this.decode == decode
      ensures calls == []
    {
      this.name := name;
      this.prefixedName := prefixedName;
      this.options := options;
      this.encode := encode;
      this.decode := decode;
      calls := [];
    }

    /** The topic and queue exist already: create() succeeds without touching AWS. */
    method Create() returns (ok: bool)
      ensures ok
    {
      ok := true;
    }

    /** destroy() leaves the topic and the queue in place and reports success. */
    method Destroy() returns (ok: bool)
      ensures ok
    {
      ok := true;
    }

    /** Push notifications are disabled: onNotification always throws. */
    method OnNotification() returns (r: Result<(), Error>)
      ensures r == Err(RuntimeException)
    {
      r := Err(RuntimeException);
    }

    /**
     * publishToTopic: publishes the envelope to options['topic_arn'] and
     * returns the MessageId of the client's answer (`messageId`).
     */
    method PublishToTopic(message: Payload, messageId: Json) returns (id: Json)
      modifies this`calls
      ensures id == messageId
      ensures calls == old(calls) + [Call(SnsPublish, TopicRequest(Lookup(options, "topic_arn"), name, prefixedName, message, encode))]
    {
      calls := calls + [Call(SnsPublish, TopicRequest(Lookup(options, "topic_arn"), name, prefixedName, message, encode))];
      id := messageId;
    }

    /**
     * publishToQueue: sends the encoded payload to options['queue_url'],
     * delayed by the merged message_delay (`merged` is mergeOptions of the
     * call's options), and returns the MessageId of the client's answer.
     */
    method PublishToQueue(message: Payload, merged: Options, messageId: Json) returns (id: Json)
      modifies this`calls
      ensures id == messageId
      ensures calls == old(calls) + [Call(SqsSendMessage, QueueRequest(Lookup(options, "queue_url"), merged, message, encode))]
    {
      calls := calls + [Call(SqsSendMessage, QueueRequest(Lookup(options, "queue_url"), merged, message, encode))];
      id := messageId;
    }

    /**
     * publish: to the SNS topic whenever topic_arn is configured, otherwise
     * to the SQS queue when queue_url is; with neither it throws and calls
     * no client. Exactly one client is called otherwise.
     */
    method Publish(message: Payload, merged: Options, messageId: Json) returns (r: Result<Json, Error>)
      modifies this`calls
      ensures "topic_arn" in options ==>
        && r == Ok(messageId)
        && calls == old(calls) + [Call(SnsPublish, TopicRequest(options["topic_arn"], name, prefixedName, message, encode))]
      ensures "topic_arn" !in options && "queue_url" in options ==>
        && r == Ok(messageId)
        && calls == old(calls) + [Call(SqsSendMessage, QueueRequest(options["queue_url"], merged, message, encode))]
      ensures "topic_arn" !in options && "queue_url" !in options ==>
        r == Err(LogicException) && calls == old(calls)
    {
      if "topic_arn" in options {
        var id := PublishToTopic(message, messageId);
        return Ok(id);
      } else if "queue_url" in options {
        var id := PublishToQueue(message, merged, messageId);
        return Ok(id);
      }
      return Err(LogicException);
    }

    /**
     * receive: asks options['queue_url'] for up to the merged
     * messages_to_receive messages, waiting the merged receive_wait_time,
     * and converts each record of the answer (`reply`, None when it has no
     * Messages field) into a message, in order.
     */
    method Receive(merged: Options, reply: Option<seq<SqsRecord>>) returns (messages: seq<Message>)
      modifies this`calls
      ensures calls == old(calls) + [Call(SqsReceiveMessage, ReceiveRequest(Lookup(options, "queue_url"), merged))]
      ensures |messages| == |RecordsOf(reply)|
      ensures forall k :: 0 <= k < |messages| ==> messages[k] == ConvertRecord(RecordsOf(reply)[k], decode)
    {
      calls := calls + [Call(SqsReceiveMessage, ReceiveRequest(Lookup(options, "queue_url"), merged))];
      var records := RecordsOf(reply);
      messages := ConvertAll(records, decode);
    }

    /** delete($id): deletes by receipt handle `id` from options['queue_url'] and reports success. */
    method Delete(id: Json) returns (ok: bool)
      modifies this`calls
      ensures ok
      ensures calls == old(calls) + [Call(SqsDeleteMessage, DeleteRequest(Lookup(options, "queue_url"), id))]
    {
      calls := calls + [Call(SqsDeleteMessage, DeleteRequest(Lookup(options, "queue_url"), id))];
      ok := true;
    }

    /** onMessageReceived: deletes the message by the ReceiptHandle in its metadata. */
    method OnMessageReceived(message: Message)
      modifies this`calls
      ensures calls == old(calls) + [Call(SqsDeleteMessage, DeleteRequest(Lookup(options, "queue_url"), ReceiptOf(message)))]
    {
      var _ := Delete(ReceiptOf(message));
    }
  }

  /**
   * A message received through the provider and then acknowledged is
   * deleted by its own record's receipt handle, from the same queue it
   * was received from.
   */
  method ReceiveThenAcknowledge(p: PreconfiguredAwsProvider, merged: Options, r: SqsRecord)
    modifies p
    ensures p.calls == old(p.calls) + [Call(SqsReceiveMessage, ReceiveRequest(Lookup(p.options, "queue_url"), merged)),
                                       Call(SqsDeleteMessage, DeleteRequest(Lookup(p.options, "queue_url"), JString(r.receiptHandle)))]
  {
    var messages := p.Receive(merged, Some([r]));
    assert messages[0] == ConvertRecord(r, p.decode);
    p.OnMessageReceived(messages[0]);
  }
}
