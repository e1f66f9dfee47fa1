/**
 * The request maps PreconfiguredAwsProvider hands to the SNS and SQS
 * clients, and the translation of the records an SQS ReceiveMessage call
 * returns into queue messages, unwrapping SNS notifications.
 */
module AwsRequests {
  import opened Messages

  /** A provider's `$options`, or the result of mergeOptions. */
  type Options = map<string, Json>

  /** The argument array of one SDK call. */
  type Request = map<string, Json>

  /** `$options[$key]`: a key that is not set reads as null. */
  function Lookup(options: Options, key: string): Json {
    if key in options then options[key] else JNull
  }

  /** `decode` gives back what `encode` wrote for the document `j`. */
  predicate RoundTrips(encode: Json -> string, decode: string -> Json, j: Json) {
    decode(encode(j)) == j
  }

  /**
   * The per-protocol message publishToTopic builds: every protocol gets
   * the prefixed queue name except SQS, which gets the encoded payload.
   */
  function TopicEnvelope(prefixed: string, message: Payload, encode: Json -> string): (e: Payload)
    ensures e.Keys == {"default", "sqs", "http", "https"}
    ensures forall protocol :: protocol in e && protocol != "sqs" ==> e[protocol] == JString(prefixed)
  {
    map["default" := JString(prefixed),
        "sqs" := JString(encode(JArray(message))),
        "http" := JString(prefixed),
        "https" := JString(prefixed)]
  }

  /** The SNS Publish request: the envelope is sent JSON-encoded with MessageStructure "json". */
  function TopicRequest(topicArn: Json, name: string, prefixed: string, message: Payload, encode: Json -> string): (req: Request)
    ensures req.Keys == {"TopicArn", "Subject", "Message", "MessageStructure"}
    ensures req["TopicArn"] == topicArn && req["Subject"] == JString(name) && req["MessageStructure"] == JString("json")
    ensures req["Message"] == JString(encode(JArray(TopicEnvelope(prefixed, message, encode))))
  {
    map["TopicArn" := topicArn,
        "Subject" := JString(name),
        "Message" := JString(encode(JArray(TopicEnvelope(prefixed, message, encode)))),
        "MessageStructure" := JString("json")]
  }

  /** The SQS SendMessage request of publishToQueue; `merged` is mergeOptions($options). */
  function QueueRequest(queueUrl: Json, merged: Options, message: Payload, encode: Json -> string): (req: Request)
    ensures req.Keys == {"QueueUrl", "MessageBody", "DelaySeconds"}
    ensures req["QueueUrl"] == queueUrl && req["MessageBody"] == JString(encode(JArray(message)))
    ensures "message_delay" in merged ==> req["DelaySeconds"] == merged["message_delay"]
    ensures "message_delay" !in merged ==> req["DelaySeconds"] == JNull
  {
    map["QueueUrl" := queueUrl,
        "MessageBody" := JString(encode(JArray(message))),
        "DelaySeconds" := Lookup(merged, "message_delay")]
  }

  /** The SQS ReceiveMessage request of receive; `merged` is mergeOptions($options). */
  function ReceiveRequest(queueUrl: Json, merged: Options): (req: Request)
    ensures req.Keys == {"QueueUrl", "MaxNumberOfMessages", "WaitTimeSeconds"}
    ensures req["QueueUrl"] == queueUrl
    ensures req["MaxNumberOfMessages"] == Lookup(merged, "messages_to_receive")
    ensures req["WaitTimeSeconds"] == Lookup(merged, "receive_wait_time")
  {
    map["QueueUrl" := queueUrl,
        "MaxNumberOfMessages" := Lookup(merged, "messages_to_receive"),
        "WaitTimeSeconds" := Lookup(merged, "receive_wait_time")]
  }

  /** The SQS DeleteMessage request of delete($id). */
  function DeleteRequest(queueUrl: Json, receiptHandle: Json): (req: Request)
    ensures req.Keys == {"QueueUrl", "ReceiptHandle"}
    ensures req["QueueUrl"] == queueUrl && req["ReceiptHandle"] == receiptHandle
  {
    map["QueueUrl" := queueUrl, "ReceiptHandle" := receiptHandle]
  }

  /**
   * The SNS Publish request names the topic and the subject, asks for a
   * per-protocol message, and a subscriber that decodes its Message and
   * then the "sqs" entry gets back the published payload.
   */
  lemma TopicRequestCarriesMessage(topicArn: Json, name: string, prefixed: string, message: Payload,
                                   encode: Json -> string, decode: string -> Json)
    requires RoundTrips(encode, decode, JArray(message))
    requires RoundTrips(encode, decode, JArray(TopicEnvelope(prefixed, message, encode)))
    ensures var req := TopicRequest(topicArn, name, prefixed, message, encode);
      && req.Keys == {"TopicArn", "Subject", "Message", "MessageStructure"}
      && req["TopicArn"] == topicArn && req["Subject"] == JString(name)
      && req["MessageStructure"] == JString("json")
      && req["Message"].JString?
      && decode(req["Message"].s).JArray?
      && "sqs" in decode(req["Message"].s).entries
      && decode(req["Message"].s).entries["sqs"].JString?
      && decode(decode(req["Message"].s).entries["sqs"].s) == JArray(message)
  {
  }

  /** One element of the `Messages` list of a ReceiveMessage result. */
  datatype SqsRecord = SqsRecord(messageId: string, receiptHandle: string, md5OfBody: string, body: string)

  /**
   * `isset($body['Message'])` on a decoded body that is an array: the
   * key is present and not null. This is how receive recognises an SNS
   * notification delivered to the queue.
   */
  predicate IsEnvelope(body: Json)
    ensures IsEnvelope(body) <==> body.JArray? && Lookup(body.entries, "Message") != JNull
  {
    body.JArray? && "Message" in body.entries && body.entries["Message"] != JNull
  }

  /**
   * The text `json_decode` reads from a non-null value: a string as is, a
   * number as PHP prints it, true as "1" and false as "". An array is
   * refused (PHP 7 warns and returns null).
   */
  function PhpText(j: Json): Option<string> {
    match j
    case JString(s) => Some(s)
    case JNumber(t) => Some(t)
    case JBool(b) => Some(if b then "1" else "")
    case JNull => None
    case JArray(_) => None
  }

  /** `json_decode($body['Message'], true)`. */
  function DecodeInner(inner: Json, decode: string -> Json): (r: Json)
    ensures inner.JString? ==> r == decode(inner.s)
    ensures inner.JNumber? ==> r == decode(inner.text)
    ensures inner.JArray? || inner.JNull? ==> r == JNull
  {
    match PhpText(inner)
    case Some(text) => decode(text)
    case None => JNull
  }

  /** The body receive hands on: the decoded Body, or the decoded inner Message of an SNS notification. */
  function DecodeBody(text: string, decode: string -> Json): (b: Json)
    ensures !IsEnvelope(decode(text)) ==> b == decode(text)
    ensures IsEnvelope(decode(text)) && decode(text).entries["Message"].JString? ==>
      b == decode(decode(text).entries["Message"].s)
  {
    var outer := decode(text);
    if IsEnvelope(outer) then DecodeInner(outer.entries["Message"], decode) else outer
  }

  /** The Message receive builds from one SQS record. */
  function ConvertRecord(r: SqsRecord, decode: string -> Json): (m: Message)
    ensures m.id == r.messageId && m.body == DecodeBody(r.body, decode)
    ensures m.metadata.Keys == {"ReceiptHandle", "MD5OfBody"}
    ensures m.metadata["ReceiptHandle"] == r.receiptHandle && m.metadata["MD5OfBody"] == r.md5OfBody
  {
    Message(r.messageId, DecodeBody(r.body, decode),
            map["ReceiptHandle" := r.receiptHandle, "MD5OfBody" := r.md5OfBody])
  }

  /** `$result->get('Messages') ?: []`: a missing or empty list gives no records. */
  function RecordsOf(reply: Option<seq<SqsRecord>>): (records: seq<SqsRecord>)
    ensures reply.None? ==> records == []
    ensures reply.Some? ==> records == reply.value
  {
    if reply.None? || reply.value == [] then [] else reply.value
  }

  /**
   * receive's `foreach ($messages as &$message)`: replaces every record, in
   * order, by the message built from it.
   */
  method ConvertAll(records: seq<SqsRecord>, decode: string -> Json) returns (messages: seq<Message>)
    ensures |messages| == |records|
    ensures forall k :: 0 <= k < |records| ==>
      && messages[k].id == records[k].messageId
      && messages[k].body == DecodeBody(records[k].body, decode)
      && messages[k].metadata == map["ReceiptHandle" := records[k].receiptHandle, "MD5OfBody" := records[k].md5OfBody]
  {
    messages := [];
    var i := 0;
    while i < |records|
      invariant 0 <= i <= |records|
      invariant |messages| == i
      invariant forall k :: 0 <= k < i ==> messages[k] == ConvertRecord(records[k], decode)
    {
      messages := messages + [ConvertRecord(records[i], decode)];
      i := i + 1;
    }
  }

  /**
   * A payload published straight to the queue comes back as it was sent,
   * unless it has a non-null "Message" entry: then receive mistakes it for
   * an SNS notification and hands on the decoded entry instead.
   */
  lemma QueueRoundTrip(queueUrl: Json, merged: Options, message: Payload, encode: Json -> string,
                       decode: string -> Json, id: string, receipt: string, md5: string)
    requires RoundTrips(encode, decode, JArray(message))
    ensures var sent := QueueRequest(queueUrl, merged, message, encode)["MessageBody"];
      && sent.JString?
      && var got := ConvertRecord(SqsRecord(id, receipt, md5, sent.s), decode);
      && (("Message" !in message || message["Message"] == JNull) ==> got.body == JArray(message))
      && ("Message" in message && message["Message"] != JNull ==> got.body == DecodeInner(message["Message"], decode))
  {
  }

  /** A concrete payload the queue path does not return intact. */
  lemma QueuePayloadNamedMessageIsUnwrapped(encode: Json -> string, decode: string -> Json)
    requires RoundTrips(encode, decode, JArray(map["Message" := JString("hello")]))
    requires decode("hello") == JNull
    ensures var message := map["Message" := JString("hello")];
      var sent := QueueRequest(JNull, map[], message, encode)["MessageBody"].s;
      ConvertRecord(SqsRecord("1", "r", "m", sent), decode).body != JArray(message)
  {
    var message := map["Message" := JString("hello")];
    QueueRoundTrip(JNull, map[], message, encode, decode, "1", "r", "m");
  }

  /**
   * The notification SNS delivers to a subscribed queue carries the "sqs"
   * entry of the published envelope as its Message; receive unwraps it
   * and hands on exactly the payload that was published.
   */
  lemma TopicRoundTrip(prefixed: string, message: Payload, notification: Payload, encode: Json -> string,
                       decode: string -> Json, id: string, receipt: string, md5: string)
    requires RoundTrips(encode, decode, JArray(message))
    requires "Message" in notification && notification["Message"] == TopicEnvelope(prefixed, message, encode)["sqs"]
    requires RoundTrips(encode, decode, JArray(notification))
    ensures ConvertRecord(SqsRecord(id, receipt, md5, encode(JArray(notification))), decode).body == JArray(message)
  {
    assert IsEnvelope(decode(encode(JArray(notification))));
  }
}
