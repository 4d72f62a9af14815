/** The Kafka publisher: what counts as an acknowledgement, and which message it acknowledges. */
module Kafka {
  import opened Wrappers
  import opened Outbox
  import opened Protocol
  import Injection

  /** What the writer answers: nil, a context error, or any other error. */
  datatype Write = Written | ContextError | WriteError(reason: string)

  datatype Sent = Sent(message: Message, eventType: string)

  const EMPTY_PAYLOAD := "kafka publisher: outbox payload is empty"
  const INVALID_PAYLOAD := "kafka publisher: outbox payload is not valid JSON"

  class Publisher {
    const topic: string
    /** The messages the writer has acknowledged. */
    var acked: seq<Sent>
    var published: nat
    var failed: nat

    constructor (topic: string)
      ensures this.topic == topic && acked == [] && published == failed == 0
    {
      this.topic := topic;
      acked, published, failed := [], 0, 0;
    }

    /** Nil exactly when the payload can be sent and the writer acknowledged it; then, and only then, one message more
        is in the log, with the event_id as key and the payload as value. A cancelled context is passed on as such and
        counted neither as published nor as failed; a payload that cannot be sent never reaches the writer. */
    method Publish(event: OutboxEvent, write: Write) returns (answer: Injection.Answer)
      modifies this
      ensures answer == Injection.Ack <==> event.payload.Json? && write == Written
      ensures answer == Injection.Cancelled <==> event.payload.Json? && write == ContextError
      ensures acked == old(acked)
          + (if answer == Injection.Ack then [Sent(Message(event.eventId, event.payload), event.eventType)] else [])
      ensures published == old(published) + (if answer == Injection.Ack then 1 else 0)
      ensures failed == old(failed) + (if event.payload.Json? && write.WriteError? then 1 else 0)
      ensures event.payload.Empty? ==> answer == Injection.Refused(EMPTY_PAYLOAD)
      ensures event.payload.Malformed? ==> answer == Injection.Refused(INVALID_PAYLOAD)
      ensures event.payload.Json? && write.WriteError? ==>
          answer == Injection.Refused("kafka publish to " + topic + ": " + write.reason)
    {
      if event.payload.Empty? {
        return Injection.Refused(EMPTY_PAYLOAD);
      }
      if event.payload.Malformed? {
        return Injection.Refused(INVALID_PAYLOAD);
      }
      var message := Message(event.eventId, event.payload);
      match write {
        case ContextError =>
          return Injection.Cancelled;
        case WriteError(reason) =>
          failed := failed + 1;
          return Injection.Refused("kafka publish to " + topic + ": " + reason);
        case Written =>
          acked := acked + [Sent(message, event.eventType)];
          published := published + 1;
          return Injection.Ack;
      }
    }
  }
}
