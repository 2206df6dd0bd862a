/**
 * The subscriber entry that incoming publish frames are routed to: a
 * message type and a topic fixed at construction, a const parser that turns
 * the JSON payload into a typed message, and a callback that acts on it.
 *
 * ParseMessage and Callback are pure virtual in the source; here a concrete
 * subscriber is given by its parser, which may read the subscriber's own
 * state `S`, and by the effect of its callback on that state.
 */
module ROSBridgeSubscriber {
  import opened Wrappers
  import opened JsonValue

  class Subscriber<M, S> {
    /** Type and Topic are private with no setters: fixed for the subscriber's lifetime. */
    const messageType: string
    const topic: string
    /**
     * What the subclass's ParseMessage does: it may read the subscriber's
     * state, but not change it. A null message is `None`.
     */
    const parser: (S, JsonObject) -> Option<M>
    /** What the subclass's Callback does to its own state. */
    const handler: (S, M) -> S
    /** The state a subclass keeps; only Callback changes it. */
    var state: S

    constructor (inType: string, inTopic: string, parse: (S, JsonObject) -> Option<M>,
                 handle: (S, M) -> S, initial: S)
      ensures GetMessageType() == inType && GetMessageTopic() == inTopic
      ensures parser == parse && handler == handle && state == initial
    {
      messageType, topic := inType, inTopic;
      parser, handler := parse, handle;
      state := initial;
    }

    function GetMessageType(): (t: string)
      ensures t == messageType
    {
      messageType
    }

    function GetMessageTopic(): (t: string)
      ensures t == topic
    {
      topic
    }

    /**
     * Const: a function, so it may read the subscriber's state but cannot
     * change it; the result depends only on that state and the payload.
     */
    function ParseMessage(obj: JsonObject): (r: Option<M>)
      reads this
      ensures r == parser(state, obj)
    {
      parser(state, obj)
    }

    /**
     * The only non-const operation: it changes the subclass's state and
     * nothing else (messageType and topic are constants, so it cannot touch them).
     */
    method Callback(msg: M)
      modifies this
      ensures state == handler(old(state), msg)
    {
      state := handler(state, msg);
    }
  }
}
