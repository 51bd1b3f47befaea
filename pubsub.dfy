/**
 * `DbusPubsub`: a topic to handler-list table with fan-out dispatch. The bus,
 * the task group and the handlers' own code are outside the model: a handler
 * is known by its identity, whether it raises is an input, and what the
 * object does is recorded as a trace of events.
 */
module Pubsub {
  import opened Wrappers
  import opened Wire
  import opened Serializer
  import opened Deserializer

  type Topic = string

  /** The topic whose handlers receive every dispatch. */
  const Wildcard: Topic := "*"

  /** A subscribed callback, by identity. */
  type Handler = nat

  datatype Event =
    | Decoding(payload: Text)               // the deserializer is applied to the payload
    | Invoked(handler: Handler, arg: Decoded)
    | HandlerRaised(handler: Handler)       // caught and logged; dispatch goes on
    | NoHandlers(topic: Topic)              // warning; nothing is decoded or called
    | Broadcast(topic: Topic, payload: Text)
    | BroadcastDropped(topic: Topic)        // warning: daemon without an interface
    | PublishScheduled(topic: Topic, payload: Text)
    | PublishReplied(result: string)
    | PublishFailed                         // the exception is logged, not raised

  /** `subscribers.get(topic, [])`. */
  function Registered(subscribers: map<Topic, seq<Handler>>, topic: Topic): (hs: seq<Handler>)
    ensures topic !in subscribers ==> hs == []
  {
    if topic in subscribers then subscribers[topic] else []
  }

  /** The handlers a dispatch on `topic` calls, in calling order. */
  function DispatchOrder(subscribers: map<Topic, seq<Handler>>, topic: Topic): (hs: seq<Handler>)
    ensures |hs| == |Registered(subscribers, topic)| + |Registered(subscribers, Wildcard)|
  {
    Registered(subscribers, topic) + Registered(subscribers, Wildcard)
  }

  /** The events of calling one handler with `arg`. */
  function Call(h: Handler, arg: Decoded, raising: set<Handler>): (es: seq<Event>)
    ensures |es| == (if h in raising then 2 else 1)
    ensures es[0] == Invoked(h, arg)
  {
    if h in raising then [Invoked(h, arg), HandlerRaised(h)] else [Invoked(h, arg)]
  }

  /** The events of calling every handler of `hs` in order, each failure caught. */
  function FanOut(hs: seq<Handler>, arg: Decoded, raising: set<Handler>): seq<Event>
  {
    if hs == [] then []
    else FanOut(hs[..|hs| - 1], arg, raising) + Call(hs[|hs| - 1], arg, raising)
  }

  /** The fan-out over one handler more is the fan-out so far followed by that handler's call. */
  lemma FanOutStep(hs: seq<Handler>, i: nat, arg: Decoded, raising: set<Handler>)
    requires i < |hs|
    ensures FanOut(hs[..i + 1], arg, raising) == FanOut(hs[..i], arg, raising) + Call(hs[i], arg, raising)
  {
    assert hs[..i + 1][..i] == hs[..i];
  }

  /** Each handler leaves one or two events: its invocation, and its caught failure if it raises. */
  lemma {:induction false} FanOutLength(hs: seq<Handler>, arg: Decoded, raising: set<Handler>)
    ensures |hs| <= |FanOut(hs, arg, raising)| <= 2 * |hs|
    ensures (forall h | h in hs :: h !in raising) ==> |FanOut(hs, arg, raising)| == |hs|
  {
    if hs != [] {
      FanOutLength(hs[..|hs| - 1], arg, raising);
    }
  }

  /** The handlers invoked in a trace, in order. */
  function Invocations(trace: seq<Event>): (hs: seq<Handler>)
    ensures |hs| <= |trace|
  {
    if trace == [] then []
    else (if trace[0].Invoked? then [trace[0].handler] else []) + Invocations(trace[1..])
  }

  lemma {:induction false} InvocationsAppend(a: seq<Event>, b: seq<Event>)
    ensures Invocations(a + b) == Invocations(a) + Invocations(b)
  {
    if a != [] {
      assert (a + b)[0] == a[0];
      assert (a + b)[1..] == a[1..] + b;
      InvocationsAppend(a[1..], b);
    } else {
      assert a + b == b;
    }
  }

  lemma CallInvokes(h: Handler, arg: Decoded, raising: set<Handler>)
    ensures Invocations(Call(h, arg, raising)) == [h]
  {
    if h in raising {
      assert Call(h, arg, raising)[1..] == [HandlerRaised(h)];
    }
  }

  /**
   * Every handler is invoked exactly once and in order, whichever of them
   * raise: a failing handler does not stop the ones after it.
   */
  lemma {:induction false} FanOutInvokesAll(hs: seq<Handler>, arg: Decoded, raising: set<Handler>)
    ensures Invocations(FanOut(hs, arg, raising)) == hs
  {
    if hs != [] {
      var h := hs[|hs| - 1];
      FanOutInvokesAll(hs[..|hs| - 1], arg, raising);
      InvocationsAppend(FanOut(hs[..|hs| - 1], arg, raising), Call(h, arg, raising));
      CallInvokes(h, arg, raising);
      assert hs[..|hs| - 1] + [h] == hs;
    }
  }

  /** Every handler receives the one decoded value. */
  lemma {:induction false} FanOutSameArgument(hs: seq<Handler>, arg: Decoded, raising: set<Handler>)
    ensures forall e | e in FanOut(hs, arg, raising) && e.Invoked? :: e.arg == arg
    ensures forall e | e in FanOut(hs, arg, raising) :: !e.Decoding?
  {
    if hs != [] {
      FanOutSameArgument(hs[..|hs| - 1], arg, raising);
    }
  }

  /** A dispatch on the wildcard topic calls each wildcard handler twice. */
  lemma WildcardTwice(subscribers: map<Topic, seq<Handler>>, h: Handler)
    ensures DispatchOrder(subscribers, Wildcard) == Registered(subscribers, Wildcard) + Registered(subscribers, Wildcard)
    ensures multiset(DispatchOrder(subscribers, Wildcard))[h] == 2 * multiset(Registered(subscribers, Wildcard))[h]
  {
  }

  /** After subscribing `cb` to a topic other than the wildcard, it is called after that topic's earlier handlers and before the wildcard ones. */
  lemma SubscribeThenDispatch(subscribers: map<Topic, seq<Handler>>, topic: Topic, cb: Handler)
    requires topic != Wildcard
    ensures var after := subscribers[topic := Registered(subscribers, topic) + [cb]];
      DispatchOrder(after, topic)
        == Registered(subscribers, topic) + [cb] + Registered(subscribers, Wildcard)
  {
  }

  /** `_DbusInterface.Broadcast`: the signal carries the topic and payload unchanged. */
  function BroadcastSignal(topic: Topic, payload: Text): (pair: (Topic, Text))
    ensures pair.0 == topic && pair.1 == payload
  {
    (topic, payload)
  }

  class DbusPubsub {
    /** `"client"`, `"daemon"`, or any other name, for which `start` and `publish` do nothing. */
    const mode: string
    const hasTaskGroup: bool
    var hasInterface: bool
    var subscribers: map<Topic, seq<Handler>>
    var trace: seq<Event>

    constructor(mode: string, hasTaskGroup: bool)
      ensures this.mode == mode && this.hasTaskGroup == hasTaskGroup
      ensures !hasInterface && subscribers == map[] && trace == []
    {
      this.mode := mode;
      this.hasTaskGroup := hasTaskGroup;
      hasInterface := false;
      subscribers := map[];
      trace := [];
    }

    /** `start`: a daemon exports its interface, a client obtains the proxy; other modes get none. */
    method Start()
      modifies this
      ensures hasInterface == (old(hasInterface) || mode == "daemon" || mode == "client")
      ensures subscribers == old(subscribers) && trace == old(trace)
    {
      if mode == "daemon" || mode == "client" {
        hasInterface := true;
      }
    }

    /** `subscribe`: appends to the topic's list, creating it if absent; other topics are unchanged. */
    method Subscribe(topic: Topic, callback: Handler)
      modifies this
      ensures subscribers == old(subscribers)[topic := old(Registered(subscribers, topic)) + [callback]]
      ensures hasInterface == old(hasInterface) && trace == old(trace)
    {
      var current := Registered(subscribers, topic);
      subscribers := subscribers[topic := current + [callback]];
    }

    /**
     * `publish`: a payload that is not text goes through the serializer first.
     * A client schedules the call (and raises without a task group); a daemon
     * broadcasts, or drops the message with a warning when it has no interface.
     */
    method Publish(topic: Topic, payload: PyValue) returns (r: Result<Unit>)
      modifies this
      ensures subscribers == old(subscribers) && hasInterface == old(hasInterface)
      ensures !payload.PyText? && Serialize(payload).Failure? ==>
        r == Failure(Serialize(payload).error) && trace == old(trace)
      ensures payload.PyText? || Serialize(payload).Success? ==>
        var text := if payload.PyText? then payload.text else Serialize(payload).value;
        if mode == "client" then
          (if hasTaskGroup then r.Success? && trace == old(trace) + [PublishScheduled(topic, text)]
           else r == Failure(AttributeError) && trace == old(trace))
        else if mode == "daemon" then
          r.Success? && trace == old(trace) + [if hasInterface then Broadcast(topic, text) else BroadcastDropped(topic)]
        else r.Success? && trace == old(trace)
    {
      var text: Text;
      if payload.PyText? {
        text := payload.text;
      } else {
        text :- Serialize(payload);
      }
      if mode == "client" {
        if !hasTaskGroup {
          return Failure(AttributeError);
        }
        trace := trace + [PublishScheduled(topic, text)];
      } else if mode == "daemon" {
        if hasInterface {
          var signal := BroadcastSignal(topic, text);
          trace := trace + [Broadcast(signal.0, signal.1)];
        } else {
          trace := trace + [BroadcastDropped(topic)];
        }
      }
      r := Success(Unit);
    }

    /**
     * `_client_publish`: the remote call's outcome is an input. A failure,
     * including a missing interface, is logged and never raised.
     */
    method ClientPublish(topic: Topic, payload: Text, reply: Result<string>)
      modifies this
      ensures subscribers == old(subscribers) && hasInterface == old(hasInterface)
      ensures hasInterface && reply.Success? ==> trace == old(trace) + [PublishReplied(reply.value)]
      ensures !hasInterface || reply.Failure? ==> trace == old(trace) + [PublishFailed]
    {
      if hasInterface && reply.Success? {
        trace := trace + [PublishReplied(reply.value)];
      } else {
        trace := trace + [PublishFailed];
      }
    }

    /**
     * `_dispatch_incoming`: with no handlers for the topic or the wildcard,
     * a warning and nothing else. Otherwise the payload is decoded once (a
     * decoding error propagates) and every handler is called in order with
     * the result; handlers in `raising` raise, which is caught.
     */
    method DispatchIncoming(methodType: string, topic: Topic, payload: Text, raising: set<Handler>)
      returns (r: Result<Unit>)
      modifies this
      ensures subscribers == old(subscribers) && hasInterface == old(hasInterface)
      ensures DispatchOrder(subscribers, topic) == [] ==>
        r.Success? && trace == old(trace) + [NoHandlers(topic)]
      ensures DispatchOrder(subscribers, topic) != [] && Deserialize(payload).Failure? ==>
        r == Failure(Deserialize(payload).error) && trace == old(trace) + [Decoding(payload)]
      ensures DispatchOrder(subscribers, topic) != [] && Deserialize(payload).Success? ==>
        r.Success? && trace == old(trace) + [Decoding(payload)]
          + FanOut(DispatchOrder(subscribers, topic), Deserialize(payload).value, raising)
    {
      var handlers := Registered(subscribers, topic) + Registered(subscribers, Wildcard);
      if handlers == [] {
        trace := trace + [NoHandlers(topic)];
        return Success(Unit);
      }
      trace := trace + [Decoding(payload)];
      var arg :- Deserialize(payload);
      Deliver(handlers, arg, raising);
      r := Success(Unit);
    }

    /** The dispatch loop: every handler is called in order and a raising handler is logged and skipped. */
    method Deliver(handlers: seq<Handler>, arg: Decoded, raising: set<Handler>)
      modifies this
      ensures subscribers == old(subscribers) && hasInterface == old(hasInterface)
      ensures trace == old(trace) + FanOut(handlers, arg, raising)
    {
      var i := 0;
      while i < |handlers|
        invariant 0 <= i <= |handlers|
        invariant trace == old(trace) + FanOut(handlers[..i], arg, raising)
        invariant subscribers == old(subscribers) && hasInterface == old(hasInterface)
      {
        trace := trace + Call(handlers[i], arg, raising);
        FanOutStep(handlers, i, arg, raising);
        i := i + 1;
      }
      assert handlers[..|handlers|] == handlers;
    }

    /** `_handle_broadcast`: a received broadcast is dispatched like a publish. */
    method HandleBroadcast(topic: Topic, payload: Text, raising: set<Handler>) returns (r: Result<Unit>)
      modifies this
      ensures subscribers == old(subscribers) && hasInterface == old(hasInterface)
      ensures DispatchOrder(subscribers, topic) == [] ==>
        r.Success? && trace == old(trace) + [NoHandlers(topic)]
      ensures DispatchOrder(subscribers, topic) != [] && Deserialize(payload).Failure? ==>
        r == Failure(Deserialize(payload).error) && trace == old(trace) + [Decoding(payload)]
      ensures DispatchOrder(subscribers, topic) != [] && Deserialize(payload).Success? ==>
        r.Success? && trace == old(trace) + [Decoding(payload)]
          + FanOut(DispatchOrder(subscribers, topic), Deserialize(payload).value, raising)
    {
      r := DispatchIncoming("Broadcast", topic, payload, raising);
    }
  }

  /** `_DbusInterface`: the daemon side of the bus, forwarding `Publish` calls to the table. */
  class PubsubInterface {
    const pubsub: DbusPubsub

    constructor(pubsub: DbusPubsub)
      ensures this.pubsub == pubsub
    {
      this.pubsub := pubsub;
    }

    /** `Publish`: dispatches the message and answers `"published"`; a dispatch error propagates. */
    method Publish(topic: Topic, payload: Text, raising: set<Handler>) returns (r: Result<string>)
      modifies pubsub
      ensures pubsub.subscribers == old(pubsub.subscribers) && pubsub.hasInterface == old(pubsub.hasInterface)
      ensures r.Success? ==> r.value == "published"
      ensures r.Failure? <==> DispatchOrder(pubsub.subscribers, topic) != [] && Deserialize(payload).Failure?
      ensures r.Failure? ==> r.error == Deserialize(payload).error
      ensures DispatchOrder(pubsub.subscribers, topic) == [] ==>
        pubsub.trace == old(pubsub.trace) + [NoHandlers(topic)]
      ensures DispatchOrder(pubsub.subscribers, topic) != [] && Deserialize(payload).Failure? ==>
        pubsub.trace == old(pubsub.trace) + [Decoding(payload)]
      ensures DispatchOrder(pubsub.subscribers, topic) != [] && Deserialize(payload).Success? ==>
        pubsub.trace == old(pubsub.trace) + [Decoding(payload)]
          + FanOut(DispatchOrder(pubsub.subscribers, topic), Deserialize(payload).value, raising)
    {
      var done :- pubsub.DispatchIncoming("Publish", topic, payload, raising);
      r := Success("published");
    }
  }
}
