/**
 * EventBus: handler lists keyed by event type. Publishing calls the handlers of that type from the
 * last registered to the first; a handler that throws is logged and the others still run.
 * Handlers are identified by number; which of them throw on a given publish is a parameter.
 */
module EventBus {
  import Lists

  type EventType = string
  type Handler = nat

  datatype Call = Call(handler: Handler, eventType: EventType, payload: int)

  /** One publish round over a handler list: the last handler first. */
  function Round(hs: seq<Handler>, t: EventType, payload: int): (r: seq<Call>)
    ensures |r| == |hs|
  {
    if hs == [] then [] else Round(hs[1..], t, payload) + [Call(hs[0], t, payload)]
  }

  /** The handlers of a round that throw, in the order they were called. */
  function Failures(hs: seq<Handler>, failing: set<Handler>): seq<Handler> {
    if hs == [] then [] else Failures(hs[1..], failing) + (if hs[0] in failing then [hs[0]] else [])
  }

  /** The k-th call of a round goes to the k-th handler from the end. */
  lemma {:induction false} RoundAt(hs: seq<Handler>, t: EventType, payload: int, k: nat)
    requires k < |hs|
    ensures Round(hs, t, payload)[k] == Call(hs[|hs| - 1 - k], t, payload)
  {
    if k < |hs| - 1 {
      RoundAt(hs[1..], t, payload, k);
    }
  }

  /** A round reaches only handlers registered for its type, and with that type's payload. */
  lemma {:induction false} RoundOnlyRegistered(hs: seq<Handler>, t: EventType, payload: int)
    ensures forall c :: c in Round(hs, t, payload) ==> c.handler in hs && c.eventType == t && c.payload == payload
  {
    if hs != [] {
      RoundOnlyRegistered(hs[1..], t, payload);
      assert hs == [hs[0]] + hs[1..];
    }
  }

  /** Throwing handlers do not cut a round short: its length is the number of registrations either way. */
  lemma {:induction false} FailuresAreCalled(hs: seq<Handler>, failing: set<Handler>, t: EventType, payload: int)
    ensures forall h :: h in Failures(hs, failing) ==> h in failing && Call(h, t, payload) in Round(hs, t, payload)
  {
    if hs != [] {
      FailuresAreCalled(hs[1..], failing, t, payload);
    }
  }

  class EventBus {
    var handlers: map<EventType, seq<Handler>>
    var calls: seq<Call>
    /** The exceptions logged, by the handler that threw them. */
    var logged: seq<Handler>

    constructor ()
      ensures handlers == map[] && calls == [] && logged == []
    {
      handlers := map[];
      calls := [];
      logged := [];
    }

    /** Calls each handler of type `t`, last registered first; `failing` are the handlers that throw. */
    method Publish(t: EventType, payload: int, failing: set<Handler>)
      modifies this`calls, this`logged
      ensures t !in handlers ==> calls == old(calls) && logged == old(logged)
      ensures t in handlers ==> calls == old(calls) + Round(handlers[t], t, payload)
      ensures t in handlers ==> logged == old(logged) + Failures(handlers[t], failing)
      ensures forall k :: |old(calls)| <= k < |calls| ==> calls[k].eventType == t && calls[k].handler in handlers[t]
    {
      if t !in handlers {
        return;
      }
      var hs := handlers[t];
      var i := |hs| - 1;
      while i >= 0
        invariant -1 <= i < |hs|
        invariant calls == old(calls) + Round(hs[i + 1..], t, payload)
        invariant logged == old(logged) + Failures(hs[i + 1..], failing)
      {
        assert hs[i..][1..] == hs[i + 1..];
        calls := calls + [Call(hs[i], t, payload)];
        if hs[i] in failing {
          logged := logged + [hs[i]];
        }
        i := i - 1;
      }
      assert hs[0..] == hs;
      RoundOnlyRegistered(hs, t, payload);
      assert forall k :: |old(calls)| <= k < |calls| ==> calls[k] in Round(hs, t, payload);
    }

    /** Appends the handler, duplicates allowed, creating the list for `t` on first use. */
    method Subscribe(t: EventType, h: Handler)
      modifies this`handlers
      ensures t !in old(handlers) ==> handlers == old(handlers)[t := [h]]
      ensures t in old(handlers) ==> handlers == old(handlers)[t := old(handlers)[t] + [h]]
    {
      if t !in handlers {
        handlers := handlers[t := []];
        assert handlers[t] + [h] == [h];
      }
      handlers := handlers[t := handlers[t] + [h]];
    }

    /** Removes the first registration of the handler; an unknown type or handler changes nothing. */
    method Unsubscribe(t: EventType, h: Handler)
      modifies this`handlers
      ensures t !in old(handlers) ==> handlers == old(handlers)
      ensures t in old(handlers) ==> handlers == old(handlers)[t := Lists.RemoveFirst(old(handlers)[t], h)]
    {
      if t in handlers {
        handlers := handlers[t := Lists.RemoveFirst(handlers[t], h)];
      }
    }

    method Clear()
      modifies this`handlers
      ensures handlers == map[]
    {
      handlers := map[];
    }
  }
}
