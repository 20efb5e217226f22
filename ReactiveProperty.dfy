/**
 * An observable cell: a value, the callbacks subscribed to it, and a disposed flag.
 * Callbacks are opaque delegates identified by `Callback` values; every invocation is
 * recorded in `deliveries`, so the order in which subscribers are called is part of the state.
 */
module ReactiveProperty {
  import opened Wrappers
  import opened Lists

  /** The identity of a subscribed delegate (delegate equality is identity of this value). */
  type Callback = nat

  /** One call of a subscriber with a value. */
  datatype Delivery<T> = Delivery(callback: Callback, value: T)

  /** One notification round over `subs`: every subscriber once, from the last registered to the first. */
  function NotifyRound<T>(subs: seq<Callback>, v: T): seq<Delivery<T>> {
    if subs == [] then [] else NotifyRound(subs[1..], v) + [Delivery(subs[0], v)]
  }

  /** The k-th call of a round goes to the (k+1)-th subscriber counted from the end. */
  lemma {:induction false} NotifyRoundAt<T>(subs: seq<Callback>, v: T, k: nat)
    requires k < |subs|
    ensures |NotifyRound(subs, v)| == |subs|
    ensures NotifyRound(subs, v)[k] == Delivery(subs[|subs| - 1 - k], v)
  {
    NotifyRoundLength(subs[1..], v);
    if k < |subs| - 1 {
      NotifyRoundAt(subs[1..], v, k);
    }
  }

  lemma {:induction false} NotifyRoundLength<T>(subs: seq<Callback>, v: T)
    ensures |NotifyRound(subs, v)| == |subs|
  {
    if subs != [] {
      NotifyRoundLength(subs[1..], v);
    }
  }

  /** A round is the subscriber list reversed, each paired with the value. */
  lemma {:induction false} NotifyRoundIsReverse<T>(subs: seq<Callback>, v: T)
    ensures NotifyRound(subs, v) == seq(|subs|, k requires 0 <= k < |subs| => Delivery(Reverse(subs)[k], v))
  {
    NotifyRoundLength(subs, v);
    forall k | 0 <= k < |subs|
      ensures NotifyRound(subs, v)[k] == Delivery(Reverse(subs)[k], v)
    {
      NotifyRoundAt(subs, v, k);
      ReverseAt(subs, k);
    }
  }

  class ReactiveProperty<T(==)> {
    var value: T
    var subscribers: seq<Callback>
    var disposed: bool
    /** Every subscriber call made so far, oldest first. */
    var deliveries: seq<Delivery<T>>

    constructor (initialValue: T)
      ensures value == initialValue && subscribers == [] && !disposed && deliveries == []
    {
      value := initialValue;
      subscribers := [];
      disposed := false;
      deliveries := [];
    }

    /** The `Value` setter: an equal value changes nothing; a different one is stored and then announced. */
    method SetValue(v: T)
      modifies this`value, this`deliveries
      ensures v == old(value) ==> value == old(value) && deliveries == old(deliveries)
      ensures v != old(value) ==> value == v && deliveries == old(deliveries) + NotifyRound(subscribers, v)
    {
      if value == v {
        return;
      }
      value := v;
      NotifySubscribers();
    }

    method SetValueWithoutNotify(v: T)
      modifies this`value
      ensures value == v
    {
      value := v;
    }

    /** Announces the current value whether or not it changed. */
    method ForceNotify()
      modifies this`deliveries
      ensures deliveries == old(deliveries) + NotifyRound(subscribers, value)
    {
      NotifySubscribers();
    }

    /** Calls the subscribers from the last index down to 0, skipping an index that is no longer in the list. */
    method NotifySubscribers()
      modifies this`deliveries
      ensures deliveries == old(deliveries) + NotifyRound(subscribers, value)
    {
      var i := |subscribers| - 1;
      while i >= 0
        invariant -1 <= i < |subscribers|
        invariant deliveries == old(deliveries) + NotifyRound(subscribers[i + 1..], value)
      {
        if i < |subscribers| {
          assert subscribers[i..][1..] == subscribers[i + 1..];
          deliveries := deliveries + [Delivery(subscribers[i], value)];
        }
        i := i - 1;
      }
      assert subscribers[0..] == subscribers;
    }

    /**
     * Registers `callback` and, when asked, calls it at once with the current value. A disposed
     * property registers nothing and hands back an inert handle (the shared `Disposable.Empty`).
     */
    method Subscribe(callback: Callback, invokeImmediately: bool) returns (handle: Disposable<T>)
      modifies this`subscribers, this`deliveries
      ensures fresh(handle)
      ensures old(disposed) ==> subscribers == old(subscribers) && deliveries == old(deliveries)
      ensures old(disposed) ==> handle.source == null && handle.action.None?
      ensures !old(disposed) ==> subscribers == old(subscribers) + [callback]
      ensures !old(disposed) ==> deliveries == old(deliveries) + (if invokeImmediately then [Delivery(callback, value)] else [])
      ensures !old(disposed) ==> handle.source == this && handle.action == Some(callback)
    {
      if disposed {
        handle := new Disposable.Empty();
        return;
      }
      subscribers := subscribers + [callback];
      if invokeImmediately {
        deliveries := deliveries + [Delivery(callback, value)];
      }
      handle := new Disposable(this, callback);
    }

    /** Removes the first registration of `callback`; what a subscription handle's action does. */
    method RemoveSubscriber(callback: Callback)
      modifies this`subscribers
      ensures subscribers == RemoveFirst(old(subscribers), callback)
    {
      subscribers := RemoveFirst(subscribers, callback);
    }

    method Dispose()
      modifies this`disposed, this`subscribers
      ensures disposed && subscribers == []
    {
      disposed := true;
      subscribers := [];
    }
  }

  /** A handle whose action runs at most once: the action is dropped after it has run. */
  class Disposable<T(==)> {
    /** The pending action: remove this callback from `source`; `None` once run (or for the empty handle). */
    var action: Option<Callback>
    const source: ReactiveProperty?<T>

    constructor (source: ReactiveProperty<T>, callback: Callback)
      ensures this.source == source && action == Some(callback)
    {
      this.source := source;
      action := Some(callback);
    }

    /** `Disposable.Empty`: a handle with no action. */
    constructor Empty()
      ensures source == null && action.None?
    {
      source := null;
      action := None;
    }

    method Dispose()
      modifies this, if source == null then {} else {source}
      ensures action.None?
      ensures source != null && old(action).Some? ==>
        source.subscribers == RemoveFirst(old(source.subscribers), old(action).value)
      ensures source != null ==> source.value == old(source.value) && source.disposed == old(source.disposed)
      ensures source != null ==> source.deliveries == old(source.deliveries)
      ensures source != null && old(action).None? ==> source.subscribers == old(source.subscribers)
    {
      if action.Some? && source != null {
        source.RemoveSubscriber(action.value);
      }
      action := None;
    }
  }

  /** Subscribing a new callback and then disposing its handle leaves the subscriber list as it was. */
  method SubscribeThenDispose<T(==)>(p: ReactiveProperty<T>, callback: Callback)
    requires !p.disposed && callback !in p.subscribers
    modifies p
    ensures p.subscribers == old(p.subscribers)
  {
    var handle := p.Subscribe(callback, false);
    handle.Dispose();
    RemoveFirstOfAppended(old(p.subscribers), callback);
    handle.Dispose();
  }
}
