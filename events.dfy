/** The event bus of src/walatrack/core/events.py: a registry from event names
    to lists of callbacks, kept in class-level state so that every EventBus
    instance sees and changes the same registry. Callbacks are opaque ids; a
    callback either returns or raises, and which ones raise on a given publish
    is a parameter of that publish. */
module Events {
  import opened Wrappers
  import opened Seqs

  type Event = string

  /** A registered callable, identified by an opaque id (Python compares
      callables by identity). */
  type Callback = nat

  /** `_REGISTRY`: event name to the callbacks registered for it, in
      registration order. `setdefault` leaves an event's (possibly empty) list
      in place once created. */
  type Listeners = map<Event, seq<Callback>>

  /** `_REGISTRY.setdefault(event, []).append(callback)`: the callback goes
      at the end of the event's list, duplicates allowed; no other event's
      list changes. */
  function Subscribed(l: Listeners, ev: Event, cb: Callback): (r: Listeners)
    ensures r.Keys == l.Keys + {ev}
    ensures Get(r, ev) == Get(l, ev) + [cb]
    ensures forall e :: e in l && e != ev ==> r[e] == l[e]
  {
    l[ev := Get(l, ev) + [cb]]
  }

  /** The closure returned by `subscribe`, named by what it captured. */
  datatype Unsubscriber = Unsubscriber(event: Event, callback: Callback)

  /** Calling the closure: `_REGISTRY.get(event, []).remove(callback)`.
      None where `.remove` raises ValueError (the callback is not in the
      event's list, or the event has no list at all). */
  function Unsubscribed(l: Listeners, u: Unsubscriber): (r: Option<Listeners>)
    ensures r.None? <==> u.callback !in Get(l, u.event)
    ensures r.Some? ==> r.value.Keys == l.Keys
    ensures r.Some? ==>
      multiset(r.value[u.event]) == multiset(l[u.event]) - multiset{u.callback}
    ensures r.Some? ==> forall e :: e in l && e != u.event ==> r.value[e] == l[e]
  {
    if u.callback in Get(l, u.event) then
      Some(l[u.event := RemoveFirst(l[u.event], u.callback)])
    else None
  }

  /** `unsubscribe(callback, event)`: with an event, one occurrence is
      removed from that event's list when there is one (no error otherwise);
      without an event, one occurrence is removed from every list holding the
      callback. The set of events is unchanged. */
  function Removed(l: Listeners, cb: Callback, ev: Option<Event>): (r: Listeners)
    ensures r.Keys == l.Keys
    ensures forall e :: e in l && (ev.None? || ev.value == e) ==>
      multiset(r[e]) == multiset(l[e]) - multiset{cb}
    ensures forall e :: e in l && cb !in l[e] ==> r[e] == l[e]
    ensures forall e :: e in l && ev.Some? && ev.value != e ==> r[e] == l[e]
  {
    match ev
    case Some(e) => RemovedFrom(l, cb, e)
    case None => RemovedEvery(l, cb)
  }

  /** `unsubscribe(callback, event)` with an event. */
  function RemovedFrom(l: Listeners, cb: Callback, e: Event): (r: Listeners)
    ensures r.Keys == l.Keys
    ensures e in l ==> RemovedAt(l[e], cb, r[e])
    ensures forall d :: d in l && d != e ==> r[d] == l[d]
  {
    if e in l && cb in l[e] then
      RemoveFirstMultiset(l[e], cb);
      l[e := RemoveFirst(l[e], cb)]
    else l
  }

  /** `unsubscribe(callback)` without an event: every list. */
  function RemovedEvery(l: Listeners, cb: Callback): (r: Listeners)
    ensures r.Keys == l.Keys
    ensures forall e :: e in l ==> RemovedAt(l[e], cb, r[e])
  {
    var r := map e | e in l :: RemoveFirst(l[e], cb);
    assert forall e :: e in l ==> RemovedAt(l[e], cb, r[e]) by {
      forall e | e in l ensures RemovedAt(l[e], cb, r[e]) {
        RemoveFirstMultiset(l[e], cb);
      }
    }
    r
  }

  /** What `unsubscribe` leaves of one list: the callback's count drops by
      one, and a list without it is untouched. */
  ghost predicate RemovedAt(s: seq<Callback>, cb: Callback, r: seq<Callback>) {
    multiset(r) == multiset(s) - multiset{cb} && (cb !in s ==> r == s)
  }

  /** The closure's `.remove` drops the callback's first occurrence and keeps
      the rest of the event's list in order. */
  lemma UnsubscribedKeepsOrder(l: Listeners, u: Unsubscriber)
    requires u.callback in Get(l, u.event)
    ensures DropsFirst(l[u.event], u.callback, Unsubscribed(l, u).value[u.event])
  {
    RemoveFirstDrops(l[u.event], u.callback);
  }

  /** On every list `unsubscribe` touches and that holds the callback, the
      first occurrence goes and the others keep their order. */
  lemma RemovedKeepsOrder(l: Listeners, cb: Callback, ev: Option<Event>, e: Event)
    requires e in l && (ev.None? || ev.value == e) && cb in l[e]
    ensures DropsFirst(l[e], cb, Removed(l, cb, ev)[e])
  {
    RemoveFirstDrops(l[e], cb);
  }

  /** What one `publish` did: the callbacks called, in order, and the one
      whose exception propagated out of `publish`, if any. Every call receives
      the same payload. */
  datatype Delivery = Delivery(called: seq<Callback>, raised: Option<Callback>)

  /** `for fn in listeners: fn(**payload)` over the copied list: each
      callback in order until one raises; the exception ends the loop. */
  function Deliver(listeners: seq<Callback>, raising: set<Callback>): (d: Delivery)
    ensures d.called <= listeners
    ensures d.raised.None? <==> forall i :: 0 <= i < |listeners| ==> listeners[i] !in raising
    ensures d.raised.None? ==> d.called == listeners
    ensures d.raised.Some? ==>
      d.called != [] && d.raised.value == d.called[|d.called| - 1] && d.raised.value in raising
    ensures forall i :: 0 <= i < |d.called| - 1 ==> d.called[i] !in raising
  {
    if listeners == [] then Delivery([], None)
    else if listeners[0] in raising then Delivery([listeners[0]], Some(listeners[0]))
    else
      var rest := Deliver(listeners[1..], raising);
      assert forall i :: 1 <= i < |listeners| ==> listeners[i] == listeners[1..][i - 1];
      Delivery([listeners[0]] + rest.called, rest.raised)
  }

  /** One step of the delivery loop. */
  lemma DeliverStep(listeners: seq<Callback>, i: nat, raising: set<Callback>)
    requires i < |listeners|
    ensures Deliver(listeners[i..], raising) ==
      if listeners[i] in raising then Delivery([listeners[i]], Some(listeners[i]))
      else Delivery([listeners[i]] + Deliver(listeners[i + 1..], raising).called,
                    Deliver(listeners[i + 1..], raising).raised)
  {
    assert listeners[i..][1..] == listeners[i + 1..];
  }

  /** The delivery loop has called `called`, the first `i` listeners,
      without an exception, and the rest of the delivery is still to come. */
  ghost predicate Progress(listeners: seq<Callback>, raising: set<Callback>, called: seq<Callback>, i: nat) {
    && i <= |listeners|
    && var rest := Deliver(listeners[i..], raising);
       Deliver(listeners, raising) == Delivery(called + rest.called, rest.raised)
  }

  lemma ProgressStep(listeners: seq<Callback>, raising: set<Callback>, called: seq<Callback>, i: nat)
    requires i < |listeners| && Progress(listeners, raising, called, i)
    ensures listeners[i] in raising ==>
      Deliver(listeners, raising) == Delivery(called + [listeners[i]], Some(listeners[i]))
    ensures listeners[i] !in raising ==> Progress(listeners, raising, called + [listeners[i]], i + 1)
  {
    DeliverStep(listeners, i, raising);
  }

  /** `unsubscribe(callback)` part way through its loop over the lists: the
      lists of the events in `todo` are not yet visited. */
  function RemovedExcept(l: Listeners, cb: Callback, todo: set<Event>): Listeners {
    map e | e in l :: if e in todo then l[e] else RemoveFirst(l[e], cb)
  }

  lemma RemovedExceptStep(l: Listeners, cb: Callback, todo: set<Event>, e: Event)
    requires e in todo && todo <= l.Keys
    ensures cb in l[e] ==>
      RemovedExcept(l, cb, todo)[e := RemoveFirst(l[e], cb)] == RemovedExcept(l, cb, todo - {e})
    ensures cb !in l[e] ==> RemovedExcept(l, cb, todo) == RemovedExcept(l, cb, todo - {e})
  {
  }

  lemma RemovedExceptDone(l: Listeners, cb: Callback)
    ensures RemovedExcept(l, cb, {}) == Removed(l, cb, None)
  {
  }

  /** `_REGISTRY`, the one registry object every EventBus works on. */
  class Registry {
    var listeners: Listeners

    constructor()
      ensures listeners == map[]
    {
      listeners := map[];
    }
  }

  /** An EventBus instance. It has no state of its own: `registry` is the
      class-level `_REGISTRY`, so buses built over the same Registry share
      every subscription. */
  class EventBus {
    const registry: Registry

    constructor(shared: Registry)
      ensures registry == shared
    {
      registry := shared;
    }

    /** `subscribe(event, callback)`; the result stands for the returned
        closure. */
    method Subscribe(ev: Event, cb: Callback) returns (u: Unsubscriber)
      modifies registry
      ensures registry.listeners == Subscribed(old(registry.listeners), ev, cb)
      ensures u == Unsubscriber(ev, cb)
    {
      registry.listeners := registry.listeners[ev := Get(registry.listeners, ev) + [cb]];
      u := Unsubscriber(ev, cb);
    }

    /** Calling the closure `u`. `ok` is false where it raises ValueError, and
        the registry is then unchanged. */
    method CallUnsubscriber(u: Unsubscriber) returns (ok: bool)
      modifies registry
      ensures var r := Unsubscribed(old(registry.listeners), u);
        ok == r.Some? && registry.listeners == r.GetOr(old(registry.listeners))
    {
      var lst := Get(registry.listeners, u.event);
      if u.callback !in lst {
        return false;
      }
      registry.listeners := registry.listeners[u.event := RemoveFirst(lst, u.callback)];
      ok := true;
    }

    /** `unsubscribe(callback, event=None)`. */
    method Unsubscribe(cb: Callback, ev: Option<Event>)
      modifies registry
      ensures registry.listeners == Removed(old(registry.listeners), cb, ev)
    {
      if ev.Some? {
        var e := ev.value;
        if e in registry.listeners && cb in registry.listeners[e] {
          registry.listeners := registry.listeners[e := RemoveFirst(registry.listeners[e], cb)];
        }
      } else {
        ghost var l := registry.listeners;
        var todo := registry.listeners.Keys;
        while todo != {}
          invariant todo <= l.Keys
          invariant registry.listeners == RemovedExcept(l, cb, todo)
          decreases todo
        {
          var e :| e in todo;
          var lst := registry.listeners[e];
          RemovedExceptStep(l, cb, todo, e);
          if cb in lst {
            registry.listeners := registry.listeners[e := RemoveFirst(lst, cb)];
          }
          todo := todo - {e};
        }
        RemovedExceptDone(l, cb);
      }
    }

    /** `publish(event, **payload)`: the list is copied first, then each
        callback is called in turn. The registry is not changed. */
    method Publish(ev: Event, raising: set<Callback>) returns (d: Delivery)
      ensures d == Deliver(Get(registry.listeners, ev), raising)
    {
      var listeners := Get(registry.listeners, ev);
      var called: seq<Callback> := [];
      var i := 0;
      while i < |listeners|
        invariant i <= |listeners| && Progress(listeners, raising, called, i)
      {
        var fn := listeners[i];
        ProgressStep(listeners, raising, called, i);
        called := called + [fn];
        if fn in raising {
          return Delivery(called, Some(fn));
        }
        i := i + 1;
      }
      assert listeners[i..] == [];
      d := Delivery(called, None);
    }

    /** `reset()`: every subscription of every bus is gone. */
    method Reset()
      modifies registry
      ensures registry.listeners == map[]
    {
      registry.listeners := map[];
    }

    /** `__enter__`: the bus itself. */
    method Enter() returns (b: EventBus)
      ensures b == this
    {
      b := this;
    }

    /** `__exit__`: resets the registry and does not suppress the exception. */
    method Exit() returns (suppress: bool)
      modifies registry
      ensures registry.listeners == map[] && !suppress
    {
      Reset();
      suppress := false;
    }
  }

  /** The closure removes the first occurrence, so when the callback was
      already registered for the event, calling the new closure removes the
      earlier registration and keeps the one just made. */
  lemma UnsubscriberRemovesEarliest(l: Listeners, ev: Event, cb: Callback)
    requires cb in Get(l, ev)
    ensures Unsubscribed(Subscribed(l, ev, cb), Unsubscriber(ev, cb))
      == Some(l[ev := RemoveFirst(l[ev], cb) + [cb]])
  {
    RemoveFirstAppend(l[ev], [cb], cb);
    var s := Subscribed(l, ev, cb);
    assert s[ev] == l[ev] + [cb];
    assert s[ev := RemoveFirst(s[ev], cb)] == l[ev := RemoveFirst(l[ev], cb) + [cb]];
  }

  /** Subscribing a callback the event did not hold and calling the closure
      gives the event's list back; calling the closure a second time raises
      ValueError. */
  lemma UnsubscriberOnce(l: Listeners, ev: Event, cb: Callback)
    requires cb !in Get(l, ev)
    ensures var once := Unsubscribed(Subscribed(l, ev, cb), Unsubscriber(ev, cb));
      && once.Some?
      && Get(once.value, ev) == Get(l, ev)
      && Unsubscribed(once.value, Unsubscriber(ev, cb)).None?
  {
    RemoveFirstOfAppended(Get(l, ev), cb);
  }

  /** After the closure of a callback the event did not hold before, publishing
      the event no longer calls it. */
  lemma UnsubscribedNotDelivered(l: Listeners, ev: Event, cb: Callback, raising: set<Callback>)
    requires cb !in Get(l, ev)
    ensures var once := Unsubscribed(Subscribed(l, ev, cb), Unsubscriber(ev, cb));
      once.Some? && cb !in Deliver(Get(once.value, ev), raising).called
  {
    UnsubscriberOnce(l, ev, cb);
  }

  /** `unsubscribe(cb)` without an event, on a callback registered at most
      once per event, leaves no event delivering to it. */
  lemma RemovedEverywhere(l: Listeners, cb: Callback, ev: Event, raising: set<Callback>)
    requires forall e :: e in l ==> Count(l[e], cb) <= 1
    ensures cb !in Deliver(Get(Removed(l, cb, None), ev), raising).called
  {
    var r := Removed(l, cb, None);
    if ev in l {
      RemoveOnlyCopy(l[ev], cb);
      assert Get(r, ev) == RemoveFirst(l[ev], cb);
    } else {
      assert Get(r, ev) == [];
    }
    var d := Deliver(Get(r, ev), raising);
    assert d.called <= Get(r, ev);
  }

  /** Removing the only copy of a callback leaves none. */
  lemma RemoveOnlyCopy(s: seq<Callback>, cb: Callback)
    requires Count(s, cb) <= 1
    ensures cb !in RemoveFirst(s, cb)
  {
    if cb in s {
      assert multiset(RemoveFirst(s, cb))[cb] == 0;
    }
  }

  /** Two buses share the one registry: a subscription made through one is
      delivered by a publish through the other, and a reset through either
      ends every delivery. */
  method SharedRegistry(ev: Event, cb: Callback) returns (before: Delivery, after: Delivery)
    ensures before == Delivery([cb], None)
    ensures after == Delivery([], None)
  {
    var registry := new Registry();
    var first := new EventBus(registry);
    var second := new EventBus(registry);
    var _ := first.Subscribe(ev, cb);
    before := second.Publish(ev, {});
    second.Reset();
    after := first.Publish(ev, {});
  }
}
