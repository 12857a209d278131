/** The per-instance event bus of core/events.py. Each bus owns its
    subscriber map (a `defaultdict(list)`), refuses to register a handler
    twice for the same event, and calls the live list on publish. */
module CoreEvents {
  import opened Wrappers
  import opened Seqs
  import opened Events

  /** Every event's handlers are registered at most once. */
  ghost predicate NoDuplicates(l: Listeners) {
    forall e :: e in l ==> Distinct(l[e])
  }

  /** `subscribe(event_type, handler)`: the handler is appended unless the
      event already has it. Reading `_subscribers[event_type]` on the
      `defaultdict` creates the event's list in either case. */
  function Added(l: Listeners, ev: Event, h: Callback): (r: Listeners)
    ensures r.Keys == l.Keys + {ev}
    ensures h in r[ev]
    ensures h in Get(l, ev) ==> r[ev] == Get(l, ev)
    ensures h !in Get(l, ev) ==> r[ev] == Get(l, ev) + [h]
    ensures forall e :: e in l && e != ev ==> r[e] == l[e]
  {
    if h !in Get(l, ev) then l[ev := Get(l, ev) + [h]] else l[ev := Get(l, ev)]
  }

  /** `unsubscribe(event_type, handler)`: the handler is removed when the
      event has it. The membership test on the `defaultdict` creates an empty
      list for an event never seen before. */
  function Dropped(l: Listeners, ev: Event, h: Callback): (r: Listeners)
    ensures r.Keys == l.Keys + {ev}
    ensures h !in Get(l, ev) ==> r[ev] == Get(l, ev)
    ensures h in Get(l, ev) ==> multiset(r[ev]) == multiset(Get(l, ev)) - multiset{h}
    ensures forall e :: e in l && e != ev ==> r[e] == l[e]
  {
    if h in Get(l, ev) then
      l[ev := RemoveFirst(Get(l, ev), h)]
    else l[ev := Get(l, ev)]
  }

  /** The list `unsubscribe` leaves behind is the old one without the
      handler's first occurrence, the others in their order. */
  lemma DroppedKeepsOrder(l: Listeners, ev: Event, h: Callback)
    requires h in Get(l, ev)
    ensures DropsFirst(Get(l, ev), h, Dropped(l, ev, h)[ev])
  {
    RemoveFirstDrops(Get(l, ev), h);
  }

  /** Subscribing never registers a handler twice. */
  lemma AddedNoDuplicates(l: Listeners, ev: Event, h: Callback)
    requires NoDuplicates(l)
    ensures NoDuplicates(Added(l, ev, h))
  {
    var r := Added(l, ev, h);
    if h !in Get(l, ev) {
      var s := Get(l, ev);
      assert Distinct(s);
      forall i, j | 0 <= i < j < |r[ev]| ensures r[ev][i] != r[ev][j] {
        if j == |s| {
          assert r[ev][i] == s[i];
        } else {
          assert r[ev][i] == s[i] && r[ev][j] == s[j];
        }
      }
    }
  }

  /** Unsubscribing removes the handler from the event entirely. */
  lemma DroppedNoDuplicates(l: Listeners, ev: Event, h: Callback)
    requires NoDuplicates(l)
    ensures NoDuplicates(Dropped(l, ev, h))
    ensures h !in Dropped(l, ev, h)[ev]
  {
    RemoveFirstDistinct(Get(l, ev), h);
  }

  /** Subscribing a new handler and unsubscribing it gives the event's
      handler list back and leaves every other event as it was. */
  lemma SubscribeUnsubscribeRestores(l: Listeners, ev: Event, h: Callback)
    requires h !in Get(l, ev)
    ensures Get(Dropped(Added(l, ev, h), ev, h), ev) == Get(l, ev)
    ensures forall e :: e != ev ==> Get(Dropped(Added(l, ev, h), ev, h), e) == Get(l, e)
  {
    RemoveFirstOfAppended(Get(l, ev), h);
  }

  /** After `unsubscribe`, a publish of that event does not reach the
      handler. */
  lemma DroppedNotDelivered(l: Listeners, ev: Event, h: Callback, raising: set<Callback>)
    requires NoDuplicates(l)
    ensures h !in Deliver(Get(Dropped(l, ev, h), ev), raising).called
  {
    DroppedNoDuplicates(l, ev, h);
  }

  /** One bus; `_subscribers` belongs to the instance. */
  class Bus {
    var subscribers: Listeners

    ghost predicate Valid()
      reads this
    {
      NoDuplicates(subscribers)
    }

    constructor()
      ensures Valid() && subscribers == map[]
    {
      subscribers := map[];
    }

    method Subscribe(ev: Event, h: Callback)
      requires Valid()
      modifies this
      ensures Valid() && subscribers == Added(old(subscribers), ev, h)
    {
      AddedNoDuplicates(subscribers, ev, h);
      var lst := Get(subscribers, ev);
      subscribers := subscribers[ev := lst];
      if h !in lst {
        subscribers := subscribers[ev := lst + [h]];
      }
    }

    /** `publish(event_type, payload)`: each handler of the event in turn,
        until one raises; nothing for an unknown event. */
    method Publish(ev: Event, raising: set<Callback>) returns (d: Delivery)
      ensures d == Deliver(Get(subscribers, ev), raising)
    {
      var handlers := Get(subscribers, ev);
      var called: seq<Callback> := [];
      var i := 0;
      while i < |handlers|
        invariant i <= |handlers| && Progress(handlers, raising, called, i)
      {
        var handler := handlers[i];
        ProgressStep(handlers, raising, called, i);
        called := called + [handler];
        if handler in raising {
          return Delivery(called, Some(handler));
        }
        i := i + 1;
      }
      assert handlers[i..] == [];
      d := Delivery(called, None);
    }

    method Unsubscribe(ev: Event, h: Callback)
      requires Valid()
      modifies this
      ensures Valid() && subscribers == Dropped(old(subscribers), ev, h)
    {
      DroppedNoDuplicates(subscribers, ev, h);
      var lst := Get(subscribers, ev);
      subscribers := subscribers[ev := lst];
      if h in lst {
        subscribers := subscribers[ev := RemoveFirst(lst, h)];
      }
    }
  }

  /** Buses do not share subscriptions: a handler subscribed on one bus is
      not called by a publish on another. */
  method Independent(ev: Event, h: Callback) returns (mine: Delivery, other: Delivery)
    ensures mine == Delivery([h], None)
    ensures other == Delivery([], None)
  {
    var first := new Bus();
    var second := new Bus();
    first.Subscribe(ev, h);
    mine := first.Publish(ev, {});
    other := second.Publish(ev, {});
  }
}
