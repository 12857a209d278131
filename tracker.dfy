/** The Tracker of src/walatrack/core/tracker.py: a running flag, the History
    it appends to, the bus it publishes on, and a cache from artifact identity
    to the fingerprint of the last report for that artifact. A report whose
    fingerprint equals the cached one is dropped. */
module Trackers {
  import opened Wrappers
  import opened Seqs
  import opened Text
  import opened Snapshots
  import opened Histories
  import opened Events

  /** The shape recorded for an artifact: its `shape` attribute when that is
      not None, otherwise `(len(artifact),)` when it has a length, otherwise
      None. */
  function ShapeOf(a: Artifact): (r: Option<seq<int>>)
    ensures a.shapeAttr.Some? ==> r == a.shapeAttr
    ensures a.shapeAttr.None? && a.length.Some? ==> r == Some([a.length.value as int])
    ensures r.None? <==> a.shapeAttr.None? && a.length.None?
  {
    if a.shapeAttr.Some? then a.shapeAttr
    else if a.length.Some? then Some([a.length.value as int])
    else None
  }

  /** The keyword arguments as the dict Python builds from them: a later
      pair for the same name replaces an earlier one. */
  function KwargsMap(kwargs: seq<(string, string)>): (m: map<string, string>)
    ensures m.Keys == set i | 0 <= i < |kwargs| :: kwargs[i].0
  {
    if kwargs == [] then map[]
    else
      var last := kwargs[|kwargs| - 1];
      var front := kwargs[..|kwargs| - 1];
      var m := KwargsMap(front);
      assert (set i | 0 <= i < |kwargs| :: kwargs[i].0) ==
        (set i | 0 <= i < |front| :: front[i].0) + {last.0};
      m[last.0 := last.1]
  }

  function KwargNames(kwargs: seq<(string, string)>): (names: seq<string>)
    ensures forall y :: y in names <==> y in KwargsMap(kwargs)
  {
    var names := seq(|kwargs|, i requires 0 <= i < |kwargs| => kwargs[i].0);
    forall y | y in KwargsMap(kwargs) ensures y in names {
      var i :| 0 <= i < |kwargs| && kwargs[i].0 == y;
      assert names[i] == y;
    }
    names
  }

  /** `sorted(kwargs.items())`: the items in ascending order of name (names
      are distinct, so the values never decide the order). */
  function SortedItems(kwargs: seq<(string, string)>): (items: seq<(string, string)>)
    ensures StrictlySorted(seq(|items|, i requires 0 <= i < |items| => items[i].0))
    ensures forall i :: 0 <= i < |items| ==>
      items[i].0 in KwargsMap(kwargs) && items[i].1 == KwargsMap(kwargs)[items[i].0]
    ensures forall k :: k in KwargsMap(kwargs) ==> exists i :: 0 <= i < |items| && items[i].0 == k
  {
    var m := KwargsMap(kwargs);
    var names := SortedDistinct(KwargNames(kwargs));
    var items := seq(|names|, i requires 0 <= i < |names| => (names[i], m[names[i]]));
    assert seq(|items|, i requires 0 <= i < |items| => items[i].0) == names;
    forall k | k in m ensures exists i :: 0 <= i < |items| && items[i].0 == k {
      assert k in names;
      var i :| 0 <= i < |names| && names[i] == k;
      assert items[i].0 == k;
    }
    items
  }

  /** `str(...)` of a list of (name, value) pairs. */
  function ItemsStr(items: seq<(string, string)>): string {
    ListStr(seq(|items|, i requires 0 <= i < |items| => TupleStr([QuotedStr(items[i].0), items[i].1])))
  }

  /** The text `_make_fp` feeds to blake2b: the five parts, each `.update`
      appending to what came before, with no separator between them: the
      text opens with the operation followed at once by the joined parent
      ids. */
  function FingerprintInput(
    op: string, parents: seq<Id>, shape: Option<seq<int>>,
    args: seq<string>, kwargs: seq<(string, string)>): (r: string)
    ensures var prefix := op + Join(parents, ",");
      |r| > |prefix| && r[..|prefix|] == prefix
  {
    var prefix := op + Join(parents, ",");
    var rest := ShapeStr(shape) + TupleStr(args) + ItemsStr(SortedItems(kwargs));
    assert (prefix + rest)[..|prefix|] == prefix;
    prefix + rest
  }

  /** Two calls whose keyword arguments make the same dict, in whatever order
      they were passed, feed the same text to the digest. */
  lemma FingerprintIgnoresKwargsOrder(
    op: string, parents: seq<Id>, shape: Option<seq<int>>, args: seq<string>,
    kw1: seq<(string, string)>, kw2: seq<(string, string)>)
    requires KwargsMap(kw1) == KwargsMap(kw2)
    ensures FingerprintInput(op, parents, shape, args, kw1) == FingerprintInput(op, parents, shape, args, kw2)
  {
    SortedDistinctBySet(KwargNames(kw1), KwargNames(kw2));
  }

  /** The parts run together: operation "a" with parent "b" feeds the same
      text as operation "ab" with no parents, so the two reports get the same
      fingerprint whatever the digest. */
  lemma FingerprintCollision(shape: Option<seq<int>>, args: seq<string>, kwargs: seq<(string, string)>)
    ensures FingerprintInput("a", ["b"], shape, args, kwargs) == FingerprintInput("ab", [], shape, args, kwargs)
  {
    assert Join(["b"], ",") == "b";
    assert Join([], ",") == "";
    assert "a" + Join(["b"], ",") == "ab" + Join([], ",");
  }

  /** The check-then-set on `_last_fp`: None when the artifact's cached
      fingerprint equals `fp` (the report is dropped), otherwise the cache
      with `fp` stored for the artifact. */
  function Remember(cache: map<nat, string>, handle: nat, fp: string): (r: Option<map<nat, string>>)
    ensures r.None? <==> handle in cache && cache[handle] == fp
    ensures r.Some? ==> r.value.Keys == cache.Keys + {handle} && r.value[handle] == fp
    ensures r.Some? ==> forall h :: h in cache && h != handle ==> r.value[h] == cache[h]
  {
    if handle in cache && cache[handle] == fp then None else Some(cache[handle := fp])
  }

  /** Only the last fingerprint counts: reports A, B, A on one artifact, with
      A and B differing, are all three kept. */
  lemma RepeatAfterChangeKept(cache: map<nat, string>, handle: nat, a: string, b: string)
    requires a != b
    requires handle !in cache || cache[handle] != a
    ensures var r1 := Remember(cache, handle, a);
      && r1.Some?
      && var r2 := Remember(r1.value, handle, b);
      && r2.Some?
      && Remember(r2.value, handle, a).Some?
  {
  }

  /** A report on one artifact never changes whether a report on another
      artifact is dropped. */
  lemma ArtifactsIndependent(cache: map<nat, string>, h1: nat, fp1: string, h2: nat, fp2: string)
    requires h1 != h2
    requires Remember(cache, h1, fp1).Some?
    ensures Remember(Remember(cache, h1, fp1).value, h2, fp2).None? <==> Remember(cache, h2, fp2).None?
  {
  }

  /** The same report twice in a row on one artifact: the second is dropped. */
  lemma RepeatDropped(cache: map<nat, string>, handle: nat, fp: string)
    ensures var r := Remember(cache, handle, fp);
      r.Some? ==> Remember(r.value, handle, fp).None?
  {
  }

  /** What `track` or `_idempotent_track` did: returned None (stopped, or a
      repeated fingerprint); raised the ValueError of `History.append` before
      publishing; or appended and published the snapshot. */
  datatype TrackOutcome =
    | Skipped
    | EvictionFailed(snap: Snapshot)
    | Published(snap: Snapshot, delivery: Delivery)

  const SnapshotCreated: Event := "snapshot.created"
  const TrackerStarted: Event := "tracker.started"
  const TrackerStopped: Event := "tracker.stopped"

  class Tracker {
    const history: History
    /** `global_bus`. */
    const bus: EventBus
    /** `blake2b(digest_size=16)` over a text, as its hex digest: an
        uninterpreted function. */
    const digest: string -> string
    var running: bool
    /** `_last_fp`: artifact identity to the last fingerprint. */
    var lastFp: map<nat, string>

    ghost predicate Valid()
      reads this, history
    {
      history.Valid()
    }

    /** `_make_fp`: the digest of the fingerprint text. Keyword arguments
        that make the same dict give the same fingerprint, whatever order
        they were passed in. */
    function MakeFp(op: string, parents: seq<Id>, shape: Option<seq<int>>,
                    args: seq<string>, kwargs: seq<(string, string)>): (fp: string)
      ensures forall kw :: KwargsMap(kw) == KwargsMap(kwargs) ==>
        fp == digest(FingerprintInput(op, parents, shape, args, kw))
    {
      assert forall kw :: KwargsMap(kw) == KwargsMap(kwargs) ==>
        FingerprintInput(op, parents, shape, args, kw) == FingerprintInput(op, parents, shape, args, kwargs)
      by {
        forall kw | KwargsMap(kw) == KwargsMap(kwargs)
          ensures FingerprintInput(op, parents, shape, args, kw) == FingerprintInput(op, parents, shape, args, kwargs)
        {
          FingerprintIgnoresKwargsOrder(op, parents, shape, args, kw, kwargs);
        }
      }
      digest(FingerprintInput(op, parents, shape, args, kwargs))
    }

    /** `Tracker(max_history)`: stopped, with an empty cache and an empty
        History of capacity `max_history or 1000`. */
    constructor(maxHistory: Option<int>, globalBus: EventBus, blake: string -> string)
      requires CapacityOf(maxHistory).Some?
      ensures Valid() && fresh(history)
      ensures !running && lastFp == map[]
      ensures history.capacity == CapacityOf(maxHistory).value
      ensures history.Model() == Ledger([], map[], map[])
      ensures bus == globalBus && digest == blake
    {
      history := new History(maxHistory);
      bus := globalBus;
      digest := blake;
      running := false;
      lastFp := map[];
    }

    /** `start()`: running, and `tracker.started` published on every call;
        the result is the tracker itself. */
    method Start(raising: set<Callback>) returns (self: Tracker, d: Delivery)
      modifies this
      ensures running && lastFp == old(lastFp)
      ensures self == this
      ensures d == Deliver(Get(bus.registry.listeners, TrackerStarted), raising)
    {
      running := true;
      d := bus.Publish(TrackerStarted, raising);
      self := this;
    }

    /** `stop()`: not running, and `tracker.stopped` published on every
        call. */
    method Stop(raising: set<Callback>) returns (d: Delivery)
      modifies this
      ensures !running && lastFp == old(lastFp)
      ensures d == Deliver(Get(bus.registry.listeners, TrackerStopped), raising)
    {
      running := false;
      d := bus.Publish(TrackerStopped, raising);
    }

    /** `track(operation, artifact, *args, parents=..., **kwargs)`. The new
        snapshot's id `freshId` and timestamp `now` come from the field
        factories; the id is a fresh uuid. */
    method Track(
      operation: string, artifact: Artifact, args: seq<string>, parents: seq<Id>,
      kwargs: seq<(string, string)>, freshId: Id, now: string, raising: set<Callback>)
      returns (out: TrackOutcome)
      requires Valid() && freshId !in Ids(history.buf)
      modifies history
      ensures Valid()
      ensures !running ==> out == Skipped && history.Model() == old(history.Model())
      ensures running ==>
        var snap := NewSnapshot(operation, ShapeOf(artifact), freshId, now, parents, args, kwargs, Some(artifact));
        var a := AppendSpec(history.capacity, old(history.Model()), snap);
        && history.Model() == a.ledger
        && out == if a.ok then Published(snap, Deliver(Get(bus.registry.listeners, SnapshotCreated), raising))
                  else EvictionFailed(snap)
    {
      if !running {
        return Skipped;
      }
      var shape := ShapeOf(artifact);
      var snap := NewSnapshot(operation, shape, freshId, now, parents, args, kwargs, Some(artifact));
      var ok := history.Append(snap);
      if !ok {
        return EvictionFailed(snap);
      }
      var d := bus.Publish(SnapshotCreated, raising);
      out := Published(snap, d);
    }

    /** `_idempotent_track(...)`: nothing while stopped; nothing when the
        artifact's cached fingerprint equals this report's; otherwise the
        cache entry is replaced and the report goes to `track`. */
    method IdempotentTrack(
      operation: string, artifact: Artifact, args: seq<string>, parents: seq<Id>,
      kwargs: seq<(string, string)>, freshId: Id, now: string, raising: set<Callback>)
      returns (out: TrackOutcome)
      requires Valid() && freshId !in Ids(history.buf)
      modifies this, history
      ensures Valid() && running == old(running)
      ensures var r := Remember(old(lastFp), artifact.handle, MakeFp(operation, parents, ShapeOf(artifact), args, kwargs));
        && (!running || r.None? ==>
              out == Skipped && lastFp == old(lastFp) && history.Model() == old(history.Model()))
        && (running && r.Some? ==>
              var snap := NewSnapshot(operation, ShapeOf(artifact), freshId, now, parents, args, kwargs, Some(artifact));
              var a := AppendSpec(history.capacity, old(history.Model()), snap);
              && lastFp == r.value
              && history.Model() == a.ledger
              && out == if a.ok then Published(snap, Deliver(Get(bus.registry.listeners, SnapshotCreated), raising))
                        else EvictionFailed(snap))
    {
      if !running {
        return Skipped;
      }
      var shape := ShapeOf(artifact);
      var fp := MakeFp(operation, parents, shape, args, kwargs);
      var oid := artifact.handle;
      if oid in lastFp && lastFp[oid] == fp {
        return Skipped;
      }
      lastFp := lastFp[oid := fp];
      out := Track(operation, artifact, args, parents, kwargs, freshId, now, raising);
    }

    /** `manual(note, artifact)`: an idempotent report with no arguments and
        no parents. */
    method Manual(note: string, artifact: Artifact, freshId: Id, now: string, raising: set<Callback>)
      returns (out: TrackOutcome)
      requires Valid() && freshId !in Ids(history.buf)
      modifies this, history
      ensures Valid() && running == old(running)
      ensures var r := Remember(old(lastFp), artifact.handle, MakeFp(note, [], ShapeOf(artifact), [], []));
        && (!running || r.None? ==>
              out == Skipped && lastFp == old(lastFp) && history.Model() == old(history.Model()))
        && (running && r.Some? ==>
              var snap := NewSnapshot(note, ShapeOf(artifact), freshId, now, [], [], [], Some(artifact));
              var a := AppendSpec(history.capacity, old(history.Model()), snap);
              && lastFp == r.value
              && history.Model() == a.ledger
              && out == if a.ok then Published(snap, Deliver(Get(bus.registry.listeners, SnapshotCreated), raising))
                        else EvictionFailed(snap))
    {
      out := IdempotentTrack(note, artifact, [], [], [], freshId, now, raising);
    }
  }

  /** A new tracker of default capacity, started. */
  method NewStarted(globalBus: EventBus, blake: string -> string) returns (t: Tracker)
    ensures fresh(t) && fresh(t.history)
    ensures t.Valid() && t.running && t.lastFp == map[]
    ensures t.history.Model() == Ledger([], map[], map[]) && t.history.capacity == 1000
  {
    t := new Tracker(None, globalBus, blake);
    var _, _ := t.Start({});
  }

  /** The same report twice on one artifact of a running tracker: one
      snapshot is recorded and published, the second call returns None and
      leaves the History as it was. */
  method DuplicateSuppressed(
    globalBus: EventBus, blake: string -> string, artifact: Artifact,
    id1: Id, id2: Id, now: string)
    returns (first: TrackOutcome, second: TrackOutcome, t: Tracker)
    requires id1 != id2
    ensures first.Published? && first.snap.id == id1 && first.snap.operation == "X"
    ensures second == Skipped
    ensures t.history.buf == [first.snap]
  {
    t := NewStarted(globalBus, blake);
    first := t.IdempotentTrack("X", artifact, [], [], [], id1, now, {});
    second := t.IdempotentTrack("X", artifact, [], [], [], id2, now, {});
  }
}
