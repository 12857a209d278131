/** The bounded snapshot history of src/core/history.py: a ring buffer of
    snapshots (a `deque` with `maxlen`) plus two adjacency indices, `parents`
    (snapshot id to its parent ids) and `children` (id to the ids that named it
    as a parent).

    The pure part of this module states what one `append` does to the whole
    state (`AppendSpec`, built from `AddChildren` and `Unlink`) and proves its
    properties; the class `History` holds the state in fields and its methods
    are proved to perform exactly those transitions. */
module Histories {
  import opened Wrappers
  import opened Seqs
  import opened Snapshots

  /** `max_len or 1_000`: the capacity when none, or 0, is given. */
  const DefaultCapacity: nat := 1000

  /** The deque's `maxlen`: `max_len or 1_000`. A negative `max_len` makes
      `deque` raise ValueError, given here as None. */
  function CapacityOf(maxLen: Option<int>): (c: Option<nat>)
    ensures c.Some? <==> maxLen.None? || maxLen.value >= 0
    ensures c.Some? ==> c.value >= 1
    ensures maxLen.Some? && maxLen.value > 0 ==> c == Some(maxLen.value)
    ensures maxLen == None || maxLen == Some(0) ==> c == Some(DefaultCapacity)
  {
    match maxLen
    case None => Some(DefaultCapacity)
    case Some(n) => if n == 0 then Some(DefaultCapacity) else if n < 0 then None else Some(n)
  }

  /** A dictionary from ids to lists of ids, like `_parents` and `_children`. */
  type Index = map<Id, seq<Id>>

  /** The whole state of a History: `_buf`, `_parents`, `_children`. */
  datatype Ledger = Ledger(buf: seq<Snapshot>, parents: Index, children: Index)

  function Ids(buf: seq<Snapshot>): set<Id> {
    set s | s in buf :: s.id
  }

  /** The invariant every History keeps: the buffer fits the capacity, ids in
      it are distinct (they are fresh uuids), `_parents` has exactly one entry
      per buffered snapshot holding that snapshot's parents, and `_children`
      holds no empty list. */
  ghost predicate WellFormed(cap: nat, l: Ledger) {
    && 1 <= cap && |l.buf| <= cap
    && DistinctIds(l.buf)
    && ParentsMatch(l.buf, l.parents)
    && NoEmpty(l.children)
  }

  ghost predicate DistinctIds(buf: seq<Snapshot>) {
    forall i, j :: 0 <= i < j < |buf| ==> buf[i].id != buf[j].id
  }

  ghost predicate ParentsMatch(buf: seq<Snapshot>, parents: Index) {
    && parents.Keys == Ids(buf)
    && (forall s :: s in buf ==> parents[s.id] == s.parents)
  }

  ghost predicate NoEmpty(ch: Index) {
    forall p :: p in ch ==> ch[p] != []
  }

  /** `deque.append` on a deque with `maxlen` `cap`: when full, the leftmost
      entry is dropped first. */
  function Push(cap: nat, buf: seq<Snapshot>, s: Snapshot): (r: seq<Snapshot>)
    requires 1 <= cap && |buf| <= cap
    ensures |r| == if |buf| == cap then cap else |buf| + 1
    ensures r[|r| - 1] == s
    ensures forall i :: 0 <= i < |r| - 1 ==> r[i] == buf[|buf| + 1 - |r| + i]
  {
    (if |buf| == cap then buf[1..] else buf) + [s]
  }

  /** A kept position of the pushed buffer: the old entry, shifted by `o`,
      which is one when the head was dropped. */
  lemma PushKept(cap: nat, buf: seq<Snapshot>, s: Snapshot, m: nat, o: nat)
    requires 1 <= cap && |buf| <= cap && m < |Push(cap, buf, s)| - 1
    requires o == if |buf| == cap then 1 else 0
    ensures m + o < |buf| && Push(cap, buf, s)[m] == buf[m + o]
  {
  }

  /** Pushing a fresh id keeps ids distinct; the ids are the old ones, minus
      the evicted head when the buffer was full, plus the new one. */
  lemma PushIds(cap: nat, buf: seq<Snapshot>, s: Snapshot)
    requires 1 <= cap && |buf| <= cap && DistinctIds(buf) && s.id !in Ids(buf)
    ensures DistinctIds(Push(cap, buf, s))
    ensures Ids(Push(cap, buf, s)) == (if |buf| == cap then Ids(buf) - {buf[0].id} else Ids(buf)) + {s.id}
  {
    var r := Push(cap, buf, s);
    var kept := if |buf| == cap then buf[1..] else buf;
    assert r == kept + [s];
    assert forall t :: t in kept ==> t in buf;
    forall i, j | 0 <= i < j < |r| ensures r[i].id != r[j].id {
      if j < |r| - 1 {
        assert r[i] == kept[i] && r[j] == kept[j];
        if |buf| == cap {
          assert kept[i] == buf[i + 1] && kept[j] == buf[j + 1];
        }
      } else {
        assert r[i] in buf;
      }
    }
    if |buf| == cap {
      assert buf == [buf[0]] + kept;
      forall t | t in kept ensures t.id != buf[0].id {
        var j :| 0 <= j < |kept| && kept[j] == t;
        assert buf[j + 1] == t;
      }
    }
  }

  /** The loop `for pid in snap.parents: _children.setdefault(pid, []).append(c)`. */
  function AddChildren(ch: Index, ps: seq<Id>, c: Id): (r: Index)
    ensures forall p :: p !in ps ==> Get(r, p) == Get(ch, p)
    decreases |ps|
  {
    if ps == [] then ch
    else AddChildren(ch[ps[0] := Get(ch, ps[0]) + [c]], ps[1..], c)
  }

  /** Each parent's list gains the child once per occurrence of that parent,
      at its end. */
  lemma {:induction false} AddChildrenAt(ch: Index, ps: seq<Id>, c: Id, p: Id)
    ensures Get(AddChildren(ch, ps, c), p) == Get(ch, p) + Rep(c, Count(ps, p))
    decreases |ps|
  {
    if ps != [] {
      var ch' := ch[ps[0] := Get(ch, ps[0]) + [c]];
      AddChildrenAt(ch', ps[1..], c, p);
      if p == ps[0] {
        RepAfter(Get(ch, p), c, Count(ps[1..], p));
      } else {
        assert Get(ch', p) == Get(ch, p);
      }
    }
  }

  /** The keys gained are exactly the parents. */
  lemma {:induction false} AddChildrenKeys(ch: Index, ps: seq<Id>, c: Id)
    ensures AddChildren(ch, ps, c).Keys == ch.Keys + set p | p in ps
    decreases |ps|
  {
    if ps != [] {
      var ch' := ch[ps[0] := Get(ch, ps[0]) + [c]];
      AddChildrenKeys(ch', ps[1..], c);
      assert ps == [ps[0]] + ps[1..];
      assert (set p | p in ps) == {ps[0]} + set p | p in ps[1..];
    }
  }

  /** What happens to the result of Unlink: whether it got through every parent
      without an error, and the children index at the end (or at the point of
      the error). */
  datatype Unlinked = Unlinked(ok: bool, children: Index)

  /** The children index after removing `sid` once from `p`'s list. */
  function RemoveOnce(ch: Index, p: Id, sid: Id): (r: Index)
    ensures Get(r, p) == RemoveFirst(Get(ch, p), sid) && (p in r <==> Get(r, p) != [])
    ensures forall q :: q != p ==> Get(r, q) == Get(ch, q) && (q in r <==> q in ch)
  {
    var rest := RemoveFirst(Get(ch, p), sid);
    if rest == [] then ch - {p} else ch[p := rest]
  }

  /** `_children[p].remove(sid)` takes out the first occurrence of `sid`
      and keeps the other children of `p` in their order. */
  lemma RemoveOnceKeepsOrder(ch: Index, p: Id, sid: Id)
    requires sid in Get(ch, p)
    ensures DropsFirst(Get(ch, p), sid, Get(RemoveOnce(ch, p, sid), p))
  {
    RemoveFirstDrops(Get(ch, p), sid);
  }

  /** The loop of `_remove_snapshot` over the evicted id's parents:
      `_children.get(p, []).remove(sid)` raises ValueError when `sid` is not in
      that list; otherwise one occurrence goes, and a list left empty is
      deleted from the index. */
  function Unlink(ch: Index, ps: seq<Id>, sid: Id): (r: Unlinked)
    ensures r.children.Keys <= ch.Keys
    ensures !r.ok ==> ps != []
    decreases |ps|
  {
    if ps == [] then Unlinked(true, ch)
    else if sid !in Get(ch, ps[0]) then Unlinked(false, ch)
    else Unlink(RemoveOnce(ch, ps[0], sid), ps[1..], sid)
  }

  /** Unlinking touches only the lists of the given parents; on success each
      parent's list has lost the id once per occurrence of that parent,
      counted from the front. */
  lemma {:induction false} UnlinkAt(ch: Index, ps: seq<Id>, sid: Id, p: Id)
    ensures p !in ps ==>
      (p in Unlink(ch, ps, sid).children <==> p in ch) && Get(Unlink(ch, ps, sid).children, p) == Get(ch, p)
    ensures Unlink(ch, ps, sid).ok ==>
      Get(Unlink(ch, ps, sid).children, p) == RemoveFirstN(Get(ch, p), sid, Count(ps, p))
    decreases |ps|
  {
    if ps != [] {
      var q := ps[0];
      if sid in Get(ch, q) {
        var ch' := RemoveOnce(ch, q, sid);
        assert Get(ch', p) == if p == q then RemoveFirst(Get(ch, q), sid) else Get(ch, p);
        assert p != q ==> (p in ch' <==> p in ch);
        UnlinkAt(ch', ps[1..], sid, p);
        assert p !in ps ==> p !in ps[1..];
        assert Count(ps, p) == (if p == q then 1 else 0) + Count(ps[1..], p);
      }
    }
  }

  /** Unlinking never leaves an empty list behind. */
  lemma {:induction false} UnlinkNoEmpty(ch: Index, ps: seq<Id>, sid: Id)
    requires forall p :: p in ch ==> ch[p] != []
    ensures forall p :: p in Unlink(ch, ps, sid).children ==> Unlink(ch, ps, sid).children[p] != []
    decreases |ps|
  {
    if ps != [] {
      if sid in Get(ch, ps[0]) {
        UnlinkNoEmpty(RemoveOnce(ch, ps[0], sid), ps[1..], sid);
      }
    }
  }

  /** Each parent's list holds the id at least as often as the parent occurs. */
  ghost predicate Enough(ch: Index, ps: seq<Id>, sid: Id) {
    forall p :: p in ps ==> Count(Get(ch, p), sid) >= Count(ps, p)
  }

  /** Removing the id once from a list that holds it lowers its count there
      by one. */
  lemma RemoveOnceCount(ch: Index, p: Id, sid: Id)
    requires sid in Get(ch, p)
    ensures Count(Get(RemoveOnce(ch, p, sid), p), sid) == Count(Get(ch, p), sid) - 1
  {
    assert multiset(RemoveFirst(Get(ch, p), sid))[sid] == multiset(Get(ch, p))[sid] - 1;
  }

  lemma EnoughDown(ch: Index, ps: seq<Id>, sid: Id)
    requires ps != [] && sid in Get(ch, ps[0]) && Enough(ch, ps, sid)
    ensures Enough(RemoveOnce(ch, ps[0], sid), ps[1..], sid)
  {
    var ch' := RemoveOnce(ch, ps[0], sid);
    forall q | q in ps[1..] ensures Count(Get(ch', q), sid) >= Count(ps[1..], q) {
      assert q in ps;
      RemoveOnceCount(ch, ps[0], sid);
    }
  }

  lemma EnoughUp(ch: Index, ps: seq<Id>, sid: Id)
    requires ps != [] && sid in Get(ch, ps[0]) && Enough(RemoveOnce(ch, ps[0], sid), ps[1..], sid)
    ensures Enough(ch, ps, sid)
  {
    var ch' := RemoveOnce(ch, ps[0], sid);
    forall q | q in ps ensures Count(Get(ch, q), sid) >= Count(ps, q) {
      RemoveOnceCount(ch, ps[0], sid);
      if q != ps[0] {
        assert q in ps[1..];
      } else if q in ps[1..] {
      } else {
        assert Count(ps[1..], q) == 0;
      }
    }
  }

  /** Unlinking gets through without ValueError exactly when there are
      enough occurrences of the id to remove. */
  lemma {:induction false} UnlinkSucceedsIff(ch: Index, ps: seq<Id>, sid: Id)
    ensures Unlink(ch, ps, sid).ok <==> Enough(ch, ps, sid)
    decreases |ps|
  {
    if ps != [] {
      var p := ps[0];
      var lst := Get(ch, p);
      if sid in lst {
        UnlinkSucceedsIff(RemoveOnce(ch, p, sid), ps[1..], sid);
        if Enough(ch, ps, sid) {
          EnoughDown(ch, ps, sid);
        }
        if Enough(RemoveOnce(ch, p, sid), ps[1..], sid) {
          EnoughUp(ch, ps, sid);
        }
      } else {
        assert p in ps;
        assert Count(lst, sid) == 0;
      }
    }
  }

  /** One `append(snap)` on a history of capacity `cap`: when the buffer is
      full its head is recorded as evicted and dropped, the snapshot is pushed,
      its parent edges are installed, and then `_remove_snapshot` runs on the
      evicted id. `ok` is false when that raised ValueError; the ledger is then
      the state at the moment of the error (buffer and `_parents` already
      updated, `_children` partly unlinked, the evicted id's own child list
      still there). */
  datatype Appended = Appended(ok: bool, ledger: Ledger)

  function AppendSpec(cap: nat, l: Ledger, s: Snapshot): (r: Appended)
    requires 1 <= cap && |l.buf| <= cap
    ensures r.ledger.buf == Push(cap, l.buf, s)
    ensures |l.buf| < cap ==> r.ok
  {
    var buf := Push(cap, l.buf, s);
    var parents := l.parents[s.id := s.parents];
    var children := AddChildren(l.children, s.parents, s.id);
    if |l.buf| < cap then Appended(true, Ledger(buf, parents, children))
    else
      var e := l.buf[0].id;
      var u := Unlink(children, Get(parents, e), e);
      Appended(u.ok, Ledger(buf, parents - {e}, if u.ok then u.children - {e} else u.children))
  }

  /** Installing the parent edges leaves no empty list. */
  lemma AddChildrenNoEmpty(ch: Index, ps: seq<Id>, c: Id)
    requires NoEmpty(ch)
    ensures NoEmpty(AddChildren(ch, ps, c))
  {
    var r := AddChildren(ch, ps, c);
    AddChildrenKeys(ch, ps, c);
    forall p | p in r ensures r[p] != [] {
      AddChildrenAt(ch, ps, c, p);
      if p !in ch {
        assert p in ps;
        assert Count(ps, p) > 0;
      }
      assert Get(r, p) == r[p];
    }
  }

  /** The id that a push onto `buf` evicts, if any. */
  function Evicted(cap: nat, buf: seq<Snapshot>): set<Id>
    requires 1 <= cap && |buf| <= cap
  {
    if |buf| == cap then {buf[0].id} else {}
  }

  /** `_parents` follows the buffer: the new snapshot's entry is added and
      the evicted one's removed. */
  lemma PushParents(cap: nat, buf: seq<Snapshot>, parents: Index, s: Snapshot)
    requires 1 <= cap && |buf| <= cap && DistinctIds(buf) && s.id !in Ids(buf)
    requires ParentsMatch(buf, parents)
    ensures ParentsMatch(Push(cap, buf, s), parents[s.id := s.parents] - Evicted(cap, buf))
  {
    PushIds(cap, buf, s);
    if |buf| == cap {
      assert buf[0] in buf;
    }
    forall t | t in Push(cap, buf, s)
      ensures (parents[s.id := s.parents] - Evicted(cap, buf))[t.id] == t.parents
    {
      PushParentsAt(cap, buf, parents, s, t);
    }
  }

  lemma PushParentsAt(cap: nat, buf: seq<Snapshot>, parents: Index, s: Snapshot, t: Snapshot)
    requires 1 <= cap && |buf| <= cap && DistinctIds(buf) && s.id !in Ids(buf)
    requires ParentsMatch(buf, parents)
    requires t in Push(cap, buf, s)
    ensures (parents[s.id := s.parents] - Evicted(cap, buf))[t.id] == t.parents
  {
    PushIds(cap, buf, s);
    var r := Push(cap, buf, s);
    assert t.id in Ids(r);
    if t != s {
      var i :| 0 <= i < |r| && r[i] == t;
      assert i < |r| - 1;
      assert t in buf;
      assert t.id != s.id;
      assert parents[s.id := s.parents][t.id] == t.parents;
    }
    if |buf| == cap {
      assert buf[0].id !in Ids(r);
      assert Evicted(cap, buf) == {buf[0].id};
    } else {
      assert Evicted(cap, buf) == {};
    }
  }

  /** Appending a snapshot with a fresh id keeps the invariant, whether or not
      the eviction raised. */
  lemma AppendWellFormed(cap: nat, l: Ledger, s: Snapshot)
    requires WellFormed(cap, l) && s.id !in Ids(l.buf)
    ensures WellFormed(cap, AppendSpec(cap, l, s).ledger)
  {
    PushIds(cap, l.buf, s);
    PushParents(cap, l.buf, l.parents, s);
    assert |l.buf| < cap ==> Evicted(cap, l.buf) == {};
    var children := AddChildren(l.children, s.parents, s.id);
    AddChildrenNoEmpty(l.children, s.parents, s.id);
    if |l.buf| == cap {
      var e := l.buf[0].id;
      UnlinkNoEmpty(children, Get(l.parents[s.id := s.parents], e), e);
    }
  }

  /** An eviction gets through `_remove_snapshot` without ValueError exactly
      when every parent of the evicted snapshot still lists it in `_children`
      as often as it names that parent. The pushed snapshot's own edges do not
      matter, since its id differs from the evicted one. */
  lemma AppendSucceedsIff(cap: nat, l: Ledger, s: Snapshot)
    requires WellFormed(cap, l) && s.id !in Ids(l.buf)
    ensures AppendSpec(cap, l, s).ok <==>
      |l.buf| < cap || Enough(l.children, l.buf[0].parents, l.buf[0].id)
  {
    if |l.buf| == cap {
      var e := l.buf[0];
      assert e in l.buf;
      var children := AddChildren(l.children, s.parents, s.id);
      assert Get(l.parents[s.id := s.parents], e.id) == e.parents;
      UnlinkSucceedsIff(children, e.parents, e.id);
      forall p ensures Count(Get(children, p), e.id) == Count(Get(l.children, p), e.id) {
        AddChildrenAt(l.children, s.parents, s.id, p);
        assert multiset(Get(children, p)) == multiset(Get(l.children, p)) + multiset(Rep(s.id, Count(s.parents, p)));
      }
    }
  }

  /** What `append` does to `_children`. Without an eviction, each parent of
      the new snapshot gains its id at the end, once per occurrence. With a
      successful eviction, in addition each parent of the evicted snapshot
      loses the evicted id once per occurrence, and the evicted id's own list
      is gone. */
  lemma AppendChildren(cap: nat, l: Ledger, s: Snapshot, q: Id)
    requires WellFormed(cap, l) && s.id !in Ids(l.buf)
    ensures var r := AppendSpec(cap, l, s);
      |l.buf| < cap ==>
        Get(r.ledger.children, q) == Get(l.children, q) + Rep(s.id, Count(s.parents, q))
    ensures var r := AppendSpec(cap, l, s);
      |l.buf| == cap && r.ok && q != l.buf[0].id ==>
        Get(r.ledger.children, q) ==
          RemoveFirstN(Get(l.children, q), l.buf[0].id, Count(l.buf[0].parents, q)) + Rep(s.id, Count(s.parents, q))
    ensures var r := AppendSpec(cap, l, s);
      |l.buf| == cap && r.ok ==> l.buf[0].id !in r.ledger.children
  {
    AddChildrenAt(l.children, s.parents, s.id, q);
    if |l.buf| == cap && AppendSpec(cap, l, s).ok {
      var e := l.buf[0];
      var u := Unlink(AddChildren(l.children, s.parents, s.id), Get(l.parents[s.id := s.parents], e.id), e.id);
      assert AppendSpec(cap, l, s).ledger.children == u.children - {e.id};
      if q != e.id {
        AppendChildrenEvicting(cap, l, s, q);
      }
    }
  }

  /** The second case of `AppendChildren`: `q`'s list after a successful
      eviction. */
  lemma AppendChildrenEvicting(cap: nat, l: Ledger, s: Snapshot, q: Id)
    requires WellFormed(cap, l) && s.id !in Ids(l.buf)
    requires |l.buf| == cap && AppendSpec(cap, l, s).ok && q != l.buf[0].id
    ensures Get(AppendSpec(cap, l, s).ledger.children, q) ==
      RemoveFirstN(Get(l.children, q), l.buf[0].id, Count(l.buf[0].parents, q)) + Rep(s.id, Count(s.parents, q))
  {
    var children := AddChildren(l.children, s.parents, s.id);
    AddChildrenAt(l.children, s.parents, s.id, q);
    var e := l.buf[0];
    assert Get(l.parents[s.id := s.parents], e.id) == e.parents by {
      assert e in l.buf;
    }
    var k := Count(e.parents, q);
    var u := Unlink(children, e.parents, e.id);
    assert u.ok && AppendSpec(cap, l, s).ledger.children == u.children - {e.id};
    UnlinkAt(children, e.parents, e.id, q);
    if q in e.parents {
      assert Count(Get(l.children, q), e.id) >= k by {
        AppendSucceedsIff(cap, l, s);
      }
      RemoveFirstNAppend(Get(l.children, q), Rep(s.id, Count(s.parents, q)), e.id, k);
    } else {
      assert k == 0;
    }
  }


  /** `_children` names only buffered snapshots, and lists a child under `p`
      no more often than that child names `p` as a parent: every child edge
      has a parent edge behind it. Together with WellFormed this ties
      `_children` to the buffer. A failed eviction can break it (the evicted
      id may stay behind in a child list), so it is kept apart from the
      invariant of the class and proved across successful appends. */
  ghost predicate ChildrenSound(l: Ledger) {
    forall p, c :: ChildSound(l, p, c)
  }

  /** The edge from `p` to `c` in `_children`, if listed, has enough parent
      edges behind it. */
  ghost predicate ChildSound(l: Ledger, p: Id, c: Id) {
    c in Get(l.children, p) ==>
      c in Ids(l.buf) && Count(Get(l.children, p), c) <= Count(Get(l.parents, c), p)
  }

  /** A successful append keeps every child edge backed by a parent edge of
      a buffered snapshot; in particular the evicted id is left in no child
      list, so the index never names an evicted snapshot as a child. */
  lemma AppendChildrenSound(cap: nat, l: Ledger, s: Snapshot)
    requires WellFormed(cap, l) && ChildrenSound(l) && s.id !in Ids(l.buf)
    ensures var r := AppendSpec(cap, l, s);
      r.ok ==> ChildrenSound(r.ledger)
    ensures var r := AppendSpec(cap, l, s);
      r.ok && |l.buf| == cap ==> forall p :: l.buf[0].id !in Get(r.ledger.children, p)
  {
    var r := AppendSpec(cap, l, s);
    if r.ok {
      AppendIndexParents(cap, l, s);
      forall p, c
        ensures ChildSound(r.ledger, p, c)
        ensures |l.buf| == cap ==> c in Get(r.ledger.children, p) ==> c != l.buf[0].id
      {
        if c in Get(r.ledger.children, p) {
          AppendChildren(cap, l, s, p);
          if |l.buf| < cap {
            ChildSoundPush(l, r.ledger, s, p, c);
          } else {
            assert l.buf[0] in l.buf;
            ChildSoundEvict(l, r.ledger, l.buf[0], s, p, c);
          }
        }
      }
    }
  }

  /** The other half of the link between `_children` and the buffer: for
      every buffered snapshot and every younger buffered snapshot, the
      younger one is listed under the older one at least as often as it
      names it as a parent. With fresh ids a parent is always older than its
      child, so this is every parent edge between retained snapshots. */
  ghost predicate ChildrenComplete(l: Ledger) {
    forall p, c :: ChildComplete(l, p, c)
  }

  /** The parent edges from `c` to an older `p` are all listed in `_children`. */
  ghost predicate ChildComplete(l: Ledger, p: Id, c: Id) {
    Precedes(l.buf, p, c) ==> Count(Get(l.children, p), c) >= Count(Get(l.parents, c), p)
  }

  /** A snapshot with id `p` sits in `buf` before one with id `c`. */
  ghost predicate Precedes(buf: seq<Snapshot>, p: Id, c: Id) {
    exists i, j :: 0 <= i < j < |buf| && buf[i].id == p && buf[j].id == c
  }

  /** An empty history is trivially complete. */
  lemma EmptyChildrenComplete(l: Ledger)
    requires l.buf == []
    ensures ChildrenComplete(l)
  {
  }

  /** What a sound and complete `_children` says about one parent's list:
      it names only buffered snapshots, and each snapshot younger than the
      parent exactly as often as that snapshot names the parent. */
  lemma ChildrenListed(l: Ledger, p: Id)
    ensures ChildrenSound(l) ==> forall c :: c in Get(l.children, p) ==> c in Ids(l.buf)
    ensures ParentsMatch(l.buf, l.parents) && ChildrenSound(l) && ChildrenComplete(l) ==>
      forall t :: t in l.buf && Precedes(l.buf, p, t.id) ==> Count(Get(l.children, p), t.id) == Count(t.parents, p)
  {
    if ChildrenSound(l) {
      forall c | c in Get(l.children, p) ensures c in Ids(l.buf) {
        assert ChildSound(l, p, c);
      }
    }
    if ParentsMatch(l.buf, l.parents) && ChildrenSound(l) && ChildrenComplete(l) {
      forall t | t in l.buf && Precedes(l.buf, p, t.id)
        ensures Count(Get(l.children, p), t.id) == Count(t.parents, p)
      {
        assert Get(l.parents, t.id) == t.parents;
        assert ChildComplete(l, p, t.id);
        assert ChildSound(l, p, t.id);
      }
    }
  }

  /** A successful append keeps every parent edge between retained
      snapshots listed in `_children`. */
  lemma AppendChildrenComplete(cap: nat, l: Ledger, s: Snapshot)
    requires WellFormed(cap, l) && ChildrenComplete(l) && s.id !in Ids(l.buf)
    ensures var r := AppendSpec(cap, l, s);
      r.ok ==> ChildrenComplete(r.ledger)
  {
    if AppendSpec(cap, l, s).ok {
      forall p, c ensures ChildComplete(AppendSpec(cap, l, s).ledger, p, c) {
        ChildCompleteAfterAppend(cap, l, s, p, c);
      }
    }
  }

  /** One ordered pair of the buffer after a successful append. */
  lemma ChildCompleteAfterAppend(cap: nat, l: Ledger, s: Snapshot, p: Id, c: Id)
    requires WellFormed(cap, l) && ChildrenComplete(l) && s.id !in Ids(l.buf)
    requires AppendSpec(cap, l, s).ok
    ensures ChildComplete(AppendSpec(cap, l, s).ledger, p, c)
  {
    var r := AppendSpec(cap, l, s).ledger;
    if Precedes(r.buf, p, c) {
      PrecedesAfterPush(cap, l.buf, s, p, c);
      if c == s.id {
        assert Get(r.parents, c) == s.parents by {
          AppendIndexParents(cap, l, s);
        }
        NewEdgeListed(cap, l, s, p);
      } else {
        assert Get(r.parents, c) == Get(l.parents, c) by {
          AppendIndexParents(cap, l, s);
        }
        assert ChildComplete(l, p, c);
        KeptEdgeListed(cap, l, s, p, c);
      }
    }
  }

  /** Where an ordered pair of the pushed buffer came from: the second is the
      new snapshot or both were in order before, and neither of the old ones
      is the dropped head. */
  lemma PrecedesAfterPush(cap: nat, buf: seq<Snapshot>, s: Snapshot, p: Id, c: Id)
    requires 1 <= cap && |buf| <= cap && DistinctIds(buf) && s.id !in Ids(buf)
    requires Precedes(Push(cap, buf, s), p, c)
    ensures p in Ids(buf) && (|buf| == cap ==> p != buf[0].id)
    ensures c != s.id ==> Precedes(buf, p, c) && (|buf| == cap ==> c != buf[0].id)
  {
    var nb := Push(cap, buf, s);
    var o := if |buf| == cap then 1 else 0;
    var i, j :| 0 <= i < j < |nb| && nb[i].id == p && nb[j].id == c;
    PushKept(cap, buf, s, i, o);
    assert buf[i + o] in buf;
    if j < |nb| - 1 {
      PushKept(cap, buf, s, j, o);
      assert buf[j + o] in buf;
    }
  }

  /** After a successful append, a kept snapshot's list holds the new
      snapshot as often as the new snapshot names it. */
  lemma NewEdgeListed(cap: nat, l: Ledger, s: Snapshot, p: Id)
    requires WellFormed(cap, l) && s.id !in Ids(l.buf)
    requires AppendSpec(cap, l, s).ok && p in Ids(l.buf) && (|l.buf| == cap ==> p != l.buf[0].id)
    ensures Count(Get(AppendSpec(cap, l, s).ledger.children, p), s.id) >= Count(s.parents, p)
  {
    var a := AppendedBefore(cap, l, s, p);
    CountAppendRep(a, s.id, Count(s.parents, p), s.id);
  }

  /** After a successful append, a kept snapshot's list holds every other
      kept snapshot as often as before. */
  lemma KeptEdgeListed(cap: nat, l: Ledger, s: Snapshot, p: Id, c: Id)
    requires WellFormed(cap, l) && s.id !in Ids(l.buf)
    requires AppendSpec(cap, l, s).ok && p in Ids(l.buf) && c in Ids(l.buf)
    requires |l.buf| == cap ==> p != l.buf[0].id && c != l.buf[0].id
    ensures Count(Get(AppendSpec(cap, l, s).ledger.children, p), c) == Count(Get(l.children, p), c)
  {
    var before := Get(l.children, p);
    var a := AppendedBefore(cap, l, s, p);
    CountAppendRep(a, s.id, Count(s.parents, p), c);
    if |l.buf| == cap {
      RemoveFirstNOther(before, l.buf[0].id, Count(l.buf[0].parents, p), c);
    }
  }

  /** The list of a kept snapshot `p` after a successful append: its old
      list, less the evicted id's edges when there was an eviction, followed
      by the new snapshot's edges. Returns the first part. */
  lemma AppendedBefore(cap: nat, l: Ledger, s: Snapshot, p: Id) returns (a: seq<Id>)
    requires WellFormed(cap, l) && s.id !in Ids(l.buf)
    requires AppendSpec(cap, l, s).ok && p in Ids(l.buf) && (|l.buf| == cap ==> p != l.buf[0].id)
    ensures a == if |l.buf| == cap then RemoveFirstN(Get(l.children, p), l.buf[0].id, Count(l.buf[0].parents, p))
      else Get(l.children, p)
    ensures Get(AppendSpec(cap, l, s).ledger.children, p) == a + Rep(s.id, Count(s.parents, p))
  {
    AppendChildren(cap, l, s, p);
    a := if |l.buf| == cap then RemoveFirstN(Get(l.children, p), l.buf[0].id, Count(l.buf[0].parents, p))
      else Get(l.children, p);
  }

  /** The buffered ids and `_parents` after an append. */
  lemma AppendIndexParents(cap: nat, l: Ledger, s: Snapshot)
    requires WellFormed(cap, l) && s.id !in Ids(l.buf)
    ensures var r := AppendSpec(cap, l, s).ledger;
      && Ids(r.buf) == (if |l.buf| == cap then Ids(l.buf) - {l.buf[0].id} else Ids(l.buf)) + {s.id}
      && r.parents == l.parents[s.id := s.parents] - Evicted(cap, l.buf)
  {
    PushIds(cap, l.buf, s);
    if |l.buf| < cap {
      assert l.parents[s.id := s.parents] - {} == l.parents[s.id := s.parents];
    }
  }

  /** One child edge after an append without eviction. */
  lemma ChildSoundPush(l: Ledger, r: Ledger, s: Snapshot, p: Id, c: Id)
    requires ChildrenSound(l) && s.id !in Ids(l.buf)
    requires Ids(r.buf) == Ids(l.buf) + {s.id}
    requires r.parents == l.parents[s.id := s.parents]
    requires Get(r.children, p) == Get(l.children, p) + Rep(s.id, Count(s.parents, p))
    requires c in Get(r.children, p)
    ensures ChildSound(r, p, c)
  {
    assert ChildSound(l, p, s.id);
    assert s.id !in Get(l.children, p);
    ListAfterPush(Get(l.children, p), s.id, Count(s.parents, p), c);
    if c != s.id {
      assert ChildSound(l, p, c);
      assert Get(r.parents, c) == Get(l.parents, c);
    }
  }

  /** One child edge after an append that evicted `e` without error. */
  lemma ChildSoundEvict(l: Ledger, r: Ledger, e: Snapshot, s: Snapshot, p: Id, c: Id)
    requires ChildrenSound(l) && s.id !in Ids(l.buf) && e in l.buf && Get(l.parents, e.id) == e.parents
    requires Ids(r.buf) == Ids(l.buf) - {e.id} + {s.id}
    requires r.parents == l.parents[s.id := s.parents] - {e.id}
    requires p != e.id ==>
      Get(r.children, p) == RemoveFirstN(Get(l.children, p), e.id, Count(e.parents, p)) + Rep(s.id, Count(s.parents, p))
    requires e.id !in r.children
    requires c in Get(r.children, p)
    ensures ChildSound(r, p, c)
    ensures c != e.id
  {
    var before, k, n := Get(l.children, p), Count(e.parents, p), Count(s.parents, p);
    assert p != e.id;
    EvictedListed(l, e, s, p);
    assert c in Ids(l.buf) && c != e.id ==> c in Ids(r.buf);
    assert s.id in Ids(r.buf);
    assert Get(r.parents, s.id) == s.parents;
    assert c != s.id && c != e.id ==> Get(r.parents, c) == Get(l.parents, c);
    assert ChildSound(l, p, c);
    EdgeAfterEviction(before, Get(r.children, p), e.id, k, s.id, n, c,
      c in Ids(l.buf), c in Ids(r.buf), Count(Get(l.parents, c), p), Count(Get(r.parents, c), p));
  }

  /** The counting at the heart of ChildSoundEvict, on plain values: `before`
      and `after` are a parent's child list before and after the append,
      `inOld`/`inNew` say whether `c` is buffered before and after, and
      `pOld`/`pNew` how often `c` names the parent before and after. */
  lemma EdgeAfterEviction(before: seq<Id>, after: seq<Id>, e: Id, k: nat, sid: Id, n: nat, c: Id,
                          inOld: bool, inNew: bool, pOld: nat, pNew: nat)
    requires after == RemoveFirstN(before, e, k) + Rep(sid, n) && c in after
    requires Count(before, e) <= k && sid !in before && sid != e
    requires c in before ==> inOld && Count(before, c) <= pOld
    requires inOld && c != e ==> inNew
    requires c == sid ==> inNew && pNew == n
    requires c != sid && c != e ==> pNew == pOld
    ensures c != e && inNew && Count(after, c) <= pNew
  {
    ListAfterEviction(before, e, k, sid, n, c);
  }

  /** Before the eviction, a parent's list holds the evicted id at most as
      often as the evicted snapshot names that parent, and never the new id. */
  lemma EvictedListed(l: Ledger, e: Snapshot, s: Snapshot, p: Id)
    requires ChildrenSound(l) && s.id !in Ids(l.buf) && e in l.buf && Get(l.parents, e.id) == e.parents
    ensures Count(Get(l.children, p), e.id) <= Count(e.parents, p)
    ensures s.id !in Get(l.children, p) && s.id != e.id
  {
    assert e.id in Ids(l.buf);
    assert ChildSound(l, p, s.id) && ChildSound(l, p, e.id);
  }

  /** A child list after the new edges are appended: the new id occurs as
      often as it was added, every other id as often as before. */
  lemma ListAfterPush(before: seq<Id>, sid: Id, n: nat, c: Id)
    requires sid !in before && c in before + Rep(sid, n)
    ensures c == sid ==> Count(before + Rep(sid, n), c) == n
    ensures c != sid ==> c in before && Count(before + Rep(sid, n), c) == Count(before, c)
  {
    var added := Rep(sid, n);
    assert multiset(before + added) == multiset(before) + multiset(added);
    assert multiset(added)[c] == if c == sid then n else 0;
    assert c in multiset(before + added);
    if c != sid {
      assert multiset(before)[c] > 0;
    }
  }

  /** A child list after the evicted id is removed `k` times and the new
      edges appended: when the list held the evicted id at most `k` times it
      holds it no more, the new id occurs as often as it was added, and every
      other id as often as before. */
  lemma ListAfterEviction(before: seq<Id>, e: Id, k: nat, sid: Id, n: nat, c: Id)
    requires Count(before, e) <= k && sid !in before && sid != e
    requires c in RemoveFirstN(before, e, k) + Rep(sid, n)
    ensures c != e
    ensures c == sid ==> Count(RemoveFirstN(before, e, k) + Rep(sid, n), c) == n
    ensures c != sid ==> c in before && Count(RemoveFirstN(before, e, k) + Rep(sid, n), c) == Count(before, c)
  {
    var kept := RemoveFirstN(before, e, k);
    var added := Rep(sid, n);
    RemoveFirstNAll(before, e, k);
    if c != e {
      RemoveFirstNOther(before, e, k, c);
    }
    assert multiset(kept)[c] == if c == e then 0 else multiset(before)[c];
    assert multiset(kept + added) == multiset(kept) + multiset(added);
    assert multiset(added)[c] == if c == sid then n else 0;
    assert c in multiset(kept + added);
    if c != sid {
      assert multiset(before)[c] > 0;
    }
  }

  /** A snapshot with only the fields the ledger looks at set. */
  function Node(id: Id, parents: seq<Id>): Snapshot {
    Snapshot("op", None, parents, [], [], None, id, "")
  }

  /** A chain s1 <- s2 <- s3 <- s4 appended at capacity 2. The third append
      evicts s1: s2 still names s1 as its parent, while s1's child list is
      gone. The fourth append evicts s2, whose parent s1 no longer has a child
      list, so `.remove` runs on an empty list and raises ValueError, after
      the buffer and `_parents` have already changed. */
  lemma ChainEviction()
    ensures var l0 := Ledger([], map[], map[]);
      var r1 := AppendSpec(2, l0, Node("s1", []));
      var r2 := AppendSpec(2, r1.ledger, Node("s2", ["s1"]));
      var r3 := AppendSpec(2, r2.ledger, Node("s3", ["s2"]));
      var r4 := AppendSpec(2, r3.ledger, Node("s4", ["s3"]));
      && r1.ok && r2.ok && r3.ok
      && |r3.ledger.buf| == 2
      && Get(r3.ledger.parents, "s2") == ["s1"]
      && Get(r3.ledger.children, "s1") == []
      && !r4.ok
      && r4.ledger.buf == [Node("s3", ["s2"]), Node("s4", ["s3"])]
  {
    var l0 := Ledger([], map[], map[]);
    var r1 := AppendSpec(2, l0, Node("s1", []));
    assert r1 == Appended(true, Ledger([Node("s1", [])], map["s1" := []], map[]));
    ChainSecond();
    ChainThird();
    ChainFourth();
  }

  lemma ChainSecond()
    ensures AppendSpec(2, Ledger([Node("s1", [])], map["s1" := []], map[]), Node("s2", ["s1"]))
      == Appended(true, Ledger([Node("s1", []), Node("s2", ["s1"])],
                               map["s1" := [], "s2" := ["s1"]], map["s1" := ["s2"]]))
  {
    AddOneChild(map[], "s1", "s2");
    assert Get(map[], "s1") + ["s2"] == ["s2"];
    assert map["s1" := []]["s2" := ["s1"]] == map["s1" := [], "s2" := ["s1"]];
  }

  lemma ChainThird()
    ensures AppendSpec(2, Ledger([Node("s1", []), Node("s2", ["s1"])],
                                 map["s1" := [], "s2" := ["s1"]], map["s1" := ["s2"]]), Node("s3", ["s2"]))
      == Appended(true, Ledger([Node("s2", ["s1"]), Node("s3", ["s2"])],
                               map["s2" := ["s1"], "s3" := ["s2"]], map["s2" := ["s3"]]))
  {
    AddOneChild(map["s1" := ["s2"]], "s2", "s3");
    var ch3 := map["s1" := ["s2"], "s2" := ["s3"]];
    assert Get(map["s1" := ["s2"]], "s2") + ["s3"] == ["s3"];
    assert AddChildren(map["s1" := ["s2"]], ["s2"], "s3") == ch3;
    assert Get(map["s1" := [], "s2" := ["s1"], "s3" := ["s2"]], "s1") == [];
    assert Unlink(ch3, [], "s1") == Unlinked(true, ch3);
    assert ch3 - {"s1"} == map["s2" := ["s3"]];
    assert map["s1" := [], "s2" := ["s1"]]["s3" := ["s2"]] - {"s1"} == map["s2" := ["s1"], "s3" := ["s2"]];
    assert [Node("s1", []), Node("s2", ["s1"])][1..] + [Node("s3", ["s2"])] == [Node("s2", ["s1"]), Node("s3", ["s2"])];
  }

  lemma ChainFourth()
    ensures var r := AppendSpec(2, Ledger([Node("s2", ["s1"]), Node("s3", ["s2"])],
                                          map["s2" := ["s1"], "s3" := ["s2"]], map["s2" := ["s3"]]), Node("s4", ["s3"]));
      !r.ok && r.ledger.buf == [Node("s3", ["s2"]), Node("s4", ["s3"])]
  {
    AddOneChild(map["s2" := ["s3"]], "s3", "s4");
    var ch4 := map["s2" := ["s3"], "s3" := ["s4"]];
    assert Get(map["s2" := ["s3"]], "s3") + ["s4"] == ["s4"];
    assert AddChildren(map["s2" := ["s3"]], ["s3"], "s4") == ch4;
    assert Get(map["s2" := ["s1"], "s3" := ["s2"]]["s4" := ["s3"]], "s2") == ["s1"];
    assert Get(ch4, "s1") == [];
    assert [Node("s2", ["s1"]), Node("s3", ["s2"])][1..] + [Node("s4", ["s3"])] == [Node("s3", ["s2"]), Node("s4", ["s3"])];
  }

  lemma AddOneChild(ch: Index, p: Id, c: Id)
    ensures AddChildren(ch, [p], c) == ch[p := Get(ch, p) + [c]]
  {
    assert [p][1..] == [];
  }

  /** Snapshots of `buf`, in order, whose operation equals `op`, or all of
      them when `op` is None. */
  function Matching(buf: seq<Snapshot>, op: Option<string>): (r: seq<Snapshot>)
    ensures |r| <= |buf|
    ensures forall i :: 0 <= i < |r| ==> op.None? || r[i].operation == op.value
  {
    if buf == [] then []
    else
      var rest := Matching(buf[1..], op);
      if op.None? || buf[0].operation == op.value then [buf[0]] + rest else rest
  }

  /** The filter keeps exactly the snapshots with the operation, and all of
      them for None. */
  lemma {:induction false} MatchingMembers(buf: seq<Snapshot>, op: Option<string>)
    ensures forall t :: t in Matching(buf, op) <==> t in buf && (op.None? || t.operation == op.value)
    ensures op.None? ==> Matching(buf, op) == buf
  {
    if buf != [] {
      MatchingMembers(buf[1..], op);
      assert buf == [buf[0]] + buf[1..];
    }
  }

  /** One step of the filter loop. */
  lemma MatchingStep(buf: seq<Snapshot>, i: nat, op: Option<string>)
    requires i < |buf|
    ensures Matching(buf[i..], op) ==
      (if op.None? || buf[i].operation == op.value then [buf[i]] else []) + Matching(buf[i + 1..], op)
  {
    assert buf[i..][1..] == buf[i + 1..];
  }

  /** A single snapshot passes the filter exactly when it has the operation. */
  lemma MatchingSingle(t: Snapshot, op: Option<string>)
    ensures Matching([t], op) == if op.None? || t.operation == op.value then [t] else []
  {
    assert [t][1..] == [];
  }

  /** Filtering a concatenation filters each part and keeps them in order;
      with `MatchingSingle` this fixes the filtered stream as the matching
      snapshots in buffer order. */
  lemma {:induction false} MatchingAppend(a: seq<Snapshot>, b: seq<Snapshot>, op: Option<string>)
    ensures Matching(a + b, op) == Matching(a, op) + Matching(b, op)
    decreases |a|
  {
    if a == [] {
      assert a + b == b;
    } else {
      assert (a + b)[1..] == a[1..] + b;
      MatchingAppend(a[1..], b, op);
    }
  }

  /** A path of at least one edge in an adjacency index. */
  ghost predicate IsPath(g: Index, path: seq<Id>) {
    |path| >= 2 && forall i :: 0 <= i < |path| - 1 ==> path[i + 1] in Get(g, path[i])
  }

  /** `b` can be reached from `a` by following one or more edges. */
  ghost predicate Reachable(g: Index, a: Id, b: Id) {
    exists path :: IsPath(g, path) && path[0] == a && path[|path| - 1] == b
  }

  lemma ReachFirst(g: Index, a: Id, y: Id)
    requires y in Get(g, a)
    ensures Reachable(g, a, y)
  {
    assert IsPath(g, [a, y]);
  }

  lemma ReachStep(g: Index, a: Id, x: Id, y: Id)
    requires Reachable(g, a, x) && y in Get(g, x)
    ensures Reachable(g, a, y)
  {
    var path :| IsPath(g, path) && path[0] == a && path[|path| - 1] == x;
    var longer := path + [y];
    assert IsPath(g, longer);
  }

  /** A set holding every successor of `a` and closed under successors holds
      everything reachable from `a`. */
  lemma {:induction false} ClosedHoldsReachable(g: Index, a: Id, closed: set<Id>, path: seq<Id>)
    requires forall y :: y in Get(g, a) ==> y in closed
    requires forall x, y :: x in closed && y in Get(g, x) ==> y in closed
    requires IsPath(g, path) && path[0] == a
    ensures path[|path| - 1] in closed
    decreases |path|
  {
    if |path| > 2 {
      var shorter := path[..|path| - 1];
      assert IsPath(g, shorter);
      ClosedHoldsReachable(g, a, closed, shorter);
      assert path[|path| - 1] in Get(g, path[|path| - 2]);
    }
  }

  /** Every id that occurs in some list of the index. */
  ghost function Targets(g: Index): set<Id> {
    set p, i | p in g && 0 <= i < |g[p]| :: g[p][i]
  }

  lemma TargetsHold(g: Index, x: Id, y: Id)
    requires y in Get(g, x)
    ensures y in Targets(g)
  {
    var i :| 0 <= i < |g[x]| && g[x][i] == y;
  }

  /** The loop's frontier condition: every neighbour of `start`, and every
      neighbour of an id already seen, is seen or still on the stack. */
  ghost predicate Frontier(g: Index, start: Id, seen: set<Id>, stack: seq<Id>) {
    && (forall y :: y in Get(g, start) ==> y in seen || y in stack)
    && (forall x, y :: x in seen && y in Get(g, x) ==> y in seen || y in stack)
  }

  /** Popping an id already seen, or marking a popped id seen and pushing its
      neighbours, keeps the frontier condition. */
  lemma FrontierStep(g: Index, start: Id, seen: set<Id>, rest: seq<Id>, current: Id)
    requires Frontier(g, start, seen, rest + [current])
    ensures current in seen ==> Frontier(g, start, seen, rest)
    ensures Frontier(g, start, seen + {current}, rest + Get(g, current))
  {
    assert forall y :: y in rest + [current] ==> y in rest || y == current;
    assert forall y :: y in rest || y in Get(g, current) ==> y in rest + Get(g, current);
  }

  lemma NextFound(g: Index, start: Id, current: Id)
    requires Reachable(g, start, current)
    ensures forall y :: y in Get(g, current) ==> y in Targets(g) && Reachable(g, start, y)
  {
    forall y | y in Get(g, current) ensures y in Targets(g) && Reachable(g, start, y) {
      TargetsHold(g, current, y);
      ReachStep(g, start, current, y);
    }
  }

  /** The generator of `ancestors_of` and `descendants_of`, collected: a
      depth-first walk with an explicit stack and a seen-set, starting from
      the neighbours of `start`. It yields each reachable id exactly once. */
  method Traverse(g: Index, start: Id) returns (out: seq<Id>)
    ensures Distinct(out)
    ensures forall x :: x in out <==> Reachable(g, start, x)
  {
    var stack := Get(g, start);
    var seen: set<Id> := {};
    out := [];
    ghost var targets := Targets(g);
    forall y | y in stack ensures y in targets && Reachable(g, start, y) {
      TargetsHold(g, start, y);
      ReachFirst(g, start, y);
    }
    while stack != []
      invariant forall y :: y in stack ==> y in targets && Reachable(g, start, y)
      invariant seen <= targets
      invariant forall x :: x in out <==> x in seen
      invariant Distinct(out)
      invariant forall x :: x in seen ==> Reachable(g, start, x)
      invariant Frontier(g, start, seen, stack)
      decreases |targets - seen|, |stack|
    {
      var current := stack[|stack| - 1];
      var rest := stack[..|stack| - 1];
      assert stack == rest + [current];
      FrontierStep(g, start, seen, rest, current);
      stack := rest;
      if current in seen {
        continue;
      }
      Shrinks(targets, seen, current);
      DistinctSnoc(out, current);
      seen := seen + {current};
      out := out + [current];
      var next := Get(g, current);
      NextFound(g, start, current);
      stack := stack + next;
    }
    FrontierDone(g, start, seen);
  }

  lemma DistinctSnoc(s: seq<Id>, x: Id)
    requires Distinct(s) && x !in s
    ensures Distinct(s + [x])
    ensures forall y :: y in s + [x] <==> y in s || y == x
  {
  }

  lemma Shrinks(targets: set<Id>, seen: set<Id>, c: Id)
    requires c in targets && c !in seen
    ensures |targets - (seen + {c})| < |targets - seen|
  {
    assert targets - seen == (targets - (seen + {c})) + {c};
  }

  /** With the stack empty, everything reachable has been seen. */
  lemma FrontierDone(g: Index, start: Id, seen: set<Id>)
    requires Frontier(g, start, seen, [])
    ensures forall x :: Reachable(g, start, x) ==> x in seen
  {
    forall x | Reachable(g, start, x) ensures x in seen {
      var path :| IsPath(g, path) && path[0] == start && path[|path| - 1] == x;
      ClosedHoldsReachable(g, start, seen, path);
    }
  }

  /** A History: the deque `_buf` with its `maxlen`, and the two indices. */
  class History {
    const capacity: nat
    var buf: seq<Snapshot>
    var parents: Index
    var children: Index

    function Model(): Ledger
      reads this
    {
      Ledger(buf, parents, children)
    }

    ghost predicate Valid()
      reads this
    {
      WellFormed(capacity, Model())
    }

    /** `History(max_len)`: an empty buffer of capacity `max_len or 1000` and
        empty indices. A negative `max_len` is refused, as `deque` refuses
        it. */
    constructor(maxLen: Option<int>)
      requires CapacityOf(maxLen).Some?
      ensures Valid()
      ensures capacity == CapacityOf(maxLen).value
      ensures buf == [] && parents == map[] && children == map[]
      ensures ChildrenSound(Model()) && ChildrenComplete(Model())
    {
      capacity := CapacityOf(maxLen).value;
      buf := [];
      parents := map[];
      children := map[];
      EmptyChildrenComplete(Ledger([], map[], map[]));
    }

    /** `append(snap)`. The snapshot's id is fresh (a new uuid). `ok` is false
        when `_remove_snapshot` raised ValueError; the state is then what the
        source leaves behind at the point of the error. */
    method Append(s: Snapshot) returns (ok: bool)
      requires Valid() && s.id !in Ids(buf)
      modifies this
      ensures Appended(ok, Model()) == AppendSpec(capacity, old(Model()), s)
      ensures Valid()
      ensures ok <==> |old(buf)| < capacity || Enough(old(children), old(buf)[0].parents, old(buf)[0].id)
      ensures ok && old(ChildrenSound(Model()) && ChildrenComplete(Model())) ==>
        ChildrenSound(Model()) && ChildrenComplete(Model())
    {
      var evicted: Option<Id> := None;
      if |buf| == capacity {
        evicted := Some(buf[0].id);
      }
      buf := Push(capacity, buf, s);
      parents := parents[s.id := s.parents];
      var i := 0;
      while i < |s.parents|
        invariant 0 <= i <= |s.parents|
        invariant buf == Push(capacity, old(buf), s) && parents == old(parents)[s.id := s.parents]
        invariant AddChildren(children, s.parents[i..], s.id) == AddChildren(old(children), s.parents, s.id)
      {
        var pid := s.parents[i];
        assert s.parents[i..][1..] == s.parents[i + 1..];
        children := children[pid := Get(children, pid) + [s.id]];
        i := i + 1;
      }
      assert s.parents[i..] == [];
      assert children == AddChildren(old(children), s.parents, s.id);
      ok := true;
      if evicted.Some? {
        ok := RemoveSnapshot(evicted.value);
      }
      AppendWellFormed(capacity, old(Model()), s);
      AppendSucceedsIff(capacity, old(Model()), s);
      if old(ChildrenSound(Model()) && ChildrenComplete(Model())) {
        AppendChildrenSound(capacity, old(Model()), s);
        AppendChildrenComplete(capacity, old(Model()), s);
      }
    }

    /** `_remove_snapshot(sid)`: drop the id's `_parents` entry, remove the id
        once from each of its parents' child lists (deleting lists left
        empty), then drop its own child list. `ok` is false when a parent's
        list lacks the id, where `.remove` raises ValueError and the rest is
        skipped. */
    method RemoveSnapshot(sid: Id) returns (ok: bool)
      modifies this
      ensures var u := Unlink(old(children), Get(old(parents), sid), sid);
        && ok == u.ok
        && buf == old(buf)
        && parents == old(parents) - {sid}
        && children == if ok then u.children - {sid} else u.children
    {
      var ps := Get(parents, sid);
      parents := parents - {sid};
      var i := 0;
      while i < |ps|
        invariant 0 <= i <= |ps|
        invariant buf == old(buf) && parents == old(parents) - {sid}
        invariant Unlink(children, ps[i..], sid) == Unlink(old(children), ps, sid)
      {
        var p := ps[i];
        var lst := Get(children, p);
        if sid !in lst {
          return false;
        }
        assert ps[i..][1..] == ps[i + 1..];
        lst := RemoveFirst(lst, sid);
        if lst == [] {
          children := children - {p};
        } else {
          children := children[p := lst];
        }
        i := i + 1;
      }
      children := children - {sid};
      ok := true;
    }

    /** `parents_of(sid)`: a buffered snapshot's parents; empty for an id
        that is not buffered. */
    function ParentsOf(sid: Id): (r: seq<Id>)
      reads this
      ensures Valid() ==> forall t :: t in buf && t.id == sid ==> r == t.parents
      ensures Valid() && sid !in Ids(buf) ==> r == []
    {
      Get(parents, sid)
    }

    /** `children_of(sid)`: empty exactly when the index has no list for the
        id. Once `_children` is sound and complete (as successful appends
        keep it), it names only buffered snapshots, and each snapshot
        younger than `sid` as often as that snapshot names `sid`. */
    function ChildrenOf(sid: Id): (r: seq<Id>)
      reads this
      ensures Valid() ==> (r == [] <==> sid !in children)
      ensures ChildrenSound(Model()) ==> forall c :: c in r ==> c in Ids(buf)
      ensures Valid() && ChildrenSound(Model()) && ChildrenComplete(Model()) ==>
        forall t :: t in buf && Precedes(buf, sid, t.id) ==> Count(r, t.id) == Count(t.parents, sid)
    {
      ChildrenListed(Model(), sid);
      Get(children, sid)
    }

    /** `ancestors_of(sid)`, collected. */
    method AncestorsOf(sid: Id) returns (out: seq<Id>)
      ensures Distinct(out)
      ensures forall x :: x in out <==> Reachable(parents, sid, x)
    {
      out := Traverse(parents, sid);
    }

    /** `descendants_of(sid)`, collected. */
    method DescendantsOf(sid: Id) returns (out: seq<Id>)
      ensures Distinct(out)
      ensures forall x :: x in out <==> Reachable(children, sid, x)
    {
      out := Traverse(children, sid);
    }

    /** `len(history)`: never more than the capacity. */
    function Len(): (n: nat)
      reads this
      ensures Valid() ==> n <= capacity
      ensures n == 0 <==> buf == []
    {
      |buf|
    }

    /** `history[idx]`: Python indexing of the current window, negative
        indices counting from the end; None where IndexError is raised. */
    function GetItem(idx: int): (r: Option<Snapshot>)
      reads this
      ensures r.Some? <==> -|buf| <= idx < |buf|
      ensures r.Some? ==> r.value in buf
      ensures 0 <= idx < |buf| ==> r == Some(buf[idx])
      ensures -|buf| <= idx < 0 ==> r == Some(buf[|buf| + idx])
    {
      if 0 <= idx < |buf| then Some(buf[idx])
      else if -|buf| <= idx < 0 then Some(buf[|buf| + idx])
      else None
    }

    /** `filter(op)`, collected: the loop over the buffer. */
    method Filter(op: Option<string>) returns (out: seq<Snapshot>)
      ensures out == Matching(buf, op)
    {
      out := [];
      var i := 0;
      while i < |buf|
        invariant 0 <= i <= |buf|
        invariant out + Matching(buf[i..], op) == Matching(buf, op)
      {
        var snap := buf[i];
        MatchingStep(buf, i, op);
        if op.None? || snap.operation == op.value {
          assert (out + [snap]) + Matching(buf[i + 1..], op) == out + ([snap] + Matching(buf[i + 1..], op));
          out := out + [snap];
        }
        i := i + 1;
      }
    }
  }
}
