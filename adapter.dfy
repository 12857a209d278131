/** BaseAdapter of src/walatrack/adapters/base.py: an on/off switch around two
    hooks a concrete adapter supplies, `_patch(tracker)` and `_unpatch()`.
    What a hook does is not visible here; the model records each call to a
    hook, and whether it raised, in a log. */
module Adapters {
  import opened Trackers

  datatype Hook = Patch(tracker: Tracker) | Unpatch

  /** One call to a hook, and whether it raised. */
  datatype Call = Call(hook: Hook, raised: bool)

  /** The hook calls that returned normally, in order: all of them when
      none raised, none when all raised. */
  function Completed(calls: seq<Call>): (r: seq<Hook>)
    ensures |r| <= |calls|
    ensures (forall i :: 0 <= i < |calls| ==> !calls[i].raised) ==>
      |r| == |calls| && forall i :: 0 <= i < |r| ==> r[i] == calls[i].hook
    ensures (forall i :: 0 <= i < |calls| ==> calls[i].raised) ==> r == []
  {
    if calls == [] then []
    else
      var last := calls[|calls| - 1];
      Completed(calls[..|calls| - 1]) + (if last.raised then [] else [last.hook])
  }

  lemma CompletedSnoc(calls: seq<Call>, c: Call)
    ensures Completed(calls + [c]) == Completed(calls) + (if c.raised then [] else [c.hook])
  {
    assert (calls + [c])[..|calls|] == calls;
  }

  /** Completed hook calls alternate, starting with `_patch`. */
  ghost predicate Alternating(hooks: seq<Hook>) {
    forall i :: 0 <= i < |hooks| ==> (hooks[i].Patch? <==> i % 2 == 0)
  }

  class BaseAdapter {
    /** `_active`. */
    var active: bool
    /** Every hook call made so far. */
    var calls: seq<Call>

    /** The adapter is active exactly when its last completed hook call was
        `_patch`, and completed calls never repeat a hook. */
    ghost predicate Valid()
      reads this
    {
      var done := Completed(calls);
      Alternating(done) && active == (|done| % 2 == 1)
    }

    /** `__init__`: inactive, no hook called. */
    constructor()
      ensures Valid() && !active && calls == []
    {
      active := false;
      calls := [];
    }

    /** `start(tracker)`: when inactive, calls `_patch(tracker)` once and then
        becomes active; an exception from `_patch` (`patchRaises`) leaves the
        adapter inactive and propagates (`raised`). When already active,
        nothing happens. Without an exception the result is the adapter
        itself. */
    method Start(tracker: Tracker, patchRaises: bool) returns (self: BaseAdapter, raised: bool)
      requires Valid()
      modifies this
      ensures Valid()
      ensures old(active) ==> active && !raised && calls == old(calls)
      ensures !old(active) ==>
        && calls == old(calls) + [Call(Patch(tracker), patchRaises)]
        && active == !patchRaises
        && raised == patchRaises
      ensures self == this
    {
      self := this;
      raised := false;
      if !active {
        CompletedSnoc(calls, Call(Patch(tracker), patchRaises));
        calls := calls + [Call(Patch(tracker), patchRaises)];
        if patchRaises {
          raised := true;
          return;
        }
        active := true;
      }
    }

    /** `stop()`: when active, calls `_unpatch()` once and then becomes
        inactive; an exception from `_unpatch` leaves it active. When
        inactive, nothing happens. */
    method Stop(unpatchRaises: bool) returns (raised: bool)
      requires Valid()
      modifies this
      ensures Valid()
      ensures !old(active) ==> !active && !raised && calls == old(calls)
      ensures old(active) ==>
        && calls == old(calls) + [Call(Unpatch, unpatchRaises)]
        && active == unpatchRaises
        && raised == unpatchRaises
    {
      raised := false;
      if active {
        CompletedSnoc(calls, Call(Unpatch, unpatchRaises));
        calls := calls + [Call(Unpatch, unpatchRaises)];
        if unpatchRaises {
          raised := true;
          return;
        }
        active := false;
      }
    }
  }

  /** The number of completed `_patch` calls in a log of hook calls. */
  function Patches(hooks: seq<Hook>): (n: nat)
    ensures n <= |hooks|
    ensures n == |hooks| <==> forall i :: 0 <= i < |hooks| ==> hooks[i].Patch?
    ensures n == 0 <==> forall i :: 0 <= i < |hooks| ==> hooks[i].Unpatch?
  {
    if hooks == [] then 0
    else Patches(hooks[..|hooks| - 1]) + (if hooks[|hooks| - 1].Patch? then 1 else 0)
  }

  /** In an alternating log, `_patch` has completed once more than `_unpatch`
      while the adapter is active, and as often while it is inactive. */
  lemma {:induction false} AlternatingPatches(hooks: seq<Hook>)
    requires Alternating(hooks)
    ensures 2 * Patches(hooks) == |hooks| + |hooks| % 2
  {
    if hooks != [] {
      var init := hooks[..|hooks| - 1];
      assert Alternating(init) by {
        forall i | 0 <= i < |init| ensures (init[i].Patch? <==> i % 2 == 0) {
          assert init[i] == hooks[i];
        }
      }
      AlternatingPatches(init);
    }
  }

  /** A second `start` does not patch again. */
  method StartTwice(tracker: Tracker) returns (calls: seq<Call>)
    ensures calls == [Call(Patch(tracker), false)]
  {
    var a := new BaseAdapter();
    var _, _ := a.Start(tracker, false);
    var _, _ := a.Start(tracker, false);
    calls := a.calls;
  }

  /** Start, stop, start calls `_patch`, `_unpatch`, `_patch`. */
  method StartStopStart(tracker: Tracker) returns (calls: seq<Call>)
    ensures calls == [Call(Patch(tracker), false), Call(Unpatch, false), Call(Patch(tracker), false)]
  {
    var b := new BaseAdapter();
    var _, _ := b.Start(tracker, false);
    var _ := b.Stop(false);
    var _, _ := b.Start(tracker, false);
    calls := b.calls;
  }
}
