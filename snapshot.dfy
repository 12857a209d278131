/** The Snapshot record of src/walatrack/core/snapshot.py: one immutable
    recorded transformation. A Dafny datatype value cannot be changed after it
    is built, which is what the frozen dataclass promises. */
module Snapshots {
  import opened Wrappers
  import opened Text

  /** Snapshot ids: `str(uuid.uuid4())`, treated as opaque strings. */
  type Id = string

  /** The tracked object as far as the ledger can see it: an identity handle
      (what `id(artifact)` yields), the value of its `shape` attribute when it
      has one that is not None, and its `len()` when it has a length. */
  datatype Artifact = Artifact(handle: nat, shapeAttr: Option<seq<int>>, length: Option<nat>)

  /** Field order follows the dataclass. `shape` is None when the artifact had
      neither a shape nor a length; `args` holds the `repr` of each positional
      argument and `kwargs` the (name, `repr` of value) pairs in call order.
      `id` and `timestamp` come last: they are not constructor parameters. */
  datatype Snapshot = Snapshot(
    operation: string,
    shape: Option<seq<int>>,
    parents: seq<Id>,
    args: seq<string>,
    kwargs: seq<(string, string)>,
    artifact: Option<Artifact>,
    id: Id,
    timestamp: string)

  /** The dataclass constructor. The caller passes `operation` and `shape` and
      may pass the rest; `id` and `timestamp` are drawn by the field factories
      (`generate_uuid`, `utc_now_iso`), which this model receives as the fresh
      values `freshId` and `now`. */
  function NewSnapshot(
    operation: string, shape: Option<seq<int>>, freshId: Id, now: string,
    parents: seq<Id> := [], args: seq<string> := [],
    kwargs: seq<(string, string)> := [], artifact: Option<Artifact> := None): (s: Snapshot)
    ensures s.id == freshId && s.timestamp == now
    ensures s.operation == operation && s.shape == shape && s.parents == parents
  {
    Snapshot(operation, shape, parents, args, kwargs, artifact, freshId, now)
  }

  /** Omitted optional fields take their defaults: no parents, no arguments,
      no keyword arguments, no artifact. */
  lemma NewSnapshotDefaults(operation: string, shape: Option<seq<int>>, freshId: Id, now: string)
    ensures var s := NewSnapshot(operation, shape, freshId, now);
      s.parents == [] && s.args == [] && s.kwargs == [] && s.artifact == None
  {
  }

  /** `str(shape)`: `None`, or the tuple of integers; the two never look
      alike. */
  function ShapeStr(shape: Option<seq<int>>): (r: string)
    ensures r == "None" <==> shape.None?
  {
    match shape
    case None => "None"
    case Some(dims) => TupleStr(seq(|dims|, i requires 0 <= i < |dims| => IntStr(dims[i])))
  }

  /** The `parents=` label of `__repr__`: `<root>` for a root snapshot,
      otherwise the parent ids joined with commas, in order, so that when no
      id contains a comma, splitting the label on commas gives them back. */
  function ParentLabel(parents: seq<Id>): (r: string)
    ensures parents == [] ==> r == "<root>"
    ensures parents != [] && (forall i :: 0 <= i < |parents| ==> ',' !in parents[i]) ==>
      Split(r, ',') == parents
  {
    if parents == [] then "<root>"
    else
      assert (forall i :: 0 <= i < |parents| ==> ',' !in parents[i]) ==>
        Split(Join(parents, ","), ',') == parents
      by {
        if forall i :: 0 <= i < |parents| ==> ',' !in parents[i] {
          SplitJoin(parents, ',');
        }
      }
      Join(parents, ",")
  }

  /** `__repr__`: `<Snapshot {timestamp} op={operation} shape={shape}
      parents={label}>`. It opens with the timestamp and the operation and
      closes with the parent label. */
  function Repr(s: Snapshot): (r: string)
    ensures var head := "<Snapshot " + s.timestamp + " op=" + s.operation + " shape=";
      |r| > |head| && r[..|head|] == head
    ensures var tail := " parents=" + ParentLabel(s.parents) + ">";
      |r| > |tail| && r[|r| - |tail|..] == tail
    ensures s.parents == [] ==> r[|r| - 16..] == " parents=<root>>"
  {
    var head := "<Snapshot " + s.timestamp + " op=" + s.operation + " shape=" + ShapeStr(s.shape);
    var tail := " parents=" + ParentLabel(s.parents) + ">";
    assert (head + tail)[..|head| - |ShapeStr(s.shape)|] == head[..|head| - |ShapeStr(s.shape)|];
    assert (head + tail)[|head + tail| - |tail|..] == tail;
    head + tail
  }

  /** The parents can be read back from a repr: the label before the closing
      `>` splits on commas into the parent ids, when none contains a comma. */
  lemma ReprParents(s: Snapshot)
    requires s.parents != []
    requires forall i :: 0 <= i < |s.parents| ==> ',' !in s.parents[i]
    ensures var r, l := Repr(s), ParentLabel(s.parents);
      |r| > |l| && Split(r[|r| - 1 - |l|..|r| - 1], ',') == s.parents
  {
    var r, l := Repr(s), ParentLabel(s.parents);
    var tail := " parents=" + l + ">";
    assert r[|r| - |tail|..] == tail;
    assert r[|r| - 1 - |l|..|r| - 1] == tail[|tail| - 1 - |l|..|tail| - 1];
    assert tail[|tail| - 1 - |l|..|tail| - 1] == l;
  }
}
