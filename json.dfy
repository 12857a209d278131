/** `jsonify` of src/walacor_data_tracker/writers/walacor/_json.py: turns an
    arbitrary Python value into something `json.dumps` accepts, by structural
    recursion. */
module Json {
  import opened Wrappers

  /** The Python values `jsonify` tells apart. A float is kept as its bits and
      never looked into; a callable that is none of the primitive types
      carries its `__name__` when it has one; a dict keeps its entries in
      insertion order; a set's elements are listed in iteration order; any
      other object is known by its `str()`. */
  datatype Value =
    | Str(s: string)
    | Int(i: int)
    | Float(bits: bv64)
    | Bool(b: bool)
    | NoneValue
    | Callable(name: Option<string>)
    | Dict(entries: seq<(Value, Value)>)
    | List(items: seq<Value>)
    | Tuple(items: seq<Value>)
    | Set(items: seq<Value>)
    | Object(text: string)
  {
    predicate IsPrimitive() {
      Str? || Int? || Float? || Bool? || NoneValue?
    }
  }

  /** Values `jsonify` can return: primitives, and dicts and lists whose
      values are again such values (dict keys are left as they were). */
  predicate Converted(v: Value) {
    match v
    case Dict(es) => forall i :: 0 <= i < |es| ==> Converted(es[i].1)
    case List(xs) => forall i :: 0 <= i < |xs| ==> Converted(xs[i])
    case _ => v.IsPrimitive()
  }

  /** `jsonify(obj)`. */
  function Jsonify(v: Value): (r: Value)
    decreases v, 1
    ensures Converted(r)
    ensures v.IsPrimitive() ==> r == v
    ensures v.Callable? ==> r == Str(v.name.GetOr("<lambda>"))
    ensures v.Object? ==> r == Str(v.text)
    ensures v.Dict? ==> r.Dict? && |r.entries| == |v.entries|
    ensures (v.List? || v.Tuple? || v.Set?) ==> r.List? && |r.items| == |v.items|
  {
    match v
    case Str(_) => v
    case Int(_) => v
    case Float(_) => v
    case Bool(_) => v
    case NoneValue => v
    case Callable(name) => Str(name.GetOr("<lambda>"))
    case Dict(es) => Dict(JsonifyEntries(v, es))
    case List(xs) => List(JsonifyItems(v, xs))
    case Tuple(xs) => List(JsonifyItems(v, xs))
    case Set(xs) => List(JsonifyItems(v, xs))
    case Object(text) => Str(text)
  }

  /** `{k: jsonify(v) for k, v in obj.items()}`: the same keys, in the same
      order, each value converted. */
  function JsonifyEntries(parent: Value, es: seq<(Value, Value)>): (r: seq<(Value, Value)>)
    requires parent.Dict? && es == parent.entries
    ensures |r| == |es|
    ensures forall i :: 0 <= i < |es| ==> r[i] == (es[i].0, Jsonify(es[i].1)) && Converted(r[i].1)
    decreases parent, 0
  {
    seq(|es|, i requires 0 <= i < |es| => (es[i].0, Jsonify(es[i].1)))
  }

  /** `[jsonify(v) for v in obj]`: the same length, each element converted. */
  function JsonifyItems(parent: Value, xs: seq<Value>): (r: seq<Value>)
    requires (parent.List? || parent.Tuple? || parent.Set?) && xs == parent.items
    ensures |r| == |xs|
    ensures forall i :: 0 <= i < |xs| ==> r[i] == Jsonify(xs[i]) && Converted(r[i])
    decreases parent, 0
  {
    seq(|xs|, i requires 0 <= i < |xs| => Jsonify(xs[i]))
  }

  /** What `jsonify` returns it gives back unchanged. */
  lemma {:induction false} JsonifyFixes(v: Value)
    requires Converted(v)
    ensures Jsonify(v) == v
    decreases v
  {
    match v
    case Dict(es) =>
      forall i | 0 <= i < |es| ensures Jsonify(es[i].1) == es[i].1 {
        JsonifyFixes(es[i].1);
      }
      assert Jsonify(v).entries == es;
    case List(xs) =>
      forall i | 0 <= i < |xs| ensures Jsonify(xs[i]) == xs[i] {
        JsonifyFixes(xs[i]);
      }
      assert Jsonify(v).items == xs;
    case _ =>
  }

  /** `jsonify` is idempotent. */
  lemma JsonifyIdempotent(v: Value)
    ensures Jsonify(Jsonify(v)) == Jsonify(v)
  {
    JsonifyFixes(Jsonify(v));
  }
}
