/** Python list operations the ledger relies on, over Dafny sequences. */
module Seqs {

  /** `d.get(k, [])` on a dictionary of lists. */
  function Get<K, V>(m: map<K, seq<V>>, k: K): seq<V> {
    if k in m then m[k] else []
  }

  /** No element occurs twice. */
  ghost predicate Distinct<T>(s: seq<T>) {
    forall i, j :: 0 <= i < j < |s| ==> s[i] != s[j]
  }

  /** `s.count(x)`: how often `x` occurs in `s`. */
  function Count<T(==)>(s: seq<T>, x: T): (n: nat)
    ensures n == multiset(s)[x]
  {
    if s == [] then 0
    else
      assert s == [s[0]] + s[1..];
      (if s[0] == x then 1 else 0) + Count(s[1..], x)
  }

  /** `n` copies of `x`. */
  function Rep<T>(x: T, n: nat): (r: seq<T>)
    ensures |r| == n
    ensures multiset(r) == multiset{}[x := n]
  {
    if n == 0 then [] else [x] + Rep(x, n - 1)
  }

  /** Counting in a list followed by `n` copies of `x`. */
  lemma CountAppendRep<T>(a: seq<T>, x: T, n: nat, y: T)
    ensures Count(a + Rep(x, n), y) == Count(a, y) + (if y == x then n else 0)
  {
    assert multiset(a + Rep(x, n)) == multiset(a) + multiset(Rep(x, n));
  }

  /** Appending one more copy before `k` copies makes `k + 1` of them. */
  lemma RepAfter<T>(a: seq<T>, x: T, k: nat)
    ensures (a + [x]) + Rep(x, k) == a + Rep(x, k + 1)
  {
    assert Rep(x, k + 1) == [x] + Rep(x, k);
  }

  /** `r` is `s` after Python's `lst.remove(x)` succeeded: `x` occurs in `s`,
      and `r` is `s` without its first occurrence of `x`, the other elements
      in their order. */
  ghost predicate DropsFirst<T>(s: seq<T>, x: T, r: seq<T>) {
    exists i {:trigger s[..i]} :: 0 <= i < |s| && s[i] == x && x !in s[..i] && r == s[..i] + s[i + 1..]
  }

  /** The list after Python's `lst.remove(x)` when `x` occurs in it (the first
      occurrence is dropped, as `RemoveFirstDrops` shows); the list itself
      when `x` does not occur (where Python raises instead, a case the callers
      decide on separately). */
  function RemoveFirst<T(==)>(s: seq<T>, x: T): (r: seq<T>)
    ensures x in s ==> multiset(r) == multiset(s) - multiset{x}
    ensures x !in s ==> r == s
    ensures x in s ==> |r| == |s| - 1
  {
    if s == [] then []
    else if s[0] == x then assert s == [s[0]] + s[1..]; s[1..]
    else assert s == [s[0]] + s[1..]; [s[0]] + RemoveFirst(s[1..], x)
  }

  /** The multiset of the list loses one `x`, or nothing when there is none. */
  lemma RemoveFirstMultiset<T>(s: seq<T>, x: T)
    ensures multiset(RemoveFirst(s, x)) == multiset(s) - multiset{x}
  {
    if x !in s {
      assert multiset(s) - multiset{x} == multiset(s);
    }
  }

  /** `RemoveFirst` drops exactly the first occurrence and keeps the order of
      the rest. */
  lemma RemoveFirstDrops<T>(s: seq<T>, x: T)
    requires x in s
    ensures DropsFirst(s, x, RemoveFirst(s, x))
  {
    var i := FirstIndex(s, x);
    RemoveFirstAt(s, x, i);
  }

  /** The position of the first occurrence of `x`. */
  lemma {:induction false} FirstIndex<T>(s: seq<T>, x: T) returns (i: nat)
    requires x in s
    ensures i < |s| && s[i] == x && x !in s[..i]
  {
    if s[0] == x {
      i := 0;
    } else {
      var j := FirstIndex(s[1..], x);
      i := j + 1;
      assert s[..i] == [s[0]] + s[1..][..j];
    }
  }

  /** `RemoveFirst` cuts at the first occurrence of `x`. */
  lemma RemoveFirstAt<T>(s: seq<T>, x: T, i: nat)
    requires i < |s| && s[i] == x && x !in s[..i]
    ensures RemoveFirst(s, x) == s[..i] + s[i + 1..]
  {
    assert s == s[..i + 1] + s[i + 1..];
    assert s[..i + 1] == s[..i] + [x];
    RemoveFirstAppend(s[..i + 1], s[i + 1..], x);
    RemoveFirstOfAppended(s[..i], x);
  }

  /** `k` successive `lst.remove(x)` calls. */
  function RemoveFirstN<T(==)>(s: seq<T>, x: T, k: nat): seq<T>
    decreases k
  {
    if k == 0 then s else RemoveFirstN(RemoveFirst(s, x), x, k - 1)
  }

  /** Removals of `x` leave the count of every other element alone. */
  lemma {:induction false} RemoveFirstNOther<T>(s: seq<T>, x: T, k: nat, y: T)
    requires y != x
    ensures multiset(RemoveFirstN(s, x, k))[y] == multiset(s)[y]
    decreases k
  {
    if k > 0 {
      var r := RemoveFirst(s, x);
      assert RemoveFirstN(s, x, k) == RemoveFirstN(r, x, k - 1);
      RemoveFirstOther(s, x, y);
      RemoveFirstNOther(r, x, k - 1, y);
    }
  }

  lemma RemoveFirstOther<T>(s: seq<T>, x: T, y: T)
    requires y != x
    ensures multiset(RemoveFirst(s, x))[y] == multiset(s)[y]
  {
    if x in s {
      assert multiset(RemoveFirst(s, x))[y] == (multiset(s) - multiset{x})[y];
    }
  }

  /** `k` removals of `x` from a list holding at most `k` copies of `x`
      leave none. */
  lemma {:induction false} RemoveFirstNAll<T>(s: seq<T>, x: T, k: nat)
    requires multiset(s)[x] <= k
    ensures x !in RemoveFirstN(s, x, k)
    decreases k
  {
    if k == 0 {
      assert x !in multiset(s);
    } else {
      var r := RemoveFirst(s, x);
      if x in s {
        assert multiset(r)[x] == (multiset(s) - multiset{x})[x];
      }
      RemoveFirstNAll(r, x, k - 1);
    }
  }

  /** Removing an element from a concatenation only touches the part holding
      its first occurrence. */
  lemma {:induction false} RemoveFirstAppend<T>(a: seq<T>, b: seq<T>, x: T)
    requires x in a
    ensures RemoveFirst(a + b, x) == RemoveFirst(a, x) + b
  {
    if a[0] == x {
      assert (a + b)[1..] == a[1..] + b;
    } else {
      assert (a + b)[1..] == a[1..] + b;
      RemoveFirstAppend(a[1..], b, x);
    }
  }

  /** The same for `k` removals, provided the first part holds `k` copies. */
  lemma {:induction false} RemoveFirstNAppend<T>(a: seq<T>, b: seq<T>, x: T, k: nat)
    requires multiset(a)[x] >= k
    ensures RemoveFirstN(a + b, x, k) == RemoveFirstN(a, x, k) + b
    decreases k
  {
    if k > 0 {
      assert x in multiset(a);
      RemoveFirstAppend(a, b, x);
      RemoveFirstNAppend(RemoveFirst(a, x), b, x, k - 1);
    }
  }

  /** Removing `k` copies of `x` from a list that starts with exactly `k`
      copies of `x` leaves the rest. */
  lemma {:induction false} RemoveFirstNRep<T>(x: T, k: nat, t: seq<T>)
    ensures RemoveFirstN(Rep(x, k) + t, x, k) == t
    decreases k
  {
    if k > 0 {
      assert Rep(x, k) + t == [x] + (Rep(x, k - 1) + t);
      RemoveFirstNRep(x, k - 1, t);
    }
  }

  /** Appending an absent element and removing it again restores the list. */
  lemma {:induction false} RemoveFirstOfAppended<T>(s: seq<T>, x: T)
    requires x !in s
    ensures RemoveFirst(s + [x], x) == s
  {
    if s != [] {
      assert (s + [x])[1..] == s[1..] + [x];
      RemoveFirstOfAppended(s[1..], x);
    }
  }

  /** A list without repeats keeps that property when an element is removed. */
  lemma {:induction false} RemoveFirstDistinct<T>(s: seq<T>, x: T)
    requires Distinct(s)
    ensures Distinct(RemoveFirst(s, x))
    ensures x !in RemoveFirst(s, x)
  {
    if s == [] {
    } else {
      var t := s[1..];
      assert Distinct(t) by {
        forall i, j | 0 <= i < j < |t| ensures t[i] != t[j] {
          assert t[i] == s[i + 1] && t[j] == s[j + 1];
        }
      }
      assert s[0] !in t by {
        forall k | 0 <= k < |t| ensures t[k] != s[0] {
          assert t[k] == s[k + 1];
        }
      }
      if s[0] != x {
        RemoveFirstDistinct(t, x);
        var r := RemoveFirst(t, x);
        assert s[0] !in r by {
          assert s[0] !in multiset(t);
          assert multiset(r) <= multiset(t);
        }
        var u := [s[0]] + r;
        assert RemoveFirst(s, x) == u;
        forall i, j | 0 <= i < j < |u| ensures u[i] != u[j] {
          assert u[j] == r[j - 1];
          if i > 0 {
            assert u[i] == r[i - 1];
          }
        }
      }
    }
  }
}
