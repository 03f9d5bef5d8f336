/**
 Small generic building blocks shared by the rest of the model: an optional
 value (JavaScript's `-1`/`null` "not found" results) and the order-preserving
 filter that `Array.prototype.filter` performs.
 */
module Basics {

  datatype Option<+T> = None | Some(value: T)

  /** Keeps, in order, exactly the elements of `xs` that satisfy `keep`. */
  function Filter<T(==,!new)>(xs: seq<T>, keep: T -> bool): (r: seq<T>)
    ensures |r| <= |xs|
    ensures forall k :: 0 <= k < |r| ==> keep(r[k])
    ensures forall x :: multiset(r)[x] == if keep(x) then multiset(xs)[x] else 0
    decreases |xs|
  {
    if |xs| == 0 then []
    else
      assert xs == [xs[0]] + xs[1..];
      if keep(xs[0]) then [xs[0]] + Filter(xs[1..], keep) else Filter(xs[1..], keep)
  }

  /** Filtering distributes over concatenation, so relative order is kept. */
  lemma {:induction false} FilterAppend<T(!new)>(a: seq<T>, b: seq<T>, keep: T -> bool)
    ensures Filter(a + b, keep) == Filter(a, keep) + Filter(b, keep)
    decreases |a|
  {
    if |a| == 0 {
      assert a + b == b;
    } else {
      assert (a + b)[1..] == a[1..] + b;
      FilterAppend(a[1..], b, keep);
    }
  }

  /** A filter changes nothing exactly when every element already passes. */
  lemma {:induction false} FilterIdentity<T(!new)>(xs: seq<T>, keep: T -> bool)
    ensures Filter(xs, keep) == xs <==> forall k :: 0 <= k < |xs| ==> keep(xs[k])
    decreases |xs|
  {
    if |xs| > 0 {
      FilterIdentity(xs[1..], keep);
      if !keep(xs[0]) {
        assert |Filter(xs, keep)| < |xs| by {
          assert Filter(xs, keep) == Filter(xs[1..], keep);
        }
      }
      if forall k :: 0 <= k < |xs| ==> keep(xs[k]) {
        assert forall k :: 0 <= k < |xs[1..]| ==> keep(xs[1..][k]) by {
          forall k | 0 <= k < |xs[1..]| ensures keep(xs[1..][k]) {
            assert xs[1..][k] == xs[k + 1];
          }
        }
      }
    }
  }

  /** Every element of a filtered sequence comes from the original. */
  lemma FilterSubset<T(!new)>(xs: seq<T>, keep: T -> bool, k: int)
    requires 0 <= k < |Filter(xs, keep)|
    ensures Filter(xs, keep)[k] in xs
  {
    var r := Filter(xs, keep);
    assert r[k] in multiset(r);
  }
}
