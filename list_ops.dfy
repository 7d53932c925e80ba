/**
 * The array operations the components apply to their `appointments` and
 * `tasks` state: `filter`, the `map` that swaps in the server's copy of an
 * edited element, and the filter that drops a deleted element. Elements are
 * identified by a key function (their `_id`).
 */
module ListOps {
  import opened Js

  /** `xs.filter(keep)` */
  function Filter<T>(xs: seq<T>, keep: T -> bool): (r: seq<T>)
    ensures |r| <= |xs|
    ensures forall i :: 0 <= i < |r| ==> r[i] in xs && keep(r[i])
    ensures forall i :: 0 <= i < |xs| && keep(xs[i]) ==> xs[i] in r
  {
    if xs == [] then []
    else if keep(xs[0]) then [xs[0]] + Filter(xs[1..], keep)
    else Filter(xs[1..], keep)
  }

  /** Filtering a concatenation filters each part and keeps them in order. */
  lemma {:induction false} FilterAppend<T>(a: seq<T>, b: seq<T>, keep: T -> bool)
    ensures Filter(a + b, keep) == Filter(a, keep) + Filter(b, keep)
  {
    if a != [] {
      assert (a + b)[1..] == a[1..] + b;
      FilterAppend(a[1..], b, keep);
    } else {
      assert a + b == b;
    }
  }

  /** A filter that keeps every element returns the array unchanged. */
  lemma {:induction false} FilterKeepsAll<T>(xs: seq<T>, keep: T -> bool)
    requires forall i :: 0 <= i < |xs| ==> keep(xs[i])
    ensures Filter(xs, keep) == xs
  {
    if xs != [] {
      FilterKeepsAll(xs[1..], keep);
    }
  }

  /** Two filters that agree on every element give the same result. */
  lemma {:induction false} FilterAgree<T>(xs: seq<T>, p: T -> bool, q: T -> bool)
    requires forall i :: 0 <= i < |xs| ==> p(xs[i]) == q(xs[i])
    ensures Filter(xs, p) == Filter(xs, q)
  {
    if xs != [] {
      FilterAgree(xs[1..], p, q);
    }
  }

  /** Whether some element of `xs` has key `k`. */
  predicate HasKey<T>(xs: seq<T>, key: T -> Id, k: Id) {
    exists i :: 0 <= i < |xs| && key(xs[i]) == k
  }

  /** `xs.map(e => e._id === x._id ? x : e)`: every element with the same
      key as `x` is replaced by `x`; the others stay where they were. */
  function ReplaceById<T>(xs: seq<T>, key: T -> Id, x: T): (r: seq<T>)
    ensures |r| == |xs|
    ensures forall i :: 0 <= i < |xs| && key(xs[i]) == key(x) ==> r[i] == x
    ensures forall i :: 0 <= i < |xs| && key(xs[i]) != key(x) ==> r[i] == xs[i]
  {
    if xs == [] then []
    else [if key(xs[0]) == key(x) then x else xs[0]] + ReplaceById(xs[1..], key, x)
  }

  /** Replacing with an element whose key is absent changes nothing. */
  lemma ReplaceMissing<T>(xs: seq<T>, key: T -> Id, x: T)
    requires !HasKey(xs, key, key(x))
    ensures ReplaceById(xs, key, x) == xs
  {
    var r := ReplaceById(xs, key, x);
    assert forall i :: 0 <= i < |xs| ==> r[i] == xs[i];
  }

  /** Applying the same server response twice is the same as applying it once. */
  lemma ReplaceIdempotent<T>(xs: seq<T>, key: T -> Id, x: T)
    ensures ReplaceById(ReplaceById(xs, key, x), key, x) == ReplaceById(xs, key, x)
  {
    var r := ReplaceById(xs, key, x);
    var rr := ReplaceById(r, key, x);
    assert forall i :: 0 <= i < |xs| ==> (key(r[i]) == key(x) <==> key(xs[i]) == key(x));
    assert forall i :: 0 <= i < |xs| ==> rr[i] == r[i];
  }

  /** `xs.filter(e => e._id !== k)` */
  function DeleteById<T>(xs: seq<T>, key: T -> Id, k: Id): (r: seq<T>)
    ensures !HasKey(r, key, k)
    ensures forall i :: 0 <= i < |r| ==> r[i] in xs
    ensures forall i :: 0 <= i < |xs| && key(xs[i]) != k ==> xs[i] in r
  {
    Filter(xs, x => key(x) != k)
  }

  /** Deleting removes nothing when no element has that key. */
  lemma DeleteMissing<T>(xs: seq<T>, key: T -> Id, k: Id)
    requires !HasKey(xs, key, k)
    ensures DeleteById(xs, key, k) == xs
  {
    FilterKeepsAll(xs, x => key(x) != k);
  }

  /** Deleting twice is deleting once. */
  lemma DeleteIdempotent<T>(xs: seq<T>, key: T -> Id, k: Id)
    ensures DeleteById(DeleteById(xs, key, k), key, k) == DeleteById(xs, key, k)
  {
    DeleteMissing(DeleteById(xs, key, k), key, k);
  }

  /** Deleting keeps the surviving elements in their original order. */
  lemma DeleteAppend<T>(a: seq<T>, b: seq<T>, key: T -> Id, k: Id)
    ensures DeleteById(a + b, key, k) == DeleteById(a, key, k) + DeleteById(b, key, k)
  {
    FilterAppend(a, b, x => key(x) != k);
  }

  /** Deleting by the key of an edited element forgets the edit: the list is
      the same as if the old element had been deleted. */
  lemma {:induction false} DeleteAfterReplace<T>(xs: seq<T>, key: T -> Id, x: T)
    ensures DeleteById(ReplaceById(xs, key, x), key, key(x)) == DeleteById(xs, key, key(x))
  {
    if xs != [] {
      var r := ReplaceById(xs, key, x);
      assert r[1..] == ReplaceById(xs[1..], key, x);
      DeleteAfterReplace(xs[1..], key, x);
      assert r == [r[0]] + r[1..];
      assert xs == [xs[0]] + xs[1..];
      FilterAppend([r[0]], r[1..], y => key(y) != key(x));
      FilterAppend([xs[0]], xs[1..], y => key(y) != key(x));
    }
  }

  /** Appending: the new element is last and nothing before it moves. */
  function Append<T>(xs: seq<T>, x: T): (r: seq<T>)
    ensures |r| == |xs| + 1 && r[|xs|] == x && r[..|xs|] == xs
  {
    xs + [x]
  }
}
