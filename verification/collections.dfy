/** Order-preserving selection over sequences: JavaScript's `Array.prototype.filter`. */
module Collections {

  /** The elements of `xs` satisfying `p`, in their original order. */
  function Select<T(!new)>(xs: seq<T>, p: T -> bool): (r: seq<T>)
    ensures |r| <= |xs|
    ensures forall x :: x in r <==> x in xs && p(x)
  {
    if xs == [] then []
    else
      var rest := Select(xs[1..], p);
      if p(xs[0]) then [xs[0]] + rest else rest
  }

  /** Selection keeps every copy of a selected element and no copy of any other. */
  lemma {:induction false} SelectCount<T(!new)>(xs: seq<T>, p: T -> bool, x: T)
    ensures multiset(Select(xs, p))[x] == if p(x) then multiset(xs)[x] else 0
  {
    if xs != [] {
      assert xs == [xs[0]] + xs[1..];
      SelectCount(xs[1..], p, x);
    }
  }

  /** Selection is stable: it distributes over concatenation, so it never reorders. */
  lemma {:induction false} SelectAppend<T(!new)>(xs: seq<T>, ys: seq<T>, p: T -> bool)
    ensures Select(xs + ys, p) == Select(xs, p) + Select(ys, p)
  {
    if xs == [] {
      assert xs + ys == ys;
    } else {
      var zs := xs + ys;
      assert zs[0] == xs[0];
      assert zs[1..] == xs[1..] + ys;
      SelectAppend(xs[1..], ys, p);
      var tail := Select(xs[1..], p) + Select(ys, p);
      assert Select(zs, p) == (if p(xs[0]) then [xs[0]] + tail else tail);
      assert Select(xs, p) == (if p(xs[0]) then [xs[0]] + Select(xs[1..], p) else Select(xs[1..], p));
    }
  }

  /** Selecting with a predicate every element meets returns the sequence unchanged. */
  lemma {:induction false} SelectAll<T(!new)>(xs: seq<T>, p: T -> bool)
    requires forall x :: x in xs ==> p(x)
    ensures Select(xs, p) == xs
  {
    if xs != [] {
      SelectAll(xs[1..], p);
    }
  }

  /** Selecting twice with the same predicate is selecting once. */
  lemma SelectIdempotent<T(!new)>(xs: seq<T>, p: T -> bool)
    ensures Select(Select(xs, p), p) == Select(xs, p)
  {
    SelectAll(Select(xs, p), p);
  }
}
