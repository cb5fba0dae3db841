/**
 * Keeping, in order, the successful results of applying a partial function
 * to each element of a sequence: the shape of a loop that appends what
 * parses and silently skips what raises.
 */
module FilterMaps {
  import opened Wrappers

  /** What one element adds to the result: its value, or nothing. */
  function Kept<X, Y>(f: X -> Option<Y>, x: X): (r: seq<Y>)
    ensures |r| <= 1
  {
    match f(x)
    case Some(y) => [y]
    case None => []
  }

  function FilterMap<X, Y>(f: X -> Option<Y>, xs: seq<X>): (r: seq<Y>)
    ensures |r| <= |xs|
  {
    if xs == [] then [] else FilterMap(f, xs[..|xs| - 1]) + Kept(f, xs[|xs| - 1])
  }

  /** A prefix is the one before it followed by its last element. */
  lemma TakeSnoc<T>(s: seq<T>, k: nat)
    requires 0 < k <= |s|
    ensures s[..k] == s[..k - 1] + [s[k - 1]]
  {
  }

  /** The step a loop over `xs` takes at position `k`. */
  lemma FilterMapSnoc<X, Y>(f: X -> Option<Y>, xs: seq<X>, k: nat)
    requires k < |xs|
    ensures FilterMap(f, xs[..k + 1]) == FilterMap(f, xs[..k]) + Kept(f, xs[k])
  {
    assert xs[..k + 1][..k] == xs[..k];
  }

  lemma {:induction false} FilterMapAppend<X, Y>(f: X -> Option<Y>, a: seq<X>, b: seq<X>)
    ensures FilterMap(f, a + b) == FilterMap(f, a) + FilterMap(f, b)
    decreases |b|
  {
    if b == [] {
      assert a + b == a;
    } else {
      var b' := b[..|b| - 1];
      assert (a + b)[..|a + b| - 1] == a + b';
      assert (a + b)[|a + b| - 1] == b[|b| - 1];
      FilterMapAppend(f, a, b');
    }
  }

  /** An element contributes its own value, if it has one, exactly at its place. */
  lemma FilterMapSplit<X, Y>(f: X -> Option<Y>, xs: seq<X>, i: nat)
    requires i < |xs|
    ensures FilterMap(f, xs) == FilterMap(f, xs[..i]) + Kept(f, xs[i]) + FilterMap(f, xs[i + 1..])
  {
    assert xs == xs[..i + 1] + xs[i + 1..];
    FilterMapAppend(f, xs[..i + 1], xs[i + 1..]);
    FilterMapSnoc(f, xs, i);
  }

  lemma {:induction false} FilterMapFrom<X, Y>(f: X -> Option<Y>, xs: seq<X>, y: Y)
    ensures y in FilterMap(f, xs) ==> exists i :: 0 <= i < |xs| && f(xs[i]) == Some(y)
    decreases |xs|
  {
    if xs != [] {
      var n := |xs| - 1;
      FilterMapFrom(f, xs[..n], y);
      if y in FilterMap(f, xs[..n]) {
        var i :| 0 <= i < n && f(xs[..n][i]) == Some(y);
        assert xs[i] == xs[..n][i];
      }
    }
  }

  /** A value is in the result iff some element maps to it. */
  lemma FilterMapMembership<X, Y>(f: X -> Option<Y>, xs: seq<X>, y: Y)
    ensures y in FilterMap(f, xs) <==> exists i :: 0 <= i < |xs| && f(xs[i]) == Some(y)
  {
    FilterMapFrom(f, xs, y);
    if i :| 0 <= i < |xs| && f(xs[i]) == Some(y) {
      FilterMapSplit(f, xs, i);
    }
  }

  /** Nothing is kept iff every element fails; everything is kept iff none does. */
  lemma {:induction false} FilterMapLength<X, Y>(f: X -> Option<Y>, xs: seq<X>)
    ensures FilterMap(f, xs) == [] <==> forall i :: 0 <= i < |xs| ==> f(xs[i]).None?
    ensures |FilterMap(f, xs)| == |xs| <==> forall i :: 0 <= i < |xs| ==> f(xs[i]).Some?
    decreases |xs|
  {
    if xs != [] {
      var n := |xs| - 1;
      FilterMapLength(f, xs[..n]);
      assert forall i :: 0 <= i < n ==> xs[..n][i] == xs[i];
    }
  }
}
