/**
 * The JavaScript array built-ins the chat client relies on: `filter`,
 * `findIndex` and `find`, as functions on sequences, with the facts about
 * them that the rest of the model uses.
 */
module JsArray {
  import opened Wrappers

  /** `xs.filter(p)`: the elements that satisfy `p`, in their original order. */
  function Filter<T>(xs: seq<T>, p: T -> bool): (r: seq<T>)
    ensures |r| <= |xs|
    ensures forall x :: x in r ==> x in xs && p(x)
    ensures forall x :: x in xs && p(x) ==> x in r
  {
    if xs == [] then [] else (if p(xs[0]) then [xs[0]] else []) + Filter(xs[1..], p)
  }

  /** Filtering a concatenation filters each part. */
  lemma {:induction false} FilterAppend<T>(xs: seq<T>, ys: seq<T>, p: T -> bool)
    ensures Filter(xs + ys, p) == Filter(xs, p) + Filter(ys, p)
  {
    if xs == [] {
      assert xs + ys == ys;
    } else {
      assert (xs + ys)[1..] == xs[1..] + ys;
      FilterAppend(xs[1..], ys, p);
    }
  }

  /** A filter that every element passes returns its input. */
  lemma {:induction false} FilterKeepsAll<T>(xs: seq<T>, p: T -> bool)
    requires forall i :: 0 <= i < |xs| ==> p(xs[i])
    ensures Filter(xs, p) == xs
  {
    if xs != [] {
      FilterKeepsAll(xs[1..], p);
    }
  }

  /**
   * Two complementary filters split the input: every element goes to exactly
   * one side, so their lengths add up to the input's.
   */
  lemma {:induction false} FilterPartition<T>(xs: seq<T>, p: T -> bool, q: T -> bool)
    requires forall x :: q(x) == !p(x)
    ensures |Filter(xs, p)| + |Filter(xs, q)| == |xs|
  {
    if xs != [] {
      FilterPartition(xs[1..], p, q);
    }
  }

  /**
   * An element that passes the filter lands at the position given by the
   * number of passing elements before it.
   */
  lemma {:induction false} FilterAt<T>(xs: seq<T>, p: T -> bool, i: nat)
    requires i < |xs| && p(xs[i])
    ensures |Filter(xs[..i], p)| < |Filter(xs, p)|
    ensures Filter(xs, p)[|Filter(xs[..i], p)|] == xs[i]
  {
    assert xs == xs[..i] + xs[i..];
    FilterAppend(xs[..i], xs[i..], p);
    assert xs[i..][0] == xs[i];
  }

  /**
   * Filtering keeps the relative order: two passing elements at i < j
   * appear at increasing positions of the result.
   */
  lemma {:induction false} FilterKeepsOrder<T>(xs: seq<T>, p: T -> bool, i: nat, j: nat)
    requires i < j < |xs| && p(xs[i]) && p(xs[j])
    ensures |Filter(xs[..i], p)| < |Filter(xs[..j], p)| < |Filter(xs, p)|
    ensures Filter(xs, p)[|Filter(xs[..i], p)|] == xs[i]
    ensures Filter(xs, p)[|Filter(xs[..j], p)|] == xs[j]
  {
    FilterAt(xs, p, i);
    FilterAt(xs, p, j);
    FilterAt(xs[..j], p, i);
    assert xs[..j][..i] == xs[..i];
  }

  /** The first index whose element satisfies `p`, or `None`: the search behind `find`. */
  function FindIndex<T>(xs: seq<T>, p: T -> bool): (r: Option<nat>)
    ensures r.Some? ==> r.value < |xs| && p(xs[r.value])
    ensures r.Some? ==> forall j :: 0 <= j < r.value ==> !p(xs[j])
    ensures r.None? ==> forall j :: 0 <= j < |xs| ==> !p(xs[j])
  {
    if xs == [] then None
    else if p(xs[0]) then Some(0)
    else match FindIndex(xs[1..], p)
      case None => None
      case Some(k) => Some(k + 1)
  }

  /** `xs.find(p)`, with `undefined` read as `None`: the first element satisfying `p`. */
  function Find<T>(xs: seq<T>, p: T -> bool): (r: Option<T>)
    ensures r.Some? <==> exists i :: 0 <= i < |xs| && p(xs[i])
    ensures r.Some? ==> exists i :: 0 <= i < |xs| && xs[i] == r.value && p(xs[i]) && forall j :: 0 <= j < i ==> !p(xs[j])
  {
    match FindIndex(xs, p)
    case None => None
    case Some(i) => Some(xs[i])
  }

  /** `xs.some(p)`. */
  predicate Any<T>(xs: seq<T>, p: T -> bool) {
    exists i :: 0 <= i < |xs| && p(xs[i])
  }
}
