/**
  Sequence primitives shared by every lookup and bulk pass of the library:
  first-match search (what the platform's name lookups do) and
  order-preserving filter-then-map (what the LINQ `Where`/`Select` chains do).
*/
module Seqs {
  import opened Wrappers

  /** Index of the first element satisfying `p`, if there is one. */
  function FirstIndex<T>(xs: seq<T>, p: T -> bool): (r: Option<nat>)
    ensures r.Some? ==> r.value < |xs| && p(xs[r.value])
    ensures r.Some? ==> forall j :: 0 <= j < r.value ==> !p(xs[j])
    ensures r.None? <==> forall j :: 0 <= j < |xs| ==> !p(xs[j])
  {
    if |xs| == 0 then None
    else if p(xs[0]) then Some(0)
    else
      match FirstIndex(xs[1..], p)
      case None => None
      case Some(i) => Some(i + 1)
  }

  /** Keeps the elements satisfying `keep`, in order, and maps `f` over them. */
  function FilterMap<T, U>(xs: seq<T>, keep: T -> bool, f: T -> U): (r: seq<U>)
    ensures |r| <= |xs|
    ensures forall y :: y in r ==> exists x :: x in xs && keep(x) && y == f(x)
    ensures forall x :: x in xs && keep(x) ==> f(x) in r
    ensures (forall i :: 0 <= i < |xs| ==> !keep(xs[i])) ==> r == []
    ensures (forall i :: 0 <= i < |xs| ==> keep(xs[i])) ==>
              |r| == |xs| && forall i :: 0 <= i < |xs| ==> r[i] == f(xs[i])
  {
    if |xs| == 0 then []
    else (if keep(xs[0]) then [f(xs[0])] else []) + FilterMap(xs[1..], keep, f)
  }

  ghost predicate Increasing(idx: seq<nat>) {
    forall a, b :: 0 <= a < b < |idx| ==> idx[a] < idx[b]
  }

  /** `idx` lists, in increasing order, exactly the positions of `xs` whose element satisfies `keep`. */
  ghost predicate IsSelection<T>(xs: seq<T>, keep: T -> bool, idx: seq<nat>) {
    && Increasing(idx)
    && (forall k :: 0 <= k < |idx| ==> idx[k] < |xs| && keep(xs[idx[k]]))
    && (forall i :: 0 <= i < |xs| && keep(xs[i]) ==> i in idx)
  }

  /**
    Reference definition of an order-preserving filter-then-map: `ys` is `f` applied to
    exactly the elements of `xs` that satisfy `keep`, in the order they occur in `xs`.
  */
  ghost predicate SelectedImage<T, U>(xs: seq<T>, keep: T -> bool, f: T -> U, ys: seq<U>) {
    exists idx :: IsSelection(xs, keep, idx) && |ys| == |idx|
      && forall k :: 0 <= k < |idx| ==> ys[k] == f(xs[idx[k]])
  }

  function Shift(idx: seq<nat>): (r: seq<nat>)
    ensures |r| == |idx| && forall k :: 0 <= k < |idx| ==> r[k] == idx[k] + 1
  {
    seq(|idx|, k requires 0 <= k < |idx| => idx[k] + 1)
  }

  /** The selection of `xs` built from a selection `idx'` of `xs[1..]`. */
  function Extend<T>(xs: seq<T>, keep: T -> bool, idx': seq<nat>): (r: seq<nat>)
    requires |xs| > 0
    ensures keep(xs[0]) ==> |r| == |idx'| + 1 && r[0] == 0 && forall k :: 0 < k < |r| ==> r[k] == idx'[k - 1] + 1
    ensures !keep(xs[0]) ==> |r| == |idx'| && forall k :: 0 <= k < |r| ==> r[k] == idx'[k] + 1
  {
    if keep(xs[0]) then [0] + Shift(idx') else Shift(idx')
  }

  /** Every position of `xs[1..]` that qualifies appears, shifted, in the extension. */
  lemma ExtendComplete<T>(xs: seq<T>, keep: T -> bool, idx': seq<nat>, i: nat)
    requires 0 < i < |xs| && keep(xs[i])
    requires forall j :: 0 <= j < |xs| - 1 && keep(xs[1..][j]) ==> j in idx'
    ensures i in Extend(xs, keep, idx')
  {
    assert xs[1..][i - 1] == xs[i];
    var k :| 0 <= k < |idx'| && idx'[k] == i - 1;
    var r := Extend(xs, keep, idx');
    if keep(xs[0]) {
      assert r[k + 1] == i;
    } else {
      assert r[k] == i;
    }
  }

  /** The extension lists only qualifying positions of `xs`. */
  lemma ExtendSound<T>(xs: seq<T>, keep: T -> bool, idx': seq<nat>)
    requires |xs| > 0
    requires forall k :: 0 <= k < |idx'| ==> idx'[k] < |xs| - 1 && keep(xs[1..][idx'[k]])
    ensures var idx := Extend(xs, keep, idx');
            forall k :: 0 <= k < |idx| ==> idx[k] < |xs| && keep(xs[idx[k]])
  {
    assert forall k :: 0 <= k < |idx'| ==> xs[idx'[k] + 1] == xs[1..][idx'[k]];
  }

  /** Shifting and prepending position 0 keeps a list increasing. */
  lemma ExtendIncreasing<T>(xs: seq<T>, keep: T -> bool, idx': seq<nat>)
    requires |xs| > 0 && Increasing(idx')
    ensures Increasing(Extend(xs, keep, idx'))
  {
  }

  /** A selection of `xs[1..]`, shifted by one and extended by position 0 when it qualifies, selects from `xs`. */
  lemma ExtendSelection<T>(xs: seq<T>, keep: T -> bool, idx': seq<nat>)
    requires |xs| > 0 && IsSelection(xs[1..], keep, idx')
    ensures IsSelection(xs, keep, Extend(xs, keep, idx'))
  {
    var idx := Extend(xs, keep, idx');
    ExtendSound(xs, keep, idx');
    ExtendIncreasing(xs, keep, idx');
    forall i | 0 <= i < |xs| && keep(xs[i])
      ensures i in idx
    {
      if i > 0 {
        ExtendComplete(xs, keep, idx', i);
      }
    }
  }

  /** The image of such an extended selection is the head's image followed by the tail's. */
  lemma ExtendImage<T, U>(xs: seq<T>, keep: T -> bool, f: T -> U, idx': seq<nat>, rest: seq<U>)
    requires |xs| > 0 && |rest| == |idx'|
    requires forall k :: 0 <= k < |idx'| ==> idx'[k] < |xs| - 1 && rest[k] == f(xs[1..][idx'[k]])
    ensures var idx := Extend(xs, keep, idx');
            var ys := (if keep(xs[0]) then [f(xs[0])] else []) + rest;
            |ys| == |idx| && forall k :: 0 <= k < |idx| ==> idx[k] < |xs| && ys[k] == f(xs[idx[k]])
  {
    assert forall k :: 0 <= k < |idx'| ==> xs[idx'[k] + 1] == xs[1..][idx'[k]];
  }

  lemma {:induction false} FilterMapSelects<T, U>(xs: seq<T>, keep: T -> bool, f: T -> U)
    ensures SelectedImage(xs, keep, f, FilterMap(xs, keep, f))
  {
    if |xs| == 0 {
      assert IsSelection(xs, keep, []);
    } else {
      var rest := FilterMap(xs[1..], keep, f);
      FilterMapSelects(xs[1..], keep, f);
      var idx' :| IsSelection(xs[1..], keep, idx') && |rest| == |idx'|
        && forall k :: 0 <= k < |idx'| ==> rest[k] == f(xs[1..][idx'[k]]);
      ExtendSelection(xs, keep, idx');
      ExtendImage(xs, keep, f, idx', rest);
      assert IsSelection(xs, keep, Extend(xs, keep, idx'));
    }
  }

  /** The least element of an increasing list is its head. */
  lemma IncreasingHead(a: seq<nat>, x: nat)
    requires Increasing(a) && x in a
    ensures a[0] <= x
  {
    var m :| 0 <= m < |a| && a[m] == x;
  }

  /** Below its head, an increasing list's tail holds exactly its other elements. */
  lemma IncreasingTail(a: seq<nat>, x: nat)
    requires Increasing(a) && |a| > 0
    ensures x in a[1..] <==> x in a && x != a[0]
  {
    if x in a && x != a[0] {
      var m :| 0 <= m < |a| && a[m] == x;
      assert a[1..][m - 1] == x;
    }
    if x in a[1..] {
      var m :| 0 <= m < |a[1..]| && a[1..][m] == x;
      assert a[m + 1] == x;
    }
  }

  lemma NoElementsIsEmpty(s: seq<nat>)
    ensures s == [] <==> forall i :: i !in s
  {
    if s != [] {
      assert s[0] in s;
    }
  }

  /** Two increasing index lists with the same elements are the same list. */
  lemma {:induction false} IncreasingUnique(a: seq<nat>, b: seq<nat>)
    requires Increasing(a) && Increasing(b)
    requires forall i :: i in a <==> i in b
    ensures a == b
    decreases |a|
  {
    if |a| == 0 {
      NoElementsIsEmpty(a);
      NoElementsIsEmpty(b);
    } else {
      assert a[0] in a && b[0] in b;
      IncreasingHead(b, a[0]);
      IncreasingHead(a, b[0]);
      forall i
        ensures i in a[1..] <==> i in b[1..]
      {
        IncreasingTail(a, i);
        IncreasingTail(b, i);
      }
      IncreasingUnique(a[1..], b[1..]);
      assert a == [a[0]] + a[1..];
      assert b == [b[0]] + b[1..];
    }
  }

  /** The selection of a sequence under a predicate is unique. */
  lemma SelectionUnique<T>(xs: seq<T>, keep: T -> bool, a: seq<nat>, b: seq<nat>)
    requires IsSelection(xs, keep, a) && IsSelection(xs, keep, b)
    ensures a == b
  {
    forall i
      ensures i in a <==> i in b
    {
      if i in a {
        var k :| 0 <= k < |a| && a[k] == i;
      }
      if i in b {
        var k :| 0 <= k < |b| && b[k] == i;
      }
    }
    IncreasingUnique(a, b);
  }

  /** `FilterMap` is the only sequence meeting the reference definition. */
  lemma SelectedImageIsFilterMap<T, U>(xs: seq<T>, keep: T -> bool, f: T -> U, ys: seq<U>)
    requires SelectedImage(xs, keep, f, ys)
    ensures ys == FilterMap(xs, keep, f)
  {
    var a :| IsSelection(xs, keep, a) && |ys| == |a| && forall k :: 0 <= k < |a| ==> ys[k] == f(xs[a[k]]);
    ImageOfSelection(xs, keep, f, a, ys);
  }

  /** The image of the selection, element by element, is `FilterMap`. */
  lemma ImageOfSelection<T, U>(xs: seq<T>, keep: T -> bool, f: T -> U, idx: seq<nat>, ys: seq<U>)
    requires IsSelection(xs, keep, idx)
    requires |ys| == |idx| && forall k :: 0 <= k < |idx| ==> ys[k] == f(xs[idx[k]])
    ensures ys == FilterMap(xs, keep, f)
  {
    var r := FilterMap(xs, keep, f);
    FilterMapOfSelection(xs, keep, f, idx);
    assert |ys| == |r| && forall k :: 0 <= k < |r| ==> ys[k] == r[k];
  }

  /** Read position by position, `FilterMap` is `f` over the selected positions. */
  lemma FilterMapOfSelection<T, U>(xs: seq<T>, keep: T -> bool, f: T -> U, idx: seq<nat>)
    requires IsSelection(xs, keep, idx)
    ensures var r := FilterMap(xs, keep, f);
            |r| == |idx| && forall k :: 0 <= k < |idx| ==> r[k] == f(xs[idx[k]])
  {
    var r := FilterMap(xs, keep, f);
    FilterMapSelects(xs, keep, f);
    var b :| IsSelection(xs, keep, b) && |r| == |b| && forall k :: 0 <= k < |b| ==> r[k] == f(xs[b[k]]);
    SelectionUnique(xs, keep, idx, b);
  }
}
