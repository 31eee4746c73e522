/** Order-preserving filtering, the model of `Array.prototype.filter`. */
module Seqs {

  /** The elements of `xs` that satisfy `p`, in their original order. */
  function Filter<T(!new)>(xs: seq<T>, p: T -> bool): (r: seq<T>)
    ensures |r| <= |xs|
  {
    if xs == [] then []
    else (if p(xs[0]) then [xs[0]] else []) + Filter(xs[1..], p)
  }

  /** Exactly the elements of `xs` that satisfy `p` are kept. */
  lemma {:induction false} FilterMembers<T(!new)>(xs: seq<T>, p: T -> bool)
    ensures forall x :: x in Filter(xs, p) <==> x in xs && p(x)
  {
    if xs != [] {
      FilterMembers(xs[1..], p);
      assert xs == [xs[0]] + xs[1..];
    }
  }

  /** Filtering distributes over concatenation, so the relative order of kept elements is the input order. */
  lemma {:induction false} FilterAppend<T(!new)>(xs: seq<T>, ys: seq<T>, p: T -> bool)
    ensures Filter(xs + ys, p) == Filter(xs, p) + Filter(ys, p)
  {
    if xs == [] {
      assert xs + ys == ys;
    } else {
      var head := if p(xs[0]) then [xs[0]] else [];
      assert (xs + ys)[0] == xs[0];
      assert (xs + ys)[1..] == xs[1..] + ys;
      assert Filter(xs + ys, p) == head + Filter(xs[1..] + ys, p);
      FilterAppend(xs[1..], ys, p);
      assert head + (Filter(xs[1..], p) + Filter(ys, p)) == (head + Filter(xs[1..], p)) + Filter(ys, p);
    }
  }

  /** An element that `p` rejects makes the filtered sequence strictly shorter. */
  lemma {:induction false} FilterShrinks<T(!new)>(xs: seq<T>, p: T -> bool, x: T)
    requires x in xs && !p(x)
    ensures |Filter(xs, p)| < |xs|
  {
    if xs[0] != x {
      FilterShrinks(xs[1..], p, x);
    }
  }

  /** Filtering with a predicate that holds everywhere keeps the sequence unchanged. */
  lemma {:induction false} FilterAll<T(!new)>(xs: seq<T>, p: T -> bool)
    requires forall x :: x in xs ==> p(x)
    ensures Filter(xs, p) == xs
  {
    if xs != [] {
      FilterAll(xs[1..], p);
    }
  }

  /** Filtering with a predicate that fails everywhere leaves nothing. */
  lemma {:induction false} FilterNone<T(!new)>(xs: seq<T>, p: T -> bool)
    requires forall x :: x in xs ==> !p(x)
    ensures Filter(xs, p) == []
  {
    if xs != [] {
      FilterNone(xs[1..], p);
    }
  }

  /** Filtering again with a test that implies the first one is filtering once with that test. */
  lemma {:induction false} FilterNarrow<T(!new)>(xs: seq<T>, p: T -> bool, q: T -> bool)
    requires forall x :: q(x) ==> p(x)
    ensures Filter(Filter(xs, p), q) == Filter(xs, q)
  {
    if xs != [] {
      FilterNarrow(xs[1..], p, q);
      var head := if p(xs[0]) then [xs[0]] else [];
      FilterAppend(head, Filter(xs[1..], p), q);
      if p(xs[0]) {
        assert [xs[0]][1..] == [];
      }
    }
  }

  /** A sequence of length two is determined by its two elements. */
  lemma SeqTwo<T>(s: seq<T>, x: T, y: T)
    requires |s| == 2 && s[0] == x && s[1] == y
    ensures s == [x, y]
  {
  }

  /** A sequence of length three is determined by its three elements. */
  lemma SeqThree<T>(s: seq<T>, x: T, y: T, z: T)
    requires |s| == 3 && s[0] == x && s[1] == y && s[2] == z
    ensures s == [x, y, z]
  {
  }

  /** Cutting a sequence anywhere and gluing the halves gives it back. */
  lemma SplitAt<T>(s: seq<T>, k: nat)
    requires k <= |s|
    ensures s[..k] + s[k..] == s
  {
  }

  /** Regrouping a four-part concatenation. */
  lemma AppendRegroup<T>(a: seq<T>, b: seq<T>, c: seq<T>, d: seq<T>)
    ensures a + (b + c) + d == (a + b) + (c + d)
  {
  }

  /** A sequence of length eight is the display of its eight elements. */
  lemma SeqEight<T>(s: seq<T>)
    requires |s| == 8
    ensures s == [s[0], s[1], s[2], s[3], s[4], s[5], s[6], s[7]]
  {
  }

  /** Filtering one element at a time. */
  lemma FilterCons<T(!new)>(x: T, xs: seq<T>, p: T -> bool)
    ensures Filter([x] + xs, p) == (if p(x) then [x] else []) + Filter(xs, p)
  {
    assert ([x] + xs)[1..] == xs;
  }

  /** Of three elements only the first is kept. */
  lemma FilterFirstOfThree<T(!new)>(a: T, b: T, c: T, p: T -> bool)
    requires p(a) && !p(b) && !p(c)
    ensures Filter([a, b, c], p) == [a]
  {
    assert [a, b, c] == [a] + [b, c];
    FilterCons(a, [b, c], p);
    FilterNone([b, c], p);
  }

  /** Of four elements only the first is kept. */
  lemma FilterFirstOfFour<T(!new)>(a: T, b: T, c: T, d: T, p: T -> bool)
    requires p(a) && !p(b) && !p(c) && !p(d)
    ensures Filter([a, b, c, d], p) == [a]
  {
    assert [a, b, c, d] == [a] + [b, c, d];
    FilterCons(a, [b, c, d], p);
    FilterNone([b, c, d], p);
  }

  /** Of six elements only the first is kept. */
  lemma FilterFirstOfSix<T(!new)>(a: T, b: T, c: T, d: T, e: T, g: T, p: T -> bool)
    requires p(a) && !p(b) && !p(c) && !p(d) && !p(e) && !p(g)
    ensures Filter([a, b, c, d, e, g], p) == [a]
  {
    assert [a, b, c, d, e, g] == [a] + [b, c, d, e, g];
    FilterCons(a, [b, c, d, e, g], p);
    FilterNone([b, c, d, e, g], p);
  }

  /** Of five elements the first two are kept. */
  lemma FilterFirstTwoOfFive<T(!new)>(a: T, b: T, c: T, d: T, e: T, p: T -> bool)
    requires p(a) && p(b) && !p(c) && !p(d) && !p(e)
    ensures Filter([a, b, c, d, e], p) == [a, b]
  {
    assert [a, b, c, d, e] == [a, b] + [c, d, e];
    FilterAppend([a, b], [c, d, e], p);
    FilterAll([a, b], p);
    FilterNone([c, d, e], p);
  }

  /** Of eight elements the first, second and sixth are kept. */
  lemma FilterThreeOfEight<T(!new)>(a: T, b: T, c: T, d: T, e: T, f: T, g: T, h: T, p: T -> bool)
    requires p(a) && p(b) && !p(c) && !p(d) && !p(e) && p(f) && !p(g) && !p(h)
    ensures Filter([a, b, c, d, e, f, g, h], p) == [a, b, f]
  {
    assert [a, b, c, d, e, f, g, h] == [a, b] + ([c, d, e] + ([f] + [g, h]));
    FilterAppend([a, b], [c, d, e] + ([f] + [g, h]), p);
    FilterAppend([c, d, e], [f] + [g, h], p);
    FilterAppend([f], [g, h], p);
    FilterAll([a, b], p);
    FilterNone([c, d, e], p);
    FilterAll([f], p);
    FilterNone([g, h], p);
  }

  /** Of eight elements the third to fifth are kept. */
  lemma FilterMiddleOfEight<T(!new)>(a: T, b: T, c: T, d: T, e: T, f: T, g: T, h: T, p: T -> bool)
    requires !p(a) && !p(b) && p(c) && p(d) && p(e) && !p(f) && !p(g) && !p(h)
    ensures Filter([a, b, c, d, e, f, g, h], p) == [c, d, e]
  {
    assert [a, b, c, d, e, f, g, h] == [a, b] + ([c, d, e] + [f, g, h]);
    FilterAppend([a, b], [c, d, e] + [f, g, h], p);
    FilterAppend([c, d, e], [f, g, h], p);
    FilterNone([a, b], p);
    FilterAll([c, d, e], p);
    FilterNone([f, g, h], p);
  }

  /** Of eight elements the last two are kept. */
  lemma FilterLastTwoOfEight<T(!new)>(a: T, b: T, c: T, d: T, e: T, f: T, g: T, h: T, p: T -> bool)
    requires !p(a) && !p(b) && !p(c) && !p(d) && !p(e) && !p(f) && p(g) && p(h)
    ensures Filter([a, b, c, d, e, f, g, h], p) == [g, h]
  {
    assert [a, b, c, d, e, f, g, h] == [a, b, c, d, e, f] + [g, h];
    FilterAppend([a, b, c, d, e, f], [g, h], p);
    FilterNone([a, b, c, d, e, f], p);
    FilterAll([g, h], p);
  }
}
