/** Left folds over sequences, and what relates one fold to another. */
module Folds {

  function Fold<S, T>(step: (S, T) -> S, s: S, xs: seq<T>): S
    decreases |xs|
  {
    if xs == [] then s else Fold(step, step(s, xs[0]), xs[1..])
  }

  lemma {:induction false} FoldConcat<S, T>(step: (S, T) -> S, s: S, xs: seq<T>, ys: seq<T>)
    ensures Fold(step, s, xs + ys) == Fold(step, Fold(step, s, xs), ys)
    decreases |xs|
  {
    if xs == [] {
      assert xs + ys == ys;
    } else {
      assert (xs + ys)[1..] == xs[1..] + ys;
      FoldConcat(step, step(s, xs[0]), xs[1..], ys);
    }
  }

  /** Folding one element more. */
  lemma FoldNext<S, T>(step: (S, T) -> S, s: S, xs: seq<T>, i: nat)
    requires i < |xs|
    ensures Fold(step, s, xs[..i + 1]) == step(Fold(step, s, xs[..i]), xs[i])
  {
    assert xs[..i + 1] == xs[..i] + [xs[i]];
    FoldConcat(step, s, xs[..i], [xs[i]]);
    var last := step(Fold(step, s, xs[..i]), xs[i]);
    assert Fold(step, last, []) == last;
  }

  lemma FoldAll<S, T>(step: (S, T) -> S, s: S, xs: seq<T>)
    ensures Fold(step, s, xs[..|xs|]) == Fold(step, s, xs)
  {
    assert xs[..|xs|] == xs;
  }

  function Map<T, U>(f: T -> U, xs: seq<T>): (ys: seq<U>)
    ensures |ys| == |xs|
  {
    if xs == [] then [] else [f(xs[0])] + Map(f, xs[1..])
  }

  /** If h carries one step to the other, it carries one fold to the other. */
  lemma {:induction false} FoldHomomorphism<S(!new), T(!new), U, V>(
      step: (S, T) -> S, step': (U, V) -> U, h: S -> U, g: T -> V, s: S, xs: seq<T>)
    requires forall s, x :: h(step(s, x)) == step'(h(s), g(x))
    ensures h(Fold(step, s, xs)) == Fold(step', h(s), Map(g, xs))
    decreases |xs|
  {
    if xs != [] {
      FoldHomomorphism(step, step', h, g, step(s, xs[0]), xs[1..]);
      assert Map(g, xs)[1..] == Map(g, xs[1..]);
    }
  }

  function FlatMap<T, U>(f: T -> seq<U>, xs: seq<T>): seq<U> {
    if xs == [] then [] else f(xs[0]) + FlatMap(f, xs[1..])
  }

  /** If one step of the coarse fold is a run of fine steps, so is the whole fold. */
  lemma {:induction false} FoldRefined<S(!new), T(!new), U>(
      step: (S, T) -> S, fine: (S, U) -> S, f: T -> seq<U>, s: S, xs: seq<T>)
    requires forall s, x :: step(s, x) == Fold(fine, s, f(x))
    ensures Fold(step, s, xs) == Fold(fine, s, FlatMap(f, xs))
    decreases |xs|
  {
    if xs != [] {
      FoldConcat(fine, s, f(xs[0]), FlatMap(f, xs[1..]));
      FoldRefined(step, fine, f, step(s, xs[0]), xs[1..]);
    }
  }

  function XorBits(x: seq<bool>, y: seq<bool>): (z: seq<bool>)
    requires |x| == |y|
    ensures |z| == |x| && forall i :: 0 <= i < |x| ==> z[i] == (x[i] != y[i])
  {
    if x == [] then [] else [x[0] != y[0]] + XorBits(x[1..], y[1..])
  }

  ghost predicate Linear<S(!new)>(step: (S, bool) -> S, add: (S, S) -> S) {
    forall s, t, a, b :: step(add(s, t), a != b) == add(step(s, a), step(t, b))
  }

  lemma {:induction false} FoldLinear<S(!new)>(
      step: (S, bool) -> S, add: (S, S) -> S, s: S, t: S, x: seq<bool>, y: seq<bool>)
    requires |x| == |y| && Linear(step, add)
    ensures Fold(step, add(s, t), XorBits(x, y)) == add(Fold(step, s, x), Fold(step, t, y))
    decreases |x|
  {
    if x != [] {
      FoldLinear(step, add, step(s, x[0]), step(t, y[0]), x[1..], y[1..]);
      var z := XorBits(x, y);
      assert z[0] == (x[0] != y[0]) && z[1..] == XorBits(x[1..], y[1..]);
    }
  }

  /** Feeding only zeros keeps a zero register zero and a nonzero one nonzero. */
  lemma {:induction false} FoldZeros<S(!new)>(step: (S, bool) -> S, zero: S, s: S, bits: seq<bool>)
    requires forall i :: 0 <= i < |bits| ==> !bits[i]
    requires forall s :: step(s, false) == zero <==> s == zero
    ensures Fold(step, s, bits) == zero <==> s == zero
    decreases |bits|
  {
    if bits != [] {
      FoldZeros(step, zero, step(s, bits[0]), bits[1..]);
    }
  }

  /** Whether an odd number of the bits are set. */
  function Odd(bits: seq<bool>): bool {
    if bits == [] then false else bits[0] != Odd(bits[1..])
  }

  lemma {:induction false} FoldParity<S(!new)>(step: (S, bool) -> S, odd: S -> bool, s: S, bits: seq<bool>)
    requires forall s, b :: odd(step(s, b)) == (odd(s) != b)
    ensures odd(Fold(step, s, bits)) == (odd(s) != Odd(bits))
    decreases |bits|
  {
    if bits != [] {
      FoldParity(step, odd, step(s, bits[0]), bits[1..]);
    }
  }

  /** A register started at zero ends nonzero if only the bits in [p, q) can be set
      and they alone leave it nonzero. */
  lemma FoldBurst<S(!new)>(step: (S, bool) -> S, zero: S, e: seq<bool>, p: nat, q: nat)
    requires p <= q <= |e|
    requires forall i :: 0 <= i < |e| && e[i] ==> p <= i < q
    requires forall s :: step(s, false) == zero <==> s == zero
    requires Fold(step, zero, e[p..q]) != zero
    ensures Fold(step, zero, e) != zero
  {
    assert e == e[..p] + (e[p..q] + e[q..]);
    FoldConcat(step, zero, e[..p], e[p..q] + e[q..]);
    FoldZeros(step, zero, zero, e[..p]);
    FoldConcat(step, zero, e[p..q], e[q..]);
    FoldZeros(step, zero, Fold(step, zero, e[p..q]), e[q..]);
  }
}
