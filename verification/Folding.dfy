/** Repeated and sequential application, over any state type. */
module Folding {

  function Iterate<S>(f: S -> S, c: S, n: nat): S {
    if n == 0 then c else Iterate(f, f(c), n - 1)
  }

  function Fold<S, A>(xs: seq<A>, c: S, step: (S, A) -> S): S {
    if xs == [] then c else Fold(xs[1..], step(c, xs[0]), step)
  }

  /** The first n outputs of a shift register. */
  function Outputs<S>(w: S, n: nat, low: S -> bool, half: S -> S): seq<bool> {
    if n == 0 then [] else [low(w)] + Outputs(half(w), n - 1, low, half)
  }

  function Concat<A, B>(xs: seq<A>, f: A -> seq<B>): seq<B> {
    if xs == [] then [] else f(xs[0]) + Concat(xs[1..], f)
  }

  lemma {:induction false} FoldConcat<S, A>(a: seq<A>, b: seq<A>, c: S, step: (S, A) -> S)
    ensures Fold(a + b, c, step) == Fold(b, Fold(a, c, step), step)
  {
    if a == [] {
      assert a + b == b;
    } else {
      assert (a + b)[1..] == a[1..] + b;
      FoldConcat(a[1..], b, step(c, a[0]), step);
    }
  }

  lemma {:induction false} FoldPieces<S(!new), A(!new), B>(xs: seq<A>, c: S, pieces: A -> seq<B>, small: (S, B) -> S,
                                        big: (S, A) -> S)
    requires forall c, x :: Fold(pieces(x), c, small) == big(c, x)
    ensures Fold(Concat(xs, pieces), c, small) == Fold(xs, c, big)
  {
    if xs != [] {
      FoldConcat(pieces(xs[0]), Concat(xs[1..], pieces), c, small);
      FoldPieces(xs[1..], big(c, xs[0]), pieces, small, big);
    }
  }

  lemma {:induction false} FoldInjective<S(!new), A(!new)>(xs: seq<A>, c: S, d: S, step: (S, A) -> S)
    requires forall c, d, x :: step(c, x) == step(d, x) ==> c == d
    requires Fold(xs, c, step) == Fold(xs, d, step)
    ensures c == d
  {
    if xs != [] {
      FoldInjective(xs[1..], step(c, xs[0]), step(d, xs[0]), step);
    }
  }

  lemma {:induction false} IterateInjective<S(!new)>(f: S -> S, a: S, b: S, n: nat)
    requires forall a, b :: f(a) == f(b) ==> a == b
    requires Iterate(f, a, n) == Iterate(f, b, n)
    ensures a == b
  {
    if n > 0 {
      IterateInjective(f, f(a), f(b), n - 1);
    }
  }

  lemma {:induction false} IterateLinear<S(!new)>(f: S -> S, xor: (S, S) -> S, a: S, b: S, n: nat)
    requires forall a, b :: f(xor(a, b)) == xor(f(a), f(b))
    ensures Iterate(f, xor(a, b), n) == xor(Iterate(f, a, n), Iterate(f, b, n))
  {
    if n > 0 {
      IterateLinear(f, xor, f(a), f(b), n - 1);
    }
  }

  /** Feeding the bits of w one at a time, or xoring w in and stepping, comes to the same. */
  lemma {:induction false} FeedBits<S(!new)>(c: S, w: S, n: nat, low: S -> bool, half: S -> S,
                                             divide: (S, bool) -> S, shift: S -> S, xor: (S, S) -> S)
    requires forall c, w :: xor(divide(c, low(w)), half(w)) == shift(xor(c, w))
    ensures xor(Fold(Outputs(w, n, low, half), c, divide), Iterate(half, w, n)) == Iterate(shift, xor(c, w), n)
  {
    if n > 0 {
      assert Outputs(w, n, low, half)[1..] == Outputs(half(w), n - 1, low, half);
      FeedBits(divide(c, low(w)), half(w), n - 1, low, half, divide, shift, xor);
    }
  }

  // ---- windows of four elements ----

  /** c with four elements placed in it by `at` and combined by `xor`. */
  function WithWord<S, A>(c: S, w: seq<A>, xor: (S, S) -> S, at: (A, int) -> S): S
    requires |w| == 4
  {
    xor(xor(xor(xor(c, at(w[0], 0)), at(w[1], 1)), at(w[2], 2)), at(w[3], 3))
  }

  lemma FoldOfFour<S, A>(c: S, w: seq<A>, step: (S, A) -> S)
    requires |w| == 4
    ensures Fold(w, c, step) == step(step(step(step(c, w[0]), w[1]), w[2]), w[3])
  {
    assert w == [w[0]] + ([w[1]] + ([w[2]] + [w[3]]));
    FoldConcat([w[0]], [w[1]] + ([w[2]] + [w[3]]), c, step);
    FoldConcat([w[1]], [w[2]] + [w[3]], step(c, w[0]), step);
    FoldConcat([w[2]], [w[3]], step(step(c, w[0]), w[1]), step);
  }

  /** When an element that enters one move later enters one place higher, four steps are four moves
   *  of the state with all four elements already in place. */
  lemma FourSteps<S(!new), A(!new)>(c: S, w: seq<A>, step: (S, A) -> S, move: S -> S, xor: (S, S) -> S, at: (A,
                    int) -> S)
    requires |w| == 4
    requires forall c, a :: step(c, a) == move(xor(c, at(a, 0)))
    requires forall c, a, k: int, j: int :: 0 < k < 4 && j == k - 1 ==> xor(move(c), at(a, j)) == move(xor(c, at(a, k)))
    ensures Fold(w, c, step) == move(move(move(move(WithWord(c, w, xor, at)))))
  {
    FoldOfFour(c, w, step);
    var x0 := xor(c, at(w[0], 0));
    var x1 := xor(x0, at(w[1], 1));
    var x2 := xor(x1, at(w[2], 2));
    assert xor(move(x0), at(w[1], 0)) == move(x1);
    assert xor(move(move(x1)), at(w[2], 0)) == move(xor(move(x1), at(w[2], 1))) == move(move(x2));
    assert xor(move(move(move(x2))), at(w[3], 0)) == move(xor(move(move(x2)), at(w[3], 1)));
    assert xor(move(move(x2)), at(w[3], 1)) == move(xor(move(x2), at(w[3], 2)));
    assert xor(move(x2), at(w[3], 2)) == move(xor(x2, at(w[3], 3)));
  }

  /** When the places are independent, the word determines the elements placed in it. */
  lemma WordInjective<S(!new), A(!new)>(c: S, w: seq<A>, v: seq<A>, xor: (S, S) -> S, at: (A, int) -> S,
                                        read: (S, int) -> A, plus: (A, A) -> A, zero: A)
    requires |w| == |v| == 4
    requires forall a, b, k | 0 <= k < 4 :: read(xor(a, b), k) == plus(read(a, k), read(b, k))
    requires forall b, j, k | 0 <= j < 4 && 0 <= k < 4 :: read(at(b, j), k) == if j == k then b else zero
    requires forall a :: plus(a, zero) == a
    requires forall c, a, b :: plus(c, a) == plus(c, b) ==> a == b
    requires WithWord(c, w, xor, at) == WithWord(c, v, xor, at)
    ensures w == v
  {
    forall k | 0 <= k < 4 ensures w[k] == v[k] {
      assert read(WithWord(c, w, xor, at), k) == plus(read(c, k), w[k]);
      assert read(WithWord(c, v, xor, at), k) == plus(read(c, k), v[k]);
    }
  }

  ghost predicate Injective<S(!new), A(!new)>(step: (S, A) -> S) {
    forall c, d, x :: step(c, x) == step(d, x) ==> c == d
  }

  ghost predicate WindowInjective<S(!new), A(!new)>(step: (S, A) -> S) {
    forall c, w, v :: |w| == |v| == 4 && Fold(w, c, step) == Fold(v, c, step) ==> w == v
  }

  /** a and b agree outside the four positions from i on. */
  predicate DifferInWindow<A(==)>(a: seq<A>, b: seq<A>, i: nat) {
    |a| == |b| && i <= |a| && a[..i] == b[..i] && (i + 4 <= |a| ==> a[i + 4..] == b[i + 4..])
  }

  lemma FoldThree<S, A>(a: seq<A>, i: nat, c: S, step: (S, A) -> S)
    requires i + 4 <= |a|
    ensures Fold(a, c, step) == Fold(a[i + 4..], Fold(a[i..i + 4], Fold(a[..i], c, step), step), step)
  {
    assert a == a[..i] + (a[i..i + 4] + a[i + 4..]);
    FoldConcat(a[..i], a[i..i + 4] + a[i + 4..], c, step);
    FoldConcat(a[i..i + 4], a[i + 4..], Fold(a[..i], c, step), step);
  }

  lemma WholeWindowDetected<S(!new), A(!new)>(a: seq<A>, b: seq<A>, i: nat, c: S, step: (S, A) -> S)
    requires Injective(step) && WindowInjective(step)
    requires DifferInWindow(a, b, i) && i + 4 <= |a|
    requires Fold(a, c, step) == Fold(b, c, step)
    ensures a == b
  {
    var front, back := a[..i], a[i + 4..];
    var w, v := a[i..i + 4], b[i..i + 4];
    FoldThree(a, i, c, step);
    FoldThree(b, i, c, step);
    var r := Fold(front, c, step);
    FoldInjective(back, Fold(w, r, step), Fold(v, r, step), step);
    assert w == v;
    assert a == front + w + back;
    assert b == front + v + back;
  }

  /** A window that runs past the end is completed with equal padding. */
  lemma WindowDetected<S(!new), A(!new)>(a: seq<A>, b: seq<A>, i: nat, c: S, step: (S, A) -> S, padding: A)
    requires Injective(step) && WindowInjective(step)
    requires DifferInWindow(a, b, i)
    requires Fold(a, c, step) == Fold(b, c, step)
    ensures a == b
  {
    var pad := [padding, padding, padding, padding];
    FoldConcat(a, pad, c, step);
    FoldConcat(b, pad, c, step);
    var p, q := a + pad, b + pad;
    assert p[..i] == a[..i] && q[..i] == b[..i];
    forall k | i + 4 <= k < |p| ensures p[k] == q[k] {
      if k < |a| {
        assert a[i + 4..][k - i - 4] == b[i + 4..][k - i - 4];
      }
    }
    assert p[i + 4..] == q[i + 4..];
    WholeWindowDetected(p, q, i, c, step);
    assert a == p[..|a|] && b == q[..|b|];
  }
}
