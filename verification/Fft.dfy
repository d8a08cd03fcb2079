/** Powers of two, base-two logarithms and bit reversal of machine words. */
module Bits {

  const USIZE_BITS: nat := 64

  function Pow2(e: nat): (p: nat)
    ensures p >= 1
  {
    if e == 0 then 1 else 2 * Pow2(e - 1)
  }

  /** `usize::ilog2` */
  function Log2(n: nat): (l: nat)
    requires n >= 1
    ensures Pow2(l) <= n < Pow2(l + 1)
  {
    if n == 1 then 0 else 1 + Log2(n / 2)
  }

  /** `usize::is_power_of_two` */
  predicate IsPowerOfTwo(n: nat) {
    n >= 1 && n == Pow2(Log2(n))
  }

  lemma {:induction false} Pow2Monotone(d: nat, e: nat)
    requires d <= e
    ensures Pow2(d) <= Pow2(e)
  {
    if d < e {
      Pow2Monotone(d, e - 1);
    }
  }

  lemma Log2Unique(n: nat, l: nat)
    requires Pow2(l) <= n < Pow2(l + 1)
    ensures Log2(n) == l
  {
    hide Log2;
    var k := Log2(n);
    if k < l {
      Pow2Monotone(k + 1, l);
    } else if l < k {
      Pow2Monotone(l + 1, k);
    }
  }

  lemma Log2OfPow2(e: nat)
    ensures Log2(Pow2(e)) == e
    ensures IsPowerOfTwo(Pow2(e))
  {
    hide Log2;
    assert Pow2(e + 1) == 2 * Pow2(e);
    Log2Unique(Pow2(e), e);
  }

  lemma {:induction false} Pow2Add(d: nat, e: nat)
    ensures Pow2(d + e) == Pow2(d) * Pow2(e)
  {
    if d > 0 {
      Pow2Add(d - 1, e);
      assert Pow2(d) * Pow2(e) == 2 * (Pow2(d - 1) * Pow2(e));
    }
  }

  /** x >> k */
  function ShiftRight(x: nat, k: nat): nat {
    if k == 0 then x else ShiftRight(x / 2, k - 1)
  }

  /** The low `width` bits of `x` in reverse order; `usize::reverse_bits` is width 64. */
  function ReverseBits(x: nat, width: nat): (r: nat)
    ensures r < Pow2(width)
  {
    if width == 0 then 0 else (x % 2) * Pow2(width - 1) + ReverseBits(x / 2, width - 1)
  }

  /** Reversing sends the top bit to the bottom. */
  lemma {:induction false} ReverseTop(x: nat, l: nat)
    requires l >= 1 && x < Pow2(l - 1)
    ensures ReverseBits(x, l) == 2 * ReverseBits(x, l - 1)
    ensures ReverseBits(x + Pow2(l - 1), l) == 2 * ReverseBits(x, l - 1) + 1
  {
    if l == 1 {
      assert ReverseBits(0, 0) == 0 && Pow2(0) == 1;
      assert ReverseBits(0, 1) == 0 && ReverseBits(1, 1) == 1;
    } else {
      var h, q := Pow2(l - 1), Pow2(l - 2);
      assert h == 2 * q;
      ReverseUnfold(x, l);
      ReverseUnfold(x, l - 1);
      ReverseUnfold(x + h, l);
      hide ReverseBits, Pow2;
      assert (x + h) / 2 == x / 2 + q && (x + h) % 2 == x % 2;
      ReverseTop(x / 2, l - 1);
    }
  }

  /** The recursion of `ReverseBits`, with the low bit as a case distinction. */
  lemma ReverseUnfold(x: nat, l: nat)
    requires l >= 1
    ensures ReverseBits(x, l) == (if x % 2 == 1 then Pow2(l - 1) else 0) + ReverseBits(x / 2, l - 1)
  {}

  /** Reversing in a wider word and shifting back down is reversing in the narrow one. */
  lemma {:induction false} ReverseWide(x: nat, l: nat, k: nat)
    requires x < Pow2(l)
    ensures ShiftRight(ReverseBits(x, l + k), k) == ReverseBits(x, l)
  {
    if k > 0 {
      Pow2Monotone(l, l + k - 1);
      ReverseTop(x, l + k);
      hide ReverseBits, Pow2;
      ReverseWide(x, l, k - 1);
    }
  }

  lemma {:induction false} ReverseInvolutive(x: nat, l: nat)
    requires x < Pow2(l)
    ensures ReverseBits(ReverseBits(x, l), l) == x
  {
    if l > 0 {
      assert x / 2 < Pow2(l - 1);
      ReverseUnfold(x, l);
      hide ReverseBits, Pow2;
      ReverseInvolutive(x / 2, l - 1);
      ReverseTop(ReverseBits(x / 2, l - 1), l);
    }
  }
}

/** The radix-2 Cooley-Tukey transform of `zkml/src/fft.rs`. */
module Fft {
  import opened Wrappers
  import opened Bits
  import opened Arithmetic
  import opened Field
  import opened Sums

  // ---------------------------------------------------------------- the discrete Fourier transform

  /** sum over t < m of v[t] * w^(t j) */
  function DftSum(v: seq<F>, w: F, j: nat, m: nat): F
    requires m <= |v|
  {
    if m == 0 then ZERO else Add(DftSum(v, w, j, m - 1), Mul(v[m - 1], Pow(w, (m - 1) * j)))
  }

  /** The transform of `v` at the powers of `w`, by its defining sum. */
  function Dft(v: seq<F>, w: F): (r: seq<F>)
    ensures |r| == |v|
  {
    seq(|v|, j requires 0 <= j => DftSum(v, w, j, |v|))
  }

  // ---------------------------------------------------------------- polynomials

  /** v as a polynomial, evaluated at x. */
  function Poly(v: seq<F>, x: F): F {
    if v == [] then ZERO else Add(v[0], Mul(x, Poly(v[1..], x)))
  }

  lemma {:induction false} PolySnoc(v: seq<F>, a: F, x: F)
    ensures Poly(v + [a], x) == Add(Poly(v, x), Mul(a, Pow(x, |v|)))
  {
    hide Add, Mul;
    if v == [] {
      assert (v + [a])[1..] == [];
      assert Poly(v + [a], x) == Add(a, Mul(x, ZERO));
      MulZero(x);
      AddZero(a);
      MulOne(a);
    } else {
      var t := v[1..];
      assert (v + [a])[1..] == t + [a];
      PolySnoc(t, a, x);
      var p, q := Poly(t, x), Pow(x, |t|);
      calc {
        Poly(v + [a], x);
        Add(v[0], Mul(x, Add(p, Mul(a, q))));
        { Distrib(x, p, Mul(a, q)); }
        Add(v[0], Add(Mul(x, p), Mul(x, Mul(a, q))));
        { AddAssoc(v[0], Mul(x, p), Mul(x, Mul(a, q))); }
        Add(Poly(v, x), Mul(x, Mul(a, q)));
        { MulAssoc(x, a, q); MulComm(x, a); MulAssoc(a, x, q); }
        Add(Poly(v, x), Mul(a, Mul(x, q)));
      }
    }
  }

  lemma {:induction false} DftSumIsPoly(v: seq<F>, w: F, j: nat, m: nat)
    requires m <= |v|
    ensures DftSum(v, w, j, m) == Poly(v[..m], Pow(w, j))
  {
    hide Add, Mul;
    if m > 0 {
      DftSumIsPoly(v, w, j, m - 1);
      assert v[..m] == v[..m - 1] + [v[m - 1]];
      PolySnoc(v[..m - 1], v[m - 1], Pow(w, j));
      PowMul(w, j, m - 1);
      assert j * (m - 1) == (m - 1) * j;
    }
  }

  lemma DftAt(v: seq<F>, w: F, j: nat)
    requires j < |v|
    ensures Dft(v, w)[j] == Poly(v, Pow(w, j))
  {
    DftSumIsPoly(v, w, j, |v|);
    assert v[..|v|] == v;
  }

  // ---------------------------------------------------------------- decimation in time

  function Evens(s: seq<F>): (r: seq<F>)
    ensures |r| == |s| / 2
    ensures forall i :: 0 <= i < |r| ==> r[i] == s[2 * i]
  {
    seq(|s| / 2, i requires 0 <= i < |s| / 2 => s[2 * i])
  }

  function Odds(s: seq<F>): (r: seq<F>)
    ensures |r| == |s| / 2
    ensures forall i :: 0 <= i < |r| ==> r[i] == s[2 * i + 1]
  {
    seq(|s| / 2, i requires 0 <= i < |s| / 2 => s[2 * i + 1])
  }

  /** s(x) = E(x^2) + x O(x^2) */
  lemma {:induction false} PolyEvenOdd(s: seq<F>, x: F)
    requires |s| % 2 == 0
    ensures Poly(s, x) == Add(Poly(Evens(s), Mul(x, x)), Mul(x, Poly(Odds(s), Mul(x, x))))
  {
    hide Add, Mul, Evens, Odds;
    if s == [] {
      MulZero(x);
      AddZero(ZERO);
    } else {
      var t := s[2..];
      PolyEvenOdd(t, x);
      assert Evens(s)[1..] == Evens(t);
      assert Odds(s)[1..] == Odds(t);
      var e, o, y := Poly(Evens(t), Mul(x, x)), Poly(Odds(t), Mul(x, x)), Mul(x, x);
      var a, b := s[0], s[1];
      assert s[1..][1..] == t;
      assert Poly(s[1..], x) == Add(b, Mul(x, Poly(t, x)));
      calc {
        Poly(s, x);
        Add(a, Mul(x, Add(b, Mul(x, Add(e, Mul(x, o))))));
        { Distrib(x, b, Mul(x, Add(e, Mul(x, o)))); MulAssoc(x, x, Add(e, Mul(x, o))); }
        Add(a, Add(Mul(x, b), Mul(y, Add(e, Mul(x, o)))));
        { Distrib(y, e, Mul(x, o)); MulAssoc(y, x, o); MulComm(y, x); MulAssoc(x, y, o); }
        Add(a, Add(Mul(x, b), Add(Mul(y, e), Mul(x, Mul(y, o)))));
        { AddAssoc(a, Mul(x, b), Add(Mul(y, e), Mul(x, Mul(y, o)))); }
        Add(Add(a, Mul(x, b)), Add(Mul(y, e), Mul(x, Mul(y, o))));
        { AddSwap(a, Mul(x, b), Mul(y, e), Mul(x, Mul(y, o))); }
        Add(Add(a, Mul(y, e)), Add(Mul(x, b), Mul(x, Mul(y, o))));
        { Distrib(x, b, Mul(y, o)); }
        Add(Add(a, Mul(y, e)), Mul(x, Add(b, Mul(y, o))));
      }
    }
  }

  /** Entry k of a chunk of size 2h after its butterflies: (u, l) becomes (u + r^k l, u - r^k l). */
  function ButterflyAt(c: seq<F>, r: F, h: nat, k: nat): F
    requires |c| == 2 * h && k < |c|
  {
    if k < h then Add(c[k], Mul(c[k + h], Pow(r, k)))
    else Sub(c[k - h], Mul(c[k], Pow(r, k - h)))
  }

  function Butterfly(c: seq<F>, r: F): (d: seq<F>)
    requires |c| % 2 == 0
    ensures |d| == |c|
  {
    seq(|c|, k requires 0 <= k < |c| => ButterflyAt(c, r, |c| / 2, k))
  }

  lemma SquarePow(w: F, k: nat)
    ensures Pow(Mul(w, w), k) == Mul(Pow(w, k), Pow(w, k))
    ensures Pow(Mul(w, w), k) == Pow(w, 2 * k)
  {
    PowOfProduct(w, w, k);
    PowAdd(w, k, k);
  }

  lemma NegIsTimesMinusOne(a: F)
    ensures Mul(Neg(ONE), a) == Neg(a) && Mul(a, Neg(ONE)) == Neg(a)
    ensures Mul(Neg(a), Neg(a)) == Mul(a, a)
  {
    hide Mul, Neg;
    MulNeg(ONE, a);
    MulOne(a);
    MulComm(a, Neg(ONE));
    MulNeg(a, a);
    MulNeg(a, Neg(a));
    NegNeg(Mul(a, a));
  }

  lemma NegNeg(a: F)
    ensures Neg(Neg(a)) == a
  {
    hide Add, Neg;
    AddNeg(a);
    AddNeg(Neg(a));
    AddCancel(Neg(a), Neg(Neg(a)), a);
  }

  /** The half-turn: w^(k + h) = -w^k when w^h = -1. */
  lemma HalfTurn(w: F, h: nat, k: nat)
    requires Pow(w, h) == Neg(ONE)
    ensures Pow(w, k + h) == Neg(Pow(w, k))
    ensures Pow(Mul(w, w), k + h) == Pow(Mul(w, w), k)
  {
    hide Mul, Neg;
    PowAdd(w, k, h);
    NegIsTimesMinusOne(Pow(w, k));
    SquarePow(w, k);
    SquarePow(w, k + h);
  }

  lemma CombineAt(s: seq<F>, w: F, c: seq<F>, h: nat, k: nat)
    requires |s| == 2 * h && Pow(w, h) == Neg(ONE) && k < h
    requires c == Dft(Evens(s), Mul(w, w)) + Dft(Odds(s), Mul(w, w))
    ensures ButterflyAt(c, w, h, k) == Dft(s, w)[k]
    ensures ButterflyAt(c, w, h, k + h) == Dft(s, w)[k + h]
  {
    hide Add, Mul, Neg, Dft, Evens, Odds, Pow, Poly;
    var x, y := Pow(w, k), Mul(w, w);
    var e, o := Poly(Evens(s), Pow(y, k)), Poly(Odds(s), Pow(y, k));
    DftAt(Evens(s), y, k);
    DftAt(Odds(s), y, k);
    DftAt(s, w, k);
    DftAt(s, w, k + h);
    assert c[k] == e && c[k + h] == o;
    SquarePow(w, k);
    PolyEvenOdd(s, x);
    MulComm(x, o);
    HalfTurn(w, h, k);
    NegIsTimesMinusOne(x);
    PolyEvenOdd(s, Neg(x));
    MulNeg(x, o);
  }

  /** Butterflies recombine the transforms of the even and odd halves. */
  lemma CombineHalves(s: seq<F>, w: F)
    requires |s| % 2 == 0 && Pow(w, |s| / 2) == Neg(ONE)
    ensures Butterfly(Dft(Evens(s), Mul(w, w)) + Dft(Odds(s), Mul(w, w)), w) == Dft(s, w)
  {
    hide Add, Mul, Neg, Dft, Evens, Odds, Pow, ButterflyAt;
    var h, y := |s| / 2, Mul(w, w);
    var c := Dft(Evens(s), y) + Dft(Odds(s), y);
    forall k | 0 <= k < |s|
      ensures Butterfly(c, w)[k] == Dft(s, w)[k]
    {
      CombineAt(s, w, c, h, if k < h then k else k - h);
    }
  }

  // ---------------------------------------------------------------- stages

  /** What the array holds when its chunks of size |s| / 2^d are transformed: the even half
      and the odd half, each at depth d - 1, with the root squared. */
  function StageOf(s: seq<F>, w: F, d: nat, l: nat): (r: seq<F>)
    requires d <= l && |s| == Pow2(l)
    ensures |r| == |s|
    decreases d
  {
    if d == 0 then Dft(s, w)
    else StageOf(Evens(s), Mul(w, w), d - 1, l - 1) + StageOf(Odds(s), Mul(w, w), d - 1, l - 1)
  }

  /** The butterflies of every chunk of size i, chunk by chunk. */
  function Butterflies(a: seq<F>, i: nat, r: F): (b: seq<F>)
    requires i > 0 && i % 2 == 0
    ensures |b| <= |a|
  {
    if |a| < i then [] else Butterfly(a[..i], r) + Butterflies(a[i..], i, r)
  }

  /** m chunks of size i. */
  ghost predicate Chunks(len: int, m: int, i: int) {
    m >= 0 && len == m * i
  }

  lemma ChunksPeel(len: int, m: int, i: int)
    requires i > 0 && Chunks(len, m, i)
    ensures len == 0 <==> m == 0
    ensures len > 0 ==> len >= i && Chunks(len - i, m - 1, i)
  {
    if m > 0 {
      assert m * i == (m - 1) * i + i;
      assert (m - 1) * i >= 0;
    }
  }

  lemma {:induction false} ButterfliesConcat(a: seq<F>, b: seq<F>, i: nat, r: F, m: nat)
    requires i > 0 && i % 2 == 0 && Chunks(|a|, m, i)
    ensures Butterflies(a + b, i, r) == Butterflies(a, i, r) + Butterflies(b, i, r)
    ensures |Butterflies(a, i, r)| == |a|
    decreases m
  {
    hide Butterfly, Chunks;
    ChunksPeel(|a|, m, i);
    if m == 0 {
      assert a + b == b;
    } else {
      ButterfliesConcat(a[i..], b, i, r, m - 1);
      assert (a + b)[..i] == a[..i];
      assert (a + b)[i..] == a[i..] + b;
    }
  }

  lemma ButterfliesOne(a: seq<F>, i: nat, r: F)
    requires i > 0 && i % 2 == 0 && |a| == i
    ensures Butterflies(a, i, r) == Butterfly(a, r)
  {
    hide Butterfly;
    assert a[..i] == a;
    assert Butterflies(a[i..], i, r) == [];
  }

  /** One stage of the loop turns the depth-d array into the depth-(d - 1) array. */
  lemma {:induction false} StageStep(s: seq<F>, w: F, d: nat, l: nat)
    requires 1 <= d <= l && |s| == Pow2(l) && Pow(w, Pow2(l - 1)) == Neg(ONE)
    ensures Butterflies(StageOf(s, w, d, l), Pow2(l - d + 1), Pow(w, Pow2(d - 1))) == StageOf(s, w, d - 1, l)
    decreases d
  {
    hide Mul, Neg, Pow, Butterfly, Butterflies, Dft, Evens, Odds;
    var y := Mul(w, w);
    var e, o := StageOf(Evens(s), y, d - 1, l - 1), StageOf(Odds(s), y, d - 1, l - 1);
    var i := Pow2(l - d + 1);
    if d == 1 {
      CombineHalves(s, w);
      Pow1(w);
      ButterfliesOne(e + o, i, w);
    } else {
      SquarePow(w, Pow2(l - 2));
      SquarePow(w, Pow2(d - 2));
      StageStep(Evens(s), y, d - 1, l - 1);
      StageStep(Odds(s), y, d - 1, l - 1);
      Pow2Add(d - 2, l - d + 1);
      ButterfliesConcat(e, o, i, Pow(w, Pow2(d - 1)), Pow2(d - 2));
    }
  }

  // ---------------------------------------------------------------- bit reversal

  /** `bitreverse_permutation(length)` at position i: reverse the whole word, shift back down. */
  function BitreversePermutation(length: nat, i: nat): nat
    requires 1 <= length && Log2(length) <= USIZE_BITS
  {
    ShiftRight(ReverseBits(i, USIZE_BITS), USIZE_BITS - Log2(length))
  }

  lemma PermutationReversesIndex(l: nat, i: nat)
    requires l <= USIZE_BITS && i < Pow2(l)
    ensures Log2(Pow2(l)) == l
    ensures BitreversePermutation(Pow2(l), i) == ReverseBits(i, l)
  {
    hide ReverseBits, ShiftRight, Log2, Pow2;
    Log2OfPow2(l);
    ReverseWide(i, l, USIZE_BITS - l);
  }

  function BitReversed(s: seq<F>, l: nat): (r: seq<F>)
    requires |s| == Pow2(l)
    ensures |r| == |s|
  {
    seq(|s|, i requires 0 <= i < |s| => s[ReverseBits(i, l)])
  }

  lemma BitReversedSplits(s: seq<F>, l: nat)
    requires l >= 1 && |s| == Pow2(l)
    ensures BitReversed(s, l) == BitReversed(Evens(s), l - 1) + BitReversed(Odds(s), l - 1)
  {
    hide BitReversed, Evens, Odds, ReverseBits;
    var e, o := BitReversed(Evens(s), l - 1), BitReversed(Odds(s), l - 1);
    forall i | 0 <= i < |s|
      ensures BitReversed(s, l)[i] == (e + o)[i]
    {
      BitReversedSplitsAt(s, l, i);
    }
  }

  lemma BitReversedSplitsAt(s: seq<F>, l: nat, i: nat)
    requires l >= 1 && |s| == Pow2(l) && i < |s|
    ensures i < Pow2(l - 1) ==> BitReversed(s, l)[i] == BitReversed(Evens(s), l - 1)[i]
    ensures i >= Pow2(l - 1) ==> BitReversed(s, l)[i] == BitReversed(Odds(s), l - 1)[i - Pow2(l - 1)]
  {
    var h := Pow2(l - 1);
    hide ReverseBits;
    var j := if i < h then i else i - h;
    ReverseTop(j, l);
    var r := ReverseBits(j, l - 1);
    assert BitReversed(s, l)[i] == s[ReverseBits(i, l)];
    assert Evens(s)[r] == s[2 * r] && Odds(s)[r] == s[2 * r + 1];
  }

  /** The loop starts at full depth: single-element chunks in bit-reversed order. */
  lemma {:induction false} DeepestStage(s: seq<F>, w: F, l: nat)
    requires |s| == Pow2(l)
    ensures StageOf(s, w, l, l) == BitReversed(s, l)
    decreases l
  {
    hide Add, Mul, Evens, Odds;
    if l == 0 {
      DftAt(s, w, 0);
      assert s[1..] == [];
      assert Poly(s, Pow(w, 0)) == Add(s[0], Mul(Pow(w, 0), ZERO));
      MulZero(Pow(w, 0));
      AddZero(s[0]);
    } else {
      DeepestStage(Evens(s), Mul(w, w), l - 1);
      DeepestStage(Odds(s), Mul(w, w), l - 1);
      BitReversedSplits(s, l);
    }
  }

  // ---------------------------------------------------------------- inversion

  /** Entry j multiplied by w^j. */
  function Twist(s: seq<F>, w: F): (r: seq<F>)
    ensures |r| == |s|
  {
    seq(|s|, j requires 0 <= j < |s| => Mul(Pow(w, j), s[j]))
  }

  lemma {:induction false} PolyPlus(a: seq<F>, b: seq<F>, x: F)
    requires |a| == |b|
    ensures Poly(Plus(a, b), x) == Add(Poly(a, x), Poly(b, x))
  {
    hide Add, Mul;
    if a == [] {
      AddZero(ZERO);
    } else {
      assert Plus(a, b)[1..] == Plus(a[1..], b[1..]);
      PolyPlus(a[1..], b[1..], x);
      var p, q := Poly(a[1..], x), Poly(b[1..], x);
      Distrib(x, p, q);
      AddSwap(a[0], b[0], Mul(x, p), Mul(x, q));
    }
  }

  lemma {:induction false} PolyScale(c: F, s: seq<F>, x: F)
    ensures Poly(Scale(c, s), x) == Mul(c, Poly(s, x))
  {
    hide Add, Mul;
    if s == [] {
      MulZero(c);
    } else {
      assert Scale(c, s)[1..] == Scale(c, s[1..]);
      PolyScale(c, s[1..], x);
      var p := Poly(s[1..], x);
      Distrib(c, s[0], Mul(x, p));
      MulAssoc(c, x, p);
      MulComm(c, x);
      MulAssoc(x, c, p);
    }
  }

  lemma {:induction false} PolyConcat(a: seq<F>, b: seq<F>, x: F)
    ensures Poly(a + b, x) == Add(Poly(a, x), Mul(Pow(x, |a|), Poly(b, x)))
  {
    hide Add, Mul;
    var q := Poly(b, x);
    if a == [] {
      assert a + b == b;
      MulOne(q);
      AddZero(q);
    } else {
      assert (a + b)[1..] == a[1..] + b;
      PolyConcat(a[1..], b, x);
      var p, r := Poly(a[1..], x), Mul(Pow(x, |a| - 1), q);
      assert Poly(a + b, x) == Add(a[0], Mul(x, Add(p, r)));
      Distrib(x, p, r);
      AddAssoc(a[0], Mul(x, p), Mul(x, r));
      MulAssoc(x, Pow(x, |a| - 1), q);
    }
  }

  /** Twisting by w undoes an extra factor 1/w in the evaluation point. */
  lemma {:induction false} PolyTwist(s: seq<F>, w: F, v: F, y: F)
    requires Mul(w, v) == ONE
    ensures Poly(Twist(s, w), Mul(v, y)) == Poly(s, y)
  {
    hide Add, Mul;
    if s != [] {
      var t, x := s[1..], Mul(v, y);
      MulOne(s[0]);
      assert Twist(s, w)[1..] == Scale(w, Twist(t, w)) by {
        forall j | 0 <= j < |t|
          ensures Twist(s, w)[1..][j] == Scale(w, Twist(t, w))[j]
        {
          MulAssoc(w, Pow(w, j), t[j]);
        }
      }
      PolyScale(w, Twist(t, w), x);
      PolyTwist(t, w, v, y);
      var p := Poly(t, y);
      assert Poly(Twist(s, w), x) == Add(s[0], Mul(x, Mul(w, p)));
      calc {
        Mul(Mul(v, y), Mul(w, p));
        { MulComm(v, y); MulAssoc(y, v, Mul(w, p)); MulAssoc(v, w, p); MulComm(v, w); }
        Mul(y, Mul(ONE, p));
        { MulOne(p); }
        Mul(y, p);
      }
    }
  }

  /** The two halves of a transform: E + T and E - T with T = Twist(O). */
  lemma DftHalves(s: seq<F>, w: F, h: nat)
    requires |s| == 2 * h && Pow(w, h) == Neg(ONE)
    ensures var e, t := Dft(Evens(s), Mul(w, w)), Twist(Dft(Odds(s), Mul(w, w)), w);
            Dft(s, w) == Plus(e, t) + Plus(e, Scale(Neg(ONE), t))
  {
    hide Add, Mul, Neg, Dft, Evens, Odds, Pow;
    var e, o := Dft(Evens(s), Mul(w, w)), Dft(Odds(s), Mul(w, w));
    var t := Twist(o, w);
    forall k | 0 <= k < |s|
      ensures Dft(s, w)[k] == (Plus(e, t) + Plus(e, Scale(Neg(ONE), t)))[k]
    {
      var j := if k < h then k else k - h;
      CombineAt(s, w, e + o, h, j);
      MulComm(o[j], Pow(w, j));
      NegIsTimesMinusOne(t[j]);
    }
  }

  /** (p + q) + (p - q) == p + p, and (p + q) - (p - q) == q + q. */
  lemma SumAndDifference(p: F, q: F)
    ensures Add(Add(p, q), Add(p, Mul(Neg(ONE), q))) == Add(p, p)
    ensures Add(Add(p, q), Mul(Neg(ONE), Add(p, Mul(Neg(ONE), q)))) == Add(q, q)
  {
    hide Add, Mul, Neg;
    NegIsTimesMinusOne(q);
    NegIsTimesMinusOne(p);
    NegIsTimesMinusOne(Neg(q));
    NegNeg(q);
    Distrib(Neg(ONE), p, Neg(q));
    AddSwap(p, q, p, Neg(q));
    AddNeg(q);
    AddZero(Add(p, p));
    AddComm(p, q);
    AddSwap(q, p, q, Neg(p));
    AddComm(Neg(p), q);
    AddNeg(p);
    AddZero(Add(q, q));
  }

  lemma DoubleFromInt(h: nat, a: F)
    ensures Add(Mul(FromInt(h), a), Mul(FromInt(h), a)) == Mul(FromInt(2 * h), a)
  {
    hide Add, Mul, FromInt;
    FromIntAdd(h, h);
    Distrib(a, FromInt(h), FromInt(h));
  }

  /** 1/w is a root of the same order. */
  lemma InverseRoot(w: F, v: F, h: nat)
    requires Mul(w, v) == ONE && Pow(w, h) == Neg(ONE)
    ensures Pow(v, h) == Neg(ONE)
  {
    hide Mul, Neg, Pow;
    PowOfProduct(w, v, h);
    PowOne(h);
    NegIsTimesMinusOne(Pow(v, h));
    NegNeg(Pow(v, h));
  }

  lemma PowOfMinusOne(k: nat)
    ensures Pow(Neg(ONE), 2 * k) == ONE && Pow(Neg(ONE), 2 * k + 1) == Neg(ONE)
  {
    hide Mul, Neg;
    PowMul(Neg(ONE), 2, k);
    Pow2Is(Neg(ONE));
    NegIsTimesMinusOne(ONE);
    MulOne(ONE);
    PowOne(k);
    assert Pow(Neg(ONE), 2 * k + 1) == Mul(Neg(ONE), Pow(Neg(ONE), 2 * k));
    MulOne(Neg(ONE));
  }

  lemma InvertAt(s: seq<F>, w: F, v: F, h: nat, k: nat)
    requires |s| == 2 * h && k < |s| && Mul(w, v) == ONE && Pow(w, h) == Neg(ONE)
    requires Dft(Dft(Evens(s), Mul(w, w)), Mul(v, v)) == Scale(FromInt(h), Evens(s))
    requires Dft(Dft(Odds(s), Mul(w, w)), Mul(v, v)) == Scale(FromInt(h), Odds(s))
    ensures Dft(Dft(s, w), v)[k] == Mul(FromInt(2 * h), s[k])
  {
    hide Add, Mul, Neg, FromInt, Dft, Evens, Odds, Pow, Poly, Twist, Plus;
    var e, o := Dft(Evens(s), Mul(w, w)), Dft(Odds(s), Mul(w, w));
    var t, x, j := Twist(o, w), Pow(v, k), k / 2;
    var y := Pow(Mul(v, v), j);
    SquarePow(v, j);
    DftAt(Dft(s, w), v, k);
    DftHalves(s, w, h);
    var lo, hi := Plus(e, t), Plus(e, Scale(Neg(ONE), t));
    PolyConcat(lo, hi, x);
    PolyPlus(e, t, x);
    PolyPlus(e, Scale(Neg(ONE), t), x);
    PolyScale(Neg(ONE), t, x);
    SumAndDifference(Poly(e, x), Poly(t, x));
    InverseRoot(w, v, h);
    PowMul(v, k, h);
    PowMul(v, h, k);
    assert k * h == h * k;
    PowOfMinusOne(j);
    DftAt(e, Mul(v, v), j);
    DftAt(o, Mul(v, v), j);
    DoubleFromInt(h, s[k]);
    if k % 2 == 0 {
      assert k == 2 * j && Evens(s)[j] == s[k];
      MulOne(Add(Poly(e, x), Mul(Neg(ONE), Poly(t, x))));
    } else {
      assert k == 2 * j + 1 && Odds(s)[j] == s[k];
      PowAdd(v, 1, 2 * j);
      Pow1(v);
      PolyTwist(o, w, v, y);
    }
  }

  /** Transforming with w and then with 1/w multiplies by the length. */
  lemma {:induction false} DftInversion(s: seq<F>, w: F, v: F, l: nat)
    requires |s| == Pow2(l) && Mul(w, v) == ONE
    requires l >= 1 ==> Pow(w, Pow2(l - 1)) == Neg(ONE)
    ensures Dft(Dft(s, w), v) == Scale(FromInt(|s|), s)
    decreases l
  {
    hide Add, Mul, Neg, FromInt, Evens, Odds;
    if l == 0 {
      DeepestStage(s, w, 0);
      DeepestStage(s, v, 0);
      assert ReverseBits(0, 0) == 0;
      assert Dft(s, w) == s == Dft(s, v);
      FromIntSmall(ONE);
      MulOne(s[0]);
    } else {
      var h, y, z := Pow2(l - 1), Mul(w, w), Mul(v, v);
      MulSwap(w, v, w, v);
      MulSwap(w, w, v, v);
      MulOne(ONE);
      if l >= 2 {
        SquarePow(w, Pow2(l - 2));
      }
      DftInversion(Evens(s), y, z, l - 1);
      DftInversion(Odds(s), y, z, l - 1);
      forall k | 0 <= k < |s|
        ensures Dft(Dft(s, w), v)[k] == Scale(FromInt(|s|), s)[k]
      {
        InvertAt(s, w, v, h, k);
      }
    }
  }

  // ---------------------------------------------------------------- roots of unity

  /** `PrimeField::get_root_of_unity(2^l)`: a root whose order is exactly 2^l. */
  ghost predicate IsPrimitiveRoot(w: F, l: nat) {
    Pow(w, Pow2(l)) == ONE && (l >= 1 ==> Pow(w, Pow2(l - 1)) != ONE)
  }

  /** In a field the half power of a primitive root is -1, and -1 differs from 1. */
  lemma HalfPowerIsMinusOne(w: F, l: nat)
    requires l >= 1 && IsPrimitiveRoot(w, l)
    ensures Pow(w, Pow2(l - 1)) == Neg(ONE)
    ensures Neg(ONE) != ONE && w != ZERO
  {
    hide Add, Mul, Neg;
    var x := Pow(w, Pow2(l - 1));
    PowMul(w, Pow2(l - 1), 2);
    Pow2Is(x);
    assert Mul(x, x) == ONE;
    var a, b := Add(x, Neg(ONE)), Add(x, ONE);
    assert Mul(a, b) == ZERO by {
      Distrib(a, x, ONE);
      Distrib(x, x, Neg(ONE));
      NegIsTimesMinusOne(x);
      MulOne(a);
      assert Mul(a, b) == Add(Add(ONE, Neg(x)), Add(x, Neg(ONE)));
      AddSwap(ONE, Neg(x), x, Neg(ONE));
      AddComm(ONE, x);
      AddComm(Neg(x), Neg(ONE));
      AddSwap(x, ONE, Neg(ONE), Neg(x));
      AddComm(x, Neg(ONE));
      AddSwap(ONE, x, Neg(ONE), Neg(x));
      AddNeg(ONE);
      AddNeg(x);
      AddZero(ZERO);
      AddComm(Add(ONE, x), Add(Neg(ONE), Neg(x)));
    }
    NoZeroDivisors(a, b);
    SubZeroMeansEqual(x, ONE);
    assert a == Sub(x, ONE);
    assert b == ZERO;
    AddComm(x, ONE);
    AddNeg(ONE);
    AddCancel(ONE, x, Neg(ONE));
    assert Pow(ZERO, Pow2(l)) == Mul(ZERO, Pow(ZERO, Pow2(l) - 1));
    MulZero(Pow(ZERO, Pow2(l) - 1));
  }

  /** A field with a root of order 2^l, l >= 1, has odd characteristic, so lengths are invertible. */
  lemma {:induction false} LengthIsInvertible(l: nat)
    requires Neg(ONE) != ONE
    ensures FromInt(Pow2(l)) != ZERO
  {
    hide Add, Mul, Neg, FromInt;
    FromIntSmall(ONE);
    if l > 0 {
      LengthIsInvertible(l - 1);
      FromIntMul(2, Pow2(l - 1));
      FromIntAdd(1, 1);
      if FromInt(2) == ZERO {
        AddNeg(ONE);
        AddCancel(ONE, ONE, Neg(ONE));
      } else if FromInt(Pow2(l)) == ZERO {
        NoZeroDivisors(FromInt(2), FromInt(Pow2(l - 1)));
      }
    }
  }

  // ---------------------------------------------------------------- the transform as the source computes it

  /** What `fft(v, false)` leaves in the vector. */
  function Forward(v: seq<F>, w: F): seq<F> {
    Dft(v, w)
  }

  /** What `fft(v, true)` leaves in the vector: the transform at 1/w, divided by the length. */
  function Backward(v: seq<F>, w: F): seq<F>
    requires w != ZERO && FromInt(|v|) != ZERO
  {
    Scale(InverseOf(FromInt(|v|)), Dft(v, InverseOf(w)))
  }

  lemma ScaleInverse(c: F, d: F, s: seq<F>)
    requires Mul(c, d) == ONE
    ensures Scale(d, Scale(c, s)) == s
  {
    hide Mul;
    forall i | 0 <= i < |s|
      ensures Scale(d, Scale(c, s))[i] == s[i]
    {
      MulAssoc(d, c, s[i]);
      MulComm(c, d);
      MulOne(s[i]);
    }
  }

  lemma DftScale(c: F, s: seq<F>, w: F)
    ensures Dft(Scale(c, s), w) == Scale(c, Dft(s, w))
  {
    hide Mul, Dft, Poly, Pow;
    forall j | 0 <= j < |s|
      ensures Dft(Scale(c, s), w)[j] == Scale(c, Dft(s, w))[j]
    {
      DftAt(Scale(c, s), w, j);
      DftAt(s, w, j);
      PolyScale(c, s, Pow(w, j));
    }
  }

  /** The inverse transform undoes the forward one and is undone by it, for every vector. */
  lemma RoundTrip(s: seq<F>, w: F, l: nat)
    requires l >= 1 && |s| == Pow2(l) && IsPrimitiveRoot(w, l)
    ensures w != ZERO && FromInt(|s|) != ZERO
    ensures Backward(Forward(s, w), w) == s
    ensures Forward(Backward(s, w), w) == s
  {
    hide Mul, Neg, FromInt, InverseOf, Dft, Scale, Pow;
    HalfPowerIsMinusOne(w, l);
    LengthIsInvertible(l);
    var v, n := InverseOf(w), FromInt(|s|);
    var d := InverseOf(n);
    DftInversion(s, w, v, l);
    ScaleInverse(n, d, s);
    InverseRoot(w, v, Pow2(l - 1));
    MulComm(w, v);
    DftInversion(s, v, w, l);
    DftScale(d, Dft(s, v), w);
  }

  // ---------------------------------------------------------------- the in-place algorithm

  /** `bitreverse`: swap every index with its reversal, once per pair. */
  method Bitreverse<T>(d: array<T>, ghost l: nat)
    requires d.Length == Pow2(l) && l <= USIZE_BITS
    modifies d
    ensures forall i :: 0 <= i < d.Length ==> ReverseBits(i, l) < d.Length && d[i] == old(d[ReverseBits(i, l)])
  {
    var n := d.Length;
    Log2OfPow2(l);
    hide ReverseBits, Log2, Pow2, BitreversePermutation;
    ghost var was := d[..];
    assert Reversing(was, d[..], 0, l);
    hide Reversing;
    for orig := 0 to n
      invariant Reversing(was, d[..], orig, l)
    {
      PermutationReversesIndex(l, orig);
      var reversed := BitreversePermutation(n, orig);
      ReversingStep(was, d[..], orig, l);
      if orig < reversed {
        ghost var now := d[..];
        d[orig], d[reversed] := d[reversed], d[orig];
        assert d[..] == now[orig := now[reversed]][reversed := now[orig]];
      }
    }
    ReversedAll(was, d[..], l);
  }

  /** Entries whose index, or whose reversed index, is below `orig` are in place; the others have not moved. */
  ghost predicate Reversing<T>(was: seq<T>, now: seq<T>, orig: nat, l: nat) {
    && |was| == |now| == Pow2(l)
    && forall i :: 0 <= i < |was| ==>
         ReverseBits(i, l) < |was| && now[i] == if i < orig || ReverseBits(i, l) < orig then was[ReverseBits(i, l)] else was[i]
  }

  lemma ReversingStep<T>(was: seq<T>, now: seq<T>, orig: nat, l: nat)
    requires Reversing(was, now, orig, l) && orig < |was|
    ensures |now| == |was| && ReverseBits(orig, l) < |was|
    ensures var r := ReverseBits(orig, l);
      Reversing(was, if orig < r then now[orig := now[r]][r := now[orig]] else now, orig + 1, l)
  {
    hide ReverseBits, Pow2;
    ReverseInvolutive(orig, l);
    forall i | 0 <= i < |was|
      ensures ReverseBits(i, l) == orig <==> i == ReverseBits(orig, l)
    {
      ReverseInvolutive(i, l);
    }
  }

  lemma ReversedAll<T>(was: seq<T>, now: seq<T>, l: nat)
    requires Reversing(was, now, |was|, l)
    ensures |now| == |was| && forall i :: 0 <= i < |was| ==> ReverseBits(i, l) < |was| && now[i] == was[ReverseBits(i, l)]
  {
    hide ReverseBits;
  }

  datatype FftResult =
    | Done
    | NotPowerOfTwo    // the `ensure!` of line 39
    | NoRootOfUnity    // the field has no root of this order (line 54)
    | IndexOutOfBounds // a one-element vector: `twiddle[1]` panics (line 54)

  /** The table `twiddle[i] == w^i`. */
  method Twiddles(n: nat, w: F) returns (twiddle: array<F>)
    requires n >= 2
    ensures fresh(twiddle) && twiddle.Length == n
    ensures forall i :: 0 <= i < n ==> twiddle[i] == Pow(w, i)
  {
    hide Mul, Pow;
    twiddle := new F[n](_ => ZERO);
    twiddle[0] := ONE;
    twiddle[1] := w;
    PowSmall(w);
    for i := 2 to n
      invariant forall k :: 0 <= k < i ==> twiddle[k] == Pow(w, k)
    {
      twiddle[i] := Mul(twiddle[i - 1], twiddle[1]);
      PowStep(w, i);
    }
  }

  lemma PowSmall(w: F)
    ensures Pow(w, 0) == ONE && Pow(w, 1) == w
  {
    Pow1(w);
  }

  lemma PowStep(w: F, e: nat)
    requires e >= 1
    ensures Pow(w, e) == Mul(Pow(w, e - 1), w)
  {
    hide Mul;
    MulComm(w, Pow(w, e - 1));
  }

  /** The inner loop of one stage, on the chunk v[base..base + i]. */
  method ButterflyChunk(v: array<F>, base: nat, i: nat, twiddle: array<F>, step: nat, ghost w: F)
    requires i % 2 == 0 && base + i <= v.Length && v != twiddle
    requires step >= 1 && Chunks(twiddle.Length, step, i)
    requires forall k :: 0 <= k < twiddle.Length ==> twiddle[k] == Pow(w, k)
    modifies v
    ensures v[base..base + i] == Butterfly(old(v[base..base + i]), Pow(w, step))
    ensures v[..base] == old(v[..base]) && v[base + i..] == old(v[base + i..])
  {
    hide Add, Mul, Neg, Sub, Pow, Chunks;
    var half := i / 2;
    ghost var c := v[base..base + i];
    ghost var r := Pow(w, step);
    ghost var was := v[..];
    hide HalfDone;
    HalfBegins(was, base, half, r);
    for k := 0 to half
      invariant HalfDone(was, v[..], base, half, k, r)
    {
      StepInTable(step, k, i, twiddle.Length);
      PowMul(w, step, k);
      HalfNext(was, v[..], base, half, k, r);
      ghost var now := v[..];
      var u := v[base + k];
      var l := Mul(v[base + k + half], twiddle[step * k]);
      v[base + k] := Add(u, l);
      v[base + k + half] := Sub(u, l);
      ghost var half1: seq<F> := now[base + k := Add(u, l)];
      assert v[..] == half1[base + k + half := Sub(u, l)];
    }
    HalfEnds(was, v[..], base, half, r);
  }

  /** The first k butterflies of the chunk are done, and nothing else has changed. */
  ghost predicate HalfDone(was: seq<F>, now: seq<F>, base: nat, half: nat, k: nat, r: F) {
    && |now| == |was| && base + 2 * half <= |was| && k <= half
    && var c := was[base..base + 2 * half];
      && (forall m :: 0 <= m < |was| && !(base <= m < base + k) && !(base + half <= m < base + half + k) ==> now[m] == was[m])
      && (forall m :: 0 <= m < k ==> now[base + m] == ButterflyAt(c, r, half, m))
      && forall m :: half <= m < half + k ==> now[base + m] == ButterflyAt(c, r, half, m)
  }

  lemma HalfBegins(was: seq<F>, base: nat, half: nat, r: F)
    requires base + 2 * half <= |was|
    ensures HalfDone(was, was, base, half, 0, r)
  {
    hide ButterflyAt;
  }

  lemma HalfNext(was: seq<F>, now: seq<F>, base: nat, half: nat, k: nat, r: F)
    requires HalfDone(was, now, base, half, k, r) && k < half
    ensures |now| == |was| && base + 2 * half <= |was|
    ensures var u, l := now[base + k], Mul(now[base + k + half], Pow(r, k));
      HalfDone(was, now[base + k := Add(u, l)][base + k + half := Sub(u, l)], base, half, k + 1, r)
  {
    hide Add, Mul, Neg, Sub, Pow;
    var c := was[base..base + 2 * half];
    assert now[base + k] == c[k] && now[base + k + half] == c[k + half];
  }

  lemma HalfEnds(was: seq<F>, now: seq<F>, base: nat, half: nat, r: F)
    requires HalfDone(was, now, base, half, half, r)
    ensures now[base..base + 2 * half] == Butterfly(was[base..base + 2 * half], r)
    ensures now[..base] == was[..base] && now[base + 2 * half..] == was[base + 2 * half..]
  {
    hide ButterflyAt;
  }

  lemma StepInTable(step: nat, k: nat, i: nat, len: nat)
    requires k < i && step >= 1 && Chunks(len, step, i)
    ensures 0 <= step * k < len
  {
    assert step * i == step * k + step * (i - k);
    assert step * (i - k) >= 1;
  }

  /** Done so far, then the butterflies still to do, is the whole stage. */
  ghost predicate StageUpTo(was: seq<F>, now: seq<F>, base: nat, i: nat, r: F)
    requires i > 0 && i % 2 == 0
  {
    && base <= |now| == |was|
    && now[base..] == was[base..]
    && Butterflies(was, i, r) == now[..base] + Butterflies(was[base..], i, r)
  }

  /** Doing the chunk at `base` keeps that. */
  lemma StageAdvances(was: seq<F>, before: seq<F>, after: seq<F>, base: nat, i: nat, r: F)
    requires i > 0 && i % 2 == 0 && StageUpTo(was, before, base, i, r)
    requires base + i <= |before| == |after|
    requires after[..base] == before[..base] && after[base + i..] == before[base + i..]
    requires after[base..base + i] == Butterfly(before[base..base + i], r)
    ensures StageUpTo(was, after, base + i, i, r)
  {
    hide Butterfly;
    var rest := was[base..];
    assert Butterflies(rest, i, r) == Butterfly(rest[..i], r) + Butterflies(rest[i..], i, r);
    assert before[base..base + i] == before[base..][..i] == rest[..i];
    assert rest[i..] == was[base + i..] == before[base..][i..] == before[base + i..];
    assert after[..base + i] == before[..base] + Butterfly(rest[..i], r);
  }

  lemma StageEnds(was: seq<F>, now: seq<F>, i: nat, r: F)
    requires i > 0 && i % 2 == 0
    ensures StageUpTo(was, was, 0, i, r)
    ensures StageUpTo(was, now, |was|, i, r) ==> now == Butterflies(was, i, r)
  {
    hide Butterfly;
    assert was[0..] == was;
    assert Butterflies([], i, r) == [];
    if StageUpTo(was, now, |was|, i, r) {
      assert was[|was|..] == [] && now[..|was|] == now;
    }
  }

  /** One pass of the outer loop: the butterflies of every chunk of size i. */
  method Stage(v: array<F>, i: nat, twiddle: array<F>, step: nat, ghost w: F)
    requires i >= 2 && i % 2 == 0 && v != twiddle && step >= 1
    requires v.Length == twiddle.Length && Chunks(v.Length, step, i)
    requires forall k :: 0 <= k < twiddle.Length ==> twiddle[k] == Pow(w, k)
    modifies v
    ensures v[..] == Butterflies(old(v[..]), i, Pow(w, step))
  {
    hide Add, Mul, Neg, Sub, Pow, Butterfly, Butterflies, Chunks, StageUpTo;
    var base := 0;
    ghost var m: int := step;
    ghost var was := v[..];
    ghost var r := Pow(w, step);
    StageEnds(was, was, i, r);
    while base < v.Length
      invariant base <= v.Length == |was| && Chunks(v.Length - base, m, i)
      invariant StageUpTo(was, v[..], base, i, r)
      decreases v.Length - base
    {
      ChunksPeel(v.Length - base, m, i);
      ghost var before := v[..];
      ButterflyChunk(v, base, i, twiddle, step, w);
      StageAdvances(was, before, v[..], base, i, r);
      base, m := base + i, m - 1;
    }
    StageEnds(was, v[..], i, r);
  }

  /** One iteration of the outer loop on the array, as a statement about depths. */
  lemma LoopDepth(i: nat, d: nat, l: nat)
    requires 1 <= d <= l && i == Pow2(l - d + 1)
    ensures 2 <= i <= Pow2(l) && i % 2 == 0 && Pow2(l) / i == Pow2(d - 1) && Chunks(Pow2(l), Pow2(d - 1), i)
  {
    DepthSize(i, d, l);
    hide Pow2, Chunks;
    ChunkCount(Pow2(l), Pow2(d - 1), i);
  }

  lemma DepthSize(i: nat, d: nat, l: nat)
    requires 1 <= d <= l && i == Pow2(l - d + 1)
    ensures i <= Pow2(l) && i >= 2 && i % 2 == 0 && Pow2(l) == Pow2(d - 1) * i
  {
    assert i == 2 * Pow2(l - d);
    hide Pow2;
    Pow2Monotone(l - d + 1, l);
    Pow2Add(d - 1, l - d + 1);
  }

  lemma ChunkCount(n: nat, q: nat, i: nat)
    requires i > 0 && n == q * i
    ensures n / i == q && Chunks(n, q, i)
  {
    QuotientUnique(n, i, q, 0);
  }

  lemma LoopGuard(d: nat, l: nat)
    requires d <= l
    ensures Pow2(l - d + 1) <= Pow2(l) <==> d >= 1
  {
    if d >= 1 {
      Pow2Monotone(l - d + 1, l);
    }
  }

  /** The outer loop: from single entries in bit-reversed order to one transformed chunk. */
  method Stages(v: array<F>, w: F, twiddle: array<F>, ghost was: seq<F>, ghost l: nat)
    requires v != twiddle && v.Length == twiddle.Length == |was| == Pow2(l) && l >= 1
    requires forall k :: 0 <= k < twiddle.Length ==> twiddle[k] == Pow(w, k)
    requires v[..] == BitReversed(was, l) && Pow(w, Pow2(l - 1)) == Neg(ONE)
    modifies v
    ensures v[..] == Dft(was, w)
  {
    hide Add, Mul, Neg, Pow, Dft, Butterflies, BitReversed;
    var n, i := v.Length, 2;
    ghost var d := l;
    DeepestStage(was, w, l);
    assert Pow2(1) == 2 && Pow2(l - d + 1) == 2;
    LoopGuard(d, l);
    while i <= n
      invariant 0 <= d <= l && i == Pow2(l - d + 1)
      invariant i <= n <==> d >= 1
      invariant v[..] == StageOf(was, w, d, l)
      decreases d
    {
      hide StageOf, Pow2, Chunks;
      LoopDepth(i, d, l);
      StageStep(was, w, d, l);
      Stage(v, i, twiddle, n / i, w);
      NextSize(l - d + 1);
      i, d := i * 2, d - 1;
      LoopGuard(d, l);
    }
  }

  lemma NextSize(e: nat)
    ensures Pow2(e + 1) == Pow2(e) * 2
  {}

  method ScaleInPlace(v: array<F>, c: F)
    modifies v
    ensures v[..] == Scale(c, old(v[..]))
  {
    hide Mul;
    for k := 0 to v.Length
      invariant forall m :: 0 <= m < v.Length ==> v[m] == if m < k then Mul(c, old(v[m])) else old(v[m])
    {
      MulComm(v[k], c);
      v[k] := Mul(v[k], c);
    }
  }

  /** `fft(v, flag)`. The root of unity is what `get_root_of_unity` returned for the length. */
  method Fft(v: array<F>, flag: bool, root: Option<F>) returns (result: FftResult)
    requires v.Length < Pow2(USIZE_BITS)
    requires IsPowerOfTwo(v.Length) && root.Some? ==> IsPrimitiveRoot(root.value, Log2(v.Length))
    modifies v
    ensures result.NotPowerOfTwo? <==> !IsPowerOfTwo(v.Length)
    ensures result.IndexOutOfBounds? <==> v.Length == 1
    ensures result.NoRootOfUnity? <==> IsPowerOfTwo(v.Length) && v.Length > 1 && root.None?
    ensures result.NotPowerOfTwo? || result.IndexOutOfBounds? ==> v[..] == old(v[..])
    ensures result.NoRootOfUnity? ==> v[..] == BitReversed(old(v[..]), Log2(v.Length))
    ensures result.Done? && !flag ==> v[..] == Forward(old(v[..]), root.value)
    ensures result.Done? && flag ==> root.value != ZERO && FromInt(v.Length) != ZERO
                                     && v[..] == Backward(old(v[..]), root.value)
  {
    var n := v.Length;
    if !IsPowerOfTwo(n) {
      return NotPowerOfTwo;
    }
    var logn := Log2(n);
    LengthFacts(n);
    hide Log2, Add, Mul, Neg, Sub, Pow, Dft, FromInt, InverseOf, Pow2, Scale, IsPrimitiveRoot;
    if n == 1 {
      return IndexOutOfBounds;
    }
    ghost var was := v[..];
    Bitreverse(v, logn);
    assert v[..] == BitReversed(was, logn);
    if root.None? {
      return NoRootOfUnity;
    }
    HalfPowerIsMinusOne(root.value, logn);
    var w := root.value;
    if flag {
      w := Inverse(w).value;
      assert w == InverseOf(root.value);
      InverseRoot(root.value, w, Pow2(logn - 1));
    }
    var twiddle := Twiddles(n, w);
    Stages(v, w, twiddle, was, logn);
    result := Done;
    if flag {
      LengthIsInvertible(logn);
      var ilen := Inverse(FromInt(n)).value;
      ScaleInPlace(v, ilen);
    }
  }

  lemma LengthFacts(n: nat)
    requires IsPowerOfTwo(n) && n < Pow2(USIZE_BITS)
    ensures n == Pow2(Log2(n)) && Log2(n) <= USIZE_BITS
    ensures Log2(n) >= 1 <==> n > 1
    ensures IsPowerOfTwo(1)
  {
    Log2OfPow2(0);
    hide Log2;
    if Log2(n) > USIZE_BITS {
      Pow2Monotone(USIZE_BITS, Log2(n));
    }
  }
}
