/** The quantised addition layer of `zkml/src/layers/add.rs`. */
module AddLayer {
  import opened Wrappers
  import opened Arithmetic
  import opened Bits
  import opened Field
  import opened Sums
  import opened Mle
  import opened ShapePoints

  // ---------------------------------------------------------------- fitting the multipliers

  datatype AddQuantInfo = AddQuantInfo(left: nat, right: nat, shift: nat, bits: nat)

  function Max(a: nat, b: nat): nat {
    if a >= b then a else b
  }

  /** The bit size the sum of the scaled inputs may need: multiplier, input, one for the sum, one for the sign. */
  function TotalBits(left: nat, right: nat, leftBits: nat, rightBits: nat): nat {
    CeilLog2(Max(left, right)) + Max(leftBits, rightBits) + 2
  }

  /** How often the loop runs. */
  function Excess(bits: nat): nat {
    if bits >= 63 then bits - 62 else 0
  }

  lemma Halved(n: nat, k: nat)
    ensures n / Pow2(k) / 2 == n / Pow2(k + 1)
  {
    Halve(n, Pow2(k));
  }

  /** The integer part of `AddQuantInfo::new`: while the bit size is too large, it, the right shift and both
      multipliers are lowered by one bit. The source demands that the shift does not underflow. */
  method FitMultipliers(left: nat, right: nat, shift: nat, leftBits: nat, rightBits: nat) returns (q: AddQuantInfo)
    requires Excess(TotalBits(left, right, leftBits, rightBits)) <= shift
    ensures var total := TotalBits(left, right, leftBits, rightBits);
      && q.bits == (if total <= 62 then total else 62)
      && q.shift == shift - Excess(total)
      && q.left == left / Pow2(Excess(total)) && q.right == right / Pow2(Excess(total))
      && shift - q.shift == total - q.bits && q.left == left / Pow2(total - q.bits) && q.right == right / Pow2(total - q.bits)
  {
    var l, r, s, bits := left, right, shift, TotalBits(left, right, leftBits, rightBits);
    ghost var k, total := 0, bits;
    while bits >= 63
      invariant k <= Excess(total) && bits == total - k && s == shift - k
      invariant bits >= 62 || k == 0
      invariant l == left / Pow2(k) && r == right / Pow2(k)
      decreases bits
    {
      Halved(left, k);
      Halved(right, k);
      bits, s, l, r := bits - 1, s - 1, l / 2, r / 2;
      k := k + 1;
    }
    return AddQuantInfo(l, r, s, bits);
  }

  // ---------------------------------------------------------------- no overflow

  /** Two's complement arithmetic on 64 bits. */
  function Wrap64(x: int): int {
    (x + 0x8000_0000_0000_0000) % 0x1_0000_0000_0000_0000 - 0x8000_0000_0000_0000
  }

  /** It is in range, and off by a multiple of 2^64 only. */
  lemma Wrap64Is(x: int)
    ensures -0x8000_0000_0000_0000 <= Wrap64(x) < 0x8000_0000_0000_0000
    ensures (x - Wrap64(x)) % 0x1_0000_0000_0000_0000 == 0
  {}

  predicate Fits(x: int, bits: nat) {
    -(Pow2(bits) as int) <= x <= Pow2(bits)
  }

  lemma QuotientFits(n: nat, c: nat, k: nat)
    requires n <= Pow2(c)
    ensures k <= c ==> n / Pow2(k) <= Pow2(c - k)
    ensures k > c ==> n / Pow2(k) == 0
  {
    if k <= c {
      Pow2Add(k, c - k);
      QuotientBound(n, Pow2(k), Pow2(c - k));
    } else {
      Pow2Monotone(c + 1, k);
      QuotientUnique(n, Pow2(k), 0, n);
    }
  }

  lemma QuotientBound(n: nat, m: nat, p: nat)
    requires m >= 1 && n <= m * p
    ensures n / m <= p
  {
    var q := n / m;
    assert n == m * q + n % m;
    assert m * (p - q) == m * p - m * q;
    NegativeMultiple(m, p - q);
  }

  lemma NegativeMultiple(m: int, d: int)
    requires m >= 1
    ensures d < 0 ==> m * d <= -m
  {
    if d < 0 {
      PositiveMultiple(-d, m);
      assert m * d == -(-d * m);
    }
  }

  lemma ProductFits(a: nat, c: nat, x: int, b: nat)
    requires a <= Pow2(c) && Fits(x, b)
    ensures Fits(a * x, c + b)
  {
    hide Pow2;
    Pow2Add(c, b);
    if x >= 0 {
      Bound(a, Pow2(c), x, Pow2(b));
    } else {
      Bound(a, Pow2(c), -x, Pow2(b));
      assert a * x == -(a * -x);
    }
  }

  lemma Bound(a: int, p: int, y: int, q: int)
    requires 0 <= a <= p && 0 <= y <= q
    ensures 0 <= a * y <= p * q
  {
    assert a * y <= p * y by { assert (p - a) * y >= 0; }
    assert p * y <= p * q by { assert p * (q - y) >= 0; }
    assert a * y >= 0;
  }

  lemma ZeroFits(x: int, b: nat)
    ensures Fits(0 * x, b)
  {}

  /** A scaled input fits below the sum and sign bits of the intermediate bit size. */
  lemma ScaledFits(m: nat, other: nat, x: int, bits: nat, leftBits: nat, rightBits: nat)
    requires Fits(x, bits) && bits <= Max(leftBits, rightBits) && m <= Max(m, other)
    ensures var total := TotalBits(m, other, leftBits, rightBits);
      && total - Excess(total) >= 2
      && Fits(m / Pow2(Excess(total)) * x, total - Excess(total) - 2)
  {
    hide CeilLog2, Pow2, Fits;
    var c, b := CeilLog2(Max(m, other)), Max(leftBits, rightBits);
    var k := Excess(c + b + 2);
    var q := m / Pow2(k);
    QuotientFits(m, c, k);
    FitsMore(x, bits, b);
    if k <= c {
      ProductFits(q, c - k, x, b);
    } else {
      ZeroFits(x, c + b - k);
    }
  }

  lemma FitsMore(x: int, a: nat, b: nat)
    requires Fits(x, a) && a <= b
    ensures Fits(x, b)
  {
    Pow2Monotone(a, b);
  }

  lemma MaxSwap(a: nat, b: nat, c: nat, d: nat)
    ensures TotalBits(a, b, c, d) == TotalBits(b, a, c, d)
  {
    if a == b {
    } else {
      assert Max(a, b) == Max(b, a);
    }
  }

  /** For inputs within their bit sizes, the scaled inputs and their sum stay within the intermediate bit size,
      which is at most 62; so 64-bit arithmetic never wraps. */
  lemma SumFits(left: nat, right: nat, leftBits: nat, rightBits: nat, x: int, y: int)
    requires Fits(x, leftBits) && Fits(y, rightBits)
    ensures var total := TotalBits(left, right, leftBits, rightBits);
      var l, r, bits := left / Pow2(Excess(total)), right / Pow2(Excess(total)), total - Excess(total);
      && 2 <= bits <= 62 && Fits(l * x + r * y, bits - 1)
      && Wrap64(Wrap64(l * x) + Wrap64(r * y)) == l * x + r * y
  {
    ScaledFits(left, right, x, leftBits, leftBits, rightBits);
    MaxSwap(left, right, leftBits, rightBits);
    ScaledFits(right, left, y, rightBits, leftBits, rightBits);
    var total := TotalBits(left, right, leftBits, rightBits);
    var k := Excess(total);
    var l, r := left / Pow2(k), right / Pow2(k);
    SumOfFits(l * x, r * y, total - k);
  }

  /** No smaller bit size would do: whatever the bit sizes of the inputs, some inputs and equal multipliers of any size need
      all of it. */
  lemma SumNeedsBits(c: nat, leftBits: nat, rightBits: nat)
    ensures Fits(Pow2(leftBits), leftBits) && Fits(Pow2(rightBits), rightBits)
    ensures TotalBits(Pow2(c), Pow2(c), leftBits, rightBits) >= 2
    ensures !Fits(Pow2(c) * Pow2(leftBits) + Pow2(c) * Pow2(rightBits), TotalBits(Pow2(c), Pow2(c), leftBits, rightBits) - 2)
  {
    hide Pow2, Fits, TotalBits;
    EqualMultipliers(c, leftBits, rightBits);
    Pow2Add(c, leftBits);
    Pow2Add(c, rightBits);
    SumExceeds(Pow2(c) * Pow2(leftBits), Pow2(c) * Pow2(rightBits), c + leftBits, c + rightBits);
    PowerFits(leftBits);
    PowerFits(rightBits);
  }

  lemma PowerFits(bits: nat)
    ensures Fits(Pow2(bits), bits)
  {}

  lemma EqualMultipliers(c: nat, leftBits: nat, rightBits: nat)
    ensures TotalBits(Pow2(c), Pow2(c), leftBits, rightBits) == Max(c + leftBits, c + rightBits) + 2
  {
    CeilLog2OfPow2(c);
    hide CeilLog2, Pow2;
  }

  lemma SumExceeds(a: nat, b: nat, m: nat, n: nat)
    requires a == Pow2(m) && b == Pow2(n)
    ensures !Fits(a + b, Max(m, n))
  {}

  lemma SumOfFits(a: int, b: int, bits: nat)
    requires 2 <= bits <= 62 && Fits(a, bits - 2) && Fits(b, bits - 2)
    ensures Fits(a + b, bits - 1) && Wrap64(Wrap64(a) + Wrap64(b)) == a + b
  {
    FitsMore(a, bits - 2, 60);
    FitsMore(b, bits - 2, 60);
    assert Pow2(60) == 0x1000_0000_0000_0000 by { Sixty(); }
    NoWrap(a);
    NoWrap(b);
    NoWrap(a + b);
  }

  lemma Sixty()
    ensures Pow2(60) == 0x1000_0000_0000_0000
  {
    assert Pow2(10) == 0x400;
    Pow2Add(10, 10);
    Pow2Add(20, 20);
    Pow2Add(40, 20);
  }

  lemma NoWrap(x: int)
    requires -0x8000_0000_0000_0000 <= x < 0x8000_0000_0000_0000
    ensures Wrap64(x) == x
  {
    QuotientUnique(x + 0x8000_0000_0000_0000, 0x1_0000_0000_0000_0000, 0, x + 0x8000_0000_0000_0000);
  }

  // ---------------------------------------------------------------- accuracy

  /** Lowering the shift and the multiplier together loses less than one unit of the new last place:
      0 <= m / 2^shift - m' / 2^shift' < 2^-shift'. */
  lemma EffectiveMultiplier(m: nat, shift: nat, k: nat)
    requires k <= shift
    ensures var now := m / Pow2(k);
      var before, after := m as real / Pow2(shift) as real, now as real / Pow2(shift - k) as real;
      0.0 <= before - after < 1.0 / Pow2(shift - k) as real
  {
    hide Pow2;
    var p, s := Pow2(k), Pow2(shift - k);
    Pow2Add(k, shift - k);
    FractionOf(m, p, s);
  }

  lemma FractionOf(m: nat, p: nat, s: nat)
    requires p >= 1 && s >= 1
    ensures p * s >= 1
    ensures 0.0 <= m as real / (p * s) as real - (m / p) as real / s as real < 1.0 / s as real
  {
    PositiveMultiple(p, s);
    var now, rest := m / p, m % p;
    assert m == p * now + rest;
    Casts(p, s);
    Casts(p, now);
    assert m as real == (p * now) as real + rest as real;
    Fraction(m as real, p as real, s as real, now as real, rest as real);
  }

  lemma Casts(a: nat, b: nat)
    ensures (a * b) as real == a as real * b as real
  {}

  lemma Fraction(m: real, p: real, s: real, now: real, rest: real)
    requires p >= 1.0 && s >= 1.0 && m == p * now + rest && 0.0 <= rest < p
    ensures p * s != 0.0 && 0.0 <= m / (p * s) - now / s < 1.0 / s
  {
    assert p * s >= 1.0 by { assert (p - 1.0) * s >= 0.0; }
    var f := rest / p;
    assert 0.0 <= f < 1.0;
    assert m == p * (now + f) by { assert p * f == rest; }
    Cancel(p, s, now + f);
    SplitQuotient(now, f, s);
  }

  lemma Cancel(p: real, s: real, v: real)
    requires p >= 1.0 && s >= 1.0 && p * s != 0.0
    ensures p * v / (p * s) == v / s
  {
    assert v / s * (p * s) == p * v by {
      assert v / s * (p * s) == v / s * s * p;
      assert v / s * s == v;
    }
  }

  lemma SplitQuotient(a: real, f: real, s: real)
    requires s >= 1.0 && 0.0 <= f < 1.0
    ensures 0.0 <= (a + f) / s - a / s < 1.0 / s
  {
    assert (a + f) / s == a / s + f / s;
    assert 0.0 <= f / s < 1.0 / s;
  }

  // ---------------------------------------------------------------- evaluating, proving, verifying

  /** A claim that the tensor's multilinear extension has value `eval` at `point`. */
  datatype Claim = Claim(point: seq<F>, eval: F)
  datatype AddProof = AddProof(left: F, right: F)
  datatype AddError = WrongClaimCount | NotQuantised | VerificationFailed

  function ToField(t: seq<int>): (r: seq<F>)
    ensures |r| == |t|
  {
    seq(|t|, i requires 0 <= i < |t| => FromInt(t[i]))
  }

  /** `evaluate`, in 64-bit arithmetic. */
  function Evaluate(q: AddQuantInfo, x: seq<int>, y: seq<int>): (r: seq<int>)
    requires |x| == |y|
    ensures |r| == |x|
  {
    seq(|x|, i requires 0 <= i < |x| => Wrap64(Wrap64(q.left * x[i]) + Wrap64(q.right * y[i])))
  }

  /** Points and tensors fit together. */
  predicate Sized(claims: seq<Claim>, x: seq<int>, y: seq<int>) {
    forall i :: 0 <= i < |claims| ==> |x| == |y| == Pow2(|claims[i].point|)
  }

  function ProveStep(quantised: bool, claims: seq<Claim>, x: seq<int>, y: seq<int>): Result<(seq<Claim>, AddProof), AddError>
    requires Sized(claims, x, y)
  {
    if |claims| != 1 then Err(WrongClaimCount)
    else if !quantised then Err(NotQuantised)
    else
      var p := claims[0].point;
      var left, right := MleAt(ToField(x), p), MleAt(ToField(y), p);
      Ok(([Claim(p, left), Claim(p, right)], AddProof(left, right)))
  }

  /** `AddCtx::verify`; with a committed operand the right claim goes to the commitment scheme instead. */
  function Verify(q: AddQuantInfo, operand: bool, proof: AddProof, claims: seq<Claim>): Result<seq<Claim>, AddError> {
    if |claims| != 1 then Err(WrongClaimCount)
    else if Add(Mul(proof.left, FromInt(q.left)), Mul(proof.right, FromInt(q.right))) != claims[0].eval then Err(VerificationFailed)
    else
      var left, right := Claim(claims[0].point, proof.left), Claim(claims[0].point, proof.right);
      Ok(if operand then [left] else [left, right])
  }

  predicate Within(t: seq<int>, bits: nat) {
    forall i :: 0 <= i < |t| ==> Fits(t[i], bits)
  }

  /** The quantisation info the constructor makes for inputs of these bit sizes. */
  ghost predicate Fitted(q: AddQuantInfo, leftBits: nat, rightBits: nat) {
    exists left: nat, right: nat :: FittedFrom(q, left, right, leftBits, rightBits)
  }

  ghost predicate FittedFrom(q: AddQuantInfo, left: nat, right: nat, leftBits: nat, rightBits: nat) {
    var k := Excess(TotalBits(left, right, leftBits, rightBits));
    q.left == left / Pow2(k) && q.right == right / Pow2(k)
  }

  lemma EvaluateExact(q: AddQuantInfo, leftBits: nat, rightBits: nat, x: seq<int>, y: seq<int>, i: nat)
    requires Fitted(q, leftBits, rightBits) && |x| == |y| && i < |x| && Fits(x[i], leftBits) && Fits(y[i], rightBits)
    ensures Evaluate(q, x, y)[i] == q.left * x[i] + q.right * y[i]
  {
    hide Fits, Pow2, TotalBits, Excess, Wrap64;
    var left: nat, right: nat :| FittedFrom(q, left, right, leftBits, rightBits);
    SumFits(left, right, leftBits, rightBits, x[i], y[i]);
  }

  lemma ScaledSum(l: nat, r: nat, x: int, y: int)
    ensures FromInt(l * x + r * y) == Add(Mul(FromInt(l), FromInt(x)), Mul(FromInt(r), FromInt(y)))
  {
    hide FromInt, Add, Mul;
    FromIntAdd(l * x, r * y);
    FromIntMul(l, x);
    FromIntMul(r, y);
  }

  /** Over the field the output tensor is the scaled sum of the inputs. */
  lemma OutputInField(q: AddQuantInfo, leftBits: nat, rightBits: nat, x: seq<int>, y: seq<int>)
    requires Fitted(q, leftBits, rightBits) && |x| == |y| && Within(x, leftBits) && Within(y, rightBits)
    ensures ToField(Evaluate(q, x, y))
         == Plus(Scale(FromInt(q.left), ToField(x)), Scale(FromInt(q.right), ToField(y)))
  {
    hide FromInt, Add, Mul, Fitted, Evaluate;
    var out := Evaluate(q, x, y);
    forall i | 0 <= i < |x|
      ensures FromInt(out[i]) == Add(Mul(FromInt(q.left), FromInt(x[i])), Mul(FromInt(q.right), FromInt(y[i])))
    {
      EvaluateExact(q, leftBits, rightBits, x, y, i);
      ScaledSum(q.left, q.right, x[i], y[i]);
    }
  }

  lemma OutputMle(q: AddQuantInfo, leftBits: nat, rightBits: nat, x: seq<int>, y: seq<int>, p: seq<F>)
    requires Fitted(q, leftBits, rightBits) && |x| == |y| == Pow2(|p|) && Within(x, leftBits) && Within(y, rightBits)
    ensures MleAt(ToField(Evaluate(q, x, y)), p)
         == Add(Mul(MleAt(ToField(x), p), FromInt(q.left)), Mul(MleAt(ToField(y), p), FromInt(q.right)))
  {
    hide FromInt, Add, Mul, Fitted, Evaluate, MleAt, ToField, Pow2, Within;
    OutputInField(q, leftBits, rightBits, x, y);
    MleLinear(FromInt(q.left), ToField(x), FromInt(q.right), ToField(y), p);
    MulComm(FromInt(q.left), MleAt(ToField(x), p));
    MulComm(FromInt(q.right), MleAt(ToField(y), p));
  }

  /** Completeness: for every pair of inputs within their bit sizes and every point, the honest proof of a true claim
      about the output verifies, and hands on the prover's claims. */
  lemma HonestProofVerifies(q: AddQuantInfo, leftBits: nat, rightBits: nat, x: seq<int>, y: seq<int>, p: seq<F>)
    requires Fitted(q, leftBits, rightBits) && |x| == |y| == Pow2(|p|) && Within(x, leftBits) && Within(y, rightBits)
    ensures var claim := Claim(p, MleAt(ToField(Evaluate(q, x, y)), p));
      var proved := ProveStep(true, [claim], x, y);
      && proved.Ok?
      && Verify(q, false, proved.value.1, [claim]) == Ok(proved.value.0)
      && Verify(q, true, proved.value.1, [claim]) == Ok([proved.value.0[0]])
  {
    hide Fitted, Evaluate, MleAt, ToField, Pow2, Within, FromInt, Add, Mul;
    OutputMle(q, leftBits, rightBits, x, y, p);
  }

  /** The proof holds the evaluations of the inputs. */
  ghost predicate TrueProof(x: seq<int>, y: seq<int>, p: seq<F>, proof: AddProof)
    requires |x| == |y| == Pow2(|p|)
  {
    proof.left == MleAt(ToField(x), p) && proof.right == MleAt(ToField(y), p)
  }

  /** With or without a committed operand: a proof of true evaluations verifies if and only if the claim about the output is
      true. What is handed on is the left evaluation, and the right one unless the commitment vouches for it. */
  lemma VerifiesIffTrue(q: AddQuantInfo, leftBits: nat, rightBits: nat, x: seq<int>, y: seq<int>, operand: bool, proof: AddProof, claim: Claim)
    requires Fitted(q, leftBits, rightBits) && |x| == |y| == Pow2(|claim.point|) && Within(x, leftBits) && Within(y, rightBits)
    requires TrueProof(x, y, claim.point, proof)
    ensures var r, output := Verify(q, operand, proof, [claim]), MleAt(ToField(Evaluate(q, x, y)), claim.point);
      && (r.Ok? <==> claim.eval == output) && (r.Err? ==> r == Err(VerificationFailed))
      && (r.Ok? && operand ==> r.value == [Claim(claim.point, proof.left)])
      && (r.Ok? && !operand ==> r.value == [Claim(claim.point, proof.left), Claim(claim.point, proof.right)])
  {
    hide Fitted, Evaluate, MleAt, ToField, Pow2, Within, FromInt, Add, Mul;
    OutputMle(q, leftBits, rightBits, x, y, claim.point);
  }

  /** The claims are true of the inputs, the first of x, the second of y. */
  ghost predicate TrueClaims(x: seq<int>, y: seq<int>, p: seq<F>, claims: seq<Claim>)
    requires |x| == |y| == Pow2(|p|)
  {
    forall i :: 0 <= i < |claims| ==> claims[i].point == p && claims[i].eval == MleAt(ToField(if i == 0 then x else y), p)
  }

  /** Reduction: whatever the proof, when it verifies and the claims it hands on are true of the inputs, the claim about the
      output is true. With a committed operand, the opening of the commitment must vouch for the right evaluation. */
  lemma VerifiedClaimIsTrue(q: AddQuantInfo, leftBits: nat, rightBits: nat, x: seq<int>, y: seq<int>, operand: bool, proof: AddProof, claim: Claim)
    requires Fitted(q, leftBits, rightBits) && |x| == |y| == Pow2(|claim.point|) && Within(x, leftBits) && Within(y, rightBits)
    requires Verify(q, operand, proof, [claim]).Ok?
    requires TrueClaims(x, y, claim.point, Verify(q, operand, proof, [claim]).value)
    requires operand ==> proof.right == MleAt(ToField(y), claim.point)
    ensures claim.eval == MleAt(ToField(Evaluate(q, x, y)), claim.point)
  {
    hide Fitted, Evaluate, MleAt, ToField, Pow2, Within, FromInt, Add, Mul;
    var handed := Verify(q, operand, proof, [claim]).value;
    assert handed[0] == Claim(claim.point, proof.left) && (!operand ==> handed[1] == Claim(claim.point, proof.right));
    VerifiesIffTrue(q, leftBits, rightBits, x, y, operand, proof, claim);
  }

  /** Anything but one claim is refused, by the prover and by the verifier, and so is a layer that is not quantised. */
  lemma Refusals(q: AddQuantInfo, quantised: bool, operand: bool, proof: AddProof, claims: seq<Claim>, x: seq<int>, y: seq<int>)
    requires Sized(claims, x, y)
    ensures |claims| != 1 ==>
      Verify(q, operand, proof, claims) == Err(WrongClaimCount) && ProveStep(quantised, claims, x, y) == Err(WrongClaimCount)
    ensures |claims| == 1 ==> (ProveStep(quantised, claims, x, y).Ok? <==> quantised)
    ensures |claims| == 1 && !quantised ==> ProveStep(quantised, claims, x, y) == Err(NotQuantised)
  {}
}
