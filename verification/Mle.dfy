/** Multilinear extensions, with variables in little-endian order: coordinate j of a point stands for
    bit j of an index. */
module Mle {
  import opened Arithmetic
  import opened Bits
  import opened Field
  import opened Sums

  function OneMinus(x: F): F {
    Sub(ONE, x)
  }

  // ---------------------------------------------------------------- the equality polynomial

  /** Bit b against coordinate x. */
  function Basis(b: nat, x: F): F {
    if b % 2 == 1 then x else OneMinus(x)
  }

  /** The equality polynomial of index i and point p: the product over the bits of i. */
  function Eq(i: nat, p: seq<F>): F {
    if p == [] then ONE else Mul(Basis(i, p[0]), Eq(i / 2, p[1..]))
  }

  /** All values of the equality polynomial at p, doubling the vector once per coordinate. */
  function Evals(p: seq<F>): (e: seq<F>)
    ensures |e| == Pow2(|p|)
  {
    if p == [] then [ONE]
    else
      var before, x := Evals(p[..|p| - 1]), p[|p| - 1];
      Scale(OneMinus(x), before) + Scale(x, before)
  }

  lemma {:induction false} EqSnoc(i: nat, p: seq<F>, x: F)
    ensures Eq(i, p + [x]) == Mul(Basis(i / Pow2(|p|), x), Eq(i, p))
    decreases |p|
  {
    hide Mul, Basis, Pow2;
    if p == [] {
      assert Pow2(0) == 1 by { PowZero(); }
      assert ([] + [x])[1..] == [];
      assert i / Pow2(0) == i;
    } else {
      var q := p + [x];
      assert q[0] == p[0] && q[1..] == p[1..] + [x];
      EqSnoc(i / 2, p[1..], x);
      DivDiv(i, |p|);
      Exchange(Basis(i, p[0]), Basis(i / Pow2(|p|), x), Eq(i / 2, p[1..]));
    }
  }

  lemma Exchange(b: F, c: F, e: F)
    ensures Mul(b, Mul(c, e)) == Mul(c, Mul(b, e))
  {
    hide Mul;
    MulAssoc(b, c, e);
    MulComm(b, c);
    MulAssoc(c, b, e);
  }

  lemma PowZero()
    ensures Pow2(0) == 1
  {}

  lemma DivDiv(i: nat, k: nat)
    requires k >= 1
    ensures i / 2 / Pow2(k - 1) == i / Pow2(k)
  {
    var m := Pow2(k - 1);
    var q := i / 2 / m;
    assert i / 2 == q * m + i / 2 % m;
    assert i == 2 * (i / 2) + i % 2;
    assert i == q * (2 * m) + (2 * (i / 2 % m) + i % 2);
    QuotientUnique(i, 2 * m, q, 2 * (i / 2 % m) + i % 2);
  }

  /** Higher bits than the point has coordinates do not matter. */
  lemma {:induction false} EqLow(i: nat, j: nat, p: seq<F>, k: nat)
    requires i == j + k * Pow2(|p|)
    ensures Eq(i, p) == Eq(j, p)
    decreases |p|
  {
    hide Mul, OneMinus;
    if p != [] {
      var m := Pow2(|p| - 1);
      assert k * Pow2(|p|) == 2 * (k * m);
      EqLow(i / 2, j / 2, p[1..], k);
    }
  }

  /** The doubling construction gives the equality polynomial at every index. */
  lemma {:induction false} EvalsAt(p: seq<F>, i: nat)
    requires i < Pow2(|p|)
    ensures Evals(p)[i] == Eq(i, p)
    decreases |p|
  {
    hide Mul, OneMinus, Eq;
    if p == [] {
      assert Eq(i, p) == ONE by { EqEmpty(i); }
    } else {
      var q, x, m := p[..|p| - 1], p[|p| - 1], Pow2(|p| - 1);
      assert p == q + [x];
      EqSnoc(i, q, x);
      if i < m {
        EvalsAt(q, i);
        assert i / m == 0 by { QuotientUnique(i, m, 0, i); }
      } else {
        EvalsAt(q, i - m);
        assert i / m == 1 by { QuotientUnique(i, m, 1, i - m); }
        EqLow(i, i - m, q, 1);
      }
    }
  }

  lemma EqEmpty(i: nat)
    ensures Eq(i, []) == ONE
  {}

  lemma OneMinusPlus(x: F)
    ensures Add(OneMinus(x), x) == ONE
  {
    hide Add, Neg;
    AddAssoc(ONE, Neg(x), x);
    AddNeg(x);
    AddZero(ONE);
  }

  /** The values at all indices sum to one. */
  lemma {:induction false} EvalsSum(p: seq<F>)
    ensures Sum(Evals(p)) == ONE
    decreases |p|
  {
    hide Mul, Add, OneMinus;
    if p == [] {
      SumOne(ONE);
    } else {
      var before, x := Evals(p[..|p| - 1]), p[|p| - 1];
      EvalsSum(p[..|p| - 1]);
      SumAppend(Scale(OneMinus(x), before), Scale(x, before));
      SumScale(OneMinus(x), before);
      SumScale(x, before);
      MulOne(OneMinus(x));
      MulOne(x);
      OneMinusPlus(x);
    }
  }

  // ---------------------------------------------------------------- Boolean points

  /** `to_bit_sequence_le` */
  function ToBitSequence(num: nat, length: nat): (bits: seq<nat>)
    ensures |bits| == length && forall j :: 0 <= j < length ==> bits[j] == num / Pow2(j) % 2
  {
    seq(length, j requires 0 <= j < length => num / Pow2(j) % 2)
  }

  /** The bits of a number as field elements. */
  function BitPoint(num: nat, length: nat): (p: seq<F>)
    ensures |p| == length && forall j :: 0 <= j < length ==> p[j] == if num / Pow2(j) % 2 == 1 then ONE else ZERO
  {
    var bits := ToBitSequence(num, length);
    seq(length, j requires 0 <= j < length => if bits[j] == 1 then ONE else ZERO)
  }

  lemma BasisBoolean()
    ensures OneMinus(ZERO) == ONE && OneMinus(ONE) == ZERO
  {
    OneMinusPlus(ZERO);
    AddZero(OneMinus(ZERO));
    hide Add, Neg;
    AddNeg(ONE);
  }

  lemma TopBit(num: nat, m: nat)
    requires m >= 1
    ensures num % (2 * m) == num % m + (if num / m % 2 == 1 then m else 0)
  {
    var q := num / m;
    assert num == q * m + num % m;
    assert q == 2 * (q / 2) + q % 2;
    assert q * m == (q / 2) * (2 * m) + (q % 2) * m;
    QuotientUnique(num, 2 * m, q / 2, (q % 2) * m + num % m);
  }

  lemma BitPointStep(num: nat, length: nat)
    requires length >= 1
    ensures |BitPoint(num, length)| == length && BitPoint(num, length)[..length - 1] == BitPoint(num, length - 1)
    ensures BitPoint(num, length)[length - 1] == if num / Pow2(length - 1) % 2 == 1 then ONE else ZERO
  {}

  lemma TopBitPow2(num: nat, length: nat)
    requires length >= 1
    ensures num % Pow2(length)
         == num % Pow2(length - 1) + (if num / Pow2(length - 1) % 2 == 1 then Pow2(length - 1) else 0)
  {
    TopBit(num, Pow2(length - 1));
  }

  lemma EvalsStep(p: seq<F>)
    requires p != []
    ensures var before, x := Evals(p[..|p| - 1]), p[|p| - 1];
      Evals(p) == Scale(OneMinus(x), before) + Scale(x, before) && |before| == Pow2(|p| - 1)
  {
    hide OneMinus, Scale;
  }

  /** At the bits of a number the equality polynomial is one at that number only. */
  lemma {:induction false} EvalsBoolean(num: nat, length: nat)
    ensures Unit(Evals(BitPoint(num, length)), num % Pow2(length))
  {
    if length == 0 {
      assert BitPoint(num, 0) == [];
    } else {
      hide OneMinus, Evals, BitPoint, Pow2, Unit, Scale;
      EvalsBoolean(num, length - 1);
      BitPointStep(num, length);
      TopBitPow2(num, length);
      EvalsStep(BitPoint(num, length));
      UnitDoubled(Evals(BitPoint(num, length - 1)), num % Pow2(length - 1), num / Pow2(length - 1) % 2 == 1);
    }
  }

  lemma UnitDoubled(e: seq<F>, k: nat, b: bool)
    requires Unit(e, k)
    ensures var x := if b then ONE else ZERO;
      Unit(Scale(OneMinus(x), e) + Scale(x, e), k + if b then |e| else 0)
  {
    hide Mul, OneMinus;
    BasisBoolean();
    forall i | 0 <= i < |e|
      ensures Mul(ONE, e[i]) == e[i] && Mul(ZERO, e[i]) == ZERO
    {
      MulOne(e[i]);
      MulZero(e[i]);
    }
  }

  // ---------------------------------------------------------------- multilinear extension

  /** The multilinear extension of the table t at p. */
  function MleAt(t: seq<F>, p: seq<F>): F
    requires |t| == Pow2(|p|)
  {
    Dot(Evals(p), t)
  }

  /** At the bits of an index it is the entry of the table. */
  lemma MleAtBits(t: seq<F>, num: nat, length: nat)
    requires |t| == Pow2(length) && num < |t|
    ensures MleAt(t, BitPoint(num, length)) == t[num]
  {
    EvalsBoolean(num, length);
    QuotientUnique(num, Pow2(length), 0, num);
    DotUnit(Evals(BitPoint(num, length)), num, t);
  }

  lemma MleLinear(a: F, s: seq<F>, b: F, t: seq<F>, p: seq<F>)
    requires |s| == |t| == Pow2(|p|)
    ensures MleAt(Plus(Scale(a, s), Scale(b, t)), p) == Add(Mul(a, MleAt(s, p)), Mul(b, MleAt(t, p)))
  {
    DotPlus(Evals(p), Scale(a, s), Scale(b, t));
    DotScale(a, Evals(p), s);
    DotScale(b, Evals(p), t);
  }

  /** One coordinate at a time, from the highest bit. */
  lemma MleStep(t: seq<F>, u: seq<F>, p: seq<F>, x: F)
    requires |t| == |u| == Pow2(|p|)
    ensures |t + u| == Pow2(|p + [x]|)
    ensures MleAt(t + u, p + [x]) == Add(Mul(OneMinus(x), MleAt(t, p)), Mul(x, MleAt(u, p)))
  {
    hide Mul, Add, OneMinus;
    var e := Evals(p);
    assert (p + [x])[..|p|] == p;
    DotAppend(Scale(OneMinus(x), e), Scale(x, e), t, u);
    DotScale(OneMinus(x), e, t);
    DotScale(x, e, u);
  }
}

/** The zeroifier and infinitizer matrices of `zkml/src/lib.rs`: one, or minus infinity, where the column is,
    or is not, at most the row. */
module Zeroifier {
  import opened Bits
  import opened Field
  import opened Sums
  import opened Mle

  const TWO: F := FromInt(2)

  /** One step of the fold: `acc * (1 - c - r + 2 * c * r) + (1 - c) * r`. */
  function ZeroifierStep(acc: F, c: F, r: F): F {
    Add(Mul(acc, Add(Sub(Sub(ONE, c), r), Mul(Mul(TWO, c), r))), Mul(Sub(ONE, c), r))
  }

  /** `eval_zeroifier_mle`: a fold over the paired coordinates. */
  function EvalZeroifier(column: seq<F>, row: seq<F>): F {
    var n := if |column| <= |row| then |column| else |row|;
    if n == 0 then ONE else ZeroifierStep(EvalZeroifier(column[..n - 1], row[..n - 1]), column[n - 1], row[n - 1])
  }

  /** `eval_infinitizer_mle` */
  function EvalInfinitizer(column: seq<F>, row: seq<F>, minusInfinity: int): F {
    Mul(FromInt(minusInfinity), Sub(ONE, EvalZeroifier(column, row)))
  }

  // ---------------------------------------------------------------- what they are for

  /** For each k the sum of the first k + 1 entries. */
  function UpTo(s: seq<F>): (r: seq<F>)
    ensures |r| == |s| && forall k :: 0 <= k < |s| ==> r[k] == Sum(s[..k + 1])
  {
    seq(|s|, k requires 0 <= k < |s| => Sum(s[..k + 1]))
  }

  /** For each k the sum of the entries after k. */
  function After(s: seq<F>): (r: seq<F>)
    ensures |r| == |s| && forall k :: 0 <= k < |s| ==> r[k] == Sum(s[k + 1..])
  {
    seq(|s|, k requires 0 <= k < |s| => Sum(s[k + 1..]))
  }

  /** The sum over all rows R and columns C <= R of Eq(C, column) * Eq(R, row). */
  function LowerTriangle(column: seq<F>, row: seq<F>): F
    requires |column| == |row|
  {
    Dot(Evals(row), UpTo(Evals(column)))
  }

  /** The same sum over C > R. */
  function UpperTriangle(column: seq<F>, row: seq<F>): F
    requires |column| == |row|
  {
    Dot(Evals(row), After(Evals(column)))
  }

  /** (1 - c)(1 - r) z + (r (1 - c) + r c z) is the step of the fold. */
  lemma StepIdentity(z: F, c: F, r: F)
    ensures ZeroifierStep(z, c, r)
         == Add(Mul(OneMinus(r), Mul(OneMinus(c), z)), Mul(r, Add(OneMinus(c), Mul(c, z))))
  {
    var zi: int, ci: int, ri: int := z, c, r;
    FromIntSmall(z);
    FromIntSmall(c);
    FromIntSmall(r);
    assert OneMinus(c) == FromInt(1 - ci) && OneMinus(r) == FromInt(1 - ri) by { Minus(c); Minus(r); }
    LeftSide(z, c, r);
    RightSide(z, c, r);
    assert zi * (1 - ci - ri + 2 * ci * ri) + (1 - ci) * ri == (1 - ri) * ((1 - ci) * zi) + ri * ((1 - ci) + ci * zi) by {
      Expand(zi, ci, ri);
    }
  }

  lemma Expand(z: int, c: int, r: int)
    ensures z * (1 - c - r + 2 * c * r) + (1 - c) * r == (1 - r) * ((1 - c) * z) + r * ((1 - c) + c * z)
  {
    assert z * (1 - c - r + 2 * c * r) == z - z * c - z * r + 2 * (z * c * r);
    assert (1 - r) * ((1 - c) * z) == (1 - c) * z - r * ((1 - c) * z);
    assert r * ((1 - c) + c * z) == r * (1 - c) + r * (c * z);
    assert r * ((1 - c) * z) == r * z - r * (c * z);
    assert z * c * r == r * (c * z);
  }

  lemma Minus(x: F)
    ensures OneMinus(x) == FromInt(1 - x as int)
  {
    FromIntSmall(x);
    FromIntNeg(x);
    FromIntSmall(ONE);
    FromIntAdd(1, -(x as int));
  }

  lemma LeftSide(z: F, c: F, r: F)
    ensures var zi: int, ci: int, ri: int := z, c, r;
      ZeroifierStep(z, c, r) == FromInt(zi * (1 - ci - ri + 2 * ci * ri) + (1 - ci) * ri)
  {
    var zi: int, ci: int, ri: int := z, c, r;
    FromIntSmall(z);
    FromIntSmall(c);
    FromIntSmall(r);
    Minus(c);
    hide FromInt, Add, Mul, Neg;
    FromIntNeg(ri);
    FromIntAdd(1 - ci, -ri);
    FromIntMul(2, ci);
    FromIntMul(2 * ci, ri);
    FromIntAdd(1 - ci - ri, 2 * ci * ri);
    FromIntMul(zi, 1 - ci - ri + 2 * ci * ri);
    FromIntMul(1 - ci, ri);
    FromIntAdd(zi * (1 - ci - ri + 2 * ci * ri), (1 - ci) * ri);
  }

  lemma RightSide(z: F, c: F, r: F)
    ensures var zi: int, ci: int, ri: int := z, c, r;
      Add(Mul(OneMinus(r), Mul(OneMinus(c), z)), Mul(r, Add(OneMinus(c), Mul(c, z))))
      == FromInt((1 - ri) * ((1 - ci) * zi) + ri * ((1 - ci) + ci * zi))
  {
    var zi: int, ci: int, ri: int := z, c, r;
    FromIntSmall(z);
    FromIntSmall(c);
    FromIntSmall(r);
    Minus(c);
    Minus(r);
    hide FromInt, Add, Mul, Neg, OneMinus;
    FromIntMul(1 - ci, zi);
    FromIntMul(1 - ri, (1 - ci) * zi);
    FromIntMul(ci, zi);
    FromIntAdd(1 - ci, ci * zi);
    FromIntMul(ri, (1 - ci) + ci * zi);
    FromIntAdd((1 - ri) * ((1 - ci) * zi), ri * ((1 - ci) + ci * zi));
  }

  /** Prefix sums of the doubled vector: of the lower half, then the whole lower half plus those of the upper. */
  lemma UpToDoubled(p: seq<F>, x: F)
    ensures var e := Evals(p);
      UpTo(Evals(p + [x])) == Scale(OneMinus(x), UpTo(e)) + Plus(Constant(|e|, OneMinus(x)), Scale(x, UpTo(e)))
  {
    hide Mul, Add, OneMinus;
    var e := Evals(p);
    assert (p + [x])[..|p|] == p;
    var low, high := Scale(OneMinus(x), e), Scale(x, e);
    var all := UpTo(Evals(p + [x]));
    var parts := Scale(OneMinus(x), UpTo(e)) + Plus(Constant(|e|, OneMinus(x)), Scale(x, UpTo(e)));
    assert Evals(p + [x]) == low + high;
    EvalsSum(p);
    SumScale(OneMinus(x), e);
    MulOne(OneMinus(x));
    forall k | 0 <= k < |all|
      ensures all[k] == parts[k]
    {
      UpToHalf(e, x, low, high, k);
    }
  }

  lemma UpToHalf(e: seq<F>, x: F, low: seq<F>, high: seq<F>, k: nat)
    requires low == Scale(OneMinus(x), e) && high == Scale(x, e) && Sum(low) == OneMinus(x) && k < 2 * |e|
    ensures k < |e| ==> Sum((low + high)[..k + 1]) == Mul(OneMinus(x), Sum(e[..k + 1]))
    ensures k >= |e| ==> Sum((low + high)[..k + 1]) == Add(OneMinus(x), Mul(x, Sum(e[..k - |e| + 1])))
  {
    hide Mul, Add, OneMinus;
    if k < |e| {
      assert (low + high)[..k + 1] == Scale(OneMinus(x), e[..k + 1]);
      SumScale(OneMinus(x), e[..k + 1]);
    } else {
      var j := k - |e| + 1;
      assert (low + high)[..k + 1] == low + Scale(x, e[..j]);
      SumAppend(low, Scale(x, e[..j]));
      SumScale(x, e[..j]);
    }
  }

  /** The closed form: the fold is the sum over all pairs of indices C <= R. */
  lemma {:induction false} ZeroifierClosedForm(column: seq<F>, row: seq<F>)
    requires |column| == |row|
    ensures EvalZeroifier(column, row) == LowerTriangle(column, row)
    decreases |column|
  {
    hide Mul, Add, OneMinus, ZeroifierStep;
    if column == [] {
      assert Evals(column) == [ONE] && UpTo([ONE]) == [ONE] by { SumOne(ONE); assert [ONE][..1] == [ONE]; }
      DotOne(ONE, ONE);
      MulOne(ONE);
    } else {
      var n := |column| - 1;
      var p, c, q, r := column[..n], column[n], row[..n], row[n];
      ZeroifierClosedForm(p, q);
      assert column == p + [c] && row == q + [r];
      TriangleStep(p, c, q, r);
      StepIdentity(LowerTriangle(p, q), c, r);
    }
  }

  lemma TriangleStep(p: seq<F>, c: F, q: seq<F>, r: F)
    requires |p| == |q|
    ensures LowerTriangle(p + [c], q + [r])
         == Add(Mul(OneMinus(r), Mul(OneMinus(c), LowerTriangle(p, q))), Mul(r, Add(OneMinus(c), Mul(c, LowerTriangle(p, q)))))
  {
    hide Mul, Add, OneMinus;
    var e, f := Evals(p), Evals(q);
    var low, high := Scale(OneMinus(c), UpTo(e)), Plus(Constant(|e|, OneMinus(c)), Scale(c, UpTo(e)));
    UpToDoubled(p, c);
    assert (q + [r])[..|q|] == q;
    DotAppend(Scale(OneMinus(r), f), Scale(r, f), low, high);
    DotScale(OneMinus(r), f, low);
    DotScale(OneMinus(c), f, UpTo(e));
    DotScale(r, f, high);
    DotPlus(f, Constant(|e|, OneMinus(c)), Scale(c, UpTo(e)));
    DotConstant(f, OneMinus(c));
    EvalsSum(q);
    MulOne(OneMinus(c));
    DotScale(c, f, UpTo(e));
  }

  /** On the hypercube it is the indicator of C <= R. */
  lemma ZeroifierOnBits(c: nat, r: nat, length: nat)
    requires c < Pow2(length) && r < Pow2(length)
    ensures EvalZeroifier(BitPoint(c, length), BitPoint(r, length)) == if c <= r then ONE else ZERO
  {
    hide OneMinus, EvalZeroifier, Evals;
    ZeroifierBelow(BitPoint(c, length), r);
    EvalsBoolean(c, length);
    SmallMod(c, Pow2(length));
    UnitSum(Evals(BitPoint(c, length)), c, r + 1);
  }

  lemma SmallMod(a: nat, m: nat)
    requires a < m
    ensures a % m == a
  {}

  lemma {:induction false} UnitSum(s: seq<F>, k: nat, n: nat)
    requires Unit(s, k) && n <= |s|
    ensures Sum(s[..n]) == if k < n then ONE else ZERO
  {
    hide Add;
    if n > 0 {
      UnitSum(s, k, n - 1);
      assert s[..n][..n - 1] == s[..n - 1];
      AddZero(ONE);
      AddZero(ZERO);
    }
  }

  /** Against the bits of r it is the sum of the equality polynomial over all C <= r. */
  lemma ZeroifierAgainstBits(column: seq<F>, r: nat, length: nat)
    requires |column| == length
    ensures r % Pow2(length) < |Evals(column)|
    ensures EvalZeroifier(column, BitPoint(r, length)) == Sum(Evals(column)[..r % Pow2(length) + 1])
  {
    hide OneMinus, EvalZeroifier, Evals;
    ZeroifierClosedForm(column, BitPoint(r, length));
    EvalsBoolean(r, length);
    DotUnit(Evals(BitPoint(r, length)), r % Pow2(length), UpTo(Evals(column)));
  }

  lemma ZeroifierBelow(column: seq<F>, r: nat)
    requires r < Pow2(|column|)
    ensures EvalZeroifier(column, BitPoint(r, |column|)) == Sum(Evals(column)[..r + 1])
  {
    hide Evals, EvalZeroifier, BitPoint;
    ZeroifierAgainstBits(column, r, |column|);
    SmallMod(r, Pow2(|column|));
  }

  /** The infinitizer is minus infinity times the sum over all pairs C > R. */
  lemma InfinitizerClosedForm(column: seq<F>, row: seq<F>, minusInfinity: int)
    requires |column| == |row|
    ensures EvalInfinitizer(column, row, minusInfinity) == Mul(FromInt(minusInfinity), UpperTriangle(column, row))
  {
    hide Mul, Add, OneMinus, EvalZeroifier, FromInt, Neg;
    ZeroifierClosedForm(column, row);
    var e, f := Evals(column), Evals(row);
    EvalsSum(column);
    EvalsSum(row);
    forall k | 0 <= k < |e|
      ensures Add(UpTo(e)[k], After(e)[k]) == ONE
    {
      assert e[..k + 1] + e[k + 1..] == e;
      SumAppend(e[..k + 1], e[k + 1..]);
    }
    assert Plus(UpTo(e), After(e)) == Constant(|f|, ONE);
    DotPlus(f, UpTo(e), After(e));
    DotConstant(f, ONE);
    MulOne(ONE);
    Difference(LowerTriangle(column, row), UpperTriangle(column, row));
  }

  lemma Difference(a: F, b: F)
    requires Add(a, b) == ONE
    ensures Sub(ONE, a) == b
  {
    hide Add, Neg;
    AddComm(a, b);
    AddAssoc(b, a, Neg(a));
    AddNeg(a);
    AddZero(b);
  }
}
