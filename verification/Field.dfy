/** The prime field the prover computes in (the source is generic in `F: PrimeField`).

    `MODULUS` is an unspecified prime: every statement of this project that mentions
    field elements holds for whatever prime field the source is instantiated with.
    Callers reason with the ring laws below only; they hide the modular arithmetic. */
module Field {
  import opened Wrappers
  import opened Arithmetic

  ghost predicate IsPrime(p: int) {
    p >= 2 && forall d: int {:trigger p % d} :: 2 <= d < p ==> p % d != 0
  }

  type Prime = p: nat | IsPrime(p) witness 2

  const MODULUS: Prime

  type F = x: nat | x < MODULUS witness 0

  const ZERO: F := 0
  const ONE: F := 1

  // ---------------------------------------------------------------- reduction

  /** The residue class of an integer: `F::from` for naturals, `to_field` for signed elements. */
  function FromInt(x: int): F {
    x % MODULUS
  }

  lemma FromIntShift(x: int, k: int)
    ensures FromInt(x + k * MODULUS) == FromInt(x)
  {
    var m: int := MODULUS;
    assert x + k * m == (x / m + k) * m + x % m by {
      assert x == (x / m) * m + x % m;
      assert (x / m + k) * m == (x / m) * m + k * m;
    }
    QuotientUnique(x + k * m, m, x / m + k, x % m);
  }

  lemma FromIntSmall(a: F)
    ensures FromInt(a) == a
  {
    QuotientUnique(a, MODULUS, 0, a);
  }

  // ---------------------------------------------------------------- operations

  function Add(a: F, b: F): F {
    FromInt(a + b)
  }

  function Mul(a: F, b: F): F {
    FromInt(a * b)
  }

  function Neg(a: F): F {
    FromInt(0 - a as int)
  }

  function Sub(a: F, b: F): F {
    Add(a, Neg(b))
  }

  /** `FromInt` is a ring homomorphism. */
  lemma FromIntAdd(x: int, y: int)
    ensures FromInt(x + y) == Add(FromInt(x), FromInt(y))
  {
    var m: int := MODULUS;
    var k := x / m + y / m;
    assert x + y == (x % m + y % m) + k * m by {
      assert x == (x / m) * m + x % m;
      assert y == (y / m) * m + y % m;
      assert k * m == (x / m) * m + (y / m) * m;
    }
    FromIntShift(x % m + y % m, k);
  }

  lemma FromIntMul(x: int, y: int)
    ensures FromInt(x * y) == Mul(FromInt(x), FromInt(y))
  {
    var m: int := MODULUS;
    var qx, rx, qy, ry := x / m, x % m, y / m, y % m;
    var k := qx * y + rx * qy;
    assert x * y == rx * ry + k * m by {
      assert x == qx * m + rx;
      assert y == qy * m + ry;
      assert x * y == (qx * m) * y + rx * y;
      assert (qx * m) * y == (qx * y) * m;
      assert rx * y == rx * (qy * m) + rx * ry;
      assert rx * (qy * m) == (rx * qy) * m;
      assert k * m == (qx * y) * m + (rx * qy) * m;
    }
    FromIntShift(rx * ry, k);
  }

  lemma FromIntNeg(x: int)
    ensures FromInt(-x) == Neg(FromInt(x))
  {
    var m: int := MODULUS;
    assert -x == -(x % m) + (-(x / m)) * m by {
      assert x == (x / m) * m + x % m;
      assert (-(x / m)) * m == -((x / m) * m);
    }
    FromIntShift(-(x % m), -(x / m));
  }

  // ---------------------------------------------------------------- ring laws

  lemma AddComm(a: F, b: F)
    ensures Add(a, b) == Add(b, a)
  {}

  lemma AddAssoc(a: F, b: F, c: F)
    ensures Add(Add(a, b), c) == Add(a, Add(b, c))
  {
    FromIntSmall(a);
    FromIntSmall(b);
    FromIntSmall(c);
    var x: int, y: int, z: int := a, b, c;
    FromIntAdd(x + y, z);
    FromIntAdd(x, y + z);
    assert x + y + z == x + (y + z);
  }

  lemma AddZero(a: F)
    ensures Add(a, ZERO) == a && Add(ZERO, a) == a
  {
    FromIntSmall(a);
  }

  lemma AddNeg(a: F)
    ensures Add(a, Neg(a)) == ZERO && Add(Neg(a), a) == ZERO && Sub(a, a) == ZERO
  {
    FromIntSmall(a);
    var x: int := a;
    FromIntAdd(x, -x);
    FromIntSmall(ZERO);
  }

  lemma MulComm(a: F, b: F)
    ensures Mul(a, b) == Mul(b, a)
  {
    assert a * b == b * a;
  }

  lemma MulAssoc(a: F, b: F, c: F)
    ensures Mul(Mul(a, b), c) == Mul(a, Mul(b, c))
  {
    hide FromInt, Mul;
    FromIntSmall(a);
    FromIntSmall(b);
    FromIntSmall(c);
    var x: int, y: int, z: int := a, b, c;
    FromIntMul(x, y);
    FromIntMul(x * y, z);
    FromIntMul(y, z);
    FromIntMul(x, y * z);
    ProductAssociative(x, y, z);
  }

  lemma MulOne(a: F)
    ensures Mul(a, ONE) == a && Mul(ONE, a) == a
  {
    FromIntSmall(a);
  }

  lemma MulZero(a: F)
    ensures Mul(a, ZERO) == ZERO && Mul(ZERO, a) == ZERO
  {
    FromIntSmall(ZERO);
  }

  lemma Distrib(a: F, b: F, c: F)
    ensures Mul(a, Add(b, c)) == Add(Mul(a, b), Mul(a, c))
    ensures Mul(Add(b, c), a) == Add(Mul(b, a), Mul(c, a))
  {
    FromIntSmall(a);
    FromIntSmall(b);
    FromIntSmall(c);
    var x: int, y: int, z: int := a, b, c;
    FromIntMul(x, y + z);
    FromIntAdd(x * y, x * z);
    assert x * (y + z) == x * y + x * z;
    MulComm(a, Add(b, c));
    MulComm(a, b);
    MulComm(a, c);
  }

  lemma MulNegLeft(a: F, b: F)
    ensures Mul(Neg(a), b) == Neg(Mul(a, b))
  {
    var x: int, y: int := a, b;
    assert Mul(FromInt(-x), FromInt(y)) == FromInt(-(x * y)) by {
      FromIntMul(-x, y);
      assert (-x) * y == -(x * y);
    }
    FromIntNeg(x * y);
    FromIntMul(x, y);
    FromIntNeg(x);
    FromIntSmall(a);
    FromIntSmall(b);
  }

  lemma MulNeg(a: F, b: F)
    ensures Mul(Neg(a), b) == Neg(Mul(a, b)) && Mul(a, Neg(b)) == Neg(Mul(a, b))
  {
    hide Mul, Neg;
    MulNegLeft(a, b);
    MulNegLeft(b, a);
    MulComm(a, Neg(b));
    MulComm(a, b);
  }

  // ---------------------------------------------------------------- rearrangements

  /** (a + b) + (c + d) == (a + c) + (b + d) */
  lemma AddSwap(a: F, b: F, c: F, d: F)
    ensures Add(Add(a, b), Add(c, d)) == Add(Add(a, c), Add(b, d))
  {
    hide Add;
    AddAssoc(a, b, Add(c, d));
    AddAssoc(b, c, d);
    AddComm(b, c);
    AddAssoc(c, b, d);
    AddAssoc(a, c, Add(b, d));
  }

  /** (a b) (c d) == (a c) (b d) */
  lemma MulSwap(a: F, b: F, c: F, d: F)
    ensures Mul(Mul(a, b), Mul(c, d)) == Mul(Mul(a, c), Mul(b, d))
  {
    hide Mul;
    MulAssoc(a, b, Mul(c, d));
    MulAssoc(b, c, d);
    MulComm(b, c);
    MulAssoc(c, b, d);
    MulAssoc(a, c, Mul(b, d));
  }

  lemma AddCancel(a: F, b: F, c: F)
    requires Add(a, b) == Add(a, c)
    ensures b == c
  {
    hide Add, Neg;
    AddNeg(a);
    AddAssoc(Neg(a), a, b);
    AddAssoc(Neg(a), a, c);
    AddZero(b);
    AddZero(c);
  }

  lemma SubZeroMeansEqual(a: F, b: F)
    ensures Sub(a, b) == ZERO <==> a == b
  {
    hide Add, Neg;
    AddNeg(b);
    AddNeg(a);
    if Sub(a, b) == ZERO {
      AddComm(a, Neg(b));
      AddCancel(Neg(b), a, b);
    }
  }

  // ---------------------------------------------------------------- inverses

  /** The remainder of the modulus by a residue other than 0 and 1: primality keeps it non-zero. */
  function RemainderBy(a: F): (r: F)
    requires a >= 2
    ensures r != ZERO && r < a && MODULUS == QuotientBy(a) * a + r
  {
    (MODULUS as int) % (a as int)
  }

  function QuotientBy(a: F): int
    requires a >= 2
  {
    (MODULUS as int) / (a as int)
  }

  /** The inverse of a non-zero residue of a prime, by descent on the remainders. */
  function InverseOf(a: F): (b: F)
    requires a != ZERO
    ensures Mul(a, b) == ONE
    decreases a
  {
    hide RemainderBy, QuotientBy, Mul, Neg, FromInt;
    if a == 1 then
      MulOne(ONE);
      ONE
    else
      var c := InverseOf(RemainderBy(a));
      InverseStep(a, QuotientBy(a), RemainderBy(a), c);
      Neg(Mul(FromInt(QuotientBy(a)), c))
  }

  lemma InverseStep(a: F, q: int, r: F, c: F)
    requires MODULUS == q * a + r && Mul(r, c) == ONE
    ensures Mul(a, Neg(Mul(FromInt(q), c))) == ONE
  {
    hide FromInt, Mul, Neg;
    var m: int, x: int, y: int, z: int := MODULUS, a, r, c;
    FromIntSmall(a);
    FromIntSmall(r);
    FromIntSmall(c);
    FromIntMul(y, z);
    FromIntMul(q, z);
    FromIntNeg(q * z);
    FromIntMul(x, -(q * z));
    RemainderTimes(m, q, x, y, z);
    FromIntShift(y * z, -z);
  }

  lemma RemainderTimes(m: int, q: int, x: int, y: int, z: int)
    requires m == q * x + y
    ensures x * (-(q * z)) == y * z + (-z) * m
  {
    assert m * z == (q * x) * z + y * z;
    assert (q * x) * z == x * (q * z);
    assert x * (-(q * z)) == -(x * (q * z));
    assert (-z) * m == -(m * z);
  }


  /** `Field::inverse`: none for zero only. */
  function Inverse(a: F): (r: Option<F>)
    ensures r.None? <==> a == ZERO
    ensures r.Some? ==> Mul(a, r.value) == ONE
  {
    if a == ZERO then None else Some(InverseOf(a))
  }

  /** A prime field has no zero divisors. */
  lemma NoZeroDivisors(a: F, b: F)
    requires Mul(a, b) == ZERO
    ensures a == ZERO || b == ZERO
  {
    hide Mul;
    if a != ZERO {
      var c := InverseOf(a);
      MulComm(a, c);
      MulAssoc(c, a, b);
      MulOne(b);
      MulZero(c);
    }
  }

  // ---------------------------------------------------------------- powers

  function Pow(w: F, e: nat): F {
    if e == 0 then ONE else Mul(w, Pow(w, e - 1))
  }

  lemma {:induction false} PowAdd(w: F, d: nat, e: nat)
    ensures Pow(w, d + e) == Mul(Pow(w, d), Pow(w, e))
  {
    hide Mul;
    if d == 0 {
      MulOne(Pow(w, e));
    } else {
      PowAdd(w, d - 1, e);
      MulAssoc(w, Pow(w, d - 1), Pow(w, e));
    }
  }

  lemma {:induction false} PowMul(w: F, d: nat, e: nat)
    ensures Pow(w, d * e) == Pow(Pow(w, d), e)
  {
    hide Mul;
    if e == 0 {
      assert d * e == 0;
    } else {
      PowMul(w, d, e - 1);
      assert d * e == d + d * (e - 1);
      PowAdd(w, d, d * (e - 1));
    }
  }

  lemma {:induction false} PowOne(e: nat)
    ensures Pow(ONE, e) == ONE
  {
    hide Mul;
    if e > 0 {
      PowOne(e - 1);
      MulOne(ONE);
    }
  }

  lemma {:induction false} PowOfProduct(a: F, b: F, e: nat)
    ensures Pow(Mul(a, b), e) == Mul(Pow(a, e), Pow(b, e))
  {
    hide Mul;
    if e == 0 {
      MulOne(ONE);
    } else {
      PowOfProduct(a, b, e - 1);
      MulSwap(a, b, Pow(a, e - 1), Pow(b, e - 1));
    }
  }

  lemma Pow1(w: F)
    ensures Pow(w, 1) == w
  {
    hide Mul;
    MulOne(w);
    assert Pow(w, 1) == Mul(w, Pow(w, 0));
  }

  lemma Pow2Is(w: F)
    ensures Pow(w, 2) == Mul(w, w)
  {
    hide Mul;
    Pow1(w);
    assert Pow(w, 2) == Mul(w, Pow(w, 1));
  }
}
