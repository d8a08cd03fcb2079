/** Shapes in row-major order, of `zkml/src/shape.rs`. */
module Shapes {
  import opened Wrappers
  import opened Arithmetic

  type Shape = seq<nat>

  /** A product that proofs hide, to keep multiplication away from the solver. */
  function Times(a: nat, b: nat): nat {
    a * b
  }

  lemma TimesMonotone(a: nat, b: nat, m: nat)
    requires a <= b
    ensures Times(a, m) <= Times(b, m)
  {
    ProductMonotone(a, b, m);
  }

  lemma TimesNext(a: nat, m: nat)
    ensures Times(a + 1, m) == Times(a, m) + m && Times(0, m) == 0 && Times(1, m) == m
  {}

  lemma TimesSum(n: nat, k: nat, m: nat)
    ensures Times(n + k, m) == Times(n, m) + Times(k, m)
  {}

  datatype ShapeError = RankMismatch | OutOfBounds(dim: nat) | PointLength | DimensionMismatch(dim: nat) | Underflow(dim: nat)

  function Product(s: Shape): nat {
    if s == [] then 1 else s[0] * Product(s[1..])
  }

  /** `strides`: a scan from the last dimension, then reversed. */
  function StridesWith(s: Shape, state: nat): (r: seq<nat>)
    ensures |r| == |s|
  {
    if s == [] then [] else StridesWith(s[..|s| - 1], state * s[|s| - 1]) + [state]
  }

  function Strides(s: Shape): (r: seq<nat>)
    ensures |r| == |s|
  {
    StridesWith(s, 1)
  }

  function IndexFrom(s: Shape, strides: seq<nat>, coordinate: seq<nat>, dim: nat, acc: nat): Result<nat, ShapeError>
    requires |s| == |strides| == |coordinate| && dim <= |s|
    decreases |s| - dim
  {
    if dim == |s| then Ok(acc)
    else if coordinate[dim] >= s[dim] then Err(OutOfBounds(dim))
    else IndexFrom(s, strides, coordinate, dim + 1, acc + coordinate[dim] * strides[dim])
  }

  /** `get_index` */
  function GetIndex(s: Shape, coordinate: seq<nat>): Result<nat, ShapeError> {
    if |coordinate| != |s| then Err(RankMismatch)
    else IndexFrom(s, Strides(s), coordinate, 0, 0)
  }

  // ---------------------------------------------------------------- row-major order

  predicate InBounds(s: Shape, c: seq<nat>) {
    |c| == |s| && forall i :: 0 <= i < |s| ==> c[i] < s[i]
  }

  /** The number of a coordinate when the last dimension varies fastest. */
  function RowMajor(s: Shape, c: seq<nat>): nat
    requires |c| == |s|
  {
    if s == [] then 0 else c[0] * Product(s[1..]) + RowMajor(s[1..], c[1..])
  }

  /** The coordinate with a given number. */
  function Coordinate(s: Shape, i: nat): (c: seq<nat>)
    requires i < Product(s)
    ensures |c| == |s|
  {
    if s == [] then []
    else
      PositiveTail(s);
      [i / Product(s[1..])] + Coordinate(s[1..], i % Product(s[1..]))
  }

  lemma PositiveTail(s: Shape)
    requires s != [] && Product(s) > 0
    ensures s[0] > 0 && Product(s[1..]) > 0
  {
    var d: int, m: int := s[0], Product(s[1..]);
    assert d * m > 0;
    assert d == 0 ==> d * m == 0;
    assert m == 0 ==> d * m == 0;
  }

  lemma {:induction false} ProductSnoc(s: Shape, d: nat)
    ensures Product(s + [d]) == Product(s) * d
  {
    if s == [] {
      assert ([] + [d])[1..] == [];
    } else {
      ProductSnoc(s[1..], d);
      assert (s + [d])[1..] == s[1..] + [d];
      TimesAssociative(s[0], Product(s[1..]), d);
    }
  }

  lemma TimesAssociative(a: nat, b: nat, c: nat)
    ensures a * (b * c) == a * b * c
  {}

  /** Each stride is the size of what lies behind its dimension. */
  lemma {:induction false} StrideAt(s: Shape, state: nat, i: nat)
    requires i < |s|
    ensures StridesWith(s, state)[i] == Product(s[i + 1..]) * state
  {
    var k := |s| - 1;
    if i < k {
      StrideAt(s[..k], state * s[k], i);
      assert s[i + 1..] == s[..k][i + 1..] + [s[k]];
      ProductSnoc(s[..k][i + 1..], s[k]);
      TimesAssociative(Product(s[..k][i + 1..]), s[k], state);
      assert state * s[k] == s[k] * state;
    }
  }

  /** The error names the first dimension in which the coordinate is out of bounds. */
  ghost predicate FirstOutside(s: Shape, c: seq<nat>, dim: nat)
    requires |c| == |s|
  {
    dim < |s| && c[dim] >= s[dim] && forall j :: 0 <= j < dim ==> c[j] < s[j]
  }

  lemma {:induction false} IndexFromIs(s: Shape, c: seq<nat>, dim: nat, acc: nat)
    requires |c| == |s| && dim <= |s| && (forall i :: 0 <= i < dim ==> c[i] < s[i])
    ensures InBounds(s, c) ==> IndexFrom(s, Strides(s), c, dim, acc) == Ok(acc + RowMajor(s[dim..], c[dim..]))
    ensures !InBounds(s, c) ==>
      exists d: nat :: FirstOutside(s, c, d) && IndexFrom(s, Strides(s), c, dim, acc) == Err(OutOfBounds(d))
    decreases |s| - dim
  {
    hide StridesWith;
    if dim < |s| && c[dim] < s[dim] {
      StrideAt(s, 1, dim);
      IndexFromIs(s, c, dim + 1, acc + c[dim] * Strides(s)[dim]);
      assert s[dim..][1..] == s[dim + 1..] && c[dim..][1..] == c[dim + 1..];
    } else if dim < |s| {
      assert FirstOutside(s, c, dim);
    }
  }

  /** `get_index` succeeds exactly inside the shape and is then the row-major number. */
  lemma GetIndexIsRowMajor(s: Shape, c: seq<nat>)
    ensures GetIndex(s, c).Ok? <==> InBounds(s, c)
    ensures GetIndex(s, c).Ok? ==> GetIndex(s, c) == Ok(RowMajor(s, c))
    ensures |c| != |s| <==> GetIndex(s, c) == Err(RankMismatch)
    ensures |c| == |s| && !InBounds(s, c) ==> exists d: nat :: FirstOutside(s, c, d) && GetIndex(s, c) == Err(OutOfBounds(d))
  {
    if |c| == |s| {
      IndexFromIs(s, c, 0, 0);
      assert s[0..] == s && c[0..] == c;
    }
  }

  lemma {:induction false} RowMajorBound(s: Shape, c: seq<nat>)
    requires InBounds(s, c)
    ensures RowMajor(s, c) < Product(s)
  {
    if s != [] {
      RowMajorBound(s[1..], c[1..]);
      var m := Product(s[1..]);
      assert (c[0] + 1) * m <= s[0] * m by { ProductMonotone(c[0] + 1, s[0], m); }
      assert (c[0] + 1) * m == c[0] * m + m;
    }
  }

  /** Numbers and coordinates are in one-to-one correspondence. */
  lemma {:induction false} IndexRoundTrip(s: Shape, i: nat)
    requires i < Product(s)
    ensures InBounds(s, Coordinate(s, i)) && RowMajor(s, Coordinate(s, i)) == i
  {
    if s != [] {
      PositiveTail(s);
      var m := Product(s[1..]);
      var c := Coordinate(s, i);
      IndexRoundTrip(s[1..], i % m);
      assert c[1..] == Coordinate(s[1..], i % m);
      assert i == i / m * m + i % m;
      if i / m >= s[0] {
        ProductMonotone(s[0], i / m, m);
      }
      forall j | 0 <= j < |s|
        ensures c[j] < s[j]
      {
        if j > 0 {
          assert c[1..][j - 1] < s[1..][j - 1];
        }
      }
    }
  }

  lemma {:induction false} CoordinateRoundTrip(s: Shape, c: seq<nat>)
    requires InBounds(s, c)
    ensures RowMajor(s, c) < Product(s) && Coordinate(s, RowMajor(s, c)) == c
  {
    RowMajorBound(s, c);
    if s != [] {
      RowMajorBound(s[1..], c[1..]);
      CoordinateRoundTrip(s[1..], c[1..]);
      QuotientUnique(RowMajor(s, c), Product(s[1..]), c[0], RowMajor(s[1..], c[1..]));
    }
  }
}

/** Points of padded tensors, of `zkml/src/shape.rs`. */
module ShapePoints {
  import opened Wrappers
  import opened Bits
  import opened Field
  import opened Sums
  import opened Mle
  import opened Zeroifier
  import opened Shapes

  // ---------------------------------------------------------------- padding

  /** The least l with n <= 2^l. */
  function CeilLog2(n: nat): (l: nat)
    ensures n <= Pow2(l)
  {
    if n <= 1 then 0 else 1 + CeilLog2((n + 1) / 2)
  }

  lemma {:induction false} CeilLog2Least(n: nat, k: nat)
    requires n <= Pow2(k)
    ensures CeilLog2(n) <= k
    decreases k
  {
    if n > 1 {
      CeilLog2Least((n + 1) / 2, k - 1);
    }
  }

  /** `usize::next_power_of_two` */
  function NextPow2(n: nat): (p: nat)
    ensures p >= n && p >= 1
  {
    Pow2(CeilLog2(n))
  }

  function Padded(s: Shape): (p: Shape)
    ensures |p| == |s| && forall i :: 0 <= i < |s| ==> p[i] == NextPow2(s[i])
  {
    seq(|s|, i requires 0 <= i < |s| => NextPow2(s[i]))
  }

  /** `num_vars`, summed. */
  function Vars(s: Shape): nat {
    if s == [] then 0 else CeilLog2(s[0]) + Vars(s[1..])
  }

  lemma {:induction false} PaddedSize(s: Shape)
    ensures Product(Padded(s)) == Pow2(Vars(s))
  {
    if s != [] {
      PaddedSize(s[1..]);
      assert Padded(s)[1..] == Padded(s[1..]);
      Pow2Add(CeilLog2(s[0]), Vars(s[1..]));
    }
  }

  /** On powers of two this is `ilog2`. */
  lemma CeilLog2IsLog2(n: nat)
    requires IsPowerOfTwo(n)
    ensures CeilLog2(n) == Log2(n)
  {
    CeilLog2OfPow2(Log2(n));
  }

  lemma CeilLog2OfPow2(l: nat)
    ensures CeilLog2(Pow2(l)) == l
  {
    hide CeilLog2;
    var c := CeilLog2(Pow2(l));
    CeilLog2Least(Pow2(l), l);
    assert Pow2(c + 1) == 2 * Pow2(c);
    if c < l {
      Pow2Monotone(c + 1, l);
    }
  }

  lemma {:induction false} PaddedVars(s: Shape)
    ensures Vars(Padded(s)) == Vars(s)
  {
    if s != [] {
      PaddedVars(s[1..]);
      assert Padded(s)[1..] == Padded(s[1..]);
      CeilLog2OfPow2(CeilLog2(s[0]));
    }
  }

  // ---------------------------------------------------------------- splitting a point

  /** `split_point` on a padded shape: the first dimension takes the last coordinates. */
  function SplitFrom(s: Shape, point: seq<F>, end: nat): (slices: seq<seq<F>>)
    requires end <= |point| && Vars(s) <= end
    ensures |slices| == |s|
    decreases |s|
  {
    if s == [] then []
    else
      var start := end - CeilLog2(s[0]);
      [point[start..end]] + SplitFrom(s[1..], point, start)
  }

  function SplitPoint(s: Shape, point: seq<F>): Result<seq<seq<F>>, ShapeError> {
    if |point| != Vars(s) then Err(PointLength) else Ok(SplitFrom(s, point, |point|))
  }

  /** The slices put back together, the first one last. */
  function Joined(slices: seq<seq<F>>): seq<F> {
    if slices == [] then [] else Joined(slices[1..]) + slices[0]
  }

  /** Each dimension gets its own coordinates, and none is lost or moved. */
  lemma {:induction false} SplitJoins(s: Shape, point: seq<F>, end: nat)
    requires end <= |point| && Vars(s) == end
    ensures Joined(SplitFrom(s, point, end)) == point[..end]
    ensures forall i :: 0 <= i < |s| ==> |SplitFrom(s, point, end)[i]| == CeilLog2(s[i])
    decreases |s|
  {
    hide CeilLog2;
    if s != [] {
      var start := end - CeilLog2(s[0]);
      SplitJoins(s[1..], point, start);
      var slices, rest := SplitFrom(s, point, end), SplitFrom(s[1..], point, start);
      assert slices == [point[start..end]] + rest;
      assert slices[1..] == rest;
      hide SplitFrom, Vars;
    }
  }

  predicate PowersOfTwo(s: Shape) {
    forall i :: 0 <= i < |s| ==> IsPowerOfTwo(s[i])
  }

  /** `num_vars`, which demands powers of two. */
  function NumVars(s: Shape): seq<nat>
    requires PowersOfTwo(s)
  {
    seq(|s|, i requires 0 <= i < |s| => Log2(s[i]))
  }

  /** On the shapes it is defined for, splitting succeeds exactly on points with one coordinate for each variable, and slice
      i has the variables of dimension i. */
  lemma SplitPointIs(s: Shape, point: seq<F>)
    requires PowersOfTwo(s)
    ensures var r := SplitPoint(s, point);
      && (r.Ok? <==> |point| == Vars(s))
      && (r.Ok? ==> |r.value| == |s| && Joined(r.value) == point && forall i :: 0 <= i < |s| ==> |r.value[i]| == NumVars(s)[i])
  {
    hide CeilLog2, Log2, Pow2, SplitFrom, Joined;
    if |point| == Vars(s) {
      SplitJoins(s, point, |point|);
      assert point[..|point|] == point;
      forall i | 0 <= i < |s|
        ensures CeilLog2(s[i]) == NumVars(s)[i]
      {
        CeilLog2IsLog2(s[i]);
      }
    }
  }

  // ---------------------------------------------------------------- broadcasting

  /** The factor of a dimension that was broadcast from size one. */
  function DimFactor(full: nat, point: seq<F>): F
    requires full >= 1
  {
    EvalZeroifier(point, BitPoint(full - 1, |point|))
  }

  function BroadcastFrom(s: Shape, points: seq<seq<F>>, narrow: Shape, i: nat, eval: F): Result<F, ShapeError>
    requires |points| == |narrow| == |s| && i <= |s|
    decreases |s| - i
  {
    if i == |s| then Ok(eval)
    else if narrow[i] == 1 then
      if s[i] == 0 then Err(Underflow(i))
      else BroadcastFrom(s, points, narrow, i + 1, Mul(eval, DimFactor(s[i], points[i])))
    else if s[i] != narrow[i] then Err(DimensionMismatch(i))
    else BroadcastFrom(s, points, narrow, i + 1, eval)
  }

  /** `broadcasting_evaluation`; `Underflow` stands for the panic at a broadcast dimension of size zero. */
  function BroadcastingEvaluation(s: Shape, points: seq<seq<F>>, narrow: Shape): Result<F, ShapeError> {
    if |narrow| != |s| || |points| != |s| then Err(RankMismatch)
    else BroadcastFrom(s, points, narrow, 0, ONE)
  }

  /** Dimension i is kept, or broadcast from size one. */
  predicate Fits(s: Shape, narrow: Shape, i: nat)
    requires |narrow| == |s| && i < |s|
  {
    if narrow[i] == 1 then s[i] >= 1 else narrow[i] == s[i]
  }

  predicate Compatible(s: Shape, narrow: Shape) {
    |narrow| == |s| && forall i :: 0 <= i < |s| ==> Fits(s, narrow, i)
  }

  /** What one dimension contributes: the equality polynomial summed over the indices up to the last unpadded one, of which
      the point holds the low bits. */
  function Contribution(full: nat, point: seq<F>, narrow: nat): (x: F)
    requires narrow == 1 ==> full >= 1
    ensures narrow == 1 && full <= Pow2(|point|) ==> x == Sum(Evals(point)[..full])
  {
    if narrow == 1 then
      LowBits(full, |point|);
      Sum(Evals(point)[..(full - 1) % Pow2(|point|) + 1])
    else ONE
  }

  lemma LowBits(full: nat, length: nat)
    requires full >= 1
    ensures (full - 1) % Pow2(length) < Pow2(length)
    ensures full <= Pow2(length) ==> (full - 1) % Pow2(length) == full - 1
  {
    if full <= Pow2(length) {
      SmallMod(full - 1, Pow2(length));
    }
  }

  /** The first dimension that does not fit decides the error. */
  ghost predicate FirstMisfit(s: Shape, narrow: Shape, i: nat, error: ShapeError)
    requires |narrow| == |s|
  {
    && i < |s| && (forall j :: 0 <= j < i ==> Fits(s, narrow, j)) && !Fits(s, narrow, i)
    && error == if narrow[i] == 1 then Underflow(i) else DimensionMismatch(i)
  }

  function Contributions(s: Shape, points: seq<seq<F>>, narrow: Shape, i: nat): F
    requires |points| == |narrow| == |s| && i <= |s|
    requires forall j :: 0 <= j < i ==> Fits(s, narrow, j)
  {
    if i == 0 then ONE
    else
      assert Fits(s, narrow, i - 1);
      Mul(Contributions(s, points, narrow, i - 1), Contribution(s[i - 1], points[i - 1], narrow[i - 1]))
  }

  lemma DimFactorIs(full: nat, point: seq<F>)
    requires full >= 1
    ensures DimFactor(full, point) == Contribution(full, point, 1)
  {
    hide Evals, EvalZeroifier, BitPoint, Pow2;
    ZeroifierAgainstBits(point, full - 1, |point|);
  }

  lemma {:induction false} BroadcastFromIs(s: Shape, points: seq<seq<F>>, narrow: Shape, i: nat)
    requires |points| == |narrow| == |s| && i <= |s|
    requires forall j :: 0 <= j < i ==> Fits(s, narrow, j)
    ensures var r := BroadcastFrom(s, points, narrow, i, Contributions(s, points, narrow, i));
      && (r.Ok? <==> Compatible(s, narrow))
      && (r.Ok? ==> r.value == Contributions(s, points, narrow, |s|))
      && (r.Err? ==> exists d: nat :: FirstMisfit(s, narrow, d, r.error))
    decreases |s| - i
  {
    hide Mul, DimFactor, Evals, Contribution;
    if i < |s| && Fits(s, narrow, i) {
      if narrow[i] == 1 {
        DimFactorIs(s[i], points[i]);
      } else {
        ContributionKept(s[i], points[i], narrow[i]);
      }
      MulOne(Contributions(s, points, narrow, i));
      BroadcastFromIs(s, points, narrow, i + 1);
    } else if i < |s| {
      assert FirstMisfit(s, narrow, i, if narrow[i] == 1 then Underflow(i) else DimensionMismatch(i));
    }
  }

  lemma ContributionKept(full: nat, point: seq<F>, narrow: nat)
    requires narrow != 1
    ensures Contribution(full, point, narrow) == ONE
  {}

  /** The broadcasting evaluation succeeds exactly on compatible shapes, and is the product over the broadcast
      dimensions of the sums of the equality polynomial over the indices below the full size. */
  lemma BroadcastingClosedForm(s: Shape, points: seq<seq<F>>, narrow: Shape)
    ensures BroadcastingEvaluation(s, points, narrow).Ok? <==> |points| == |s| && Compatible(s, narrow)
    ensures |points| == |s| && Compatible(s, narrow) ==>
      BroadcastingEvaluation(s, points, narrow) == Ok(Contributions(s, points, narrow, |s|))
    ensures |narrow| != |s| || |points| != |s| <==> BroadcastingEvaluation(s, points, narrow) == Err(RankMismatch)
    ensures |points| == |narrow| == |s| && !Compatible(s, narrow) ==>
      exists d: nat :: FirstMisfit(s, narrow, d, BroadcastingEvaluation(s, points, narrow).error)
  {
    if |points| == |narrow| == |s| {
      BroadcastFromIs(s, points, narrow, 0);
    }
  }

  // ---------------------------------------------------------------- batching

  /** `batching.flat_map(|c| evals.take(d).map(|e| c * e))` */
  function Outer(a: seq<F>, b: seq<F>): seq<F> {
    if a == [] then [] else Outer(a[..|a| - 1], b) + Scale(a[|a| - 1], b)
  }

  function Take(s: seq<F>, n: nat): seq<F> {
    if n <= |s| then s[..n] else s
  }

  /** The fold of `compute_eq_point_and_batching_challenges` from dimension i on. */
  function FoldDims(slices: seq<seq<F>>, s: Shape, i: nat, skip: nat, eq: seq<F>, batching: seq<F>): (seq<F>, seq<F>)
    requires |slices| == |s| && i <= |s|
    decreases |s| - i
  {
    if i == |s| then (eq, batching)
    else if i < skip then FoldDims(slices, s, i + 1, skip, eq, Outer(batching, Take(Evals(slices[i]), s[i])))
    else FoldDims(slices, s, i + 1, skip, slices[i] + eq, batching)
  }

  function Skipped(s: Shape): nat {
    if |s| >= 2 then |s| - 2 else 0
  }

  /** `compute_eq_point_and_batching_challenges` of an unpadded shape. */
  function EqPointAndBatching(s: Shape, point: seq<F>): Result<(seq<F>, seq<F>), ShapeError> {
    if |point| != CeilLog2(Product(Padded(s))) then Err(PointLength)
    else match SplitPoint(Padded(s), point)
      case Err(error) => Err(error)
      case Ok(slices) => if |slices| == |s| then Ok(FoldDims(slices, s, 0, Skipped(s), [], [ONE])) else Err(RankMismatch)
  }

  // ---------------------------------------------------------------- what it is for

  /** The padded two-dimensional sub-tensors of t, in row-major order of the unpadded leading coordinates. */
  function SubTensors(s: Shape, t: seq<F>): seq<seq<F>>
    requires |t| == Product(Padded(s))
    decreases |s|, 1, 0
  {
    if |s| <= 2 then [t]
    else
      RowCount(s);
      SubRows(s, t, s[0])
  }

  function RowSize(s: Shape): nat
    requires s != []
  {
    Product(Padded(s[1..]))
  }

  lemma RowCount(s: Shape)
    requires s != []
    ensures Product(Padded(s)) == Times(NextPow2(s[0]), RowSize(s)) && Times(s[0], RowSize(s)) <= Product(Padded(s))
  {
    assert Padded(s)[1..] == Padded(s[1..]);
    TimesMonotone(s[0], NextPow2(s[0]), RowSize(s));
  }

  function Row(s: Shape, t: seq<F>, a: nat): (r: seq<F>)
    requires s != [] && Times(a + 1, RowSize(s)) <= |t|
    ensures |r| == Product(Padded(s[1..]))
  {
    TimesNext(a, RowSize(s));
    t[Times(a, RowSize(s))..Times(a + 1, RowSize(s))]
  }

  function SubRows(s: Shape, t: seq<F>, k: nat): seq<seq<F>>
    requires |s| > 2 && Times(k, RowSize(s)) <= |t|
    decreases |s|, 0, k
  {
    if k == 0 then []
    else
      TimesMonotone(k - 1, k, RowSize(s));
      SubRows(s, t, k - 1) + SubTensors(s[1..], Row(s, t, k - 1))
  }

  /** Beyond the unpadded size of every leading dimension there are only zeros. */
  ghost predicate ZeroPadded(s: Shape, t: seq<F>)
    requires |t| == Product(Padded(s))
    decreases |s|, 1
  {
    if |s| <= 2 then true
    else
      RowCount(s);
      && (forall j :: Times(s[0], RowSize(s)) <= j < |t| ==> t[j] == ZERO)
      && forall a: nat :: a < s[0] ==> RowPadded(s, t, a)
  }

  ghost predicate RowPadded(s: Shape, t: seq<F>, a: nat)
    requires |s| > 2
    decreases |s|, 0
  {
    Times(a + 1, RowSize(s)) <= |t| && ZeroPadded(s[1..], Row(s, t, a))
  }

  ghost predicate AllSized(ts: seq<seq<F>>, n: nat) {
    forall i :: 0 <= i < |ts| ==> |ts[i]| == n
  }

  /** The multilinear extensions of the given tables at p. */
  ghost function MleAll(ts: seq<seq<F>>, p: seq<F>): (r: seq<F>)
    requires AllSized(ts, Pow2(|p|))
    ensures |r| == |ts| && forall i :: 0 <= i < |ts| ==> r[i] == MleAt(ts[i], p)
  {
    seq(|ts|, i requires 0 <= i < |ts| => MleAt(ts[i], p))
  }

  // ---------------------------------------------------------------- the fold, dimension by dimension

  lemma CeilLog2OfNext(n: nat)
    ensures CeilLog2(NextPow2(n)) == CeilLog2(n)
  {
    CeilLog2OfPow2(CeilLog2(n));
  }

  lemma {:induction false} VarsTail(s: Shape, i: nat)
    requires i < |s|
    ensures Vars(s[i..]) == CeilLog2(s[i]) + Vars(s[i + 1..]) && Vars(s[i..]) <= Vars(s)
    decreases i
  {
    assert s[i..][1..] == s[i + 1..];
    if i > 0 {
      VarsTail(s[1..], i - 1);
      assert s[1..][i - 1..] == s[i..];
    } else {
      assert s[0..] == s;
    }
  }

  /** The coordinates of dimension i. */
  lemma {:induction false} SliceAt(s: Shape, point: seq<F>, i: nat)
    requires i < |s| && Vars(s) <= |point|
    ensures Vars(Padded(s)) == Vars(s) && Vars(s[i + 1..]) <= Vars(s[i..]) <= |point|
    ensures SplitFrom(Padded(s), point, Vars(s))[i] == point[Vars(s[i + 1..])..Vars(s[i..])]
    decreases |s|
  {
    PaddedVars(s);
    VarsTail(s, i);
    assert Padded(s)[1..] == Padded(s[1..]);
    CeilLog2OfNext(s[0]);
    if i == 0 {
      assert s[0..] == s;
    } else {
      SliceAt(s[1..], point, i - 1);
      assert s[1..][i..] == s[i + 1..] && s[1..][i - 1..] == s[i..];
    }
  }

  /** The batching vector, from the first dimension: outer products of the equality polynomials. */
  function BatchingOf(s: Shape, point: seq<F>): seq<F>
    requires |point| == Vars(s)
  {
    if |s| <= 2 then [ONE]
    else
      var low := Vars(s[1..]);
      Outer(Take(Evals(point[low..]), s[0]), BatchingOf(s[1..], point[..low]))
  }

  /** The coordinates of the last two dimensions: a prefix of the point. */
  function EqPointOf(s: Shape, point: seq<F>): seq<F>
    requires |point| == Vars(s)
  {
    VarsSkipped(s);
    point[..Vars(s[Skipped(s)..])]
  }

  lemma VarsSkipped(s: Shape)
    ensures Vars(s[Skipped(s)..]) <= Vars(s)
  {
    if Skipped(s) < |s| {
      VarsTail(s, Skipped(s));
    } else {
      assert s[Skipped(s)..] == [];
    }
  }

  /** The product of the equality polynomials of the dimensions, each at its coordinate. */
  function EqProduct(slices: seq<seq<F>>, c: seq<nat>): F
    requires |slices| == |c|
  {
    if c == [] then ONE else Mul(Eq(c[0], slices[0]), EqProduct(slices[1..], c[1..]))
  }

  lemma {:induction false} OuterAt(a: seq<F>, b: seq<F>, i: nat, j: nat)
    requires i < |a| && j < |b|
    ensures |Outer(a, b)| == Times(|a|, |b|) && Times(i, |b|) + j < |Outer(a, b)|
    ensures Outer(a, b)[Times(i, |b|) + j] == Mul(a[i], b[j])
    decreases |a|
  {
    hide Mul, Times;
    var k := |a| - 1;
    TimesNext(k, |b|);
    if i < k {
      OuterAt(a[..k], b, i, j);
    } else {
      OuterSize(a[..k], b);
    }
  }

  lemma {:induction false} OuterSize(a: seq<F>, b: seq<F>)
    ensures |Outer(a, b)| == Times(|a|, |b|)
  {
    hide Mul, Times, Scale;
    if a == [] {
      TimesNext(0, |b|);
    } else {
      TimesNext(|a| - 1, |b|);
      OuterSize(a[..|a| - 1], b);
    }
  }

  lemma {:induction false} BatchingSize(s: Shape, point: seq<F>)
    requires |point| == Vars(s)
    ensures |BatchingOf(s, point)| == Product(Leading(s))
    decreases |s|
  {
    hide Outer, Evals, Times;
    if |s| > 2 {
      var low := Vars(s[1..]);
      BatchingSize(s[1..], point[..low]);
      OuterSize(Take(Evals(point[low..]), s[0]), BatchingOf(s[1..], point[..low]));
      LeadingTail(s);
      SizeIsTimes(Leading(s));
    }
  }

  lemma SizeIsTimes(s: Shape)
    requires s != []
    ensures Product(s) == Times(s[0], Product(s[1..]))
  {}

  lemma {:induction false} BatchingOfAt(s: Shape, point: seq<F>, c: seq<nat>)
    requires |point| == Vars(s) == Vars(Padded(s)) && InBounds(Leading(s), c)
    ensures RowMajor(Leading(s), c) < |BatchingOf(s, point)|
    ensures BatchingOf(s, point)[RowMajor(Leading(s), c)] == EqProduct(SplitFrom(Padded(s), point, |point|)[..Skipped(s)], c)
    decreases |s|
  {
    hide Outer, Evals, Times, Eq, Mul, Product, RowMajor, CeilLog2, NextPow2;
    if |s| <= 2 {
      assert c == [];
      EmptyNumber(Leading(s), c);
    } else {
      var low, a, d := Vars(s[1..]), c[0], c[1..];
      LeadingTail(s);
      PaddedVars(s[1..]);
      assert InBounds(Leading(s[1..]), d);
      BatchingOfAt(s[1..], point[..low], d);
      Numbers(s, c);
      BatchingSize(s[1..], point[..low]);
      var high := Evals(point[low..]);
      OuterAt(Take(high, s[0]), BatchingOf(s[1..], point[..low]), a, RowMajor(Leading(s[1..]), d));
      EvalsAt(point[low..], a);
      LeadingSlices(s, point);
    }
  }

  /** The slices depend on the coordinates they divide only. */
  lemma {:induction false} SplitPrefix(s: Shape, p: seq<F>, q: seq<F>, end: nat)
    requires Vars(s) <= end <= |p| && end <= |q| && p[..end] == q[..end]
    ensures SplitFrom(s, p, end) == SplitFrom(s, q, end)
    decreases |s|
  {
    hide CeilLog2;
    if s != [] {
      var start := end - CeilLog2(s[0]);
      assert p[..end][start..] == p[start..end] && q[..end][start..] == q[start..end];
      assert p[..end][..start] == p[..start] && q[..end][..start] == q[..start];
      SplitPrefix(s[1..], p, q, start);
    }
  }

  /** The first dimension has the last coordinates, the other leading dimensions are split from those before. */
  lemma LeadingSlices(s: Shape, point: seq<F>)
    requires |s| > 2 && |point| == Vars(s) == Vars(Padded(s)) && Vars(Padded(s[1..])) == Vars(s[1..]) <= |point|
    ensures var low := Vars(s[1..]);
      SplitFrom(Padded(s), point, |point|)[..Skipped(s)]
      == [point[low..]] + SplitFrom(Padded(s[1..]), point[..low], low)[..Skipped(s[1..])]
  {
    hide Vars, SplitFrom, Padded;
    FirstSlice(s, point);
  }

  lemma FirstSlice(s: Shape, point: seq<F>)
    requires s != [] && |point| == Vars(s) == Vars(Padded(s)) && Vars(Padded(s[1..])) == Vars(s[1..]) <= |point|
    ensures var low := Vars(s[1..]);
      SplitFrom(Padded(s), point, |point|) == [point[low..]] + SplitFrom(Padded(s[1..]), point[..low], low)
  {
    hide CeilLog2, NextPow2, Padded, SplitFrom;
    var low := Vars(s[1..]);
    PaddedTail(s);
    SplitStep(Padded(s), point, |point|);
    CeilLog2OfNext(s[0]);
    assert Vars(s) == CeilLog2(s[0]) + low;
    SplitPrefix(Padded(s[1..]), point, point[..low], low);
    assert point[low..|point|] == point[low..];
  }

  lemma PaddedTail(s: Shape)
    requires s != []
    ensures |Padded(s)| == |s| && Padded(s)[0] == NextPow2(s[0]) && Padded(s)[1..] == Padded(s[1..])
  {
    hide NextPow2;
  }

  lemma SplitStep(s: Shape, point: seq<F>, end: nat)
    requires s != [] && Vars(s) <= end <= |point|
    ensures var start := end - CeilLog2(s[0]);
      Vars(s[1..]) <= start && SplitFrom(s, point, end) == [point[start..end]] + SplitFrom(s[1..], point, start)
  {
    hide CeilLog2;
  }

  lemma EmptyNumber(s: Shape, c: seq<nat>)
    requires |c| == |s| == 0
    ensures RowMajor(s, c) == 0
  {}

  lemma {:induction false} OuterSplit(a: seq<F>, b: seq<F>, c: seq<F>)
    ensures Outer(a + b, c) == Outer(a, c) + Outer(b, c)
    decreases |b|
  {
    hide Mul, Scale, Times;
    if b == [] {
      assert a + b == a;
    } else {
      var k := |b| - 1;
      OuterSplit(a, b[..k], c);
      assert (a + b)[..|a + b| - 1] == a + b[..k];
    }
  }

  lemma {:induction false} OuterScale(x: F, a: seq<F>, b: seq<F>)
    ensures Outer(Scale(x, a), b) == Scale(x, Outer(a, b))
  {
    hide Mul, Times;
    if a != [] {
      var k := |a| - 1;
      OuterScale(x, a[..k], b);
      assert Scale(x, a)[..k] == Scale(x, a[..k]);
      forall i | 0 <= i < |b|
        ensures Scale(Mul(x, a[k]), b)[i] == Scale(x, Scale(a[k], b))[i]
      {
        MulAssoc(x, a[k], b[i]);
      }
      assert Scale(Mul(x, a[k]), b) == Scale(x, Scale(a[k], b));
    }
  }

  lemma {:induction false} OuterAssociative(a: seq<F>, b: seq<F>, c: seq<F>)
    ensures Outer(Outer(a, b), c) == Outer(a, Outer(b, c))
  {
    hide Mul, Times;
    if a != [] {
      var k := |a| - 1;
      OuterAssociative(a[..k], b, c);
      OuterSplit(Outer(a[..k], b), Scale(a[k], b), c);
      OuterScale(a[k], b, c);
    }
  }

  lemma ScaleOne(x: F)
    ensures Scale(x, [ONE]) == [x]
  {
    hide Mul;
    MulOne(x);
  }

  lemma {:induction false} OuterOneRight(a: seq<F>)
    ensures Outer(a, [ONE]) == a
  {
    if a != [] {
      hide Mul, Scale;
      var k := |a| - 1;
      OuterOneRight(a[..k]);
      ScaleOne(a[k]);
      assert Outer(a, [ONE]) == a[..k] + [a[k]];
    }
  }

  lemma OuterOne(a: seq<F>)
    ensures Outer(a, [ONE]) == a && Outer([ONE], a) == a
  {
    OuterOneRight(a);
    assert Outer([ONE][..0], a) == [];
    assert Outer([ONE], a) == [] + Scale(ONE, a);
    hide Outer, Mul;
    forall i | 0 <= i < |a|
      ensures Mul(ONE, a[i]) == a[i]
    {
      MulOne(a[i]);
    }
  }

  /** The last two dimensions give the prefix of the point. */
  lemma {:induction false} FoldLast(slices: seq<seq<F>>, s: Shape, point: seq<F>, i: nat, eq: seq<F>, batching: seq<F>)
    requires |slices| == |s| && Skipped(s) <= i <= |s| && Vars(Padded(s)) == Vars(s) <= |point|
    requires slices == SplitFrom(Padded(s), point, Vars(s))
    ensures Vars(s[i..]) <= Vars(s)
    ensures FoldDims(slices, s, i, Skipped(s), eq, batching) == (point[..Vars(s[i..])] + eq, batching)
    decreases |s| - i
  {
    if i == |s| {
      assert s[i..] == [];
      assert point[..0] + eq == eq;
    } else {
      SliceAt(s, point, i);
      VarsTail(s, i);
      FoldLast(slices, s, point, i + 1, slices[i] + eq, batching);
      assert point[..Vars(s[i + 1..])] + (slices[i] + eq) == point[..Vars(s[i..])] + eq;
    }
  }

  lemma {:induction false} FoldIs(slices: seq<seq<F>>, s: Shape, point: seq<F>, i: nat, batching: seq<F>)
    requires |slices| == |s| && i <= Skipped(s) && |point| == Vars(s) && Vars(Padded(s)) == Vars(s)
    requires slices == SplitFrom(Padded(s), point, Vars(s))
    ensures Vars(s[i..]) <= Vars(s)
    ensures FoldDims(slices, s, i, Skipped(s), [], batching)
         == (EqPointOf(s, point), Outer(batching, BatchingOf(s[i..], point[..Vars(s[i..])])))
    decreases Skipped(s) - i
  {
    hide Outer, Evals, Take, Times;
    if i == Skipped(s) {
      FoldLast(slices, s, point, i, [], batching);
      assert point[..Vars(s[i..])] + [] == point[..Vars(s[i..])] && |s[i..]| <= 2;
      OuterOne(batching);
    } else {
      SliceAt(s, point, i);
      VarsTail(s, i);
      var high := Take(Evals(slices[i]), s[i]);
      FoldIs(slices, s, point, i + 1, Outer(batching, high));
      var tail, low := s[i..], Vars(s[i + 1..]);
      assert tail[1..] == s[i + 1..];
      assert point[..Vars(tail)][low..] == slices[i] && point[..Vars(tail)][..low] == point[..low];
      OuterAssociative(batching, high, BatchingOf(s[i + 1..], point[..low]));
    }
  }

  /** The function succeeds exactly on points of the right length, and returns the prefix of the point and the
      outer product of the equality polynomials of the leading dimensions. */
  lemma EqPointAndBatchingIs(s: Shape, point: seq<F>)
    ensures EqPointAndBatching(s, point).Ok? <==> |point| == Vars(s)
    ensures |point| == Vars(s) ==> EqPointAndBatching(s, point) == Ok((EqPointOf(s, point), BatchingOf(s, point)))
  {
    PaddedSize(s);
    CeilLog2OfPow2(Vars(s));
    PaddedVars(s);
    hide Outer, Evals, Times;
    if |point| == Vars(s) {
      FoldIs(SplitFrom(Padded(s), point, |point|), s, point, 0, [ONE]);
      assert s[0..] == s && point[..|point|] == point;
      OuterOne(BatchingOf(s, point));
    }
  }

  /** At the number of a leading coordinate the batching challenge is the product of the equality polynomials of the slices
      of the leading dimensions, each at its coordinate; and there is one challenge for each coordinate. */
  lemma BatchingAt(s: Shape, point: seq<F>, c: seq<nat>)
    requires |point| == Vars(s) && InBounds(Leading(s), c)
    ensures EqPointAndBatching(s, point).Ok? && SplitPoint(Padded(s), point).Ok?
    ensures var batching, slices := EqPointAndBatching(s, point).value.1, SplitPoint(Padded(s), point).value;
      && |batching| == Product(Leading(s)) && |slices| == |s| && RowMajor(Leading(s), c) < |batching|
      && batching[RowMajor(Leading(s), c)] == EqProduct(slices[..Skipped(s)], c)
  {
    hide BatchingOf, RowMajor, EqPointAndBatching, EqProduct, Product, EqPointOf, Padded;
    PaddedVars(s);
    EqPointAndBatchingIs(s, point);
    BatchingSize(s, point);
    BatchingOfAt(s, point, c);
  }

  // ---------------------------------------------------------------- the decomposition

  /** The extensions of the n rows of t. */
  function RowMles(t: seq<F>, low: seq<F>, n: nat): (r: seq<F>)
    requires |t| == Times(n, Pow2(|low|))
    ensures |r| == n
    decreases n
  {
    if n == 0 then []
    else
      TimesNext(n - 1, Pow2(|low|));
      var k := Times(n - 1, Pow2(|low|));
      RowMles(t[..k], low, n - 1) + [MleAt(t[k..], low)]
  }

  lemma {:induction false} RowMlesAppend(t: seq<F>, u: seq<F>, low: seq<F>, n: nat, k: nat)
    requires |t| == Times(n, Pow2(|low|)) && |u| == Times(k, Pow2(|low|))
    ensures |t + u| == Times(n + k, Pow2(|low|))
    ensures RowMles(t + u, low, n + k) == RowMles(t, low, n) + RowMles(u, low, k)
    decreases k
  {
    hide MleAt, Times, Pow2;
    var m := Pow2(|low|);
    TimesSum(n, k, m);
    if k == 0 {
      TimesNext(0, m);
      assert t + u == t;
    } else {
      TimesNext(k - 1, m);
      TimesNext(n + k - 1, m);
      TimesSum(n, k - 1, m);
      var j, all, cut := Times(k - 1, m), t + u, Times(n + k - 1, m);
      RowMlesAppend(t, u[..j], low, n, k - 1);
      assert cut == |t| + j;
      assert all[..cut] == t + u[..j];
      assert all[cut..] == u[j..];
    }
  }

  /** The coordinates above `low` combine the extensions of the rows. */
  lemma {:induction false} MleOfRows(t: seq<F>, low: seq<F>, high: seq<F>)
    requires |t| == Times(Pow2(|high|), Pow2(|low|))
    ensures |t| == Pow2(|low + high|)
    ensures MleAt(t, low + high) == Dot(Evals(high), RowMles(t, low, Pow2(|high|)))
    decreases |high|
  {
    hide Mul, Add, OneMinus, Times;
    Pow2Add(|high|, |low|);
    var m := Pow2(|low|);
    if high == [] {
      TimesNext(0, m);
      assert low + high == low && t[0..] == t;
      assert RowMles(t, low, 1) == [MleAt(t, low)];
      DotOne(ONE, MleAt(t, low));
      MulOne(MleAt(t, low));
    } else {
      var h, x := high[..|high| - 1], high[|high| - 1];
      var n := Pow2(|h|);
      TimesSum(n, n, m);
      var t0, t1 := t[..Times(n, m)], t[Times(n, m)..];
      assert low + high == (low + h) + [x] && t == t0 + t1;
      Pow2Add(|h|, |low|);
      MleOfRows(t0, low, h);
      MleOfRows(t1, low, h);
      MleStep(t0, t1, low + h, x);
      RowMlesAppend(t0, t1, low, n, n);
      var r0, r1 := RowMles(t0, low, n), RowMles(t1, low, n);
      DotAppend(Scale(OneMinus(x), Evals(h)), Scale(x, Evals(h)), r0, r1);
      DotScale(OneMinus(x), Evals(h), r0);
      DotScale(x, Evals(h), r1);
    }
  }

  lemma {:induction false} DotOuter(a: seq<F>, b: seq<F>, rows: seq<F>, more: seq<F>, x: F)
    requires |rows| == |Outer(a, b)| && |more| == |b|
    ensures |Outer(a + [x], b)| == |rows + more|
    ensures Dot(Outer(a + [x], b), rows + more) == Add(Dot(Outer(a, b), rows), Mul(x, Dot(b, more)))
  {
    hide Mul, Add, Times;
    assert (a + [x])[..|a|] == a;
    DotAppend(Outer(a, b), Scale(x, b), rows, more);
    DotScale(x, b, more);
  }

  lemma RowWidth(s: Shape)
    requires s != []
    ensures RowSize(s) == Pow2(Vars(s[1..])) && Product(Padded(s)) == Times(Pow2(CeilLog2(s[0])), RowSize(s))
    ensures Times(s[0], RowSize(s)) <= Product(Padded(s))
  {
    PaddedSize(s[1..]);
    RowCount(s);
  }

  /** The sub-tensors are as large as the last two dimensions. */
  ghost predicate SubSized(s: Shape, ts: seq<seq<F>>) {
    AllSized(ts, Pow2(Vars(s[Skipped(s)..])))
  }

  lemma {:induction false} SubTensorsSized(s: Shape, t: seq<F>)
    requires |t| == Product(Padded(s))
    ensures SubSized(s, SubTensors(s, t))
    decreases |s|, 1, 0
  {
    if |s| <= 2 {
      PaddedSize(s);
      assert s[0..] == s;
    } else {
      RowCount(s);
      SubRowsSized(s, t, s[0]);
    }
  }

  lemma {:induction false} SubRowsSized(s: Shape, t: seq<F>, k: nat)
    requires |s| > 2 && Times(k, RowSize(s)) <= |t|
    ensures SubSized(s, SubRows(s, t, k))
    decreases |s|, 0, k
  {
    if k > 0 {
      TimesMonotone(k - 1, k, RowSize(s));
      SubRowsSized(s, t, k - 1);
      SubTensorsSized(s[1..], Row(s, t, k - 1));
      assert s[1..][Skipped(s[1..])..] == s[Skipped(s)..];
    }
  }

  lemma {:induction false} ZeroRows(t: seq<F>, low: seq<F>, n: nat)
    requires |t| == Times(n, Pow2(|low|)) && forall i :: 0 <= i < |t| ==> t[i] == ZERO
    ensures forall a :: 0 <= a < n ==> RowMles(t, low, n)[a] == ZERO
    decreases n
  {
    hide Mul, Add, Evals, Times;
    if n > 0 {
      TimesNext(n - 1, Pow2(|low|));
      var k := Times(n - 1, Pow2(|low|));
      ZeroRows(t[..k], low, n - 1);
      DotZero(Evals(low), t[k..]);
    }
  }

  lemma RowsSplit(t: seq<F>, low: seq<F>, e: seq<F>, d: nat)
    requires |t| == Times(|e|, Pow2(|low|)) && d <= |e|
    ensures var cut := Times(d, Pow2(|low|));
      && cut <= |t| && |t| - cut == Times(|e| - d, Pow2(|low|))
      && Dot(e, RowMles(t, low, |e|)) == Add(Dot(e[..d], RowMles(t[..cut], low, d)), Dot(e[d..], RowMles(t[cut..], low, |e| - d)))
  {
    hide Mul, Add, RowMles, Times, Pow2;
    var n, cut := |e|, Times(d, Pow2(|low|));
    TimesSum(d, n - d, Pow2(|low|));
    var t0, t1 := t[..cut], t[cut..];
    assert t == t0 + t1 && e == e[..d] + e[d..];
    RowMlesAppend(t0, t1, low, d, n - d);
    DotAppend(e[..d], e[d..], RowMles(t0, low, d), RowMles(t1, low, n - d));
  }

  /** Rows beyond the unpadded size contribute nothing. */
  lemma RowsWithinShape(t: seq<F>, low: seq<F>, e: seq<F>, d: nat)
    requires |t| == Times(|e|, Pow2(|low|)) && d <= |e|
    requires forall j :: Times(d, Pow2(|low|)) <= j < |t| ==> t[j] == ZERO
    ensures Times(d, Pow2(|low|)) <= |t|
    ensures Dot(e, RowMles(t, low, |e|)) == Dot(e[..d], RowMles(t[..Times(d, Pow2(|low|))], low, d))
  {
    hide Mul, Add, RowMles, Times, Pow2, Dot;
    RowsSplit(t, low, e, d);
    var cut := Times(d, Pow2(|low|));
    ZeroRows(t[cut..], low, |e| - d);
    DotZero(e[d..], RowMles(t[cut..], low, |e| - d));
    AddZero(Dot(e[..d], RowMles(t[..cut], low, d)));
  }

  /** The combined value of the sub-tensors. */
  ghost predicate Decomposes(s: Shape, t: seq<F>, point: seq<F>)
    requires |t| == Product(Padded(s)) && |point| == Vars(s)
  {
    && |BatchingOf(s, point)| == |SubTensors(s, t)|
    && |EqPointOf(s, point)| == Vars(s[Skipped(s)..]) && SubSized(s, SubTensors(s, t))
    && |t| == Pow2(|point|)
    && MleAt(t, point) == Dot(BatchingOf(s, point), MleAll(SubTensors(s, t), EqPointOf(s, point)))
  }

  lemma {:induction false} Decompose(s: Shape, t: seq<F>, point: seq<F>)
    requires |t| == Product(Padded(s)) && |point| == Vars(s) && ZeroPadded(s, t)
    ensures Decomposes(s, t, point)
    decreases |s|, 1, 0
  {
    hide Mul, Add, Evals, MleAt, Outer, RowMles, ZeroPadded, Times;
    SubTensorsSized(s, t);
    PaddedSize(s);
    if |s| <= 2 {
      assert s[0..] == s && point[..|point|] == point;
      DotOne(ONE, MleAt(t, point));
      MulOne(MleAt(t, point));
      assert MleAll([t], point) == [MleAt(t, point)];
    } else {
      DecomposeRank(s, t, point);
    }
  }

  lemma EqPointTail(s: Shape, point: seq<F>)
    requires |s| > 2 && |point| == Vars(s)
    ensures Vars(s[1..]) <= |point| && EqPointOf(s, point) == EqPointOf(s[1..], point[..Vars(s[1..])])
    ensures |EqPointOf(s, point)| == Vars(s[Skipped(s)..])
  {
    assert s[1..][Skipped(s[1..])..] == s[Skipped(s)..];
    VarsSkipped(s[1..]);
  }

  lemma PaddedParts(s: Shape, t: seq<F>)
    requires |s| > 2 && |t| == Product(Padded(s)) && ZeroPadded(s, t)
    ensures forall j :: Times(s[0], RowSize(s)) <= j < |t| ==> t[j] == ZERO
    ensures forall a: nat :: a < s[0] ==> RowPadded(s, t, a)
  {}

  lemma DecomposeRank(s: Shape, t: seq<F>, point: seq<F>)
    requires |s| > 2 && |t| == Product(Padded(s)) && |point| == Vars(s) && ZeroPadded(s, t)
    ensures Decomposes(s, t, point)
    decreases |s|, 0, s[0] + 1
  {
    hide Mul, Add, Evals, MleAt, Outer, RowMles, ZeroPadded, MleAll, SubRows, Times, Pow2;
    PaddedParts(s, t);
    EqPointTail(s, point);
    RowWidth(s);
    RankMle(s, t, point);
    DecomposeRows(s, t, point, s[0]);
    SubTensorsSized(s, t);
    HighLength(s, point);
  }

  lemma RankMle(s: Shape, t: seq<F>, point: seq<F>)
    requires |s| > 2 && |t| == Product(Padded(s)) && |point| == Vars(s)
    requires forall j :: Times(s[0], RowSize(s)) <= j < |t| ==> t[j] == ZERO
    ensures Vars(s[1..]) <= |point| && |t| == Pow2(|point|) && RowSize(s) == Pow2(Vars(s[1..])) && Times(s[0], RowSize(s)) <= |t|
    ensures var low, high := point[..Vars(s[1..])], point[Vars(s[1..])..];
      && s[0] <= |Evals(high)|
      && MleAt(t, point) == Dot(Evals(high)[..s[0]], RowMles(t[..Times(s[0], RowSize(s))], low, s[0]))
  {
    hide Mul, Add, Evals, MleAt, RowMles, Times;
    RowWidth(s);
    HighLength(s, point);
    var v := Vars(s[1..]);
    var low, high := point[..v], point[v..];
    assert point == low + high;
    hide Vars, RowSize, Padded, Product;
    MleOfRows(t, low, high);
    RowsWithinShape(t, low, Evals(high), s[0]);
  }

  /** The first k rows, weighted. */
  ghost predicate RowsDecompose(s: Shape, t: seq<F>, point: seq<F>, k: nat)
    requires |s| > 2 && |point| == Vars(s) && RowSize(s) == Pow2(Vars(s[1..])) && Times(k, RowSize(s)) <= |t|
  {
    var low, high := point[..Vars(s[1..])], point[Vars(s[1..])..];
    && k <= |Evals(high)| && SubSized(s, SubRows(s, t, k)) && |EqPointOf(s, point)| == Vars(s[Skipped(s)..])
    && |Outer(Evals(high)[..k], BatchingOf(s[1..], low))| == |SubRows(s, t, k)|
    && Dot(Evals(high)[..k], RowMles(t[..Times(k, RowSize(s))], low, k))
       == Dot(Outer(Evals(high)[..k], BatchingOf(s[1..], low)), MleAll(SubRows(s, t, k), EqPointOf(s, point)))
  }

  lemma {:induction false} DecomposeRows(s: Shape, t: seq<F>, point: seq<F>, k: nat)
    requires |s| > 2 && |t| == Product(Padded(s)) && |point| == Vars(s) && k <= s[0]
    requires RowSize(s) == Pow2(Vars(s[1..])) && Times(s[0], RowSize(s)) <= |t|
    requires forall a: nat :: a < s[0] ==> RowPadded(s, t, a)
    ensures Times(k, RowSize(s)) <= |t| && RowsDecompose(s, t, point, k)
    decreases |s|, 0, k
  {
    hide ZeroPadded, Times, RowsDecompose, RowPadded, Padded, Product, Vars, RowSize;
    TimesMonotone(k, s[0], RowSize(s));
    if k > 0 {
      TimesMonotone(k - 1, k, RowSize(s));
      DecomposeRows(s, t, point, k - 1);
      DecomposeRow(s, t, point, k);
    } else {
      TimesNext(0, RowSize(s));
      NoRows(s, t, point);
    }
  }

  lemma NoRows(s: Shape, t: seq<F>, point: seq<F>)
    requires |s| > 2 && |point| == Vars(s) && RowSize(s) == Pow2(Vars(s[1..])) && Times(0, RowSize(s)) == 0
    ensures RowsDecompose(s, t, point, 0)
  {
    hide Mul, Add, Evals, MleAt, BatchingOf, Times;
    EqPointTail(s, point);
  }

  lemma DecomposeRow(s: Shape, t: seq<F>, point: seq<F>, k: nat)
    requires |s| > 2 && |t| == Product(Padded(s)) && |point| == Vars(s) && 0 < k <= s[0]
    requires RowSize(s) == Pow2(Vars(s[1..])) && Times(k - 1, RowSize(s)) <= Times(k, RowSize(s)) <= |t|
    requires RowsDecompose(s, t, point, k - 1)
    requires forall a: nat :: a < s[0] ==> RowPadded(s, t, a)
    ensures RowsDecompose(s, t, point, k)
    decreases |s|, 0, k, 0
  {
    hide Mul, Add, Evals, MleAt, ZeroPadded, BatchingOf, Outer, Times, RowsDecompose, Decomposes;
    EqPointTail(s, point);
    assert RowPadded(s, t, k - 1);
    Decompose(s[1..], Row(s, t, k - 1), point[..Vars(s[1..])]);
    CombineRow(s, t, point, k);
  }

  lemma CombineRow(s: Shape, t: seq<F>, point: seq<F>, k: nat)
    requires |s| > 2 && |point| == Vars(s) && RowSize(s) == Pow2(Vars(s[1..])) && 0 < k <= s[0]
    requires Times(k - 1, RowSize(s)) <= Times(k, RowSize(s)) <= |t|
    requires RowsDecompose(s, t, point, k - 1) && Decomposes(s[1..], Row(s, t, k - 1), point[..Vars(s[1..])])
    ensures RowsDecompose(s, t, point, k)
  {
    hide Mul, Add, Evals, MleAt, BatchingOf, Outer, Times;
    var v, m := Vars(s[1..]), RowSize(s);
    var low, high, eq := point[..v], point[v..], EqPointOf(s, point);
    EqPointTail(s, point);
    HighLength(s, point);
    SubRowsSized(s, t, k);
    var row := Row(s, t, k - 1);
    var subs, rows := SubTensors(s[1..], row), SubRows(s, t, k - 1);
    assert SubRows(s, t, k) == rows + subs;
    assert row == t[Times(k - 1, m)..Times(k, m)];
    hide SubTensors, SubRows, EqPointOf, Row;
    MleAllAppend(rows, subs, eq);
    RowMlesSnoc(t, low, k);
    hide MleAll, RowMles;
    AddRow(Evals(high), k, BatchingOf(s[1..], low), RowMles(t[..Times(k - 1, m)], low, k - 1), MleAt(row, low),
           MleAll(rows, eq), MleAll(subs, eq));
  }

  lemma MleAllAppend(ts: seq<seq<F>>, us: seq<seq<F>>, p: seq<F>)
    requires AllSized(ts, Pow2(|p|)) && AllSized(us, Pow2(|p|))
    ensures AllSized(ts + us, Pow2(|p|)) && MleAll(ts + us, p) == MleAll(ts, p) + MleAll(us, p)
  {
    hide MleAt, Pow2;
    var all := ts + us;
    assert forall i :: 0 <= i < |all| ==> all[i] == if i < |ts| then ts[i] else us[i - |ts|];
    assert AllSized(all, Pow2(|p|));
    hide AllSized;
    var a, b := MleAll(all, p), MleAll(ts, p) + MleAll(us, p);
    forall i | 0 <= i < |a|
      ensures a[i] == b[i]
    {
      assert i >= |ts| ==> all[i] == us[i - |ts|];
    }
  }

  lemma HighLength(s: Shape, point: seq<F>)
    requires |s| > 2 && |point| == Vars(s)
    ensures Vars(s[1..]) <= |point| && |Evals(point[Vars(s[1..])..])| == NextPow2(s[0]) >= s[0]
  {}

  lemma RowMlesSnoc(t: seq<F>, low: seq<F>, k: nat)
    requires k >= 1 && Times(k, Pow2(|low|)) <= |t|
    ensures var m := Pow2(|low|);
      && 0 <= Times(k - 1, m) <= Times(k, m) && |t[Times(k - 1, m)..Times(k, m)]| == m
      && RowMles(t[..Times(k, m)], low, k) == RowMles(t[..Times(k - 1, m)], low, k - 1) + [MleAt(t[Times(k - 1, m)..Times(k, m)], low)]
  {
    var m := Pow2(|low|);
    TimesNext(k - 1, m);
    assert t[..Times(k, m)][..Times(k - 1, m)] == t[..Times(k - 1, m)] && t[..Times(k, m)][Times(k - 1, m)..] == t[Times(k - 1, m)..Times(k, m)];
  }

  /** One more row on both sides. */
  lemma AddRow(e: seq<F>, k: nat, b: seq<F>, rows: seq<F>, x: F, before: seq<F>, more: seq<F>)
    requires 1 <= k <= |e| && |rows| == k - 1 && |before| == |Outer(e[..k - 1], b)| && |more| == |b|
    requires Dot(e[..k - 1], rows) == Dot(Outer(e[..k - 1], b), before) && x == Dot(b, more)
    ensures |Outer(e[..k], b)| == |before + more|
    ensures Dot(e[..k], rows + [x]) == Dot(Outer(e[..k], b), before + more)
  {
    hide Mul, Add, Outer, Times;
    assert e[..k] == e[..k - 1] + [e[k - 1]];
    DotOuter(e[..k - 1], b, before, more, e[k - 1]);
    DotAppend(e[..k - 1], [e[k - 1]], rows, [x]);
    DotOne(e[k - 1], x);
  }

  /** For every unpadded shape, zero-padded tensor and point: the function succeeds, and the multilinear extension of
      the tensor is the batched sum of those of its two-dimensional sub-tensors at the reduced point. */
  lemma MleDecomposition(s: Shape, t: seq<F>, point: seq<F>)
    requires |t| == Product(Padded(s)) && |point| == Vars(s) && ZeroPadded(s, t)
    ensures EqPointAndBatching(s, point).Ok?
    ensures var (eq, batching) := EqPointAndBatching(s, point).value;
      && |batching| == |SubTensors(s, t)| && |t| == Pow2(|point|)
      && AllSized(SubTensors(s, t), Pow2(|eq|))
      && MleAt(t, point) == Dot(batching, MleAll(SubTensors(s, t), eq))
  {
    hide MleAt, BatchingOf, EqPointOf, EqPointAndBatching, SubTensors, Mul, Add, ZeroPadded, Times;
    EqPointAndBatchingIs(s, point);
    Decompose(s, t, point);
  }

  // ---------------------------------------------------------------- which sub-tensor is which

  function Leading(s: Shape): Shape {
    s[..Skipped(s)]
  }

  function Width(s: Shape): nat {
    Product(Padded(s[Skipped(s)..]))
  }

  /** The q-th block of w entries. */
  predicate BlockOf(t: seq<F>, w: nat, q: nat, block: seq<F>) {
    Times(q + 1, w) <= |t| && Times(q, w) <= Times(q + 1, w) && block == t[Times(q, w)..Times(q + 1, w)]
  }

  lemma {:induction false} SubTensorCount(s: Shape, t: seq<F>)
    requires |t| == Product(Padded(s))
    ensures |SubTensors(s, t)| == Product(Leading(s))
    decreases |s|, 1, 0
  {
    hide ZeroPadded;
    if |s| > 2 {
      RowCount(s);
      SubRowCount(s, t, s[0]);
      LeadingTail(s);
      assert Times(s[0], Product(Leading(s[1..]))) == Product(Leading(s));
    }
  }

  lemma LeadingTail(s: Shape)
    requires |s| > 2
    ensures Leading(s) != [] && Leading(s)[0] == s[0] && Leading(s)[1..] == Leading(s[1..])
    ensures Width(s) == Width(s[1..])
    ensures Padded(Leading(s))[1..] == Padded(Leading(s[1..]))
  {
    assert s[1..][Skipped(s[1..])..] == s[Skipped(s)..];
  }

  lemma {:induction false} SubRowCount(s: Shape, t: seq<F>, k: nat)
    requires |s| > 2 && Times(k, RowSize(s)) <= |t|
    ensures |SubRows(s, t, k)| == Times(k, Product(Leading(s[1..])))
    decreases |s|, 0, k
  {
    hide Times, Product;
    if k > 0 {
      TimesMonotone(k - 1, k, RowSize(s));
      SubRowCount(s, t, k - 1);
      SubTensorCount(s[1..], Row(s, t, k - 1));
      TimesNext(k - 1, Product(Leading(s[1..])));
    } else {
      TimesNext(0, Product(Leading(s[1..])));
    }
  }

  /** Row a of the sub-tensors starts after those of the rows before it. */
  lemma {:induction false} SubRowAt(s: Shape, t: seq<F>, k: nat, a: nat, j: nat)
    requires |s| > 2 && Times(k, RowSize(s)) <= |t| && a < k && j < Product(Leading(s[1..]))
    ensures Times(a + 1, RowSize(s)) <= |t| && j < |SubTensors(s[1..], Row(s, t, a))|
    ensures Times(a, Product(Leading(s[1..]))) + j < |SubRows(s, t, k)|
    ensures SubRows(s, t, k)[Times(a, Product(Leading(s[1..]))) + j] == SubTensors(s[1..], Row(s, t, a))[j]
    decreases k
  {
    hide Times, Product, SubTensors;
    var n := Product(Leading(s[1..]));
    TimesMonotone(k - 1, k, RowSize(s));
    TimesMonotone(a + 1, k, RowSize(s));
    SubRowCount(s, t, k - 1);
    SubRowCount(s, t, k);
    TimesNext(k - 1, n);
    SubTensorCount(s[1..], Row(s, t, a));
    if a < k - 1 {
      SubRowAt(s, t, k - 1, a, j);
      TimesMonotone(a + 1, k - 1, n);
      TimesNext(a, n);
    }
  }

  lemma {:induction false} PaddedProduct(s: Shape, k: nat)
    requires k <= |s|
    ensures Product(Padded(s)) == Times(Product(Padded(s[..k])), Product(Padded(s[k..])))
    decreases k
  {
    if k == 0 {
      assert s[0..] == s && Padded(s[..0]) == [];
    } else {
      PaddedProduct(s[1..], k - 1);
      assert s[1..][..k - 1] == s[..k][1..] && s[1..][k - 1..] == s[k..];
      assert Padded(s)[1..] == Padded(s[1..]) && Padded(s[..k])[1..] == Padded(s[..k][1..]);
      TimesAssociative(NextPow2(s[0]), Product(Padded(s[..k][1..])), Product(Padded(s[k..])));
    }
  }

  /** The sub-tensor numbered row-major by an unpadded leading coordinate is the block of the tensor at that
      coordinate. */
  lemma {:induction false} SubTensorAt(s: Shape, t: seq<F>, c: seq<nat>)
    requires |t| == Product(Padded(s)) && InBounds(Leading(s), c)
    ensures RowMajor(Leading(s), c) < |SubTensors(s, t)|
    ensures BlockOf(t, Width(s), RowMajor(Padded(Leading(s)), c), SubTensors(s, t)[RowMajor(Leading(s), c)])
    decreases |s|
  {
    if |s| <= 2 {
      assert s[0..] == s && t[0..|t|] == t;
    } else {
      LeadingTail(s);
      RowCount(s);
      var a, d := c[0], c[1..];
      assert a < s[0] by { assert Leading(s)[0] == s[0]; }
      assert InBounds(Leading(s[1..]), d) by {
        forall i | 0 <= i < |d|
          ensures d[i] < Leading(s[1..])[i]
        {
          assert Leading(s)[1..][i] == Leading(s)[i + 1];
        }
      }
      SubTensorAtRow(s, t, c, a, d);
    }
  }

  lemma SubTensorAtRow(s: Shape, t: seq<F>, c: seq<nat>, a: nat, d: seq<nat>)
    requires |s| > 2 && |t| == Product(Padded(s)) && InBounds(Leading(s), c) && |c| > 0 && a == c[0] < s[0] && d == c[1..]
    requires InBounds(Leading(s[1..]), d) && Times(s[0], RowSize(s)) <= |t|
    ensures RowMajor(Leading(s), c) < |SubTensors(s, t)|
    ensures BlockOf(t, Width(s), RowMajor(Padded(Leading(s)), c), SubTensors(s, t)[RowMajor(Leading(s), c)])
    decreases |s|, 0
  {
    hide Times, Product, SubRows, SubTensors, RowMajor, BlockOf, Leading, Padded, Width;
    LeadingTail(s);
    var n, m, w := Product(Leading(s[1..])), RowSize(s), Width(s);
    var rows := Product(Padded(Leading(s[1..])));
    var j, q := RowMajor(Leading(s[1..]), d), RowMajor(Padded(Leading(s[1..])), d);
    Numbers(s, c);
    SubTensorsAreRows(s, t);
    RowMajorBound(Leading(s[1..]), d);
    TailSize(s);
    SubRowAt(s, t, s[0], a, j);
    var row := Row(s, t, a);
    SubTensorAt(s[1..], row, d);
    TimesNext(a, m);
    BlockInRow(t, a, m, w, rows, q, row, SubTensors(s[1..], row)[j]);
  }

  lemma Numbers(s: Shape, c: seq<nat>)
    requires |s| > 2 && |c| == |Leading(s)| && |c| > 0
    ensures |c[1..]| == |Leading(s[1..])|
    ensures RowMajor(Leading(s), c) == Times(c[0], Product(Leading(s[1..]))) + RowMajor(Leading(s[1..]), c[1..])
    ensures RowMajor(Padded(Leading(s)), c)
         == Times(c[0], Product(Padded(Leading(s[1..])))) + RowMajor(Padded(Leading(s[1..])), c[1..])
  {
    LeadingTail(s);
  }

  lemma SubTensorsAreRows(s: Shape, t: seq<F>)
    requires |s| > 2 && |t| == Product(Padded(s))
    ensures Times(s[0], RowSize(s)) <= |t| && SubTensors(s, t) == SubRows(s, t, s[0])
  {
    RowCount(s);
  }

  lemma TailSize(s: Shape)
    requires |s| > 2
    ensures RowSize(s) == Times(Product(Padded(Leading(s[1..]))), Width(s))
  {
    LeadingTail(s);
    PaddedProduct(s[1..], Skipped(s[1..]));
  }

  lemma BlockInRow(t: seq<F>, a: nat, m: nat, w: nat, rows: nat, q: nat, row: seq<F>, block: seq<F>)
    requires m == Times(rows, w) && Times(a, m) <= Times(a + 1, m) <= |t| && row == t[Times(a, m)..Times(a + 1, m)]
    requires BlockOf(row, w, q, block)
    ensures BlockOf(t, w, Times(a, rows) + q, block)
  {
    hide Times;
    RowOffset(a, rows, q, w, m);
  }

  lemma RowOffset(a: nat, rows: nat, q: nat, w: nat, m: nat)
    requires m == Times(rows, w)
    ensures Times(Times(a, rows) + q, w) == Times(a, m) + Times(q, w)
    ensures Times(Times(a, rows) + q + 1, w) == Times(a, m) + Times(q + 1, w)
  {
    TimesAssociative(a, rows, w);
    TimesSum(Times(a, rows), q, w);
    TimesSum(Times(a, rows), q + 1, w);
  }
}
