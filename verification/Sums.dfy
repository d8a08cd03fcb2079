/** Sums and dot products of field vectors. */
module Sums {
  import opened Field

  function Sum(s: seq<F>): F {
    if s == [] then ZERO else Add(Sum(s[..|s| - 1]), s[|s| - 1])
  }

  function Dot(s: seq<F>, t: seq<F>): F
    requires |s| == |t|
  {
    if s == [] then ZERO else Add(Dot(s[..|s| - 1], t[..|t| - 1]), Mul(s[|s| - 1], t[|t| - 1]))
  }

  function Scale(a: F, s: seq<F>): (r: seq<F>)
    ensures |r| == |s| && forall i :: 0 <= i < |s| ==> r[i] == Mul(a, s[i])
  {
    seq(|s|, i requires 0 <= i < |s| => Mul(a, s[i]))
  }

  function Plus(s: seq<F>, t: seq<F>): (r: seq<F>)
    requires |s| == |t|
    ensures |r| == |s| && forall i :: 0 <= i < |s| ==> r[i] == Add(s[i], t[i])
  {
    seq(|s|, i requires 0 <= i < |s| => Add(s[i], t[i]))
  }

  function Constant(n: nat, a: F): (r: seq<F>)
    ensures |r| == n && forall i :: 0 <= i < n ==> r[i] == a
  {
    seq(n, i => a)
  }

  lemma {:induction false} SumAppend(s: seq<F>, t: seq<F>)
    ensures Sum(s + t) == Add(Sum(s), Sum(t))
  {
    hide Add;
    if t == [] {
      assert s + t == s;
      AddZero(Sum(s));
    } else {
      var init, last := t[..|t| - 1], t[|t| - 1];
      SumAppend(s, init);
      assert (s + t)[..|s + t| - 1] == s + init;
      AddAssoc(Sum(s), Sum(init), last);
    }
  }

  lemma {:induction false} SumScale(a: F, s: seq<F>)
    ensures Sum(Scale(a, s)) == Mul(a, Sum(s))
  {
    hide Add, Mul;
    if s == [] {
      MulZero(a);
    } else {
      var init, last := s[..|s| - 1], s[|s| - 1];
      SumScale(a, init);
      assert Scale(a, s)[..|s| - 1] == Scale(a, init);
      Distrib(a, Sum(init), last);
    }
  }

  lemma {:induction false} DotAppend(s: seq<F>, t: seq<F>, u: seq<F>, v: seq<F>)
    requires |s| == |u| && |t| == |v|
    ensures Dot(s + t, u + v) == Add(Dot(s, u), Dot(t, v))
  {
    hide Add, Mul;
    if t == [] {
      assert s + t == s && u + v == u;
      AddZero(Dot(s, u));
    } else {
      var k := |t| - 1;
      DotAppend(s, t[..k], u, v[..k]);
      assert (s + t)[..|s + t| - 1] == s + t[..k] && (u + v)[..|u + v| - 1] == u + v[..k];
      AddAssoc(Dot(s, u), Dot(t[..k], v[..k]), Mul(t[k], v[k]));
    }
  }

  lemma {:induction false} DotScale(a: F, s: seq<F>, t: seq<F>)
    requires |s| == |t|
    ensures Dot(Scale(a, s), t) == Mul(a, Dot(s, t))
    ensures Dot(s, Scale(a, t)) == Mul(a, Dot(s, t))
  {
    hide Add, Mul;
    if s == [] {
      MulZero(a);
    } else {
      var k := |s| - 1;
      DotScale(a, s[..k], t[..k]);
      assert Scale(a, s)[..k] == Scale(a, s[..k]) && Scale(a, t)[..k] == Scale(a, t[..k]);
      MulAssoc(a, s[k], t[k]);
      MulAssoc(s[k], a, t[k]);
      MulComm(s[k], a);
      Distrib(a, Dot(s[..k], t[..k]), Mul(s[k], t[k]));
    }
  }

  lemma {:induction false} DotPlus(s: seq<F>, t: seq<F>, u: seq<F>)
    requires |s| == |t| == |u|
    ensures Dot(s, Plus(t, u)) == Add(Dot(s, t), Dot(s, u))
  {
    hide Add, Mul;
    if s == [] {
      AddZero(ZERO);
    } else {
      var k := |s| - 1;
      DotPlus(s[..k], t[..k], u[..k]);
      assert Plus(t, u)[..k] == Plus(t[..k], u[..k]);
      Distrib(s[k], t[k], u[k]);
      AddSwap(Dot(s[..k], t[..k]), Dot(s[..k], u[..k]), Mul(s[k], t[k]), Mul(s[k], u[k]));
    }
  }

  lemma {:induction false} DotConstant(s: seq<F>, a: F)
    ensures Dot(s, Constant(|s|, a)) == Mul(a, Sum(s))
  {
    hide Add, Mul;
    if s == [] {
      MulZero(a);
    } else {
      var k := |s| - 1;
      DotConstant(s[..k], a);
      assert Constant(|s|, a)[..k] == Constant(k, a);
      MulComm(s[k], a);
      Distrib(a, Sum(s[..k]), s[k]);
    }
  }

  lemma {:induction false} DotZero(s: seq<F>, t: seq<F>)
    requires |s| == |t| && (forall i :: 0 <= i < |s| ==> s[i] == ZERO || t[i] == ZERO)
    ensures Dot(s, t) == ZERO
  {
    hide Add, Mul;
    if s != [] {
      var k := |s| - 1;
      DotZero(s[..k], t[..k]);
      MulZero(s[k]);
      MulZero(t[k]);
      AddZero(ZERO);
    }
  }

  /** A vector that is one at k and zero elsewhere. */
  ghost predicate Unit(s: seq<F>, k: nat) {
    k < |s| && forall i :: 0 <= i < |s| ==> s[i] == if i == k then ONE else ZERO
  }

  lemma DotUnit(s: seq<F>, k: nat, t: seq<F>)
    requires Unit(s, k) && |s| == |t|
    ensures Dot(s, t) == t[k]
  {
    hide Add, Mul;
    assert s == s[..k] + [ONE] + s[k + 1..] && t == t[..k] + [t[k]] + t[k + 1..];
    DotAppend(s[..k] + [ONE], s[k + 1..], t[..k] + [t[k]], t[k + 1..]);
    DotAppend(s[..k], [ONE], t[..k], [t[k]]);
    DotZero(s[..k], t[..k]);
    DotZero(s[k + 1..], t[k + 1..]);
    DotOne(ONE, t[k]);
    MulOne(t[k]);
    AddZero(t[k]);
  }

  lemma DotOne(a: F, b: F)
    ensures Dot([a], [b]) == Mul(a, b)
  {
    hide Add, Mul;
    assert Dot([a][..0], [b][..0]) == ZERO;
    AddZero(Mul(a, b));
  }

  lemma SumOne(a: F)
    ensures Sum([a]) == a
  {
    hide Add;
    assert Sum([a][..0]) == ZERO;
    AddZero(a);
  }
}
