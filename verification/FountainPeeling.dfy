/** Which blocks the decoder of `arkhe-soc-tlm/src/fountain_decoder.rs` knows, whatever their content. */
module FountainPeeling {
  import opened Collections
  import opened FountainDraws

  /** The decoded indices, and what each kept frame has drawn. */
  datatype Knowledge = Knowledge(known: set<nat>, kept: seq<seq<nat>>)

  /** All draws but the first are in c: the code finds the last unknown block of a kept frame only if it is the first draw. */
  ghost predicate Follows(sel: seq<nat>, c: set<nat>) {
    sel != [] && forall j :: 1 <= j < |sel| ==> sel[j] in c
  }

  ghost predicate Closed(kept: seq<seq<nat>>, c: set<nat>) {
    forall f :: 0 <= f < |kept| && Follows(kept[f], c) ==> kept[f][0] in c
  }

  ghost predicate Within(kept: seq<seq<nat>>, base: set<nat>, k: set<nat>) {
    forall c :: base <= c && Closed(kept, c) ==> k <= c
  }

  /** k is the least closed set with everything in base. */
  ghost predicate Least(kept: seq<seq<nat>>, base: set<nat>, k: set<nat>) {
    base <= k && Closed(kept, k) && Within(kept, base, k)
  }

  /** i can be found from base. */
  ghost predicate Forced(kept: seq<seq<nat>>, base: set<nat>, i: nat) {
    forall c :: base <= c && Closed(kept, c) ==> i in c
  }

  /** What a frame with the draws `sel` does: nothing new; one block, and all that is then found; or it is kept. */
  ghost predicate Absorbs(s: Knowledge, sel: seq<nat>, t: Knowledge) {
    var u := Left(sel, s.known);
    if u == {} then t == s
    else if |u| == 1 then t.kept == s.kept && Least(s.kept, s.known + u, t.known)
    else t == Knowledge(s.known, s.kept + [sel])
  }

  lemma WithinOne(kept: seq<seq<nat>>, base: set<nat>, k: set<nat>, f: nat)
    requires Within(kept, base, k) && f < |kept| && Follows(kept[f], k)
    ensures Within(kept, base, k + {kept[f][0]})
  {
    forall c | base <= c && Closed(kept, c)
      ensures k + {kept[f][0]} <= c
    {
      assert Follows(kept[f], c);
    }
  }

  lemma LeastIsForced(kept: seq<seq<nat>>, base: set<nat>, k: set<nat>, i: nat)
    requires Least(kept, base, k)
    ensures i in k <==> Forced(kept, base, i)
  {
    hide Closed;
  }

  /** The outcome is determined. */
  lemma AbsorbsOnce(s: Knowledge, sel: seq<nat>, t: Knowledge, u: Knowledge)
    requires Absorbs(s, sel, t) && Absorbs(s, sel, u)
    ensures t == u
  {
    hide Closed, Left;
    if |Left(sel, s.known)| == 1 {
      assert t.known <= u.known <= t.known;
    }
  }

  lemma AtMostOne(sel: seq<nat>, c: set<nat>)
    requires Follows(sel, c)
    ensures Left(sel, c) <= {sel[0]}
  {}

  /** After every frame nothing is left to be found. */
  lemma AbsorbsKeepsClosed(s: Knowledge, sel: seq<nat>, t: Knowledge)
    requires Closed(s.kept, s.known) && Absorbs(s, sel, t)
    ensures Closed(t.kept, t.known) && s.known <= t.known
  {
    if |Left(sel, s.known)| > 1 && Follows(sel, s.known) {
      AtMostOne(sel, s.known);
      Subsets(Left(sel, s.known), sel[0]);
    }
  }

  lemma Subsets(s: set<nat>, i: nat)
    requires s <= {i}
    ensures s == {} || s == {i}
  {}

  // ---------------------------------------------------------------- frames that stay with one unknown block

  /** From base, block i cannot be found and every other block of frame f can. */
  ghost predicate StuckOn(kept: seq<seq<nat>>, base: set<nat>, f: nat, i: nat)
    requires f < |kept|
  {
    && i in kept[f] && !Forced(kept, base, i)
    && forall j :: j in kept[f] && j != i ==> Forced(kept, base, j)
  }

  /** A kept frame is left with one unknown block i if and only if it is stuck on i, and then i is not its first draw. */
  lemma LeftWithOne(kept: seq<seq<nat>>, base: set<nat>, k: set<nat>, f: nat, i: nat)
    requires Least(kept, base, k) && f < |kept|
    ensures Left(kept[f], k) == {i} <==> StuckOn(kept, base, f, i)
    ensures Left(kept[f], k) == {i} && NoRepeats(kept[f]) ==> i != kept[f][0]
  {
    hide Closed, Least, Forced;
    forall j: nat
      ensures j in k <==> Forced(kept, base, j)
    {
      LeastIsForced(kept, base, k, j);
    }
    LeftIs(kept[f], k, i);
    if Left(kept[f], k) == {i} && NoRepeats(kept[f]) && i == kept[f][0] {
      FirstFollows(kept[f], k);
      ClosedAt(kept, base, k, f);
    }
  }

  lemma LeftIs(sel: seq<nat>, k: set<nat>, i: nat)
    ensures Left(sel, k) == {i} <==> i in sel && i !in k && forall j :: j in sel && j != i ==> j in k
  {
    var u := Left(sel, k);
    assert forall j :: j in u <==> j in sel && j !in k;
    if u == {i} {
      assert i in u;
      assert forall j :: j in sel && j !in k ==> j in u;
    }
  }

  lemma FirstFollows(sel: seq<nat>, k: set<nat>)
    requires sel != [] && NoRepeats(sel) && Left(sel, k) == {sel[0]}
    ensures Follows(sel, k)
  {
    LeftIs(sel, k, sel[0]);
  }

  lemma ClosedAt(kept: seq<seq<nat>>, base: set<nat>, k: set<nat>, f: nat)
    requires Least(kept, base, k) && f < |kept| && Follows(kept[f], k)
    ensures kept[f][0] in k
  {}

  // ---------------------------------------------------------------- runs

  const NOTHING := Knowledge({}, [])

  /** A decoder that has received frames with the draws `sels`, one after the other. */
  ghost predicate Absorbing(sels: seq<seq<nat>>, ss: seq<Knowledge>) {
    && |ss| == |sels| + 1 && ss[0] == NOTHING
    && forall k :: 0 <= k < |sels| ==> Absorbs(ss[k], sels[k], ss[k + 1])
  }

  /** Nothing more can be found from the frames, whatever their order and whichever block of a frame is unknown. */
  ghost predicate Saturated(sels: seq<seq<nat>>, c: set<nat>) {
    forall f :: 0 <= f < |sels| ==> |Left(sels[f], c)| != 1
  }

  /** What an ideal peeling decoder knows from the frames: the least saturated set. */
  ghost predicate Ideal(sels: seq<seq<nat>>, k: set<nat>) {
    Saturated(sels, k) && forall c :: Saturated(sels, c) ==> k <= c
  }

  /** Each frame received so far is kept, or all its blocks are known; and only such frames are kept. */
  ghost predicate InvKept(sels: seq<seq<nat>>, s: Knowledge) {
    && Closed(s.kept, s.known)
    && (forall f :: 0 <= f < |sels| ==> sels[f] in s.kept || Left(sels[f], s.known) == {})
    && forall sel :: sel in s.kept ==> sel in sels
  }

  lemma LeftShrinks(sel: seq<nat>, a: set<nat>, b: set<nat>)
    requires a <= b
    ensures Left(sel, b) <= Left(sel, a)
  {}

  lemma KeptNext(sels: seq<seq<nat>>, s: Knowledge, sel: seq<nat>, t: Knowledge)
    requires InvKept(sels, s) && Absorbs(s, sel, t)
    ensures InvKept(sels + [sel], t)
  {
    AbsorbsKeepsClosed(s, sel, t);
    hide Closed, Left, Within;
    var all := sels + [sel];
    forall f | 0 <= f < |all|
      ensures all[f] in t.kept || Left(all[f], t.known) == {}
    {
      LeftShrinks(all[f], s.known, t.known);
      if f == |sels| && |Left(sel, s.known)| == 1 {
        AllKnown(sel, s.known, t.known);
      }
    }
    assert forall g :: g in s.kept ==> g in all;
  }

  lemma AllKnown(sel: seq<nat>, a: set<nat>, b: set<nat>)
    requires a + Left(sel, a) <= b
    ensures Left(sel, b) == {}
  {}

  lemma {:induction false} KeptAlong(sels: seq<seq<nat>>, ss: seq<Knowledge>, k: nat)
    requires Absorbing(sels, ss) && k <= |sels|
    ensures InvKept(sels[..k], ss[k])
  {
    hide Absorbs, InvKept;
    if k == 0 {
      NothingKept();
    } else {
      KeptAlong(sels, ss, k - 1);
      KeptNext(sels[..k - 1], ss[k - 1], sels[k - 1], ss[k]);
      assert sels[..k] == sels[..k - 1] + [sels[k - 1]];
    }
  }

  lemma NothingKept()
    ensures InvKept([], NOTHING)
  {}

  lemma SaturatedIsClosed(sels: seq<seq<nat>>, kept: seq<seq<nat>>, c: set<nat>)
    requires Saturated(sels, c) && forall sel :: sel in kept ==> sel in sels
    ensures Closed(kept, c)
  {
    forall f | 0 <= f < |kept| && Follows(kept[f], c)
      ensures kept[f][0] in c
    {
      assert kept[f] in kept && kept[f] in sels;
      AtMostOne(kept[f], c);
      Subsets(Left(kept[f], c), kept[f][0]);
      KnownIfNotLeft(kept[f], c);
    }
  }

  lemma KnownIfNotLeft(sel: seq<nat>, c: set<nat>)
    ensures Left(sel, c) == {} <==> forall i :: i in sel ==> i in c
  {
    if Left(sel, c) == {} {
      assert forall i :: i in sel ==> i in c || i in Left(sel, c);
    }
  }

  lemma BoundedNext(sels: seq<seq<nat>>, s: Knowledge, sel: seq<nat>, t: Knowledge, c: set<nat>)
    requires s.known <= c && Absorbs(s, sel, t) && Saturated(sels, c) && sel in sels
    requires forall g :: g in s.kept ==> g in sels
    ensures t.known <= c
  {
    SaturatedIsClosed(sels, s.kept, c);
    hide Closed;
    if |Left(sel, s.known)| == 1 {
      LeftShrinks(sel, s.known, c);
      var u := Left(sel, s.known);
      var i :| i in u;
      OnlyMember(u, i);
      Subsets(Left(sel, c), i);
      assert i !in c ==> i in Left(sel, c);
    }
  }

  lemma {:induction false} BoundedAlong(sels: seq<seq<nat>>, ss: seq<Knowledge>, k: nat, c: set<nat>)
    requires Absorbing(sels, ss) && k <= |sels| && Saturated(sels, c)
    ensures ss[k].known <= c
  {
    hide Absorbs, Saturated, InvKept;
    if k > 0 {
      BoundedAlong(sels, ss, k - 1, c);
      KeptAlong(sels, ss, k - 1);
      KeptAreReceived(sels, k - 1, ss[k - 1]);
      BoundedNext(sels, ss[k - 1], sels[k - 1], ss[k], c);
    }
  }

  lemma KeptAreReceived(sels: seq<seq<nat>>, k: nat, s: Knowledge)
    requires k <= |sels| && InvKept(sels[..k], s)
    ensures forall g :: g in s.kept ==> g in sels
  {}

  /** Every known block is one an ideal peeling decoder knows; and the decoder knows them all if and only if none of the frames
      it keeps has exactly one unknown block. */
  lemma IdealIff(sels: seq<seq<nat>>, ss: seq<Knowledge>)
    requires Absorbing(sels, ss)
    ensures var s := ss[|sels|];
      && (forall c :: Saturated(sels, c) ==> s.known <= c)
      && (Ideal(sels, s.known) <==> forall f :: 0 <= f < |s.kept| ==> |Left(s.kept[f], s.known)| != 1)
  {
    var s := ss[|sels|];
    KeptAlong(sels, ss, |sels|);
    assert sels[..|sels|] == sels;
    hide Absorbing, Closed, Left;
    forall c | Saturated(sels, c)
      ensures s.known <= c
    {
      BoundedAlong(sels, ss, |sels|, c);
    }
    if Ideal(sels, s.known) {
      forall f | 0 <= f < |s.kept|
        ensures |Left(s.kept[f], s.known)| != 1
      {
        assert s.kept[f] in s.kept;
      }
    }
  }

  /** The run is determined by the frames. */
  lemma {:induction false} AbsorbingOnce(sels: seq<seq<nat>>, ss: seq<Knowledge>, ts: seq<Knowledge>, k: nat)
    requires Absorbing(sels, ss) && Absorbing(sels, ts) && k <= |sels|
    ensures ss[k] == ts[k]
  {
    hide Absorbs;
    if k > 0 {
      AbsorbingOnce(sels, ss, ts, k - 1);
      AbsorbsOnce(ss[k - 1], sels[k - 1], ss[k], ts[k]);
    }
  }

  // ---------------------------------------------------------------- the order of arrival matters

  lemma NoFrames(base: set<nat>, k: set<nat>)
    ensures Least([], base, k) <==> k == base
  {
    assert Closed([], base);
  }

  /** A frame that drew i and j, then one that drew i: j is not found, though both frames are there. */
  lemma PairFirst(i: nat, j: nat, ss: seq<Knowledge>)
    requires i != j && Absorbing([[i, j], [i]], ss)
    ensures ss[2] == Knowledge({i}, [[i, j]]) && Left([i, j], ss[2].known) == {j} && !Ideal([[i, j], [i]], ss[2].known)
  {
    PairLeft(i, j);
    assert ss[1] == Knowledge({}, [[i, j]]) by { Two(i, j); }
    var kept := [[i, j]];
    assert Left([i], {}) == {i};
    assert !Follows([i, j], {i}) by { assert [i, j][1] !in {i}; }
    assert Closed(kept, {i});
    assert Least(kept, {} + {i}, ss[2].known);
    assert ss[2].known == {i};
    assert [[i, j], [i]][0] == [i, j];
  }

  lemma Two(i: nat, j: nat)
    requires i != j
    ensures |{i, j}| == 2
  {}

  lemma PairLeft(i: nat, j: nat)
    requires i != j
    ensures Left([i, j], {}) == {i, j} && Left([i, j], {i}) == {j} && Left([i], {}) == {i}
  {}

  lemma TwoSteps(a: seq<nat>, b: seq<nat>, ss: seq<Knowledge>)
    requires Absorbing([a, b], ss)
    ensures |ss| == 3 && ss[0] == NOTHING && Absorbs(ss[0], a, ss[1]) && Absorbs(ss[1], b, ss[2])
  {
    hide Absorbs;
    assert [a, b][0] == a && [a, b][1] == b;
  }

  /** Without kept frames one unknown block is all that is added. */
  lemma AddsOne(s: Knowledge, sel: seq<nat>, t: Knowledge, i: nat)
    requires Absorbs(s, sel, t) && s.kept == [] && Left(sel, s.known) == {i}
    ensures t == Knowledge(s.known + {i}, [])
  {
    hide Left, Least;
    NoFrames(s.known + {i}, t.known);
  }

  /** In the other order both are known. */
  lemma PairLast(i: nat, j: nat, ss: seq<Knowledge>)
    requires i != j && Absorbing([[i], [i, j]], ss)
    ensures ss[2] == Knowledge({i, j}, []) && Ideal([[i], [i, j]], ss[2].known)
  {
    hide Absorbing, Absorbs, Ideal, Left;
    TwoSteps([i], [i, j], ss);
    PairLeft(i, j);
    AddsOne(ss[0], [i], ss[1], i);
    assert {} + {i} == {i};
    AddsOne(ss[1], [i, j], ss[2], j);
    assert {i} + {j} == {i, j};
    IdealIff([[i], [i, j]], ss);
  }
}
