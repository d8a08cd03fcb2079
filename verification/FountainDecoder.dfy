/** The peeling decoder of `arkhe-soc-tlm/src/fountain_decoder.rs`. */
module FountainDecoding {
  import opened Wrappers
  import opened Collections
  import opened LittleEndian
  import opened FountainFrames
  import opened FountainDraws
  import opened FountainEncoding
  import opened FountainPeeling
  import opened OrchOR

  // ---------------------------------------------------------------- the peeling invariant

  /** A pending frame that once named the blocks `sel`: its degree counts those still unknown, its payload
      is their XOR, and its seed still draws their indices. */
  ghost predicate FrameOk(src: Source, known: set<nat>, frame: Frame, sel: seq<nat>) {
    && Named(src, sel) && frame.k == |src.blocks|
    && Reaches(frame.seed, frame.k, |sel|) && Selected(frame.seed, frame.k, |sel|) == sel
    && frame.degree == |Left(sel, known)| && frame.payload == XorOut(src, sel, known)
  }

  ghost predicate PendingOk(src: Source, known: set<nat>, pending: seq<Frame>, origins: seq<seq<nat>>) {
    |origins| == |pending| && forall f :: 0 <= f < |pending| ==> FrameOk(src, known, pending[f], origins[f])
  }

  predicate Listed(lists: map<nat, seq<nat>>, i: nat, f: nat) {
    i in lists && f in lists[i]
  }

  /** The index holds, for each unknown block, exactly the frames that name it, each once. */
  ghost predicate ListsOk(known: set<nat>, lists: map<nat, seq<nat>>, origins: seq<seq<nat>>) {
    && (forall i: nat, f: nat :: Listed(lists, i, f) <==> f < |origins| && i in origins[f] && i !in known)
    && forall i :: i in lists ==> NoRepeats(lists[i])
  }

  ghost predicate DecodedOk(src: Source, decoded: map<nat, seq<byte>>) {
    forall i :: i in decoded ==> i < |src.blocks| && decoded[i] == src.blocks[i]
  }

  /** A frame with one unknown block is left alone only when that block is not its first draw: the indices are
      drawn again for the reduced degree, so no other can be found. */
  ghost predicate Exhausted(pending: seq<Frame>, origins: seq<seq<nat>>, known: set<nat>)
    requires |origins| == |pending|
  {
    forall f :: 0 <= f < |pending| && pending[f].degree == 1 ==> origins[f] != [] && origins[f][0] in known
  }

  ghost predicate Peeling(src: Source, decoded: map<nat, seq<byte>>, pending: seq<Frame>, lists: map<nat, seq<nat>>, origins: seq<seq<nat>>) {
    && Shaped(src) && DecodedOk(src, decoded)
    && PendingOk(src, decoded.Keys, pending, origins) && ListsOk(decoded.Keys, lists, origins)
  }

  function Reduced(frame: Frame, data: seq<byte>): Frame
    requires frame.degree > 0
  {
    frame.(payload := Xor(frame.payload, data), degree := frame.degree - 1)
  }

  /** The same frames, but for their degrees and payloads. */
  ghost predicate AllKin(was: seq<Frame>, now: seq<Frame>) {
    && |was| == |now|
    && forall f :: 0 <= f < |was| ==> now[f] == was[f].(degree := now[f].degree, payload := now[f].payload)
  }

  lemma KinReduced(was: seq<Frame>, now: seq<Frame>, f: nat, data: seq<byte>)
    requires AllKin(was, now) && f < |now| && now[f].degree > 0
    ensures AllKin(was, now[f := Reduced(now[f], data)])
  {
    hide Xor;
  }

  lemma SameKin(frames: seq<Frame>)
    ensures AllKin(frames, frames)
  {}

  lemma KinOfKin(a: seq<Frame>, b: seq<Frame>, c: seq<Frame>)
    requires AllKin(a, b) && AllKin(b, c)
    ensures AllKin(a, c)
  {}

  /** The indices an honest frame has drawn. */
  ghost function Draws(src: Source, frame: Frame): (sel: seq<nat>)
    requires Honest(src, frame)
    ensures Named(src, sel)
  {
    HonestNames(src, frame);
    Selected(frame.seed, frame.k, frame.degree)
  }

  /** The frames waiting after a frame has come: the same ones, and the new one, reduced, if two or more of its blocks are
      unknown. */
  ghost predicate Waits(src: Source, known: set<nat>, frame: Frame, sel: seq<nat>, was: seq<Frame>, now: seq<Frame>)
    requires Named(src, sel)
  {
    var u := Left(sel, known);
    if |u| >= 2 then now == was + [frame.(degree := |u|, payload := XorOut(src, sel, known))]
    else if |u| == 1 then AllKin(was, now)
    else now == was
  }

  /** One of its blocks becoming known, a frame loses it from payload and degree. */
  lemma FrameReduced(src: Source, known: set<nat>, frame: Frame, sel: seq<nat>, i: nat)
    requires FrameOk(src, known, frame, sel) && i in sel && i !in known
    ensures i < |src.blocks| && frame.degree > 0
    ensures FrameOk(src, known + {i}, Reduced(frame, src.blocks[i]), sel)
  {
    hide Xor;
    assert i in Left(sel, known);
    LeftMore(sel, known, i);
    XorOutMore(src, sel, known, i);
  }

  lemma FrameUntouched(src: Source, known: set<nat>, frame: Frame, sel: seq<nat>, i: nat)
    requires FrameOk(src, known, frame, sel) && i !in sel
    ensures FrameOk(src, known + {i}, frame, sel)
  {
    LeftMore(sel, known, i);
    XorOutSame(src, sel, known, known + {i});
  }

  /** With one unknown block, the payload is that block. */
  lemma FrameLast(src: Source, known: set<nat>, frame: Frame, sel: seq<nat>, i: nat)
    requires FrameOk(src, known, frame, sel) && frame.degree == 1 && i in sel && i !in known
    ensures i < |src.blocks| && frame.payload == src.blocks[i]
  {
    assert i in Left(sel, known);
    OnlyMember(Left(sel, known), i);
    XorOutOne(src, sel, known, i);
  }

  /** The first draw of a frame with unknown blocks is one of those it named. */
  lemma FirstDraw(src: Source, known: set<nat>, frame: Frame, sel: seq<nat>)
    requires FrameOk(src, known, frame, sel) && frame.degree == 1
    ensures Reaches(frame.seed, frame.k, 1) && sel != [] && Selected(frame.seed, frame.k, 1) == [sel[0]]
  {
    assert sel == [] ==> Left(sel, known) == {};
    SelectedPrefix(frame.seed, frame.k, 1, |sel|);
  }

  /** The frames in a list of `known`-frames that have been reduced so far. */
  ghost predicate Propagating(src: Source, known: set<nat>, i: nat, touched: seq<nat>, pending: seq<Frame>, origins: seq<seq<nat>>) {
    && |origins| == |pending|
    && forall f :: 0 <= f < |pending| ==>
         FrameOk(src, if f in touched then known + {i} else known, pending[f], origins[f])
  }

  lemma PropagateOne(src: Source, known: set<nat>, i: nat, touched: seq<nat>, pending: seq<Frame>, origins: seq<seq<nat>>, f: nat)
    requires Propagating(src, known, i, touched, pending, origins) && f < |pending| && f !in touched
    requires i in origins[f] && i !in known && i < |src.blocks|
    ensures pending[f].degree > 0
    ensures Propagating(src, known, i, touched + [f], pending[f := Reduced(pending[f], src.blocks[i])], origins)
  {
    FrameReduced(src, known, pending[f], origins[f], i);
    hide FrameOk, Reduced;
  }

  lemma PropagateAll(src: Source, known: set<nat>, i: nat, touched: seq<nat>, pending: seq<Frame>, origins: seq<seq<nat>>)
    requires Propagating(src, known, i, touched, pending, origins)
    requires forall f :: 0 <= f < |origins| && i in origins[f] ==> f in touched
    ensures PendingOk(src, known + {i}, pending, origins)
  {
    hide FrameOk;
    forall f | 0 <= f < |pending|
      ensures FrameOk(src, known + {i}, pending[f], origins[f])
    {
      if f !in touched {
        FrameUntouched(src, known, pending[f], origins[f], i);
      }
    }
  }

  lemma ListsWithout(known: set<nat>, lists: map<nat, seq<nat>>, origins: seq<seq<nat>>, i: nat)
    requires ListsOk(known, lists, origins)
    ensures ListsOk(known + {i}, lists - {i}, origins)
  {
    hide NoRepeats;
    var after := lists - {i};
    forall j: nat, f: nat
      ensures Listed(after, j, f) <==> f < |origins| && j in origins[f] && j !in known + {i}
    {
      assert Listed(after, j, f) <==> Listed(lists, j, f) && j != i;
    }
  }

  function FramesOf(lists: map<nat, seq<nat>>, i: nat): seq<nat> {
    if i in lists then lists[i] else []
  }

  lemma ListFacts(known: set<nat>, lists: map<nat, seq<nat>>, origins: seq<seq<nat>>, i: nat)
    requires ListsOk(known, lists, origins) && i !in known
    ensures NoRepeats(FramesOf(lists, i))
    ensures forall j :: 0 <= j < |FramesOf(lists, i)| ==> FramesOf(lists, i)[j] < |origins| && i in origins[FramesOf(lists, i)[j]]
    ensures forall f :: 0 <= f < |origins| && i in origins[f] ==> f in FramesOf(lists, i)
  {
    hide NoRepeats;
    var list := FramesOf(lists, i);
    forall j | 0 <= j < |list|
      ensures list[j] < |origins| && i in origins[list[j]]
    {
      assert Listed(lists, i, list[j]);
    }
    forall f | 0 <= f < |origins| && i in origins[f]
      ensures f in list
    {
      assert Listed(lists, i, f);
    }
    assert NoRepeats([]) by { NothingRepeated(); }
  }

  lemma NothingRepeated()
    ensures NoRepeats([])
  {}

  lemma NotBefore(s: seq<nat>, j: nat)
    requires NoRepeats(s) && j < |s|
    ensures s[j] !in s[..j]
  {}

  lemma PropagateNone(src: Source, known: set<nat>, i: nat, pending: seq<Frame>, origins: seq<seq<nat>>)
    requires PendingOk(src, known, pending, origins)
    ensures Propagating(src, known, i, [], pending, origins) && |pending| == |origins|
  {
    hide FrameOk;
  }

  // ---------------------------------------------------------------- reading a frame

  /** `source_indices`: the set of selected indices, listed in some order. */
  method SourceIndices(frame: Frame) returns (indices: seq<nat>)
    requires Reaches(frame.seed, frame.k, frame.degree)
    ensures NoRepeats(indices) && SetOf(indices) == SetOf(Selected(frame.seed, frame.k, frame.degree))
  {
    var selected: set<nat> := {};
    var n := 0;
    ghost var enough: nat :| DrawsEnough(frame.seed, frame.k, frame.degree, enough);
    SelectedAt(frame.seed, frame.k, frame.degree, enough);
    hide Draw, Reaches, Selected;
    while |selected| < frame.degree
      invariant selected == SetOf(Distinct(frame.seed, frame.k, n)) && n <= enough
      invariant |Distinct(frame.seed, frame.k, n)| == |selected| <= frame.degree
      decreases enough - n
    {
      DistinctGrows(frame.seed, frame.k, n, enough);
      if n == enough {
        assert false;
      }
      DistinctNext(frame.seed, frame.k, n);
      selected := selected + {Draw(frame.seed, frame.k, n)};
      n := n + 1;
    }
    SelectedAt(frame.seed, frame.k, frame.degree, n);
    assert Distinct(frame.seed, frame.k, n)[..frame.degree] == Distinct(frame.seed, frame.k, n);
    indices := ListOf(selected);
  }

  method ListOf(s: set<nat>) returns (list: seq<nat>)
    ensures NoRepeats(list) && SetOf(list) == s
  {
    list := [];
    var rest := s;
    while rest != {}
      invariant rest <= s && NoRepeats(list) && SetOf(list) == s - rest
      decreases rest
    {
      var i :| i in rest;
      assert SetOf(list + [i]) == SetOf(list) + {i};
      list := list + [i];
      rest := rest - {i};
    }
  }

  /** After some of the indices of a frame: the unknown ones, and the XOR of the known ones. */
  ghost predicate Resolving(src: Source, decoded: map<nat, seq<byte>>, sel: seq<nat>, seen: seq<nat>, unknown: seq<nat>, resolved: seq<byte>) {
    && Named(src, sel) && |resolved| == src.size
    && NoRepeats(unknown) && SetOf(unknown) == SetOf(seen) - decoded.Keys
    && Xor(XorOut(src, sel, {}), resolved) == XorOut(src, sel, decoded.Keys * SetOf(seen))
  }

  lemma ResolveNone(src: Source, decoded: map<nat, seq<byte>>, sel: seq<nat>)
    requires Named(src, sel)
    ensures Resolving(src, decoded, sel, [], [], Zeros(src.size))
  {
    XorCancels(XorOut(src, sel, {}), XorOut(src, sel, {}));
    assert decoded.Keys * SetOf([]) == {};
    assert SetOf([]) - decoded.Keys == SetOf([]);
  }

  lemma ResolveUnknown(src: Source, decoded: map<nat, seq<byte>>, sel: seq<nat>, seen: seq<nat>, unknown: seq<nat>, resolved: seq<byte>, i: nat)
    requires Resolving(src, decoded, sel, seen, unknown, resolved) && i !in seen && i !in decoded
    ensures Resolving(src, decoded, sel, seen + [i], unknown + [i], resolved)
  {
    hide Xor, XorOut, Named;
    assert SetOf(seen + [i]) == SetOf(seen) + {i};
    assert i !in SetOf(unknown);
    assert SetOf(unknown + [i]) == SetOf(unknown) + {i};
    assert decoded.Keys * SetOf(seen + [i]) == decoded.Keys * SetOf(seen);
  }

  lemma ResolveKnown(src: Source, decoded: map<nat, seq<byte>>, sel: seq<nat>, seen: seq<nat>, unknown: seq<nat>, resolved: seq<byte>, i: nat)
    requires Resolving(src, decoded, sel, seen, unknown, resolved) && i !in seen && i in decoded && i in sel
    requires DecodedOk(src, decoded)
    ensures |decoded[i]| == src.size && Resolving(src, decoded, sel, seen + [i], unknown, Xor(resolved, decoded[i]))
  {
    hide Xor, XorOut;
    assert SetOf(seen + [i]) == SetOf(seen) + {i};
    assert SetOf(seen + [i]) - decoded.Keys == SetOf(seen) - decoded.Keys;
    assert decoded.Keys * SetOf(seen + [i]) == decoded.Keys * SetOf(seen) + {i};
    XorAssociative(XorOut(src, sel, {}), resolved, decoded[i]);
    XorOutMore(src, sel, decoded.Keys * SetOf(seen), i);
  }

  lemma ResolvedAll(src: Source, decoded: map<nat, seq<byte>>, sel: seq<nat>, seen: seq<nat>, unknown: seq<nat>, resolved: seq<byte>)
    requires Resolving(src, decoded, sel, seen, unknown, resolved) && SetOf(seen) == SetOf(sel)
    ensures |resolved| == src.size && NoRepeats(unknown) && |unknown| == |Left(sel, decoded.Keys)| && SetOf(unknown) == Left(sel, decoded.Keys)
    ensures Xor(XorOut(src, sel, {}), resolved) == XorOut(src, sel, decoded.Keys)
  {
    hide Xor;
    NoRepeatsSize(unknown);
    forall i | i in sel
      ensures i in decoded.Keys * SetOf(seen) <==> i in decoded.Keys
    {
      assert i in SetOf(sel);
    }
    XorOutSame(src, sel, decoded.Keys * SetOf(seen), decoded.Keys);
  }

  // ---------------------------------------------------------------- storing a frame

  /** The index after adding frame n to the lists of some of its unknown blocks. */
  ghost predicate Listing(was: map<nat, seq<nat>>, lists: map<nat, seq<nat>>, n: nat, added: seq<nat>) {
    && (forall i: nat, f: nat :: Listed(lists, i, f) <==> Listed(was, i, f) || (f == n && i in added))
    && forall i :: i in lists ==> NoRepeats(lists[i])
  }

  function WithFrame(lists: map<nat, seq<nat>>, i: nat, n: nat): map<nat, seq<nat>> {
    lists[i := (if i in lists then lists[i] else []) + [n]]
  }

  lemma ListOne(was: map<nat, seq<nat>>, lists: map<nat, seq<nat>>, n: nat, added: seq<nat>, i: nat)
    requires Listing(was, lists, n, added) && i !in added && !Listed(was, i, n)
    ensures Listing(was, WithFrame(lists, i, n), n, added + [i])
  {
    assert !Listed(lists, i, n);
    var after := WithFrame(lists, i, n);
    forall j: nat, f: nat
      ensures Listed(after, j, f) <==> Listed(was, j, f) || (f == n && j in added + [i])
    {
      assert Listed(after, j, f) <==> Listed(lists, j, f) || (j == i && f == n);
    }
  }

  lemma ListsGrow(known: set<nat>, was: map<nat, seq<nat>>, lists: map<nat, seq<nat>>, origins: seq<seq<nat>>, sel: seq<nat>, unknown: seq<nat>)
    requires ListsOk(known, was, origins) && Listing(was, lists, |origins|, unknown) && SetOf(unknown) == Left(sel, known)
    ensures ListsOk(known, lists, origins + [sel])
  {
    var all := origins + [sel];
    hide NoRepeats;
    forall i: nat, f: nat
      ensures Listed(lists, i, f) <==> f < |all| && i in all[f] && i !in known
    {
      assert i in unknown <==> i in SetOf(unknown);
    }
  }

  lemma ListingNone(known: set<nat>, lists: map<nat, seq<nat>>, pending: seq<Frame>, origins: seq<seq<nat>>, src: Source)
    requires ListsOk(known, lists, origins) && PendingOk(src, known, pending, origins)
    ensures |origins| == |pending| && Listing(lists, lists, |pending|, []) && forall i: nat :: !Listed(lists, i, |pending|)
  {
    hide NoRepeats, FrameOk;
  }

  lemma PendingGrows(src: Source, known: set<nat>, pending: seq<Frame>, origins: seq<seq<nat>>, frame: Frame, sel: seq<nat>)
    requires PendingOk(src, known, pending, origins) && FrameOk(src, known, frame, sel)
    requires frame.degree >= 2 && Exhausted(pending, origins, known)
    ensures PendingOk(src, known, pending + [frame], origins + [sel]) && Exhausted(pending + [frame], origins + [sel], known)
  {
    hide FrameOk;
  }

  class FountainDecoder {
    var decodedBlocks: map<nat, seq<byte>>
    var pendingFrames: seq<Frame>
    var blockToFrames: map<nat, seq<nat>>
    var currentSession: Option<nat>
    var expectedK: nat
    var blockSize: nat

    /** What the encoder of each session sends from, and the blocks each pending frame named. */
    ghost const sources: nat -> Source
    ghost var origins: seq<seq<nat>>

    /** Every decoded block is the block of the current session's source, and the peeling state is exact. */
    ghost predicate Valid()
      reads this
    {
      match currentSession
      case None => decodedBlocks == map[] && pendingFrames == [] && blockToFrames == map[] && origins == [] && expectedK == 0
      case Some(session) =>
        && expectedK == |sources(session).blocks| && blockSize == sources(session).size
        && Peeling(sources(session), decodedBlocks, pendingFrames, blockToFrames, origins)
        && Exhausted(pendingFrames, origins, decodedBlocks.Keys)
    }

    ghost function Knows(): Knowledge
      reads this
    {
      Knowledge(decodedBlocks.Keys, origins)
    }

    predicate Complete()
      reads this
    {
      expectedK != 0 && |decodedBlocks| >= expectedK
    }

    constructor (ghost sources: nat -> Source)
      ensures Valid() && this.sources == sources && currentSession == None
    {
      decodedBlocks, pendingFrames, blockToFrames, currentSession, expectedK, blockSize := map[], [], map[], None, 0, 0;
      this.sources, origins := sources, [];
    }

    /** `propagate_resolution`: block i, now known, leaves every frame that names it. */
    method PropagateResolution(i: nat, data: seq<byte>, ghost src: Source, ghost known: set<nat>)
      requires PendingOk(src, known, pendingFrames, origins) && ListsOk(known, blockToFrames, origins)
      requires i < |src.blocks| && data == src.blocks[i] && i !in known
      modifies this`pendingFrames, this`blockToFrames
      ensures PendingOk(src, known + {i}, pendingFrames, origins) && ListsOk(known + {i}, blockToFrames, origins)
      ensures AllKin(old(pendingFrames), pendingFrames)
    {
      hide Propagating, PendingOk, ListsOk, FrameOk, Reduced, NoRepeats, AllKin;
      SameKin(pendingFrames);
      ListsWithout(known, blockToFrames, origins, i);
      ListFacts(known, blockToFrames, origins, i);
      var list := FramesOf(blockToFrames, i);
      blockToFrames := blockToFrames - {i};
      PropagateNone(src, known, i, pendingFrames, origins);
      for j := 0 to |list|
        invariant Propagating(src, known, i, list[..j], pendingFrames, origins) && |pendingFrames| == |origins|
        invariant ListsOk(known + {i}, blockToFrames, origins) && AllKin(old(pendingFrames), pendingFrames)
      {
        var f := list[j];
        assert list[..j + 1] == list[..j] + [f];
        NotBefore(list, j);
        if f < |pendingFrames| {
          PropagateOne(src, known, i, list[..j], pendingFrames, origins, f);
          KinReduced(old(pendingFrames), pendingFrames, f, data);
          pendingFrames := pendingFrames[f := Reduced(pendingFrames[f], data)];
        }
      }
      assert list[..|list|] == list;
      PropagateAll(src, known, i, list, pendingFrames, origins);
    }

    /** `find_remaining_block`: an index among those drawn for the reduced degree that is not decoded. */
    method FindRemainingBlock(f: nat) returns (r: Option<nat>)
      requires f < |pendingFrames| && Reaches(pendingFrames[f].seed, pendingFrames[f].k, pendingFrames[f].degree)
      ensures var drawn := Selected(pendingFrames[f].seed, pendingFrames[f].k, pendingFrames[f].degree);
        && (r.None? <==> forall i :: i in drawn ==> i in decodedBlocks)
        && (r.Some? ==> r.value in drawn && r.value !in decodedBlocks)
    {
      var indices := SourceIndices(pendingFrames[f]);
      ghost var drawn := Selected(pendingFrames[f].seed, pendingFrames[f].k, pendingFrames[f].degree);
      assert forall i :: i in drawn <==> i in SetOf(indices);
      for j := 0 to |indices|
        invariant forall i :: i in indices[..j] ==> i in decodedBlocks
      {
        assert indices[..j + 1] == indices[..j] + [indices[j]];
        if indices[j] !in decodedBlocks {
          return Some(indices[j]);
        }
      }
      assert indices[..|indices|] == indices;
      return None;
    }

    /** Puts every frame with one unknown block on the queue, once. */
    method Singles(was: seq<nat>) returns (queue: seq<nat>)
      ensures forall f: nat :: f < |pendingFrames| && pendingFrames[f].degree == 1 ==> f in queue
    {
      queue := was;
      for f := 0 to |pendingFrames|
        invariant forall g: nat :: g < f && pendingFrames[g].degree == 1 ==> g in queue
      {
        if pendingFrames[f].degree == 1 && f !in queue {
          queue := queue + [f];
        }
      }
    }

    /** One turn of `peel_cascade`: decodes the last unknown block of frame f if it can be found. */
    method Peel(f: nat, ghost src: Source) returns (found: bool)
      requires Peeling(src, decodedBlocks, pendingFrames, blockToFrames, origins)
      modifies this`decodedBlocks, this`pendingFrames, this`blockToFrames
      ensures Peeling(src, decodedBlocks, pendingFrames, blockToFrames, origins)
      ensures found <==> old(Unpeeled(decodedBlocks.Keys, pendingFrames, origins, f))
      ensures !found ==> decodedBlocks == old(decodedBlocks) && pendingFrames == old(pendingFrames)
      ensures found ==> var i := origins[f][0];
        i in Below(|src.blocks|) && decodedBlocks.Keys == old(decodedBlocks).Keys + {i}
      ensures AllKin(old(pendingFrames), pendingFrames)
    {
      hide FrameOk, PendingOk, ListsOk, Peeling, Reaches, AllKin;
      SameKin(pendingFrames);
      if f >= |pendingFrames| || pendingFrames[f].degree != 1 {
        return false;
      }
      PeelableFrame(src, decodedBlocks, pendingFrames, blockToFrames, origins, f);
      var remaining := FindRemainingBlock(f);
      if remaining.None? {
        assert origins[f][0] in [origins[f][0]];
        return false;
      }
      Decode(remaining.value, pendingFrames[f].payload, f, src);
      return true;
    }

    /** The last unknown block of frame f is its payload. */
    method Decode(i: nat, data: seq<byte>, ghost f: nat, ghost src: Source)
      requires Peeling(src, decodedBlocks, pendingFrames, blockToFrames, origins)
      requires f < |pendingFrames| && f < |origins| && pendingFrames[f].degree == 1 && data == pendingFrames[f].payload
      requires i in origins[f] && i !in decodedBlocks
      modifies this`decodedBlocks, this`pendingFrames, this`blockToFrames
      ensures Peeling(src, decodedBlocks, pendingFrames, blockToFrames, origins)
      ensures i in Below(|src.blocks|) && decodedBlocks.Keys == old(decodedBlocks).Keys + {i}
      ensures AllKin(old(pendingFrames), pendingFrames)
    {
      hide FrameOk, PendingOk, ListsOk;
      ghost var known := decodedBlocks.Keys;
      FrameAt(src, known, pendingFrames, origins, f);
      FrameLast(src, known, pendingFrames[f], origins[f], i);
      decodedBlocks := decodedBlocks[i := data];
      PropagateResolution(i, data, src, known);
      assert decodedBlocks.Keys == known + {i};
    }

    /** `peel_cascade`: decodes from frames with one unknown block until none of them helps. It then knows exactly what can be
        found from what it knew, and is left with one unknown block exactly in the frames that are stuck. */
    method PeelCascade(ghost src: Source)
      requires Peeling(src, decodedBlocks, pendingFrames, blockToFrames, origins)
      modifies this`decodedBlocks, this`pendingFrames, this`blockToFrames
      ensures Peeling(src, decodedBlocks, pendingFrames, blockToFrames, origins)
      ensures Exhausted(pendingFrames, origins, decodedBlocks.Keys) && old(decodedBlocks).Keys <= decodedBlocks.Keys
      ensures Least(origins, old(decodedBlocks).Keys, decodedBlocks.Keys) && AllKin(old(pendingFrames), pendingFrames)
      ensures |origins| == |pendingFrames| && forall f :: 0 <= f < |origins| ==>
        (pendingFrames[f].degree == 1 <==> exists i :: StuckOn(origins, old(decodedBlocks).Keys, f, i))
    {
      hide Peeling, Exhausted, Within, AllKin, Closed, StuckOn, Least;
      WithinItself(origins, decodedBlocks.Keys);
      SameKin(pendingFrames);
      var queue := Singles([]);
      while queue != []
        invariant Peeling(src, decodedBlocks, pendingFrames, blockToFrames, origins)
        invariant forall f: nat :: Unpeeled(decodedBlocks.Keys, pendingFrames, origins, f) ==> f in queue
        invariant old(decodedBlocks).Keys <= decodedBlocks.Keys
        invariant Within(origins, old(decodedBlocks).Keys, decodedBlocks.Keys) && AllKin(old(pendingFrames), pendingFrames)
        decreases Below(|src.blocks|) - decodedBlocks.Keys, |queue|
      {
        var f, rest := queue[0], queue[1..];
        assert forall g :: g in queue ==> g == f || g in rest;
        ghost var known, frames := decodedBlocks.Keys, pendingFrames;
        UnpeeledFollows(src, decodedBlocks, pendingFrames, blockToFrames, origins, f);
        var found := Peel(f, src);
        KinOfKin(old(pendingFrames), frames, pendingFrames);
        if found {
          WithinOne(origins, old(decodedBlocks).Keys, known, f);
        }
        queue := rest;
        if found {
          queue := Singles(queue);
        }
      }
      NothingUnpeeled(src, decodedBlocks, pendingFrames, blockToFrames, origins);
      LeftIsLeast(src, decodedBlocks, pendingFrames, blockToFrames, origins, old(decodedBlocks).Keys);
    }

    /** The session switch at the start of `receive_frame`. */
    method EnterSession(frame: Frame)
      requires Valid() && Honest(sources(frame.session), frame)
      modifies this
      ensures Valid() && currentSession == Some(frame.session)
      ensures old(currentSession) == Some(frame.session) ==>
        decodedBlocks == old(decodedBlocks) && pendingFrames == old(pendingFrames) && Knows() == old(Knows())
      ensures old(currentSession) != Some(frame.session) ==> pendingFrames == [] && Knows() == NOTHING
    {
      if currentSession != Some(frame.session) {
        decodedBlocks, pendingFrames, blockToFrames, origins := map[], [], map[], [];
        currentSession, expectedK, blockSize := Some(frame.session), frame.k, frame.blockSize;
      }
    }

    /** The indices of a frame that are not decoded, and the XOR of the blocks that are. */
    method Resolve(indices: seq<nat>, size: nat, ghost src: Source, ghost sel: seq<nat>)
        returns (unknown: seq<nat>, resolved: seq<byte>)
      requires Named(src, sel) && DecodedOk(src, decodedBlocks) && size == src.size
      requires NoRepeats(indices) && SetOf(indices) == SetOf(sel)
      ensures Resolving(src, decodedBlocks, sel, indices, unknown, resolved)
    {
      unknown, resolved := [], Zeros(size);
      ResolveNone(src, decodedBlocks, sel);
      hide Xor, XorOut, Named;
      for j := 0 to |indices|
        invariant Resolving(src, decodedBlocks, sel, indices[..j], unknown, resolved)
      {
        assert indices[..j + 1] == indices[..j] + [indices[j]];
        assert indices[j] in SetOf(indices);
        if indices[j] in decodedBlocks {
          ResolveKnown(src, decodedBlocks, sel, indices[..j], unknown, resolved, indices[j]);
          resolved := XorInto(resolved, decodedBlocks[indices[j]]);
        } else {
          ResolveUnknown(src, decodedBlocks, sel, indices[..j], unknown, resolved, indices[j]);
          unknown := unknown + [indices[j]];
        }
      }
      assert indices[..|indices|] == indices;
    }

    /** The new frame waits, listed under each of its unknown blocks. */
    method Store(frame: Frame, unknown: seq<nat>, ghost src: Source, ghost sel: seq<nat>)
      requires Peeling(src, decodedBlocks, pendingFrames, blockToFrames, origins)
      requires Exhausted(pendingFrames, origins, decodedBlocks.Keys)
      requires FrameOk(src, decodedBlocks.Keys, frame, sel) && frame.degree >= 2
      requires NoRepeats(unknown) && SetOf(unknown) == Left(sel, decodedBlocks.Keys)
      modifies this`pendingFrames, this`blockToFrames, this`origins
      ensures Peeling(src, decodedBlocks, pendingFrames, blockToFrames, origins)
      ensures Exhausted(pendingFrames, origins, decodedBlocks.Keys)
      ensures pendingFrames == old(pendingFrames) + [frame] && origins == old(origins) + [sel]
    {
      hide FrameOk, PendingOk, Listing, ListsOk, Exhausted, NoRepeats;
      var n := |pendingFrames|;
      ghost var known, was := decodedBlocks.Keys, blockToFrames;
      PendingGrows(src, known, pendingFrames, origins, frame, sel);
      ListingNone(known, was, pendingFrames, origins, src);
      pendingFrames := pendingFrames + [frame];
      for j := 0 to |unknown|
        invariant Listing(was, blockToFrames, n, unknown[..j])
        invariant origins == old(origins) && pendingFrames == old(pendingFrames) + [frame]
      {
        assert unknown[..j + 1] == unknown[..j] + [unknown[j]];
        NotBefore(unknown, j);
        ListOne(was, blockToFrames, n, unknown[..j], unknown[j]);
        blockToFrames := WithFrame(blockToFrames, unknown[j], n);
      }
      assert unknown[..|unknown|] == unknown;
      ListsGrow(known, was, blockToFrames, origins, sel, unknown);
      origins := origins + [sel];
    }

    /** `receive_frame`: whatever honest frames come in whatever order, repeated or not, of whatever sessions,
        the decoder holds only blocks of the current session's source, and each frame adds exactly what it must: with no unknown
        block nothing, with one that block and all that can then be found, with more itself. */
    method ReceiveFrame(raw: seq<byte>) returns (r: Result<bool, string>)
      requires Valid() && PayloadInside(raw)
      requires Parse(raw).Some? ==> Honest(sources(Parse(raw).value.session), Parse(raw).value)
      modifies this
      ensures Valid()
      ensures r.Err? <==> Parse(raw).None?
      ensures r.Err? ==> unchanged(this)
      ensures r.Ok? ==> currentSession == Some(Parse(raw).value.session) && r.value == Complete()
      ensures r.Ok? ==>
        var frame, same := Parse(raw).value, old(currentSession) == currentSession;
        var src := sources(frame.session);
        var before, waiting := if same then old(Knows()) else NOTHING, if same then old(pendingFrames) else [];
        && Absorbs(before, Draws(src, frame), Knows())
        && Waits(src, before.known, frame, Draws(src, frame), waiting, pendingFrames)
    {
      match Parse(raw) {
        case None =>
          return Err("Invalid frame or Hash mismatch");
        case Some(frame) =>
          hide Honest, Absorbs, Draws, Waits, FrameOk, PendingOk, ListsOk, Exhausted, Least;
          EnterSession(frame);
          if Complete() {
            CompleteAbsorbs(sources(frame.session), frame, decodedBlocks, origins, pendingFrames);
            return Ok(true);
          }
          Absorb(frame);
          return Ok(Complete());
      }
    }

    /** `receive_frame` once the session is right and not complete. */
    method Absorb(frame: Frame)
      requires Valid() && currentSession == Some(frame.session) && Honest(sources(frame.session), frame)
      modifies this`decodedBlocks, this`pendingFrames, this`blockToFrames, this`origins
      ensures Valid() && old(decodedBlocks).Keys <= decodedBlocks.Keys
      ensures var src := sources(frame.session);
        && Absorbs(old(Knows()), Draws(src, frame), Knows())
        && Waits(src, old(decodedBlocks).Keys, frame, Draws(src, frame), old(pendingFrames), pendingFrames)
    {
      hide Honest, Reaches, Exhausted, FrameOk, Peeling, Named, XorOut, NoRepeats, Left, Least, AllKin, StuckOn, Draws;
      var unknown, effective;
      ghost var src, sel := sources(frame.session), [];
      DecodedRight(src, decodedBlocks, pendingFrames, blockToFrames, origins);
      unknown, effective, sel := Reduce(frame, src);
      ghost var known, frames := decodedBlocks.Keys, pendingFrames;
      SizeOfLeft(unknown, Left(sel, known));
      if |unknown| == 1 {
        DecodeNew(unknown[0], effective, src, sel, unknown);
        ghost var between := pendingFrames;
        PeelCascade(src);
        KinOfKin(frames, between, pendingFrames);
      } else if |unknown| > 1 {
        Store(frame.(degree := |unknown|, payload := effective), unknown, src, sel);
      }
    }

    /** What is left of a frame: its unknown indices, and their XOR. */
    method Reduce(frame: Frame, ghost src: Source) returns (unknown: seq<nat>, effective: seq<byte>, ghost sel: seq<nat>)
      requires Honest(src, frame) && DecodedOk(src, decodedBlocks)
      ensures sel == Draws(src, frame) && Named(src, sel) && NoRepeats(unknown) && SetOf(unknown) == Left(sel, decodedBlocks.Keys)
      ensures effective == XorOut(src, sel, decodedBlocks.Keys)
      ensures FrameOk(src, decodedBlocks.Keys, frame.(degree := |unknown|, payload := effective), sel)
    {
      hide Xor, XorOut, Honest, Reaches, FrameOk, Resolving, Named, NoRepeats, Left;
      HonestNames(src, frame);
      sel := Selected(frame.seed, frame.k, frame.degree);
      var indices := SourceIndices(frame);
      var resolved;
      unknown, resolved := Resolve(indices, |frame.payload|, src, sel);
      ResolvedAll(src, decodedBlocks, sel, indices, unknown, resolved);
      effective := XorInto(frame.payload, resolved);
      NewFrameOk(src, decodedBlocks.Keys, frame, sel, effective, |unknown|);
    }

    /** A frame with one unknown block gives that block at once. */
    method DecodeNew(i: nat, data: seq<byte>, ghost src: Source, ghost sel: seq<nat>, ghost unknown: seq<nat>)
      requires Peeling(src, decodedBlocks, pendingFrames, blockToFrames, origins)
      requires Named(src, sel) && data == XorOut(src, sel, decodedBlocks.Keys)
      requires unknown == [i] && SetOf(unknown) == Left(sel, decodedBlocks.Keys)
      modifies this`decodedBlocks, this`pendingFrames, this`blockToFrames
      ensures Peeling(src, decodedBlocks, pendingFrames, blockToFrames, origins)
      ensures decodedBlocks.Keys == old(decodedBlocks).Keys + {i} && Left(sel, old(decodedBlocks).Keys) == {i}
      ensures AllKin(old(pendingFrames), pendingFrames)
    {
      hide FrameOk, PendingOk, ListsOk, XorOut, Named, Left, AllKin;
      ghost var known := decodedBlocks.Keys;
      assert SetOf([i]) == {i};
      UnknownIsNew(sel, known, i);
      XorOutOne(src, sel, known, i);
      decodedBlocks := decodedBlocks[i := data];
      PropagateResolution(i, data, src, known);
      assert decodedBlocks.Keys == known + {i};
    }

    /** `reconstruct`: all blocks in order, once all are there. */
    method Reconstruct() returns (r: Option<seq<byte>>)
      requires Valid()
      ensures !Complete() ==> r == None
      ensures Complete() ==> currentSession.Some? && r == Some(Flat(sources(currentSession.value).blocks))
    {
      if !Complete() {
        return None;
      }
      hide FrameOk, PendingOk, ListsOk, Exhausted, Shaped, Flat;
      AllDecoded(sources(currentSession.value), decodedBlocks);
      assert forall i :: 0 <= i < expectedK ==> i in Below(expectedK);
      var result := Joined(sources(currentSession.value).blocks);
      return Some(result);
    }

    method Joined(ghost blocks: seq<seq<byte>>) returns (result: seq<byte>)
      requires |blocks| == expectedK && forall i :: 0 <= i < expectedK ==> i in decodedBlocks && decodedBlocks[i] == blocks[i]
      ensures result == Flat(blocks)
    {
      result := [];
      for i := 0 to expectedK
        invariant result == Flat(blocks[..i])
      {
        assert blocks[..i + 1] == blocks[..i] + [blocks[i]];
        result := result + decodedBlocks[i];
      }
      assert blocks[..expectedK] == blocks;
    }

    /** `reconstruct_orchor`: when the session sends the state s, the complete decoder returns s. */
    method ReconstructOrchor(ghost s: OrchORState, ghost rest: seq<byte>) returns (r: Option<OrchORState>)
      requires Valid() && |s.hexagon| == 12
      requires currentSession.Some? ==> Flat(sources(currentSession.value).blocks) == Serialised(s) + rest
      ensures r == if Complete() then Some(s) else None
    {
      hide Serialised;
      var data := Reconstruct();
      match data {
        case None => return None;
        case Some(bytes) =>
          SerialisedFields(s, rest, bytes);
          r := FromBytes(bytes);
      }
    }
  }

  /** Frame f has one unknown block left, and it can be found. */
  ghost predicate Unpeeled(known: set<nat>, pending: seq<Frame>, origins: seq<seq<nat>>, f: nat) {
    f < |pending| && f < |origins| && pending[f].degree == 1 && origins[f] != [] && origins[f][0] !in known
  }

  lemma FrameAt(src: Source, known: set<nat>, pending: seq<Frame>, origins: seq<seq<nat>>, f: nat)
    requires PendingOk(src, known, pending, origins) && f < |pending|
    ensures f < |origins| && FrameOk(src, known, pending[f], origins[f])
  {
    hide FrameOk;
  }

  lemma PeelableFrame(src: Source, decoded: map<nat, seq<byte>>, pending: seq<Frame>, lists: map<nat, seq<nat>>, origins: seq<seq<nat>>, f: nat)
    requires Peeling(src, decoded, pending, lists, origins) && f < |pending| && pending[f].degree == 1
    ensures |origins| == |pending| && FrameOk(src, decoded.Keys, pending[f], origins[f])
    ensures Reaches(pending[f].seed, pending[f].k, 1) && origins[f] != []
    ensures Selected(pending[f].seed, pending[f].k, 1) == [origins[f][0]]
  {
    FirstDraw(src, decoded.Keys, pending[f], origins[f]);
    hide FrameOk;
  }

  lemma NothingUnpeeled(src: Source, decoded: map<nat, seq<byte>>, pending: seq<Frame>, lists: map<nat, seq<nat>>, origins: seq<seq<nat>>)
    requires Peeling(src, decoded, pending, lists, origins)
    requires forall f: nat :: !Unpeeled(decoded.Keys, pending, origins, f)
    ensures |origins| == |pending| && Exhausted(pending, origins, decoded.Keys)
  {
    forall f | 0 <= f < |pending| && pending[f].degree == 1
      ensures origins[f] != [] && origins[f][0] in decoded.Keys
    {
      PeelableFrame(src, decoded, pending, lists, origins, f);
      assert !Unpeeled(decoded.Keys, pending, origins, f);
    }
  }

  lemma SizeOfLeft(unknown: seq<nat>, u: set<nat>)
    requires NoRepeats(unknown) && SetOf(unknown) == u
    ensures |u| == |unknown|
  {
    NoRepeatsSize(unknown);
  }

  /** With all blocks decoded a frame has nothing to add. */
  lemma CompleteAbsorbs(src: Source, frame: Frame, decoded: map<nat, seq<byte>>, origins: seq<seq<nat>>, pending: seq<Frame>)
    requires Honest(src, frame) && DecodedOk(src, decoded) && |decoded| >= |src.blocks|
    ensures var sel, s := Draws(src, frame), Knowledge(decoded.Keys, origins);
      Absorbs(s, sel, s) && Waits(src, decoded.Keys, frame, sel, pending, pending)
  {
    AllDecoded(src, decoded);
    KnownIfNotLeft(Draws(src, frame), decoded.Keys);
  }

  lemma WithinItself(origins: seq<seq<nat>>, base: set<nat>)
    ensures Within(origins, base, base)
  {}

  /** What can be peeled follows from what is known. */
  lemma UnpeeledFollows(src: Source, decoded: map<nat, seq<byte>>, pending: seq<Frame>, lists: map<nat, seq<nat>>, origins: seq<seq<nat>>, f: nat)
    requires Peeling(src, decoded, pending, lists, origins)
    ensures Unpeeled(decoded.Keys, pending, origins, f) ==> Follows(origins[f], decoded.Keys)
  {
    if Unpeeled(decoded.Keys, pending, origins, f) {
      FrameAt(src, decoded.Keys, pending, origins, f);
      OneLeft(src, decoded.Keys, pending[f], origins[f]);
      FirstFollows(origins[f], decoded.Keys);
    }
  }

  lemma OneLeft(src: Source, known: set<nat>, frame: Frame, sel: seq<nat>)
    requires FrameOk(src, known, frame, sel) && frame.degree == 1 && sel != [] && sel[0] !in known
    ensures Left(sel, known) == {sel[0]} && NoRepeats(sel)
  {
    assert sel[0] in Left(sel, known);
    OnlyMember(Left(sel, known), sel[0]);
  }

  /** Where nothing can be peeled, the known indices are closed. */
  lemma ExhaustedCloses(src: Source, known: set<nat>, pending: seq<Frame>, origins: seq<seq<nat>>)
    requires PendingOk(src, known, pending, origins) && Exhausted(pending, origins, known)
    ensures Closed(origins, known)
  {
    forall f | 0 <= f < |origins| && Follows(origins[f], known)
      ensures origins[f][0] in known
    {
      FrameAt(src, known, pending, origins, f);
      AtMostOne(origins[f], known);
      Subsets(Left(origins[f], known), origins[f][0]);
      KnownIfNotLeft(origins[f], known);
    }
  }

  lemma LeftIsLeast(src: Source, decoded: map<nat, seq<byte>>, pending: seq<Frame>, lists: map<nat, seq<nat>>, origins: seq<seq<nat>>, base: set<nat>)
    requires Peeling(src, decoded, pending, lists, origins)
    requires |origins| == |pending| && Exhausted(pending, origins, decoded.Keys)
    requires base <= decoded.Keys && Within(origins, base, decoded.Keys)
    ensures Least(origins, base, decoded.Keys)
    ensures forall f :: 0 <= f < |origins| ==> (pending[f].degree == 1 <==> exists i :: StuckOn(origins, base, f, i))
  {
    ExhaustedCloses(src, decoded.Keys, pending, origins);
    hide Exhausted, Within, Closed, FrameOk, StuckOn;
    forall f | 0 <= f < |origins|
      ensures pending[f].degree == 1 <==> exists i :: StuckOn(origins, base, f, i)
    {
      FrameAt(src, decoded.Keys, pending, origins, f);
      DegreeOneIff(src, decoded.Keys, pending[f], origins, base, f);
    }
  }

  lemma DegreeOneIff(src: Source, known: set<nat>, frame: Frame, origins: seq<seq<nat>>, base: set<nat>, f: nat)
    requires f < |origins| && FrameOk(src, known, frame, origins[f]) && Least(origins, base, known)
    ensures frame.degree == 1 <==> exists i :: StuckOn(origins, base, f, i)
  {
    var u := Left(origins[f], known);
    hide Least, StuckOn;
    if frame.degree == 1 {
      var i :| i in u;
      OnlyMember(u, i);
      LeftWithOne(origins, base, known, f, i);
    }
    if i :| StuckOn(origins, base, f, i) {
      LeftWithOne(origins, base, known, f, i);
    }
  }

  lemma UnknownIsNew(sel: seq<nat>, known: set<nat>, i: nat)
    requires Left(sel, known) == {i}
    ensures i !in known
  {
    assert i in Left(sel, known);
  }

  lemma DecodedRight(src: Source, decoded: map<nat, seq<byte>>, pending: seq<Frame>, lists: map<nat, seq<nat>>, origins: seq<seq<nat>>)
    requires Peeling(src, decoded, pending, lists, origins)
    ensures DecodedOk(src, decoded)
  {}

  lemma HonestNames(src: Source, frame: Frame)
    requires Honest(src, frame)
    ensures Reaches(frame.seed, frame.k, frame.degree) && |frame.payload| == src.size && frame.k == |src.blocks|
    ensures var sel := Selected(frame.seed, frame.k, frame.degree);
      Named(src, sel) && frame.payload == XorOut(src, sel, {})
  {
    SelectedShape(frame.seed, frame.k, frame.degree);
  }

  lemma NewFrameOk(src: Source, known: set<nat>, frame: Frame, sel: seq<nat>, payload: seq<byte>, degree: nat)
    requires Reaches(frame.seed, frame.k, frame.degree) && frame.k == |src.blocks| && sel == Selected(frame.seed, frame.k, frame.degree)
    requires Named(src, sel) && degree == |Left(sel, known)| && payload == XorOut(src, sel, known)
    ensures FrameOk(src, known, frame.(degree := degree, payload := payload), sel)
  {}

  lemma AllDecoded(src: Source, decoded: map<nat, seq<byte>>)
    requires DecodedOk(src, decoded) && |decoded| >= |src.blocks|
    ensures decoded.Keys == Below(|src.blocks|)
  {
    BelowSize(|src.blocks|);
    assert decoded.Keys <= Below(|src.blocks|);
    SubsetSize(decoded.Keys, Below(|src.blocks|));
    SubsetOfSameSize(decoded.Keys, Below(|src.blocks|));
  }
}
