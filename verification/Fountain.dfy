/** The indices a seed selects, and the XOR of the blocks they name. */
module FountainDraws {
  import opened Collections
  import opened LittleEndian

  /** The draws of a seeded generator from 0..k; nothing is known of it but that it is a function. */
  const DRAW: (nat, nat, nat) -> nat

  function Draw(seed: nat, k: nat, n: nat): (i: nat)
    ensures k > 0 ==> i < k
  {
    if k == 0 then 0 else DRAW(seed, k, n) % k
  }

  /** The distinct indices among the first n draws, in the order of their first occurrence. */
  function Distinct(seed: nat, k: nat, n: nat): seq<nat> {
    if n == 0 then []
    else
      var d := Distinct(seed, k, n - 1);
      if Draw(seed, k, n - 1) in d then d else d + [Draw(seed, k, n - 1)]
  }

  lemma {:induction false} DistinctShape(seed: nat, k: nat, n: nat)
    ensures NoRepeats(Distinct(seed, k, n))
    ensures k > 0 ==> forall j :: 0 <= j < |Distinct(seed, k, n)| ==> Distinct(seed, k, n)[j] < k
  {
    if n > 0 {
      DistinctShape(seed, k, n - 1);
    }
  }

  lemma DistinctNext(seed: nat, k: nat, n: nat)
    ensures SetOf(Distinct(seed, k, n + 1)) == SetOf(Distinct(seed, k, n)) + {Draw(seed, k, n)}
    ensures |Distinct(seed, k, n + 1)| == |SetOf(Distinct(seed, k, n + 1))| <= |SetOf(Distinct(seed, k, n))| + 1
  {
    hide Draw, NoRepeats;
    DistinctShape(seed, k, n + 1);
    NoRepeatsSize(Distinct(seed, k, n + 1));
  }

  lemma {:induction false} DistinctGrows(seed: nat, k: nat, m: nat, n: nat)
    requires m <= n
    ensures Distinct(seed, k, m) <= Distinct(seed, k, n)
    decreases n - m
  {
    if m < n {
      DistinctGrows(seed, k, m, n - 1);
    }
  }

  ghost predicate DrawsEnough(seed: nat, k: nat, d: nat, n: nat) {
    |Distinct(seed, k, n)| >= d
  }

  /** Sooner or later the generator has drawn d distinct indices. */
  ghost predicate Reaches(seed: nat, k: nat, d: nat) {
    (d > 0 ==> k > 0) && exists n: nat :: DrawsEnough(seed, k, d, n)
  }

  /** The first d distinct draws. */
  ghost function Selected(seed: nat, k: nat, d: nat): (s: seq<nat>)
    requires Reaches(seed, k, d)
    ensures |s| == d
  {
    var n: nat :| DrawsEnough(seed, k, d, n);
    Distinct(seed, k, n)[..d]
  }

  lemma SelectedAt(seed: nat, k: nat, d: nat, n: nat)
    requires d > 0 ==> k > 0
    requires DrawsEnough(seed, k, d, n)
    ensures Reaches(seed, k, d) && Selected(seed, k, d) == Distinct(seed, k, n)[..d]
  {
    var m: nat :| DrawsEnough(seed, k, d, m) && Selected(seed, k, d) == Distinct(seed, k, m)[..d];
    if m <= n {
      DistinctGrows(seed, k, m, n);
    } else {
      DistinctGrows(seed, k, n, m);
    }
  }

  lemma SelectedShape(seed: nat, k: nat, d: nat)
    requires Reaches(seed, k, d)
    ensures NoRepeats(Selected(seed, k, d)) && forall j :: 0 <= j < d ==> Selected(seed, k, d)[j] < k
  {
    var n: nat :| DrawsEnough(seed, k, d, n) && Selected(seed, k, d) == Distinct(seed, k, n)[..d];
    DistinctShape(seed, k, n);
  }

  /** A smaller degree selects a prefix. */
  lemma SelectedPrefix(seed: nat, k: nat, c: nat, d: nat)
    requires c <= d && Reaches(seed, k, d)
    ensures Reaches(seed, k, c) && Selected(seed, k, c) == Selected(seed, k, d)[..c]
  {
    var n: nat :| DrawsEnough(seed, k, d, n);
    SelectedAt(seed, k, d, n);
    SelectedAt(seed, k, c, n);
  }

  // ---------------------------------------------------------------- blocks

  datatype Source = Source(blocks: seq<seq<byte>>, size: nat)

  ghost predicate Shaped(src: Source) {
    forall i :: 0 <= i < |src.blocks| ==> |src.blocks[i]| == src.size
  }

  /** `a ^= b` byte by byte, over the bytes both have. */
  function Xor(a: seq<byte>, b: seq<byte>): (r: seq<byte>)
    ensures |r| == |a|
  {
    seq(|a|, i requires 0 <= i < |a| => if i < |b| then a[i] ^ b[i] else a[i])
  }

  lemma XorAssociative(a: seq<byte>, b: seq<byte>, c: seq<byte>)
    requires |a| == |b| == |c|
    ensures Xor(Xor(a, b), c) == Xor(a, Xor(b, c))
  {}

  lemma XorSwap(a: seq<byte>, b: seq<byte>, c: seq<byte>)
    requires |a| == |b| == |c|
    ensures Xor(Xor(a, b), c) == Xor(Xor(a, c), b)
  {}

  lemma XorCancels(a: seq<byte>, b: seq<byte>)
    requires |a| == |b|
    ensures Xor(Xor(a, b), b) == a && Xor(a, Zeros(|a|)) == a && Xor(Zeros(|a|), a) == a
  {}

  ghost predicate Named(src: Source, sel: seq<nat>) {
    Shaped(src) && NoRepeats(sel) && forall j :: 0 <= j < |sel| ==> sel[j] < |src.blocks|
  }

  /** The XOR of the selected blocks outside `out`. */
  ghost function XorOut(src: Source, sel: seq<nat>, out: set<nat>): (r: seq<byte>)
    requires Named(src, sel)
    ensures |r| == src.size
  {
    if sel == [] then Zeros(src.size)
    else
      var init, last := sel[..|sel| - 1], sel[|sel| - 1];
      var rest := XorOut(src, init, out);
      if last in out then rest else Xor(rest, src.blocks[last])
  }

  /** Only the selected indices in `out` matter. */
  lemma {:induction false} XorOutSame(src: Source, sel: seq<nat>, a: set<nat>, b: set<nat>)
    requires Named(src, sel) && forall i :: i in sel ==> (i in a <==> i in b)
    ensures XorOut(src, sel, a) == XorOut(src, sel, b)
  {
    if sel != [] {
      XorOutSame(src, sel[..|sel| - 1], a, b);
    }
  }

  /** Taking one more block out is one more XOR. */
  lemma {:induction false} XorOutMore(src: Source, sel: seq<nat>, out: set<nat>, i: nat)
    requires Named(src, sel) && i in sel && i !in out
    ensures XorOut(src, sel, out + {i}) == Xor(XorOut(src, sel, out), src.blocks[i])
  {
    var init, last := sel[..|sel| - 1], sel[|sel| - 1];
    assert sel == init + [last];
    hide Xor;
    if last == i {
      assert i !in init;
      XorOutSame(src, init, out, out + {i});
      XorCancels(XorOut(src, init, out), src.blocks[i]);
    } else {
      XorOutMore(src, init, out, i);
      if last !in out {
        XorSwap(XorOut(src, init, out), src.blocks[i], src.blocks[last]);
      }
    }
  }

  lemma {:induction false} XorOutAll(src: Source, sel: seq<nat>, out: set<nat>)
    requires Named(src, sel) && forall i :: i in sel ==> i in out
    ensures XorOut(src, sel, out) == Zeros(src.size)
  {
    if sel != [] {
      XorOutAll(src, sel[..|sel| - 1], out);
    }
  }

  /** The selected indices that are not out. */
  ghost function Left(sel: seq<nat>, out: set<nat>): set<nat> {
    SetOf(sel) - out
  }

  /** When one block is left, the XOR is that block. */
  lemma XorOutOne(src: Source, sel: seq<nat>, out: set<nat>, i: nat)
    requires Named(src, sel) && Left(sel, out) == {i}
    ensures i in sel && i < |src.blocks| && XorOut(src, sel, out) == src.blocks[i]
  {
    assert i in Left(sel, out);
    XorOutMore(src, sel, out, i);
    assert forall j :: j in sel ==> j in out || j in Left(sel, out);
    XorOutAll(src, sel, out + {i});
    var x, b := XorOut(src, sel, out), src.blocks[i];
    XorCancels(x, b);
    XorCancels(b, b);
  }

  lemma LeftMore(sel: seq<nat>, out: set<nat>, i: nat)
    ensures i in Left(sel, out) ==> |Left(sel, out + {i})| == |Left(sel, out)| - 1
    ensures i !in Left(sel, out) ==> Left(sel, out + {i}) == Left(sel, out)
  {
    assert Left(sel, out + {i}) == Left(sel, out) - {i};
  }

  lemma {:induction false} NoRepeatsSize(s: seq<nat>)
    requires NoRepeats(s)
    ensures |SetOf(s)| == |s|
  {
    if s != [] {
      var init, last := s[..|s| - 1], s[|s| - 1];
      NoRepeatsSize(init);
      assert SetOf(s) == SetOf(init) + {last};
      assert last !in SetOf(init);
    }
  }
}

/** The encoder of `arkhe-soc-tlm/src/fountain_encoder.rs`. */
module FountainEncoding {
  import opened Wrappers
  import opened Collections
  import opened Arithmetic
  import opened LittleEndian
  import opened FountainFrames
  import opened FountainDraws

  /** The seed of a sequence number. */
  function Seed(seqNum: nat): nat {
    seqNum * 0x9E3779B9 % 0x1_0000_0000
  }

  /** Multiplying back by the inverse of the constant modulo 2^32. */
  lemma SeedBack(seqNum: nat)
    requires seqNum < 0x1_0000_0000
    ensures Seed(seqNum) < 0x1_0000_0000 && Seed(seqNum) * 0x144CBC89 % 0x1_0000_0000 == seqNum
  {
    var q := seqNum * 0x9E3779B9 / 0x1_0000_0000;
    assert seqNum * 0x9E3779B9 == q * 0x1_0000_0000 + Seed(seqNum);
    assert Seed(seqNum) * 0x144CBC89 == (seqNum * 210485888 - q * 0x144CBC89) * 0x1_0000_0000 + seqNum;
    QuotientUnique(Seed(seqNum) * 0x144CBC89, 0x1_0000_0000, seqNum * 210485888 - q * 0x144CBC89, seqNum);
  }

  /** Different sequence numbers have different seeds. */
  lemma SeedsDiffer(a: nat, b: nat)
    requires a < 0x1_0000_0000 && b < 0x1_0000_0000 && a != b
    ensures Seed(a) != Seed(b)
  {
    hide Seed;
    SeedBack(a);
    SeedBack(b);
  }

  function Flat(blocks: seq<seq<byte>>): seq<byte> {
    if blocks == [] then [] else Flat(blocks[..|blocks| - 1]) + blocks[|blocks| - 1]
  }

  /** The frame of degree d with number seqNum. */
  ghost function HonestFrame(src: Source, session: nat, seqNum: nat, d: nat): Frame
    requires Reaches(Seed(seqNum), |src.blocks|, d) && Shaped(src)
  {
    SelectedShape(Seed(seqNum), |src.blocks|, d);
    Frame(session, seqNum, |src.blocks|, src.size, d, Seed(seqNum),
          XorOut(src, Selected(Seed(seqNum), |src.blocks|, d), {}))
  }

  /** f is a frame an encoder of the source sends in that session. */
  ghost predicate Honest(src: Source, f: Frame) {
    && Shaped(src) && Reaches(Seed(f.seqNum), |src.blocks|, f.degree)
    && f == HonestFrame(src, f.session, f.seqNum, f.degree)
  }

  /** The first d distinct draws, in order. */
  method Select(seed: nat, k: nat, d: nat) returns (selected: seq<nat>)
    requires Reaches(seed, k, d)
    ensures selected == Selected(seed, k, d)
  {
    selected := [];
    var n := 0;
    ghost var enough: nat :| DrawsEnough(seed, k, d, enough);
    while |selected| < d
      invariant selected == Distinct(seed, k, n) && |selected| <= d && n <= enough
      decreases enough - n
    {
      DistinctGrows(seed, k, n, enough);
      var i := Draw(seed, k, n);
      if n == enough {
        assert false;
      }
      if i !in selected {
        selected := selected + [i];
      }
      n := n + 1;
    }
    SelectedAt(seed, k, d, n);
  }

  method XorInto(a: seq<byte>, b: seq<byte>) returns (r: seq<byte>)
    requires |b| <= |a|
    ensures r == Xor(a, b)
  {
    r := a;
    for i := 0 to |b|
      invariant |r| == |a|
      invariant forall j :: 0 <= j < |a| ==> r[j] == if j < i then a[j] ^ b[j] else a[j]
    {
      r := r[i := r[i] ^ b[i]];
    }
  }

  class FountainEncoder {
    const blocks: seq<seq<byte>>
    const k: nat
    const blockSize: nat
    const sessionId: nat
    var seqNum: nat

    ghost function Src(): Source {
      Source(blocks, blockSize)
    }

    ghost predicate Valid()
      reads this
    {
      Shaped(Src()) && k == |blocks| && sessionId < 0x1_0000_0000 && seqNum < 0x1_0000_0000
    }

    /** `new`: the data cut into blocks, the last one filled up with zeros. */
    constructor (data: seq<byte>, blockSize: nat, sessionId: nat)
      requires blockSize > 0 && sessionId < 0x1_0000_0000
      ensures Valid() && this.blockSize == blockSize && this.sessionId == sessionId && seqNum == 0
      ensures k == (|data| + blockSize - 1) / blockSize && |data| <= k * blockSize < |data| + blockSize
      ensures Flat(blocks) == data + Zeros(k * blockSize - |data|)
    {
      var n := (|data| + blockSize - 1) / blockSize;
      BlockCount(|data|, blockSize);
      var bs: seq<seq<byte>> := [];
      assert Flat(bs) == [];
      for i := 0 to n
        invariant |bs| == i && forall j :: 0 <= j < i ==> |bs[j]| == blockSize
        invariant Flat(bs) == Padded(data, i * blockSize)
      {
        StartInside(|data|, blockSize, i);
        var start := i * blockSize;
        var end := if start + blockSize <= |data| then start + blockSize else |data|;
        var block := data[start..end] + Zeros(blockSize - (end - start));
        PaddedNext(data, start, blockSize);
        assert (bs + [block])[..|bs|] == bs;
        bs := bs + [block];
      }
      this.blocks, this.k, this.blockSize, this.sessionId, this.seqNum := bs, n, blockSize, sessionId, 0;
    }

    /** The XOR of the selected blocks. */
    method Combine(selected: seq<nat>) returns (payload: seq<byte>)
      requires Named(Src(), selected)
      ensures payload == XorOut(Src(), selected, {}) && |payload| == blockSize
    {
      hide Xor;
      payload := Zeros(blockSize);
      for i := 0 to |selected|
        invariant payload == XorOut(Src(), selected[..i], {}) && |payload| == blockSize
      {
        assert selected[..i + 1] == selected[..i] + [selected[i]];
        payload := XorInto(payload, blocks[selected[i]]);
      }
      assert selected[..|selected|] == selected;
    }

    /** `next_frame` with the degree the soliton distribution sampled. */
    method NextFrame(d: nat) returns (frame: seq<byte>)
      requires Valid() && Reaches(Seed(seqNum), k, d)
      modifies this`seqNum
      ensures Valid() && seqNum == (old(seqNum) + 1) % 0x1_0000_0000
      ensures frame == Encode(HonestFrame(Src(), sessionId, old(seqNum), d))
    {
      hide Encode, XorOut, Reaches, Seed, NoRepeats, Shaped;
      var seed := Seed(seqNum);
      var selected := Select(seed, k, d);
      SelectedShape(seed, k, d);
      var payload := Combine(selected);
      frame := Encode(Frame(sessionId, seqNum, k, blockSize, d, seed, payload));
      seqNum := (seqNum + 1) % 0x1_0000_0000;
    }

    /** `generate_frames`, with the degrees that were sampled. */
    method GenerateFrames(degrees: seq<nat>) returns (frames: seq<seq<byte>>)
      requires Valid() && CanSend(k, seqNum, degrees)
      modifies this`seqNum
      ensures Valid() && seqNum == Number(old(seqNum), |degrees|)
      ensures |frames| == |degrees|
      ensures forall j :: 0 <= j < |degrees| ==> frames[j] == Encode(HonestFrame(Src(), sessionId, Number(old(seqNum), j), degrees[j]))
    {
      hide Encode, HonestFrame, Reaches, Seed, Shaped, Number;
      frames := [];
      NumberFirst(seqNum);
      for j := 0 to |degrees|
        invariant Valid() && seqNum == Number(old(seqNum), j) && |frames| == j
        invariant forall i :: 0 <= i < j ==> frames[i] == Encode(HonestFrame(Src(), sessionId, Number(old(seqNum), i), degrees[i]))
      {
        var frame := NextFrame(degrees[j]);
        NumberNext(old(seqNum), j);
        frames := frames + [frame];
      }
    }
  }

  /** The sequence number of the j-th frame from `first` on. */
  function Number(first: nat, j: nat): (n: nat)
    ensures n < 0x1_0000_0000
  {
    (first + j) % 0x1_0000_0000
  }

  lemma NumberFirst(first: nat)
    ensures first < 0x1_0000_0000 ==> Number(first, 0) == first
  {}

  lemma NumberNext(first: nat, j: nat)
    ensures Number(first, j + 1) == (Number(first, j) + 1) % 0x1_0000_0000
  {}

  /** For each frame the generator draws enough distinct indices. */
  ghost predicate CanSend(k: nat, first: nat, degrees: seq<nat>) {
    forall j :: 0 <= j < |degrees| ==> Reaches(Seed(Number(first, j)), k, degrees[j])
  }

  /** The first n bytes of the data followed by zeros for ever. */
  function Padded(data: seq<byte>, n: nat): (s: seq<byte>)
    ensures |s| == n
  {
    if n <= |data| then data[..n] else data + Zeros(n - |data|)
  }

  lemma PaddedNext(data: seq<byte>, start: nat, size: nat)
    requires start <= |data|
    ensures var end := if start + size <= |data| then start + size else |data|;
      Padded(data, start) + (data[start..end] + Zeros(size - (end - start))) == Padded(data, start + size)
  {}

  lemma BlockCount(n: nat, size: nat)
    requires size > 0
    ensures var k := (n + size - 1) / size; n <= k * size < n + size
  {
    var m := n + size - 1;
    assert m == m / size * size + m % size;
  }

  lemma StartInside(n: nat, size: nat, i: nat)
    requires size > 0 && i < (n + size - 1) / size
    ensures 0 <= i * size <= n && (i + 1) * size == i * size + size
  {
    var m := n + size - 1;
    assert m == m / size * size + m % size;
    ProductMonotone(i + 1, m / size, size);
  }

  /** A frame whose numbers fit their fields arrives as it was sent. */
  lemma HonestArrives(src: Source, session: nat, seqNum: nat, d: nat)
    requires Shaped(src) && Reaches(Seed(seqNum), |src.blocks|, d)
    requires session < 0x1_0000_0000 && seqNum < 0x1_0000_0000
    requires |src.blocks| < 0x1_0000 && src.size < 0x1_0000 && d < 0x1_0000
    ensures var f := HonestFrame(src, session, seqNum, d);
      Honest(src, f) && PayloadInside(Encode(f)) && Parse(Encode(f)) == Some(f)
  {
    ParseEncode(HonestFrame(src, session, seqNum, d));
  }
}
