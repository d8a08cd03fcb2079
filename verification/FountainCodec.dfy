/** Little-endian fields. */
module LittleEndian {
  import opened Arithmetic

  type byte = bv8

  function Zeros(n: nat): (s: seq<byte>)
    ensures |s| == n && forall i :: 0 <= i < n ==> s[i] == 0
  {
    seq(n, i => 0)
  }

  /** 256 to the power w. */
  function Range(w: nat): (r: nat)
    ensures r >= 1
  {
    if w == 0 then 1 else 256 * Range(w - 1)
  }

  function Bit(b: bool, mask: byte): byte {
    if b then mask else 0
  }

  function Value(b: byte, mask: byte, v: nat): nat {
    if b & mask != 0 then v else 0
  }

  /** The low eight bits of n. */
  function ToByte(n: nat): byte {
    Bit(n % 2 == 1, 1) | Bit(n / 2 % 2 == 1, 2) | Bit(n / 4 % 2 == 1, 4) | Bit(n / 8 % 2 == 1, 8)
    | Bit(n / 16 % 2 == 1, 16) | Bit(n / 32 % 2 == 1, 32) | Bit(n / 64 % 2 == 1, 64) | Bit(n / 128 % 2 == 1, 128)
  }

  function FromByte(b: byte): (n: nat)
    ensures n < 256
  {
    Value(b, 1, 1) + Value(b, 2, 2) + Value(b, 4, 4) + Value(b, 8, 8)
    + Value(b, 16, 16) + Value(b, 32, 32) + Value(b, 64, 64) + Value(b, 128, 128)
  }

  lemma BitsBack(b0: bool, b1: bool, b2: bool, b3: bool, b4: bool, b5: bool, b6: bool, b7: bool)
    ensures var b := Bit(b0, 1) | Bit(b1, 2) | Bit(b2, 4) | Bit(b3, 8) | Bit(b4, 16) | Bit(b5, 32) | Bit(b6, 64) | Bit(b7, 128);
      && (b & 1 != 0 <==> b0) && (b & 2 != 0 <==> b1) && (b & 4 != 0 <==> b2) && (b & 8 != 0 <==> b3)
      && (b & 16 != 0 <==> b4) && (b & 32 != 0 <==> b5) && (b & 64 != 0 <==> b6) && (b & 128 != 0 <==> b7)
  {}

  lemma BitSum(n: nat)
    ensures n % 256 == n % 2 + 2 * (n / 2 % 2) + 4 * (n / 4 % 2) + 8 * (n / 8 % 2)
                       + 16 * (n / 16 % 2) + 32 * (n / 32 % 2) + 64 * (n / 64 % 2) + 128 * (n / 128 % 2)
  {
    Halve(n, 1);
    Halve(n, 2);
    Halve(n, 4);
    Halve(n, 8);
    Halve(n, 16);
    Halve(n, 32);
    Halve(n, 64);
    Halve(n, 128);
  }

  function Weight(b: bool, v: nat): nat {
    if b then v else 0
  }

  lemma ByteOfBits(n: nat)
    ensures FromByte(ToByte(n)) == Weight(n % 2 == 1, 1) + Weight(n / 2 % 2 == 1, 2) + Weight(n / 4 % 2 == 1, 4)
      + Weight(n / 8 % 2 == 1, 8) + Weight(n / 16 % 2 == 1, 16) + Weight(n / 32 % 2 == 1, 32)
      + Weight(n / 64 % 2 == 1, 64) + Weight(n / 128 % 2 == 1, 128)
  {
    BitsBack(n % 2 == 1, n / 2 % 2 == 1, n / 4 % 2 == 1, n / 8 % 2 == 1,
             n / 16 % 2 == 1, n / 32 % 2 == 1, n / 64 % 2 == 1, n / 128 % 2 == 1);
    hide Bit;
  }

  lemma WeightOfBit(n: nat, v: nat)
    ensures Weight(n % 2 == 1, v) == v * (n % 2)
  {
    assert n % 2 == 0 || n % 2 == 1;
  }

  lemma ByteBack(n: nat)
    ensures FromByte(ToByte(n)) == n % 256
  {
    hide FromByte, ToByte, Weight;
    ByteOfBits(n);
    BitSum(n);
    WeightOfBit(n, 1);
    WeightOfBit(n / 2, 2);
    WeightOfBit(n / 4, 4);
    WeightOfBit(n / 8, 8);
    WeightOfBit(n / 16, 16);
    WeightOfBit(n / 32, 32);
    WeightOfBit(n / 64, 64);
    WeightOfBit(n / 128, 128);
  }

  /** The low w bytes of n, least significant first; what does not fit is cut off. */
  function LE(n: nat, w: nat): (s: seq<byte>)
    ensures |s| == w
  {
    if w == 0 then [] else [ToByte(n)] + LE(n / 256, w - 1)
  }

  function FromLE(s: seq<byte>): nat {
    if s == [] then 0 else FromByte(s[0]) + 256 * FromLE(s[1..])
  }

  lemma {:induction false} FromLEOfLE(n: nat, w: nat)
    ensures FromLE(LE(n, w)) == n % Range(w)
  {
    if w > 0 {
      ByteBack(n);
      FromLEOfLE(n / 256, w - 1);
      assert LE(n, w)[1..] == LE(n / 256, w - 1);
      DivMod(n, Range(w - 1));
    }
  }

  /** Byte i of the field is the i-th byte of the number, counted from the low end. */
  lemma {:induction false} LEAt(n: nat, w: nat, i: nat)
    requires i < w
    ensures FromByte(LE(n, w)[i]) == n / Range(i) % 256
  {
    if i == 0 {
      ByteBack(n);
    } else {
      LEAt(n / 256, w - 1, i - 1);
      DivTwice(n, Range(i - 1));
    }
  }

  lemma DivTwice(n: nat, r: nat)
    requires r >= 1
    ensures n / 256 / r == n / (256 * r)
  {
    var q := n / 256 / r;
    assert n / 256 == q * r + n / 256 % r;
    assert n == 256 * (n / 256) + n % 256;
    assert 256 * (q * r) == q * (256 * r);
    QuotientUnique(n, 256 * r, q, 256 * (n / 256 % r) + n % 256);
  }

  /** Each bit of a byte has its weight, and nothing else is in it. */
  lemma ByteValues()
    ensures FromByte(0) == 0 && FromByte(1) == 1 && FromByte(2) == 2 && FromByte(4) == 4 && FromByte(8) == 8
    ensures FromByte(16) == 16 && FromByte(32) == 32 && FromByte(64) == 64 && FromByte(128) == 128
    ensures forall a: byte, b: byte :: a & b == 0 ==> FromByte(a | b) == FromByte(a) + FromByte(b)
  {
    forall a: byte, b: byte | a & b == 0
      ensures FromByte(a | b) == FromByte(a) + FromByte(b)
    {
      BytesAdd(a, b);
    }
  }

  lemma BytesAdd(a: byte, b: byte)
    requires a & b == 0
    ensures FromByte(a | b) == FromByte(a) + FromByte(b)
  {
    hide Value;
    ValueAdds(a, b, 1, 1);
    ValueAdds(a, b, 2, 2);
    ValueAdds(a, b, 4, 4);
    ValueAdds(a, b, 8, 8);
    ValueAdds(a, b, 16, 16);
    ValueAdds(a, b, 32, 32);
    ValueAdds(a, b, 64, 64);
    ValueAdds(a, b, 128, 128);
  }

  lemma ValueAdds(a: byte, b: byte, mask: byte, v: nat)
    requires a & b == 0
    requires mask == 1 || mask == 2 || mask == 4 || mask == 8 || mask == 16 || mask == 32 || mask == 64 || mask == 128
    ensures Value(a | b, mask, v) == Value(a, mask, v) + Value(b, mask, v)
  {
    assert (a | b) & mask == (a & mask) | (b & mask);
    assert (a & mask) & (b & mask) == 0;
  }

  lemma DivMod(n: nat, r: nat)
    requires r >= 1
    ensures n % (256 * r) == n % 256 + 256 * (n / 256 % r)
  {
    var q, p := n / 256, n / 256 / r;
    assert q == p * r + q % r;
    assert n == 256 * q + n % 256;
    assert 256 * (p * r) == p * (256 * r);
    var low := n % 256 + 256 * (q % r);
    assert n == p * (256 * r) + low;
    assert 0 <= low < 256 * r;
    QuotientUnique(n, 256 * r, p, low);
  }

  /** A field that fits is read back. */
  lemma FieldBack(n: nat, w: nat)
    requires n < Range(w)
    ensures FromLE(LE(n, w)) == n
  {
    FromLEOfLE(n, w);
    hide LE, FromLE;
    QuotientUnique(n, Range(w), 0, n);
  }

  lemma Ranges()
    ensures Range(1) == 0x100 && Range(2) == 0x1_0000 && Range(4) == 0x1_0000_0000 && Range(8) == 0x1_0000_0000_0000_0000
  {
    assert Range(2) == 256 * Range(1) && Range(3) == 256 * Range(2) && Range(4) == 256 * Range(3);
    assert Range(5) == 256 * Range(4) && Range(6) == 256 * Range(5) && Range(7) == 256 * Range(6);
  }
}

/** The frame format of `arkhe-soc-tlm/src/fountain_encoder.rs` and `fountain_decoder.rs`. */
module FountainFrames {
  import opened Wrappers
  import opened LittleEndian

  const AFT_HEADER_SIZE := 20
  const AFT_TRAILER_SIZE := 32
  const AFT_MAGIC := 0x41525448

  type u16 = n: nat | n < 0x1_0000
  type u32 = n: nat | n < 0x1_0000_0000
  type Digest = s: seq<byte> | |s| == 32 witness Zeros(32)

  /** The hash of the trailer: some function of what comes before it. */
  const BLAKE3: seq<byte> -> Digest

  datatype Frame = Frame(
    session: nat, seqNum: nat, k: nat, blockSize: nat, degree: nat, seed: nat, payload: seq<byte>)

  /** The fields fit the widths they are written in. */
  predicate Fits(f: Frame) {
    && f.session < 0x1_0000_0000 && f.seqNum < 0x1_0000_0000 && f.seed < 0x1_0000_0000
    && f.k < 0x1_0000 && f.blockSize < 0x1_0000 && f.degree < 0x1_0000 && |f.payload| < 0x1_0000_0000
  }

  function Header(f: Frame): (s: seq<byte>)
    ensures |s| == AFT_HEADER_SIZE + 6
  {
    LE(AFT_MAGIC, 4) + (LE(f.session, 4) + (LE(f.seqNum, 4) + (LE(f.k, 2) + (LE(f.blockSize, 2)
      + (LE(|f.payload|, 4) + (LE(f.degree, 2) + LE(f.seed, 4)))))))
  }

  function Hashed(f: Frame): seq<byte> {
    Header(f) + f.payload
  }

  /** What the encoder puts on the wire. */
  function Encode(f: Frame): seq<byte> {
    Hashed(f) + BLAKE3(Hashed(f))
  }

  function Field(data: seq<byte>, at: nat, w: nat): nat
    requires at + w <= |data|
  {
    FromLE(data[at..at + w])
  }

  /** The checks of `parse` before it reads fields. */
  predicate Intact(data: seq<byte>) {
    && |data| >= AFT_HEADER_SIZE + 6 + AFT_TRAILER_SIZE
    && Field(data, 0, 4) == AFT_MAGIC
    && BLAKE3(data[..|data| - AFT_TRAILER_SIZE]) == data[|data| - AFT_TRAILER_SIZE..]
  }

  /** The announced payload lies within the data; otherwise the source panics. */
  predicate PayloadInside(data: seq<byte>) {
    Intact(data) ==> 26 + Field(data, 16, 4) <= |data|
  }

  function Parse(data: seq<byte>): Option<Frame>
    requires PayloadInside(data)
  {
    if !Intact(data) then None
    else
      var len := Field(data, 16, 4);
      Some(Frame(Field(data, 4, 4), Field(data, 8, 4), Field(data, 12, 2), Field(data, 14, 2),
                 Field(data, 20, 2), Field(data, 22, 4), data[26..26 + len]))
  }

  lemma NextField(data: seq<byte>, at: nat, n: nat, w: nat, rest: seq<byte>)
    requires at <= |data| && data[at..] == LE(n, w) + rest && n < Range(w)
    ensures at + w <= |data| && Field(data, at, w) == n && data[at + w..] == rest
  {
    FieldBack(n, w);
    assert |data[at..]| == w + |rest|;
    assert data[at..at + w] == data[at..][..w];
    assert data[at + w..] == data[at..][w..];
  }

  /** `parse` recovers every field of a frame whose fields fit. */
  lemma ParseEncode(f: Frame)
    requires Fits(f)
    ensures PayloadInside(Encode(f)) && Parse(Encode(f)) == Some(f)
  {
    Ranges();
    HeaderFields(f);
    var data := Encode(f);
    hide LE, FromLE, Range, Header;
    var trailer: seq<byte> := BLAKE3(Hashed(f));
    assert |data| == 26 + |f.payload| + 32;
    assert data[..|data| - AFT_TRAILER_SIZE] == Hashed(f);
    assert data[|data| - AFT_TRAILER_SIZE..] == trailer;
    assert data[26..26 + |f.payload|] == f.payload;
  }

  lemma HeaderFields(f: Frame)
    requires Fits(f)
    ensures var data := Encode(f);
      && |data| >= 26
      && Field(data, 0, 4) == AFT_MAGIC && Field(data, 4, 4) == f.session && Field(data, 8, 4) == f.seqNum
      && Field(data, 12, 2) == f.k && Field(data, 14, 2) == f.blockSize && Field(data, 16, 4) == |f.payload|
      && Field(data, 20, 2) == f.degree && Field(data, 22, 4) == f.seed
      && |data| == 26 + |f.payload| + 32 && data[26..26 + |f.payload|] == f.payload
      && BLAKE3(data[..26 + |f.payload|]) == data[26 + |f.payload|..]
  {
    TrailerFollows(f);
    hide LE, FromLE, Range, Encode, Hashed, Header, Field;
    Ranges();
    var data, tail := Encode(f), f.payload + BLAKE3(Hashed(f));
    var t3 := LE(f.k, 2) + (LE(f.blockSize, 2) + (LE(|f.payload|, 4) + (LE(f.degree, 2) + (LE(f.seed, 4) + tail))));
    FieldsFollow(f);
    FirstFields(f, data, t3);
    LastFields(f, data, tail);
  }

  lemma TrailerFollows(f: Frame)
    ensures var data := Encode(f);
      && |data| == 26 + |f.payload| + 32 && data[26..26 + |f.payload|] == f.payload
      && BLAKE3(data[..26 + |f.payload|]) == data[26 + |f.payload|..]
  {
    hide Header;
    var data := Encode(f);
    var trailer: seq<byte> := BLAKE3(Hashed(f));
    assert data[..26 + |f.payload|] == Hashed(f);
    assert data[26 + |f.payload|..] == trailer;
  }

  /** `parse` refuses exactly what is too short, does not start with the magic number, or does not end with the hash of the
      rest. */
  lemma ParseRejects(data: seq<byte>)
    requires PayloadInside(data)
    ensures Parse(data).None? <==>
      |data| < 58 || FromLE(data[..4]) != 0x41525448 || BLAKE3(data[..|data| - 32]) != data[|data| - 32..]
  {
    if |data| >= 58 {
      assert data[0..4] == data[..4];
    }
  }

  lemma FieldsFollow(f: Frame)
    ensures var tail := f.payload + BLAKE3(Hashed(f));
      Encode(f) == LE(AFT_MAGIC, 4) + (LE(f.session, 4) + (LE(f.seqNum, 4) + (LE(f.k, 2) + (LE(f.blockSize, 2)
                   + (LE(|f.payload|, 4) + (LE(f.degree, 2) + (LE(f.seed, 4) + tail)))))))
  {
    hide LE;
  }

  lemma FirstFields(f: Frame, data: seq<byte>, rest: seq<byte>)
    requires Fits(f) && data == LE(AFT_MAGIC, 4) + (LE(f.session, 4) + (LE(f.seqNum, 4) + rest))
    ensures |data| == 12 + |rest| && data[12..] == rest
    ensures Field(data, 0, 4) == AFT_MAGIC && Field(data, 4, 4) == f.session && Field(data, 8, 4) == f.seqNum
  {
    Ranges();
    hide LE, FromLE, Range, Field;
    assert data[0..] == data;
    NextField(data, 0, AFT_MAGIC, 4, LE(f.session, 4) + (LE(f.seqNum, 4) + rest));
    NextField(data, 4, f.session, 4, LE(f.seqNum, 4) + rest);
    NextField(data, 8, f.seqNum, 4, rest);
  }

  lemma LastFields(f: Frame, data: seq<byte>, tail: seq<byte>)
    requires Fits(f) && |data| >= 12
    requires data[12..] == LE(f.k, 2) + (LE(f.blockSize, 2) + (LE(|f.payload|, 4) + (LE(f.degree, 2) + (LE(f.seed, 4) + tail))))
    ensures |data| == 26 + |tail|
    ensures Field(data, 12, 2) == f.k && Field(data, 14, 2) == f.blockSize && Field(data, 16, 4) == |f.payload|
    ensures Field(data, 20, 2) == f.degree && Field(data, 22, 4) == f.seed
  {
    Ranges();
    hide LE, FromLE, Range, Field;
    var t7 := LE(f.seed, 4) + tail;
    var t6 := LE(f.degree, 2) + t7;
    NextField(data, 12, f.k, 2, LE(f.blockSize, 2) + (LE(|f.payload|, 4) + t6));
    NextField(data, 14, f.blockSize, 2, LE(|f.payload|, 4) + t6);
    NextField(data, 16, |f.payload|, 4, t6);
    NextField(data, 20, f.degree, 2, t7);
    NextField(data, 22, f.seed, 4, tail);
  }
}

/** The serialised state of `arkhe-soc-tlm/src/fountain_encoder.rs`; a floating-point number is its 64 bits. */
module OrchOR {
  import opened Wrappers
  import opened LittleEndian
  import opened FountainFrames

  type u64 = n: nat | n < 0x1_0000_0000_0000_0000
  type u8 = n: nat | n < 0x100

  datatype OrchORState = OrchORState(
    timestamp: u64, coherenceTime: u64, frequency: u64, energy: u64, hexagon: seq<u16>, regime: u8)

  function Words(ws: seq<u16>): (s: seq<byte>)
    ensures |s| == 2 * |ws|
  {
    if ws == [] then [] else LE(ws[0], 2) + Words(ws[1..])
  }

  function Serialised(s: OrchORState): seq<byte> {
    LE(s.timestamp, 8) + (LE(s.coherenceTime, 8) + (LE(s.frequency, 8) + (LE(s.energy, 8)
      + (Words(s.hexagon) + LE(s.regime, 1)))))
  }

  method ToBytes(s: OrchORState) returns (buf: seq<byte>)
    requires |s.hexagon| == 12
    ensures buf == Serialised(s) && |buf| == 57
  {
    hide LE;
    buf := LE(s.timestamp, 8) + LE(s.coherenceTime, 8) + LE(s.frequency, 8) + LE(s.energy, 8);
    ghost var fixed := buf;
    for i := 0 to 12
      invariant buf == fixed + Words(s.hexagon[..i])
    {
      WordsSnoc(s.hexagon[..i], s.hexagon[i]);
      assert s.hexagon[..i + 1] == s.hexagon[..i] + [s.hexagon[i]];
      buf := buf + LE(s.hexagon[i], 2);
    }
    assert s.hexagon[..12] == s.hexagon;
    buf := buf + LE(s.regime, 1);
  }

  lemma {:induction false} WordsSnoc(ws: seq<u16>, w: u16)
    ensures Words(ws + [w]) == Words(ws) + LE(w, 2)
  {
    hide LE;
    if ws == [] {
      assert Words([w]) == LE(w, 2) + Words([]);
    } else {
      WordsSnoc(ws[1..], w);
      assert (ws + [w])[1..] == ws[1..] + [w];
    }
  }

  /** `from_bytes`: nothing when there are fewer than 57 bytes. */
  method FromBytes(bytes: seq<byte>) returns (r: Option<OrchORState>)
    ensures r.None? <==> |bytes| < 57
    ensures r.Some? ==> forall s: OrchORState, rest :: |s.hexagon| == 12 && bytes == Serialised(s) + rest ==> r.value == s
  {
    if |bytes| < 57 {
      return None;
    }
    Ranges();
    FieldBelow(bytes, 0, 8);
    FieldBelow(bytes, 8, 8);
    FieldBelow(bytes, 16, 8);
    FieldBelow(bytes, 24, 8);
    FieldBelow(bytes, 56, 1);
    hide Field, Range;
    var hexagon: seq<u16> := [];
    var offset := 32;
    for i := 0 to 12
      invariant offset == 32 + 2 * i && |hexagon| == i
      invariant forall j :: 0 <= j < i ==> hexagon[j] == Field(bytes, 32 + 2 * j, 2)
    {
      FieldBelow(bytes, offset, 2);
      hexagon := hexagon + [Field(bytes, offset, 2)];
      offset := offset + 2;
    }
    var state := OrchORState(Field(bytes, 0, 8), Field(bytes, 8, 8), Field(bytes, 16, 8), Field(bytes, 24, 8),
                             hexagon, Field(bytes, offset, 1));
    forall s: OrchORState, rest | |s.hexagon| == 12 && bytes == Serialised(s) + rest
      ensures state == s
    {
      SerialisedFields(s, rest, bytes);
      assert state.hexagon == s.hexagon;
    }
    return Some(state);
  }

  lemma {:induction false} FromLEBelow(s: seq<byte>)
    ensures FromLE(s) < Range(|s|)
  {
    if s != [] {
      FromLEBelow(s[1..]);
    }
  }

  lemma FieldBelow(data: seq<byte>, at: nat, w: nat)
    requires at + w <= |data|
    ensures Field(data, at, w) < Range(w)
    ensures Range(1) == 0x100 && Range(2) == 0x1_0000 && Range(8) == 0x1_0000_0000_0000_0000
  {
    Ranges();
    FromLEBelow(data[at..at + w]);
  }

  lemma {:induction false} WordsFields(ws: seq<u16>, data: seq<byte>, at: nat, rest: seq<byte>)
    requires at <= |data| && data[at..] == Words(ws) + rest
    ensures at + 2 * |ws| <= |data| && data[at + 2 * |ws|..] == rest
    ensures forall j :: 0 <= j < |ws| ==> Field(data, at + 2 * j, 2) == ws[j]
    decreases |ws|
  {
    Ranges();
    hide LE, Field, Range;
    if ws != [] {
      assert data[at..] == LE(ws[0], 2) + (Words(ws[1..]) + rest);
      NextField(data, at, ws[0], 2, Words(ws[1..]) + rest);
      WordsFields(ws[1..], data, at + 2, rest);
      forall j | 0 <= j < |ws|
        ensures Field(data, at + 2 * j, 2) == ws[j]
      {
        if j > 0 {
          assert Field(data, at + 2 + 2 * (j - 1), 2) == ws[1..][j - 1];
        }
      }
    }
  }

  lemma SerialisedFields(s: OrchORState, rest: seq<byte>, bytes: seq<byte>)
    requires |s.hexagon| == 12 && bytes == Serialised(s) + rest
    ensures |bytes| >= 57
    ensures Field(bytes, 0, 8) == s.timestamp && Field(bytes, 8, 8) == s.coherenceTime
    ensures Field(bytes, 16, 8) == s.frequency && Field(bytes, 24, 8) == s.energy && Field(bytes, 56, 1) == s.regime
    ensures forall j :: 0 <= j < 12 ==> Field(bytes, 32 + 2 * j, 2) == s.hexagon[j]
  {
    Ranges();
    var t5 := LE(s.regime, 1) + rest;
    var t4 := Words(s.hexagon) + t5;
    var t3 := LE(s.energy, 8) + t4;
    var t2 := LE(s.frequency, 8) + t3;
    var t1 := LE(s.coherenceTime, 8) + t2;
    hide LE, Field, Range, Words;
    assert bytes == LE(s.timestamp, 8) + t1;
    assert bytes[0..] == bytes;
    NextField(bytes, 0, s.timestamp, 8, t1);
    NextField(bytes, 8, s.coherenceTime, 8, t2);
    NextField(bytes, 16, s.frequency, 8, t3);
    NextField(bytes, 24, s.energy, 8, t4);
    WordsFields(s.hexagon, bytes, 32, t5);
    NextField(bytes, 56, s.regime, 1, rest);
  }
}
