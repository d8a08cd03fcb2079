/** Encoder, channel and decoder together, of `arkhe-soc-tlm/src/fountain_simulation.rs`. */
module FountainSimulation {
  import opened Wrappers
  import opened LittleEndian
  import opened FountainFrames
  import opened FountainDraws
  import opened FountainEncoding
  import opened FountainPeeling
  import opened FountainDecoding

  ghost predicate AllHonest(sources: nat -> Source, frames: seq<Frame>) {
    forall i :: 0 <= i < |frames| ==> Honest(sources(frames[i].session), frames[i])
  }

  ghost function DrawsOf(sources: nat -> Source, frames: seq<Frame>): (sels: seq<seq<nat>>)
    requires AllHonest(sources, frames)
    ensures |sels| == |frames|
  {
    seq(|frames|, i requires 0 <= i < |frames| => Draws(sources(frames[i].session), frames[i]))
  }

  /** The frames since the session last changed. */
  function LastSession(frames: seq<Frame>): (last: seq<Frame>)
    ensures frames != [] ==> last != [] && last[0].session == frames[|frames| - 1].session
    ensures frames == [] ==> last == []
  {
    if frames == [] then []
    else
      var before, frame := LastSession(frames[..|frames| - 1]), frames[|frames| - 1];
      if before != [] && before[0].session == frame.session then before + [frame] else [frame]
  }

  /** What a decoder holds that has received these frames: it is in the session of the last one and knows what the frames since
      the session last changed tell, one after the other. */
  ghost predicate Tracks(sources: nat -> Source, frames: seq<Frame>, session: Option<nat>, knows: Knowledge, ss: seq<Knowledge>) {
    var last := LastSession(frames);
    && AllHonest(sources, last) && Absorbing(DrawsOf(sources, last), ss) && knows == ss[|last|]
    && session == if last == [] then None else Some(last[0].session)
  }

  lemma TracksNothing(sources: nat -> Source)
    ensures Tracks(sources, [], None, NOTHING, [NOTHING])
  {}

  lemma AbsorbingNext(sources: nat -> Source, last: seq<Frame>, frame: Frame, ss: seq<Knowledge>, t: Knowledge)
    requires AllHonest(sources, last) && Honest(sources(frame.session), frame) && Absorbing(DrawsOf(sources, last), ss)
    requires Absorbs(ss[|last|], Draws(sources(frame.session), frame), t)
    ensures AllHonest(sources, last + [frame]) && Absorbing(DrawsOf(sources, last + [frame]), ss + [t])
  {
    hide Honest, Draws, Absorbs;
    var sels, all := DrawsOf(sources, last), DrawsOf(sources, last + [frame]);
    assert forall i :: 0 <= i < |last| ==> (last + [frame])[i] == last[i];
    assert all == sels + [Draws(sources(frame.session), frame)];
  }

  lemma TracksNext(sources: nat -> Source, frames: seq<Frame>, session: Option<nat>, s: Knowledge, ss: seq<Knowledge>, frame: Frame, t: Knowledge)
      returns (next: seq<Knowledge>)
    requires Tracks(sources, frames, session, s, ss) && Honest(sources(frame.session), frame)
    requires Absorbs(if session == Some(frame.session) then s else NOTHING, Draws(sources(frame.session), frame), t)
    ensures Tracks(sources, frames + [frame], Some(frame.session), t, next)
  {
    hide Honest, Draws, Absorbs, Absorbing, DrawsOf, AllHonest;
    assert (frames + [frame])[..|frames|] == frames;
    var last := LastSession(frames);
    if session == Some(frame.session) {
      next := ss + [t];
      AbsorbingNext(sources, last, frame, ss, t);
      RunLength(sources, last, ss);
    } else {
      next := [NOTHING] + [t];
      StartOver(sources);
      AbsorbingNext(sources, [], frame, [NOTHING], t);
      assert [] + [frame] == [frame];
    }
  }

  lemma RunLength(sources: nat -> Source, last: seq<Frame>, ss: seq<Knowledge>)
    requires AllHonest(sources, last) && Absorbing(DrawsOf(sources, last), ss)
    ensures |ss| == |last| + 1
  {}

  lemma StartOver(sources: nat -> Source)
    ensures AllHonest(sources, []) && Absorbing(DrawsOf(sources, []), [NOTHING])
  {}

  // ---------------------------------------------------------------- the receiver

  /** The frames among what has arrived: the rest is rejected. */
  function Parsed(raws: seq<seq<byte>>): seq<Frame>
    requires forall i :: 0 <= i < |raws| ==> PayloadInside(raws[i])
  {
    if raws == [] then []
    else
      var before := Parsed(raws[..|raws| - 1]);
      match Parse(raws[|raws| - 1])
      case None => before
      case Some(frame) => before + [frame]
  }

  ghost predicate FromEncoders(sources: nat -> Source, raws: seq<seq<byte>>) {
    forall i :: 0 <= i < |raws| ==>
      PayloadInside(raws[i]) && (Parse(raws[i]).Some? ==> Honest(sources(Parse(raws[i]).value.session), Parse(raws[i]).value))
  }

  /** The receiving loop, for whatever arrives: frames lost, repeated, out of order, damaged or of other sessions. What the
      decoder knows is what the frames since the last change of session tell. */
  method ReceiveAll(decoder: FountainDecoder, raws: seq<seq<byte>>) returns (ghost ss: seq<Knowledge>)
    requires decoder.Valid() && decoder.currentSession == None && FromEncoders(decoder.sources, raws)
    modifies decoder
    ensures decoder.Valid() && Tracks(decoder.sources, Parsed(raws), decoder.currentSession, decoder.Knows(), ss)
  {
    hide Honest, Draws, Absorbs, Parse, PayloadInside, Tracks, LastSession;
    ss := [NOTHING];
    TracksNothing(decoder.sources);
    FreshKnows(decoder);
    for i := 0 to |raws|
      invariant decoder.Valid() && Tracks(decoder.sources, Parsed(raws[..i]), decoder.currentSession, decoder.Knows(), ss)
    {
      assert raws[..i + 1][..i] == raws[..i];
      ghost var frames, session, s := Parsed(raws[..i]), decoder.currentSession, decoder.Knows();
      var r := decoder.ReceiveFrame(raws[i]);
      if Parse(raws[i]).Some? {
        ss := TracksNext(decoder.sources, frames, session, s, ss, Parse(raws[i]).value, decoder.Knows());
      }
    }
    assert raws[..|raws|] == raws;
  }

  lemma FreshKnows(decoder: FountainDecoder)
    requires decoder.Valid() && decoder.currentSession == None
    ensures decoder.Knows() == NOTHING
  {}

  // ---------------------------------------------------------------- from end to end

  /** What arrives: one of the frames that were sent, or something else. */
  datatype Arrival = Sent(i: nat) | Other(raw: seq<byte>)

  function Arriving(sent: seq<seq<byte>>, arrivals: seq<Arrival>): (raws: seq<seq<byte>>)
    requires forall a :: a in arrivals && a.Sent? ==> a.i < |sent|
    ensures |raws| == |arrivals|
  {
    seq(|arrivals|, k requires 0 <= k < |arrivals| =>
      assert arrivals[k] in arrivals;
      match arrivals[k] case Sent(i) => sent[i] case Other(raw) => raw)
  }

  /** Whatever else arrives was sent in other sessions, or is rejected. */
  ghost predicate Foreign(others: nat -> Source, session: nat, arrivals: seq<Arrival>) {
    forall a :: a in arrivals && a.Other? ==>
      && PayloadInside(a.raw)
      && (Parse(a.raw).Some? ==> Parse(a.raw).value.session != session && Honest(others(Parse(a.raw).value.session), Parse(a.raw).value))
  }

  ghost function Sources(src: Source, session: nat, others: nat -> Source): nat -> Source {
    (s: nat) => if s == session then src else others(s)
  }

  /** `sent` are the frames of an encoder of the source with these degrees. */
  ghost predicate Sends(src: Source, session: nat, degrees: seq<nat>, sent: seq<seq<byte>>) {
    && Shaped(src) && CanSend(|src.blocks|, 0, degrees) && |sent| == |degrees|
    && forall j :: 0 <= j < |degrees| ==> sent[j] == Encode(HonestFrame(src, session, Number(0, j), degrees[j]))
  }

  /** `frames` are the frames that were understood. */
  ghost predicate Understood(sent: seq<seq<byte>>, arrivals: seq<Arrival>, frames: seq<Frame>) {
    && (forall a :: a in arrivals && a.Sent? ==> a.i < |sent|)
    && (forall i :: 0 <= i < |arrivals| ==> PayloadInside(Arriving(sent, arrivals)[i]))
    && frames == Parsed(Arriving(sent, arrivals))
  }

  lemma ArrivingFromEncoders(src: Source, session: nat, others: nat -> Source, degrees: seq<nat>, sent: seq<seq<byte>>, arrivals: seq<Arrival>)
    requires Sends(src, session, degrees, sent)
    requires session < 0x1_0000_0000 && |src.blocks| < 0x1_0000 && src.size < 0x1_0000
    requires forall j :: 0 <= j < |degrees| ==> degrees[j] < 0x1_0000
    requires (forall a :: a in arrivals && a.Sent? ==> a.i < |sent|) && Foreign(others, session, arrivals)
    ensures FromEncoders(Sources(src, session, others), Arriving(sent, arrivals))
  {
    hide Shaped, Reaches, HonestFrame, Honest, Encode, Parse, PayloadInside, Seed;
    var raws := Arriving(sent, arrivals);
    forall k | 0 <= k < |raws|
      ensures PayloadInside(raws[k])
      ensures Parse(raws[k]).Some? ==>
        Honest(Sources(src, session, others)(Parse(raws[k]).value.session), Parse(raws[k]).value)
    {
      assert arrivals[k] in arrivals;
      if arrivals[k].Sent? {
        var j := arrivals[k].i;
        HonestArrives(src, session, Number(0, j), degrees[j]);
        SessionOf(src, session, Number(0, j), degrees[j]);
      }
    }
  }

  lemma SessionOf(src: Source, session: nat, seqNum: nat, d: nat)
    requires Reaches(Seed(seqNum), |src.blocks|, d) && Shaped(src)
    ensures HonestFrame(src, session, seqNum, d).session == session
  {}

  /** From the data to the data: whatever becomes of the frames on their way, and whatever else arrives, if the decoder is in the
      session at the end, it returns the data filled up with zeros as soon as it knows every block, and nothing before. */
  method Transfer(data: seq<byte>, blockSize: nat, session: nat, degrees: seq<nat>, arrivals: seq<Arrival>, ghost others: nat -> Source)
      returns (result: Option<seq<byte>>, ghost src: Source, ghost sent: seq<seq<byte>>, ghost frames: seq<Frame>, ghost ss: seq<Knowledge>)
    requires 0 < blockSize < 0x1_0000 && session < 0x1_0000_0000 && (|data| + blockSize - 1) / blockSize < 0x1_0000
    requires CanSend((|data| + blockSize - 1) / blockSize, 0, degrees) && forall j :: 0 <= j < |degrees| ==> degrees[j] < 0x1_0000
    requires (forall a :: a in arrivals && a.Sent? ==> a.i < |degrees|) && Foreign(others, session, arrivals)
    ensures |src.blocks| == (|data| + blockSize - 1) / blockSize && src.size == blockSize && |data| <= |src.blocks| * blockSize
    ensures Flat(src.blocks) == data + Zeros(|src.blocks| * blockSize - |data|)
    ensures Sends(src, session, degrees, sent) && Understood(sent, arrivals, frames)
    ensures AllHonest(Sources(src, session, others), LastSession(frames))
    ensures Absorbing(DrawsOf(Sources(src, session, others), LastSession(frames)), ss) && |ss| == |LastSession(frames)| + 1
    ensures frames != [] && frames[|frames| - 1].session == session ==>
      result == if 0 < |src.blocks| <= |ss[|ss| - 1].known| then Some(data + Zeros(|src.blocks| * blockSize - |data|)) else None
    ensures result.Some? && (forall a :: a in arrivals ==> a.Sent?) ==>
      |result.value| == (|data| + blockSize - 1) / blockSize * blockSize && data <= result.value
  {
    hide Honest, Reaches, HonestFrame, Encode, Parse, PayloadInside, Seed, Absorbs, Draws, Shaped, LastSession;
    var encoder := new FountainEncoder(data, blockSize, session);
    src := encoder.Src();
    var generated := encoder.GenerateFrames(degrees);
    sent := generated;
    ghost var sources := Sources(src, session, others);
    ArrivingFromEncoders(src, session, others, degrees, sent, arrivals);
    var decoder := new FountainDecoder(sources);
    var raws := Arriving(generated, arrivals);
    ss := ReceiveAll(decoder, raws);
    frames := Parsed(raws);
    result := decoder.Reconstruct();
    SessionIs(decoder, frames, ss);
    if forall a :: a in arrivals ==> a.Sent? {
      OwnFrames(src, session, degrees, sent, arrivals);
      NothingUnlessIn(decoder);
    }
  }

  lemma NothingUnlessIn(decoder: FountainDecoder)
    requires decoder.Valid()
    ensures decoder.Complete() ==> decoder.currentSession.Some?
  {}

  /** When nothing else arrives, all frames are of the session. */
  lemma OwnFrames(src: Source, session: nat, degrees: seq<nat>, sent: seq<seq<byte>>, arrivals: seq<Arrival>)
    requires Sends(src, session, degrees, sent) && session < 0x1_0000_0000 && |src.blocks| < 0x1_0000 && src.size < 0x1_0000
    requires forall j :: 0 <= j < |degrees| ==> degrees[j] < 0x1_0000
    requires forall a :: a in arrivals ==> a.Sent? && a.i < |sent|
    ensures var raws := Arriving(sent, arrivals);
      && (forall i :: 0 <= i < |raws| ==> PayloadInside(raws[i]))
      && forall i :: 0 <= i < |Parsed(raws)| ==> Parsed(raws)[i].session == session
  {
    hide Shaped, Reaches, HonestFrame, Honest, Encode, Parse, PayloadInside, Seed;
    var raws := Arriving(sent, arrivals);
    forall k | 0 <= k < |raws|
      ensures PayloadInside(raws[k]) && (Parse(raws[k]).Some? ==> Parse(raws[k]).value.session == session)
    {
      assert arrivals[k] in arrivals;
      var j := arrivals[k].i;
      HonestArrives(src, session, Number(0, j), degrees[j]);
      SessionOf(src, session, Number(0, j), degrees[j]);
    }
    OneSession(raws, session);
  }

  lemma {:induction false} OneSession(raws: seq<seq<byte>>, session: nat)
    requires forall i :: 0 <= i < |raws| ==>
      PayloadInside(raws[i]) && (Parse(raws[i]).Some? ==> Parse(raws[i]).value.session == session)
    ensures forall i :: 0 <= i < |Parsed(raws)| ==> Parsed(raws)[i].session == session
  {
    hide Parse, PayloadInside;
    if raws != [] {
      OneSession(raws[..|raws| - 1], session);
    }
  }

  lemma SessionIs(decoder: FountainDecoder, frames: seq<Frame>, ss: seq<Knowledge>)
    requires decoder.Valid() && Tracks(decoder.sources, frames, decoder.currentSession, decoder.Knows(), ss)
    ensures |ss| == |LastSession(frames)| + 1 && ss[|ss| - 1] == decoder.Knows()
    ensures frames != [] ==> decoder.currentSession == Some(frames[|frames| - 1].session)
    ensures decoder.currentSession.Some? ==>
      (decoder.Complete() <==> 0 < |decoder.sources(decoder.currentSession.value).blocks| <= |ss[|ss| - 1].known|)
  {
    var last := LastSession(frames);
    hide Absorbs, Honest, Draws, LastSession;
    assert |decoder.decodedBlocks.Keys| == |decoder.decodedBlocks|;
  }
}
