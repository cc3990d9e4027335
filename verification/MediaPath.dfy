/** The media path end to end: fragment, pack, glue into datagrams, split, parse, reassemble
    (src/protocol.rs; the receiving loop is the one of src/agent.rs:672-687 and wire_tap.rs:96-126). */
module MediaPath {
  import opened Bytes
  import opened Protocol
  import opened Fragmenter
  import opened Splitter
  import opened Reassembler
  import opened Reassembly
  import opened Interleaving

  /** The fragment a raw message hands to the reassembler, if any; audio goes elsewhere. */
  function Handed(raw: Data): (r: seq<MediaFragment>)
    ensures |r| <= 1
  {
    var m := ParseMessage(raw);
    if m.Err? then [] else
    var media := MessageMedia(m.value);
    if media.Some? && media.value.mediaType != MEDIA_AUDIO then [media.value] else []
  }

  function HandedAll(ms: seq<Data>): seq<MediaFragment> {
    if ms == [] then [] else Handed(ms[0]) + HandedAll(ms[1..])
  }

  /** The fragments that a list of datagrams hands to the reassembler. */
  function Received(datagrams: seq<Data>): seq<MediaFragment> {
    if datagrams == [] then [] else HandedAll(Split(datagrams[0])) + Received(datagrams[1..])
  }

  /** Feed one message to the reassembler, if it carries a fragment. */
  method FeedMessage(reassembler: JpegReassembler, raw: Data) returns (outs: seq<Option<Data>>)
    requires reassembler.Valid()
    modifies reassembler
    ensures reassembler.Valid()
    ensures reassembler.View() == After(old(reassembler.View()), Handed(raw))
    ensures outs == Outs(old(reassembler.View()), Handed(raw))
  {
    outs := [];
    var message := ParseMessage(raw);
    if message.Ok? {
      var media := MessageMedia(message.value);
      if media.Some? && media.value.mediaType != MEDIA_AUDIO {
        var out := reassembler.Push(media.value);
        outs := [out];
      }
    }
  }

  // ------------------------------------------------------------ transparency

  /** The fragments that a list of built messages carries. */
  function Carried(bs: seq<Built>): seq<MediaFragment>
    requires forall b | b in bs :: b.Legal()
  {
    if bs == [] then [] else
    (if bs[0].Jpeg? then assert bs[0].Legal(); [Fragment(bs[0].sequence, bs[0].chunks, bs[0].i)] else [])
    + Carried(bs[1..])
  }

  /** Of all the builders' messages only a JPEG packet hands over a fragment, and it is its own. */
  lemma HandedByBuilt(b: Built)
    requires b.Legal()
    ensures Handed(b.Wire()) == if b.Jpeg? then [Fragment(b.sequence, b.chunks, b.i)] else []
  {
    match b
    case Page => NothingHanded(FAMILY_PAGE, OP_REQUEST, 36, [0x00, 0x1e, 0x00, 0x00]);
    case BootstrapAsk => NothingHanded(FAMILY_BOOTSTRAP, OP_REQUEST, 20, []);
    case BootstrapAnswer(room) =>
      NothingHanded(FAMILY_BOOTSTRAP, 2, 898, [1, 0] + PackStation(room).value + Zeros(840));
    case Request(e, capability) =>
      NothingHanded(FAMILY_SESSION, OP_REQUEST, 254, PackEndpoints(e).value + capability);
    case Reply(e) =>
      var video: Data := [0x56, 0x49, 0x44, 0x45, 0x4f, 0x41, 0, 0];
      NothingHanded(FAMILY_SESSION, OP_REPLY, 96,
        PackEndpoints(e).value + (video + Le16(50) + Le16(9) + Le16(9) + Le16(255)));
    case Control(opcode, e) => NothingHanded(FAMILY_SESSION, opcode, 80, PackEndpoints(e).value);
    case Monitor(e, capability) =>
      NothingHanded(FAMILY_MONITOR, OP_REQUEST, 172, PackEndpoints(e).value + capability);
    case Call(e, capability) =>
      NothingHanded(FAMILY_SESSION, OP_REQUEST, 256, PackEndpoints(e).value + capability);
    case Setup(e) => NothingHanded(FAMILY_SESSION, OP_CALL_SETUP, 82, PackEndpoints(e).value + [1, 0]);
    case Jpeg(sequence, chunks, e, i) => JpegPacketParses(sequence, chunks, e, i);
    case Audio(sequence, pcm, e) => AudioRoundTrip(sequence, pcm, e);
    case Elevator(roomId) =>
      NothingHanded(FAMILY_ELEVATOR, OP_REQUEST, 32, PackStation(Station(roomId, Ipv4(0, 0, 0, 0))).value + Zeros(18));
  }

  lemma NothingHanded(family: U16, opcode: U32, declared: U32, body: Data)
    requires opcode != OP_MEDIA
    ensures Handed(Packet(family, opcode, declared, body)) == []
  {
    PacketParses(family, opcode, declared, body, []);
    assert Packet(family, opcode, declared, body) + [] == Packet(family, opcode, declared, body);
  }

  lemma {:induction false} HandedByAll(bs: seq<Built>)
    requires forall b | b in bs :: b.Legal()
    ensures HandedAll(WireAll(bs)) == Carried(bs)
  {
    if bs != [] {
      HandedByBuilt(bs[0]);
      HandedByAll(bs[1..]);
      assert WireAll(bs)[1..] == WireAll(bs[1..]);
    }
  }

  /** Messages the splitter can recover: anything the builders emit but an elevator request. */
  ghost predicate Splittable(bs: seq<Built>) {
    forall b | b in bs :: b.Legal() && !b.Elevator?
  }

  ghost predicate AllSplittable(groups: seq<seq<Built>>) {
    forall i | 0 <= i < |groups| :: Splittable(groups[i])
  }

  /** One datagram per group, the group's messages glued together. */
  function Glued(groups: seq<seq<Built>>): (ds: seq<Data>)
    requires AllSplittable(groups)
    ensures |ds| == |groups|
    ensures forall i | 0 <= i < |groups| :: ds[i] == Flatten(WireAll(groups[i]))
  {
    seq(|groups|, i requires 0 <= i < |groups| => Flatten(WireAll(groups[i])))
  }

  lemma {:induction false} CarriedAppend(a: seq<Built>, b: seq<Built>)
    requires forall x | x in a + b :: x.Legal()
    requires forall x | x in a :: x.Legal()
    requires forall x | x in b :: x.Legal()
    ensures Carried(a + b) == Carried(a) + Carried(b)
  {
    if a == [] {
      assert a + b == b;
    } else {
      assert (a + b)[1..] == a[1..] + b;
      CarriedAppend(a[1..], b);
      Associates(Carried(a[..1]), Carried(a[1..]), Carried(b));
    }
  }

  lemma {:induction false} FlattenSplittable(groups: seq<seq<Built>>)
    requires AllSplittable(groups)
    ensures Splittable(Flatten(groups))
  {
    if groups != [] {
      FlattenSplittable(groups[1..]);
    }
  }

  /** However messages of every kind are grouped into datagrams, the reassembler is handed
      exactly the fragments that were sent, in the order they were sent. */
  lemma {:induction false} GroupingIsInvisible(groups: seq<seq<Built>>)
    requires AllSplittable(groups)
    ensures Splittable(Flatten(groups))
    ensures Received(Glued(groups)) == Carried(Flatten(groups))
  {
    FlattenSplittable(groups);
    if groups != [] {
      var g := groups[0];
      assert Splittable(g);
      BuiltMessagesSplit(g);
      HandedByAll(g);
      GroupingIsInvisible(groups[1..]);
      CarriedAppend(g, Flatten(groups[1..]));
      assert Glued(groups)[1..] == Glued(groups[1..]);
    }
  }

  // --------------------------------------------------------- the whole round trip

  /** A frame of legal size survives the wire: its packets may be sent in any order, repeated,
      mixed with other messages and glued into datagrams in any grouping, and from any healthy
      state that does not hold the slot that arrives last the reassembler returns exactly the frame
      at the push of the last missing slot, and nothing before. */
  lemma FrameSurvivesTheWire(
    s: seq<Entry>, q: U16, jpeg: Data, groups: seq<seq<Built>>, before: seq<nat>, last: nat)
    requires Healthy(s) && Fresh(s, q, |Chunks(jpeg)|, last)
    requires Fragmentable(jpeg) && Delimited(jpeg)
    requires AllSplittable(groups)
    requires var n := |Chunks(jpeg)|;
             && InRange(before, n) && last < n && last !in before
             && (forall i: nat | i < n :: i in before + [last])
             && InRange(before + [last], n)
    requires Splittable(Flatten(groups)) && Carried(Flatten(groups)) == Arrivals(q, Chunks(jpeg), before + [last])
    ensures Outs(s, Received(Glued(groups))) == seq(|before|, _ => None) + [Some(jpeg)]
  {
    GroupingIsInvisible(groups);
    ChunksJoin(jpeg);
    AnyArrivalOrder(s, q, Chunks(jpeg), before, last);
  }

  /** Many frames at once: as long as at most eight are ever incomplete, each frame whose packets
      are among those sent comes out once and unchanged, however the packets of all frames are
      interleaved, repeated before completion, mixed with other messages and grouped, and however
      often its number is used for other frames before and after. */
  lemma InterleavedFrameSurvivesTheWire(
    q: U16, jpeg: Data, groups: seq<seq<Built>>, before: seq<nat>, last: nat,
    earlier: seq<MediaFragment>, later: seq<MediaFragment>)
    requires Fragmentable(jpeg) && Delimited(jpeg)
    requires AllSplittable(groups) && Splittable(Flatten(groups))
    requires EightAtMost(Carried(Flatten(groups)))
    requires var n := |Chunks(jpeg)|;
             && InRange(before, n) && last < n && last !in before
             && (forall i: nat | i < n :: i in before + [last])
             && InRange(before + [last], n)
    requires Only(Carried(Flatten(groups)), q) == earlier + Arrivals(q, Chunks(jpeg), before + [last]) + later
    requires Fresh(After([], earlier), q, |Chunks(jpeg)|, last)
    ensures var outs := OutsFor(Received(Glued(groups)), q);
            && |outs| == |earlier| + |before| + 1 + |later|
            && outs[|earlier|..|earlier| + |before| + 1] == seq(|before|, _ => None) + [Some(jpeg)]
  {
    GroupingIsInvisible(groups);
    ChunksJoin(jpeg);
    InterleavedFrame(Carried(Flatten(groups)), q, Chunks(jpeg), before, last, earlier, later);
  }

  /** Every part held is at most one slot long. */
  ghost predicate Small(s: seq<Entry>) {
    forall i | 0 <= i < |s| :: SmallFrame(s[i].frame)
  }

  ghost predicate SmallFrame(frame: Frame) {
    forall k | k in frame.parts :: |frame.parts[k]| <= SLOT
  }

  lemma {:induction false} FlattenSize(parts: seq<Data>)
    requires forall i | 0 <= i < |parts| :: |parts[i]| <= SLOT
    ensures |Flatten(parts)| <= |parts| * SLOT
  {
    if parts != [] {
      FlattenSize(parts[1..]);
    }
  }

  lemma SmallStep(s: seq<Entry>, f: MediaFragment)
    requires Small(s) && |f.data| <= SLOT
    ensures Small(Pushed(s, f).0)
    ensures var out := Pushed(s, f).1; out.Some? ==> Delimited(out.value) && Fragmentable(out.value)
  {
    if Accepts(f) {
      SmallAbsorb(Lookup(s, f.sequence), f);
      var frame := Absorb(Lookup(s, f.sequence), f);
      SmallList(s, Slot(s, f.sequence), Entry(f.sequence, frame));
      if frame.Complete() {
        SmallJpeg(frame);
      }
    }
  }

  lemma SmallAbsorb(held: Option<Frame>, f: MediaFragment)
    requires (held.Some? ==> SmallFrame(held.value)) && |f.data| <= SLOT
    ensures SmallFrame(Absorb(held, f))
  {
  }

  lemma SmallList(s: seq<Entry>, i: nat, e: Entry)
    requires Small(s) && SmallFrame(e.frame) && i <= |s|
    ensures Small(Drop(s, i)) && Small(Trimmed(Put(s, i, e)))
  {
  }

  lemma SmallJpeg(frame: Frame)
    requires frame.Complete() && frame.count > 0 && SmallFrame(frame)
    ensures var out := Finish(frame); out.Some? ==> Delimited(out.value) && Fragmentable(out.value)
  {
    FlattenSize(frame.Parts());
    JpegIsDelimited(Flatten(frame.Parts()));
  }

  lemma {:induction false} OnlyFragmentableJpegs(fs: seq<MediaFragment>)
    requires forall i | 0 <= i < |fs| :: |fs[i].data| <= SLOT
    ensures Small(After([], fs))
    ensures forall i | 0 <= i < |fs| :: Outs([], fs)[i].Some? ==>
              Delimited(Outs([], fs)[i].value) && Fragmentable(Outs([], fs)[i].value)
  {
    if fs != [] {
      OnlyFragmentableJpegs(fs[..|fs| - 1]);
      SmallStep(After([], fs[..|fs| - 1]), fs[|fs| - 1]);
    }
  }

  function InOrder(n: nat): (idx: seq<nat>)
    ensures |idx| == n && forall i | 0 <= i < n :: idx[i] == i
  {
    seq(n, i => i)
  }

  /** The exact condition for the round trip: a buffer's fragments, pushed in order, give it back
      if and only if it starts and ends like a JPEG and needs at most 65535 slots. Beyond that
      the counts, cast to u16, wrap. */
  lemma RoundTripIsExact(q: U16, jpeg: Data)
    ensures Some(jpeg) in Outs([], Arrivals(q, Chunks(jpeg), InOrder(|Chunks(jpeg)|)))
       <==> Fragmentable(jpeg) && Delimited(jpeg)
  {
    var fs := Arrivals(q, Chunks(jpeg), InOrder(|Chunks(jpeg)|));
    if Fragmentable(jpeg) && Delimited(jpeg) {
      InOrderRoundTrip(q, jpeg);
    } else {
      OnlyFragmentableJpegs(fs);
    }
  }

  lemma InOrderRoundTrip(q: U16, jpeg: Data)
    requires Fragmentable(jpeg) && Delimited(jpeg)
    ensures Some(jpeg) in Outs([], Arrivals(q, Chunks(jpeg), InOrder(|Chunks(jpeg)|)))
  {
    var chunks := Chunks(jpeg);
    var n := |chunks|;
    ChunksJoin(jpeg);
    var all := InOrder(n - 1) + [n - 1];
    assert InOrder(n) == all;
    forall i: nat | i < n ensures i in all { assert all[i] == i; }
    AnyArrivalOrder([], q, chunks, InOrder(n - 1), n - 1);
    assert Outs([], Arrivals(q, chunks, InOrder(n)))[n - 1] == Some(jpeg);
  }
}
