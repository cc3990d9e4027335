/** Recovering the messages that UDP GRO glued into one datagram (src/protocol.rs,
    logical_size and split_coalesced). */
module Splitter {
  import opened Bytes
  import opened Protocol
  import opened Fragmenter
  import opened Gluing

  /** The length a message claims for itself, when that claim is usable. */
  function LogicalSize(data: Data): (r: Option<nat>)
    ensures r.Some? ==> r.value >= 32
  {
    var m := ParseMessage(data);
    if m.Err? then None
    else if m.value.SessionLike() && m.value.opcode == OP_MEDIA && |data| >= 90 then
      var kind := FromLe16(data[80], data[81]);
      if kind == MEDIA_JPEG then Some(1290) else if kind == MEDIA_AUDIO then Some(602) else None
    else if m.value.declared >= 32 then Some(m.value.declared)
    else if m.value.family == FAMILY_SESSION && m.value.opcode == OP_KEEPALIVE then Some(80)
    else None
  }

  /** The first position at which the magic occurs. */
  function FindMagic(p: Data): (r: Option<nat>)
    ensures r.Some? ==> MagicAt(p, r.value)
    ensures forall j | 0 <= j < (if r.Some? then r.value else |p|) :: !MagicAt(p, j)
  {
    if |p| < 8 then None
    else if StartsWithMagic(p) then Some(0)
    else
      var rest := FindMagic(p[1..]);
      assert forall j | 1 <= j :: MagicAt(p, j) == MagicAt(p[1..], j - 1);
      if rest.None? then None else Some(1 + rest.value)
  }

  /** Where the message at the front of p ends: its own claim if it fits, else the next magic. */
  function SliceSize(p: Data): (n: nat)
    ensures StartsWithMagic(p) ==> 8 <= n <= |p|
  {
    var claim := LogicalSize(p);
    if claim.Some? && claim.value <= |p| then claim.value
    else if |p| < 8 then |p|
    else
      var next := FindMagic(p[8..]);
      if next.Some? then next.value + 8 else |p|
  }

  const PENGUIN := Framing(StartsWithMagic, SliceSize)

  lemma PenguinIsSound()
    ensures PENGUIN.Sound()
  {
  }

  /** The messages recovered from one datagram. */
  function Split(p: Data): seq<Data> {
    PenguinIsSound();
    PENGUIN.Split(p)
  }

  method SplitCoalesced(input: Data) returns (out: seq<Data>)
    ensures out == Split(input)
  {
    PenguinIsSound();
    out := [];
    var payload := input;
    while payload != []
      invariant out + PENGUIN.Split(payload) == PENGUIN.Split(input)
      decreases |payload|
    {
      if !StartsWithMagic(payload) {
        var pos := FindMagic(payload);
        NoMagicBefore(payload, if pos.Some? then pos.value else |payload|);
        if pos.None? {
          break;
        }
        payload := payload[pos.value..];
      }
      var size := SliceSize(payload);
      if size == 0 {
        break;
      }
      FirstSlice(payload);
      Associates(out, [payload[..size]], PENGUIN.Split(payload[size..]));
      out := out + [payload[..size]];
      payload := payload[size..];
    }
  }

  lemma FirstSlice(p: Data)
    requires StartsWithMagic(p)
    ensures var n := SliceSize(p);
            PENGUIN.Sound() && 8 <= n <= |p| && PENGUIN.Split(p) == [p[..n]] + PENGUIN.Split(p[n..])
  {
    PenguinIsSound();
  }

  lemma NoMagicBefore(p: Data, n: nat)
    requires n <= |p| && forall j | 0 <= j < n :: !MagicAt(p, j)
    ensures PENGUIN.Sound() && PENGUIN.Split(p) == PENGUIN.Split(p[n..])
  {
    PenguinIsSound();
    forall j | 0 <= j < n ensures !PENGUIN.starts(p[j..]) {
      assert MagicAt(p[j..], 0) ==> MagicAt(p, j);
    }
    PENGUIN.SplitSkips(p, n);
  }

  /** On arbitrary bytes the slices come in order, do not overlap and each starts with the
      magic; and no occurrence of the magic falls outside them. */
  lemma SlicesOfArbitraryBytes(p: Data)
    ensures PENGUIN.Sound() && PENGUIN.Ordered(p, 0, PENGUIN.Spans(p, 0), Split(p))
    ensures forall j | 0 <= j <= |p| - 8 && p[j..j + 8] == MAGIC :: Covered(PENGUIN.Spans(p, 0), j)
  {
    PenguinIsSound();
    assert p[0..] == p;
    PENGUIN.SlicesAreOrdered(p, 0);
    forall j | 0 <= j <= |p| - 8 && p[j..j + 8] == MAGIC ensures Covered(PENGUIN.Spans(p, 0), j) {
      MagicIsCovered(p, j);
    }
  }

  lemma MagicIsCovered(p: Data, j: nat)
    requires j + 8 <= |p| && p[j..j + 8] == MAGIC
    ensures PENGUIN.Sound() && Covered(PENGUIN.Spans(p, 0), j)
  {
    PenguinIsSound();
    MagicAtMeans(p, j);
    assert MagicAt(p[j..], 0);
    PENGUIN.EveryStartIsCovered(p, 0, j);
  }

  // ------------------------------------------------------- what builders emit

  /** A packet outside the media opcode that declares its own true length is framed. */
  lemma DeclaredPacketIsFramed(family: U16, opcode: U32, declared: U32, body: Data)
    requires declared == 32 + |body|
    requires opcode != OP_MEDIA
    ensures PENGUIN.Framed(Packet(family, opcode, declared, body))
  {
    var m := Packet(family, opcode, declared, body);
    PacketParses(family, opcode, declared, body, []);
    assert m + [] == m;
    forall rest | PENGUIN.Boundary(rest)
      ensures SliceSize(m + rest) == |m|
    {
      PacketParses(family, opcode, declared, body, rest);
    }
  }

  /** A media packet is framed by its media type, whatever length it declares. */
  lemma MediaPacketIsFramed(block: Data, f: MediaFragment, slot: nat, declared: U32)
    requires |block| == 48 && |f.data| == f.validLength <= slot
    requires (f.mediaType == MEDIA_JPEG && slot == 1200) || (f.mediaType == MEDIA_AUDIO && slot == 512)
    ensures PENGUIN.Framed(Packet(FAMILY_SESSION, OP_MEDIA, declared, MediaBody(block, f, slot)))
  {
    var m := Packet(FAMILY_SESSION, OP_MEDIA, declared, MediaBody(block, f, slot));
    MediaSliceSize(block, f, slot, declared, []);
    assert m + [] == m;
    forall rest | PENGUIN.Boundary(rest)
      ensures SliceSize(m + rest) == |m|
    {
      MediaSliceSize(block, f, slot, declared, rest);
    }
  }

  lemma MediaSliceSize(block: Data, f: MediaFragment, slot: nat, declared: U32, rest: Data)
    requires |block| == 48 && |f.data| == f.validLength <= slot
    requires (f.mediaType == MEDIA_JPEG && slot == 1200) || (f.mediaType == MEDIA_AUDIO && slot == 512)
    ensures var m := Packet(FAMILY_SESSION, OP_MEDIA, declared, MediaBody(block, f, slot));
            SliceSize(m + rest) == |m|
  {
    var body := MediaBody(block, f, slot);
    PacketParses(FAMILY_SESSION, OP_MEDIA, declared, body, rest);
    MediaTypeOf(block, f, slot, declared, rest);
  }

  lemma MediaTypeOf(block: Data, f: MediaFragment, slot: nat, declared: U32, rest: Data)
    requires |block| == 48 && |f.data| <= slot
    ensures var p := Packet(FAMILY_SESSION, OP_MEDIA, declared, MediaBody(block, f, slot)) + rest;
            |p| >= 82 && FromLe16(p[80], p[81]) == f.mediaType
  {
    var body := MediaBody(block, f, slot);
    var p := Packet(FAMILY_SESSION, OP_MEDIA, declared, body) + rest;
    var h := MediaHeader(f.mediaType, f.sequence, f.count, f.index, f.validLength);
    assert body[48..58] == h;
    assert p[80] == body[48] == h[0] == f.mediaType % 0x100;
    assert p[81] == body[49] == h[1] == f.mediaType / 0x100;
  }

  /** What a message claims: media of a known type its real size and of any other none,
      everything else the declared size if that is at least a header, and a short keepalive 80. */
  lemma ClaimIs(p: Data)
    requires StartsWithMagic(p) && |p| >= 32
    ensures var m := ParseMessage(p).value;
            LogicalSize(p) == if (m.family == 0xb7 || m.family == 0xb8) && m.opcode == 0x0a && |p| >= 90 then
                                if p[80] == 1 && p[81] == 0 then Some(1290)
                                else if p[80] == 3 && p[81] == 0 then Some(602)
                                else None
                              else if m.declared >= 32 then Some(m.declared)
                              else if m.family == 0xb7 && m.opcode == 0x0c then Some(80)
                              else None
  {
    if |p| >= 90 {
      TypeIs(p[80], p[81]);
    }
  }

  lemma TypeIs(lo: Byte, hi: Byte)
    ensures FromLe16(lo, hi) == 1 <==> lo == 1 && hi == 0
    ensures FromLe16(lo, hi) == 3 <==> lo == 3 && hi == 0
  {
  }

  /** Four bytes from position i on, least significant first. */
  function Number(p: Data, i: nat): int
    requires i + 4 <= |p|
  {
    var b0: int, b1: int, b2: int, b3: int := p[i], p[i + 1], p[i + 2], p[i + 3];
    b0 + 0x100 * b1 + 0x1_0000 * b2 + 0x100_0000 * b3
  }

  /** Where a message keeps its family, opcode and declared size. */
  lemma FieldsAre(p: Data)
    requires StartsWithMagic(p) && |p| >= 32
    ensures var m := ParseMessage(p).value;
            m.family == Number(p, 8) % 0x1_0000 && m.opcode == Number(p, 10) && m.declared == Number(p, 14)
  {
    var b8: int, b9: int, high: int := p[8], p[9], FromLe16(p[10], p[11]);
    assert Number(p, 8) == b8 + 0x100 * b9 + 0x1_0000 * high;
  }

  ghost predicate Magic(p: Data, j: int) { 0 <= j <= |p| - 8 && p[j..j + 8] == MAGIC }

  /** A message whose claim cannot be used ends where the next magic starts, or with the datagram. */
  lemma UnusableClaim(p: Data)
    requires StartsWithMagic(p) && (LogicalSize(p).None? || LogicalSize(p).value > |p|)
    ensures var n := SliceSize(p);
            8 <= n <= |p| && (n < |p| ==> Magic(p, n)) && forall j | 8 <= j < n :: !Magic(p, j)
  {
    var n, rest := SliceSize(p), p[8..];
    if n < |p| {
      assert MagicAt(rest, n - 8);
      assert MagicAt(p, n);
      MagicAtMeans(p, n);
    }
    forall j | 8 <= j < n ensures !Magic(p, j) {
      assert !MagicAt(rest, j - 8);
      assert MagicAt(p, j) ==> MagicAt(rest, j - 8);
      MagicAtMeans(p, j);
    }
  }

  /** A keepalive counts as 80 bytes even if it declares fewer than a header. */
  lemma KeepaliveIsFramed(declared: U32, block: Data)
    requires declared < 32 && |block| == 48
    ensures PENGUIN.Framed(Packet(FAMILY_SESSION, OP_KEEPALIVE, declared, block))
  {
    var m := Packet(FAMILY_SESSION, OP_KEEPALIVE, declared, block);
    PacketParses(FAMILY_SESSION, OP_KEEPALIVE, declared, block, []);
    assert m + [] == m;
    forall rest ensures SliceSize(m + rest) == 80 {
      PacketParses(FAMILY_SESSION, OP_KEEPALIVE, declared, block, rest);
    }
  }

  /** The bootstrap request declares too little; the search for the next magic frames it. */
  lemma BootstrapRequestIsFramed()
    ensures PENGUIN.Framed(BootstrapRequest())
  {
    var m := BootstrapRequest();
    PacketParses(FAMILY_BOOTSTRAP, OP_REQUEST, 20, [], []);
    assert m + [] == m;
    forall rest | PENGUIN.Boundary(rest)
      ensures SliceSize(m + rest) == |m|
    {
      BootstrapSlice(rest);
    }
  }

  lemma BootstrapSlice(rest: Data)
    requires PENGUIN.Boundary(rest)
    ensures SliceSize(BootstrapRequest() + rest) == |BootstrapRequest()|
  {
    var p := BootstrapRequest() + rest;
    BootstrapClaimsNothing(rest);
    BootstrapNextMagic(rest);
    assert |p| == 32 + |rest|;
  }

  lemma BootstrapClaimsNothing(rest: Data)
    ensures LogicalSize(BootstrapRequest() + rest).None?
  {
    PacketParses(FAMILY_BOOTSTRAP, OP_REQUEST, 20, [], rest);
  }

  /** Past its own magic, the first magic after a bootstrap request is its successor's. */
  lemma BootstrapNextMagic(rest: Data)
    requires PENGUIN.Boundary(rest)
    ensures FindMagic((BootstrapRequest() + rest)[8..]) == if rest == [] then None else Some(24)
  {
    var m := BootstrapRequest();
    var q := (m + rest)[8..];
    assert m[8..] == [0x98, 0, 1, 0, 0, 0, 20, 0, 0, 0] + Zeros(14);
    assert forall j | 0 <= j < 24 :: q[j] == m[8..][j] != MAGIC[0];
    assert q[24..] == rest;
    assert forall j | 0 <= j < 24 :: !MagicAt(q, j);
    assert rest != [] ==> MagicAt(q, 24);
  }

  datatype Built =
    | Page
    | BootstrapAsk
    | BootstrapAnswer(room: Station)
    | Request(e: Endpoints, capability: Data)
    | Reply(e: Endpoints)
    | Control(opcode: U32, e: Endpoints)
    | Monitor(e: Endpoints, capability: Data)
    | Call(e: Endpoints, capability: Data)
    | Setup(e: Endpoints)
    | Jpeg(sequence: U16, chunks: seq<Data>, e: Endpoints, i: nat)
    | Audio(sequence: U16, pcm: Data, e: Endpoints)
    | Elevator(roomId: Data)
  {
    /** The builder accepts its arguments; session_control is used with control opcodes only. */
    predicate Legal() {
      match this
      case Page => true
      case BootstrapAsk => true
      case BootstrapAnswer(room) => |room.id| <= 20
      case Request(e, capability) => e.Packable() && |capability| == 174
      case Reply(e) => e.Packable()
      case Control(opcode, e) => e.Packable() && opcode != OP_MEDIA
      case Monitor(e, capability) => e.Packable() && |capability| == 92
      case Call(e, capability) => e.Packable() && |capability| == 176
      case Setup(e) => e.Packable()
      case Jpeg(_, chunks, e, i) => e.Packable() && Slotted(chunks) && i < |chunks|
      case Audio(_, pcm, e) => e.Packable() && |pcm| == 512
      case Elevator(roomId) => |roomId| <= 20
    }

    function Wire(): Data
      requires Legal()
    {
      match this
      case Page => PageRequest()
      case BootstrapAsk => BootstrapRequest()
      case BootstrapAnswer(room) => BootstrapReply(room).value
      case Request(e, capability) => SessionRequest(e, capability).value
      case Reply(e) => SessionReply(e).value
      case Control(opcode, e) => SessionControl(opcode, e).value
      case Monitor(e, capability) => MonitorRequest(e.door, e.room, capability).value
      case Call(e, capability) => CallRequest(e.door, e.room, capability).value
      case Setup(e) => CallSetup(e.door, e.room).value
      case Jpeg(sequence, chunks, e, i) => JpegPacket(sequence, chunks, e, i)
      case Audio(sequence, pcm, e) => AudioPacket(sequence, pcm, e).value
      case Elevator(roomId) => ElevatorRequest(roomId).value
    }
  }

  function WireAll(bs: seq<Built>): (ms: seq<Data>)
    requires forall b | b in bs :: b.Legal()
    ensures |ms| == |bs| && forall i | 0 <= i < |bs| :: ms[i] == bs[i].Wire()
  {
    seq(|bs|, i requires 0 <= i < |bs| => bs[i].Wire())
  }

  lemma BuiltIsFramed(b: Built)
    requires b.Legal() && !b.Elevator?
    ensures PENGUIN.Framed(b.Wire())
  {
    match b
    case Page => DeclaredPacketIsFramed(FAMILY_PAGE, OP_REQUEST, 36, [0x00, 0x1e, 0x00, 0x00]);
    case BootstrapAsk => BootstrapRequestIsFramed();
    case BootstrapAnswer(room) =>
      DeclaredPacketIsFramed(FAMILY_BOOTSTRAP, 2, 898, [1, 0] + PackStation(room).value + Zeros(840));
    case Request(e, capability) =>
      DeclaredPacketIsFramed(FAMILY_SESSION, OP_REQUEST, 254, PackEndpoints(e).value + capability);
    case Reply(e) =>
      var video: Data := [0x56, 0x49, 0x44, 0x45, 0x4f, 0x41, 0, 0];
      DeclaredPacketIsFramed(FAMILY_SESSION, OP_REPLY, 96,
        PackEndpoints(e).value + (video + Le16(50) + Le16(9) + Le16(9) + Le16(255)));
    case Control(opcode, e) => DeclaredPacketIsFramed(FAMILY_SESSION, opcode, 80, PackEndpoints(e).value);
    case Monitor(e, capability) =>
      DeclaredPacketIsFramed(FAMILY_MONITOR, OP_REQUEST, 172, PackEndpoints(e).value + capability);
    case Call(e, capability) =>
      DeclaredPacketIsFramed(FAMILY_SESSION, OP_REQUEST, 256, PackEndpoints(e).value + capability);
    case Setup(e) => DeclaredPacketIsFramed(FAMILY_SESSION, OP_CALL_SETUP, 82, PackEndpoints(e).value + [1, 0]);
    case Jpeg(sequence, chunks, e, i) =>
      MediaPacketIsFramed(PackEndpoints(e).value, Fragment(sequence, chunks, i), SLOT, 1290);
    case Audio(sequence, pcm, e) =>
      MediaPacketIsFramed(PackEndpoints(e).value, AudioFragment(sequence, pcm), 512, 602);
  }

  /** An elevator request is 74 bytes long and always cut at its declared 32. */
  lemma ElevatorIsCutShort(roomId: Data)
    requires |roomId| <= 20
    ensures var m := ElevatorRequest(roomId).value; |m| == 74 && PENGUIN.CutAt(m, 32)
  {
    var m := ElevatorRequest(roomId).value;
    var body := PackStation(Station(roomId, Ipv4(0, 0, 0, 0))).value + Zeros(18);
    PacketParses(FAMILY_ELEVATOR, OP_REQUEST, 32, body, []);
    assert m + [] == m;
    forall rest ensures SliceSize(m + rest) == 32 {
      PacketParses(FAMILY_ELEVATOR, OP_REQUEST, 32, body, rest);
    }
  }

  /** The exact condition: what the builders emit survives gluing and splitting if and only if
      no elevator request is among it. */
  lemma BuiltMessagesSplit(bs: seq<Built>)
    requires forall b | b in bs :: b.Legal()
    ensures Split(Flatten(WireAll(bs))) == WireAll(bs) <==> forall b | b in bs :: !b.Elevator?
  {
    if forall b | b in bs :: !b.Elevator? {
      WithoutElevators(bs);
    } else {
      ElevatorSpoils(bs, FirstElevator(bs, 0));
    }
  }

  lemma WithoutElevators(bs: seq<Built>)
    requires forall b | b in bs :: b.Legal() && !b.Elevator?
    ensures Split(Flatten(WireAll(bs))) == WireAll(bs)
  {
    PenguinIsSound();
    FramedUpTo(bs, |bs|);
    PENGUIN.SplitInvertsGluing(WireAll(bs));
  }

  lemma ElevatorSpoils(bs: seq<Built>, i: nat)
    requires forall b | b in bs :: b.Legal()
    requires i < |bs| && bs[i].Elevator? && forall k | 0 <= k < i :: !bs[k].Elevator?
    ensures Split(Flatten(WireAll(bs))) != WireAll(bs)
  {
    PenguinIsSound();
    FramedUpTo(bs, i);
    assert bs[i].Legal();
    ElevatorIsCutShort(bs[i].roomId);
    PENGUIN.FirstMisfit(WireAll(bs), i, 32);
  }

  lemma FramedUpTo(bs: seq<Built>, n: nat)
    requires forall b | b in bs :: b.Legal()
    requires n <= |bs| && forall i | 0 <= i < n :: !bs[i].Elevator?
    ensures forall m | m in WireAll(bs)[..n] :: PENGUIN.Framed(m)
    ensures n == |bs| ==> WireAll(bs)[..n] == WireAll(bs)
  {
    forall i | 0 <= i < n ensures PENGUIN.Framed(WireAll(bs)[i]) {
      BuiltIsFramed(bs[i]);
    }
  }

  ghost function FirstElevator(bs: seq<Built>, from: nat): (i: nat)
    requires from <= |bs| && forall k | 0 <= k < from :: !bs[k].Elevator?
    requires exists b :: b in bs && b.Elevator?
    ensures i < |bs| && bs[i].Elevator? && forall k | 0 <= k < i :: !bs[k].Elevator?
    decreases |bs| - from
  {
    if from < |bs| && bs[from].Elevator? then from else FirstElevator(bs, from + 1)
  }
}
