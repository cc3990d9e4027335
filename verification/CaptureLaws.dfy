/** More laws of the capture loop: what discovery teaches, which sound is kept, and when. */
module CaptureLaws {
  import opened Bytes
  import opened Protocol
  import opened Splitter
  import opened Ethernet
  import opened Identity
  import opened MediaPath
  import Fragmenter
  import Reassembly
  import opened MediaRing
  import opened AgentModel
  import opened Capture

  // --------------------------------------------------------------- discovery

  /** The door asks with 01 and the room's id in 100 bytes, the Pad answers with 02 in 35. */
  function DiscoveryRequest(roomId: Data): Result<Data, ProtocolError> {
    if |roomId| > 34 then Err(StationTooLong) else Ok([1] + roomId + Zeros(99 - |roomId|))
  }

  function DiscoveryReply(roomId: Data): Result<Data, ProtocolError> {
    if |roomId| > 34 then Err(StationTooLong) else Ok([2] + roomId + Zeros(34 - |roomId|))
  }

  lemma UpToNul(id: Data, n: nat)
    ensures FirstZero(id + Zeros(n)) == FirstZero(id)
    ensures 0 !in id <==> FirstZero(id) == |id|
  {
    var padded := id + Zeros(n);
    var k := FirstZero(id);
    assert forall i | 0 <= i < k :: padded[i] == id[i];
    assert k < |padded| ==> padded[k] == 0;
  }

  /** Each is recognised as what it is, for its own room exactly if the id has no NUL. */
  lemma DiscoveryRoundTrip(roomId: Data)
    requires |roomId| <= 34
    ensures var ask, answer := DiscoveryRequest(roomId).value, DiscoveryReply(roomId).value;
            && |ask| == 100 && |answer| == 35
            && (DiscoveryRoom(1, ask) == Some(roomId) <==> 0 !in roomId) && DiscoveryRoom(2, ask) == None
            && (DiscoveryRoom(2, answer) == Some(roomId) <==> 0 !in roomId) && DiscoveryRoom(1, answer) == None
  {
    RoomOf(1, roomId, 99 - |roomId|);
    RoomOf(2, roomId, 34 - |roomId|);
  }

  lemma RoomOf(kind: Byte, id: Data, n: nat)
    ensures DiscoveryRoom(kind, [kind] + id + Zeros(n)) == Some(id) <==> 0 !in id
    ensures forall other: Byte | other != kind :: DiscoveryRoom(other, [kind] + id + Zeros(n)) == None
  {
    var payload := [kind] + id + Zeros(n);
    assert payload[1..] == id + Zeros(n);
    UpToNul(id, n);
    assert (id + Zeros(n))[..FirstZero(id)] == id[..FirstZero(id)];
    assert FirstZero(id) == |id| ==> id[..|id|] == id;
    assert 0 in id ==> |id[..FirstZero(id)]| < |id|;
  }

  /** A request for this room teaches the door's address and MAC, an answer the Pad's: the address if
      none was known, and then, if it is the known one, the MAC if none was known. */
  lemma DiscoveryTeaches(p: Peers, u: Udp)
    requires |p.room.id| <= 34 && 0 !in p.room.id
    ensures u.flow.payload == DiscoveryRequest(p.room.id).value ==> Teaches(p, DoorSide, u, OnDiscovery(p, u))
    ensures u.flow.payload == DiscoveryReply(p.room.id).value ==> Teaches(p, PadSide, u, OnDiscovery(p, u))
  {
    DiscoveryRoundTrip(p.room.id);
    SideIsTaught(p, DoorSide, u);
    SideIsTaught(p, PadSide, u);
  }

  /** The sender's address is this side's if it agrees with what is known, and then its MAC if none is. */
  ghost predicate Teaches(p: Peers, side: Side, u: Udp, q: Peers) {
    var ip := u.flow.sourceIp;
    var known := !ip.Unspecified() && (AddressOf(p, side).Unspecified() || AddressOf(p, side) == ip);
    var other := if side.DoorSide? then PadSide else DoorSide;
    && AddressOf(q, side) == (if known then ip else AddressOf(p, side))
    && MacOf(q, side) == (if known && MacOf(p, side).None? then Some(u.sourceMac) else MacOf(p, side))
    && AddressOf(q, other) == AddressOf(p, other) && MacOf(q, other) == MacOf(p, other)
    && q.room.id == p.room.id
  }

  lemma SideIsTaught(p: Peers, side: Side, u: Udp)
    ensures Teaches(p, side, u, Discovered(p, side, u))
  {
    AddressBelievedIff(p, side, u.flow.sourceIp);
    MacAcceptedIff(LearnAddress(p, side, u.flow.sourceIp).0, side, u.sourceMac);
  }

  /** What is said about another room teaches nothing. */
  lemma OtherRoomsTeachNothing(p: Peers, u: Udp)
    requires DiscoveryRoom(1, u.flow.payload) != Some(p.room.id) && DiscoveryRoom(2, u.flow.payload) != Some(p.room.id)
    ensures OnDiscovery(p, u) == p
  {
  }

  // ------------------------------------------------------------ which sound is kept

  /** The PCM among the items. */
  function Sounds(items: seq<Item>): seq<Data> {
    if items == [] then []
    else Sounds(items[..|items| - 1]) + if items[|items| - 1].isVideo then [] else [items[|items| - 1].sample.data]
  }

  /** The sound of the household's own messages, of a frame of the door's, and of all frames. */
  function OwnSoundOf(raw: Data, e: Endpoints): seq<Data> {
    if SessionBlock(raw) == Some((OP_MEDIA, e)) && Sound(raw).Some? then [Sound(raw).value] else []
  }

  function OwnSound(raws: seq<Data>, e: Endpoints): seq<Data> {
    if raws == [] then [] else OwnSound(raws[..|raws| - 1], e) + OwnSoundOf(raws[|raws| - 1], e)
  }

  function DoorSound(frame: Data, ports: Ports, e: Endpoints, mac: Mac): seq<Data> {
    if Parse(frame).Err? then [] else
    var u := Parse(frame).value;
    if ToControl(u, ports) && FromDoor(u, e, mac) then OwnSound(Split(u.flow.payload), e) else []
  }

  function AllDoorSound(frames: seq<Data>, ports: Ports, e: Endpoints, mac: Mac): seq<Data> {
    if frames == [] then []
    else AllDoorSound(frames[..|frames| - 1], ports, e, mac) + DoorSound(frames[|frames| - 1], ports, e, mac)
  }

  /** Of all the builders' messages only an audio packet carries sound, and it is its own PCM. */
  lemma SoundOfBuilt(b: Built)
    requires b.Legal()
    ensures Sound(b.Wire()) == if b.Audio? then Some(b.pcm) else None
  {
    if b.Audio? {
      AudioRoundTrip(b.sequence, b.pcm, b.e);
    } else if b.Jpeg? {
      Fragmenter.JpegPacketParses(b.sequence, b.chunks, b.e, b.i);
    } else {
      HandedByBuilt(b);
      NoSound(b);
    }
  }

  lemma NoSound(b: Built)
    requires b.Legal() && !b.Audio? && !b.Jpeg?
    ensures Sound(b.Wire()) == None
  {
    match b
    case Page => Silent(FAMILY_PAGE, OP_REQUEST, 36, [0x00, 0x1e, 0x00, 0x00]);
    case BootstrapAsk => Silent(FAMILY_BOOTSTRAP, OP_REQUEST, 20, []);
    case BootstrapAnswer(room) => Silent(FAMILY_BOOTSTRAP, 2, 898, [1, 0] + PackStation(room).value + Zeros(840));
    case Request(e, capability) => Silent(FAMILY_SESSION, OP_REQUEST, 254, PackEndpoints(e).value + capability);
    case Reply(e) =>
      var video: Data := [0x56, 0x49, 0x44, 0x45, 0x4f, 0x41, 0, 0];
      Silent(FAMILY_SESSION, OP_REPLY, 96, PackEndpoints(e).value + (video + Le16(50) + Le16(9) + Le16(9) + Le16(255)));
    case Control(opcode, e) => Silent(FAMILY_SESSION, opcode, 80, PackEndpoints(e).value);
    case Monitor(e, capability) => Silent(FAMILY_MONITOR, OP_REQUEST, 172, PackEndpoints(e).value + capability);
    case Call(e, capability) => Silent(FAMILY_SESSION, OP_REQUEST, 256, PackEndpoints(e).value + capability);
    case Setup(e) => Silent(FAMILY_SESSION, OP_CALL_SETUP, 82, PackEndpoints(e).value + [1, 0]);
    case Elevator(roomId) =>
      Silent(FAMILY_ELEVATOR, OP_REQUEST, 32, PackStation(Station(roomId, Ipv4(0, 0, 0, 0))).value + Zeros(18));
  }

  lemma Silent(family: U16, opcode: U32, declared: U32, body: Data)
    requires opcode != OP_MEDIA
    ensures Sound(Protocol.Packet(family, opcode, declared, body)) == None
  {
    PacketParses(family, opcode, declared, body, []);
    assert Protocol.Packet(family, opcode, declared, body) + [] == Protocol.Packet(family, opcode, declared, body);
  }

  lemma SoundsOne(items: seq<Item>, x: Item)
    ensures Sounds(items + [x]) == Sounds(items) + if x.isVideo then [] else [x.sample.data]
  {
    assert (items + [x])[..|items|] == items;
  }

  lemma KeptSound(kept: seq<Item>, raw: Data, outs: seq<Option<Data>>, ptsUs: nat)
    ensures Sounds(kept + Kept(raw, outs, ptsUs)) == Sounds(kept) + if Sound(raw).Some? then [Sound(raw).value] else []
  {
    var more := Kept(raw, outs, ptsUs);
    if more == [] {
      assert kept + more == kept;
    } else {
      SoundsOne(kept, more[0]);
      assert more == [more[0]];
    }
  }

  lemma RawSound(t: Tap, u: Udp, raw: Data, m: Moment, e: Endpoints, mac: Mac)
    requires Settled(t.agent.peers, e, mac) && Safe(t.agent.peers, u, mac)
    ensures var s := OnRaw(t, u, raw, m).0;
            Sounds(s.kept) == Sounds(t.kept) + if FromDoor(u, e, mac) then OwnSoundOf(raw, e) else []
  {
    var side := Origin(t.agent.peers, u.flow.sourceIp, raw);
    if side.Some? {
      var (peers, same) := PinMac(t.agent.peers, side.value, u.sourceMac);
      var block := SessionBlock(raw).value.1;
      SeeKeeps(t.agent.peers, Sighting.Frame(side.value, u.sourceMac));
      SettledStays(t.agent.peers, peers, e, mac);
      OnlyItsOwnBlock(peers, e, mac, block);
      assert side.value.DoorSide? ==> u.flow.sourceIp == block.door.ip && (same <==> u.sourceMac == mac);
      KeptSound(t.kept, raw, Reassembly.Outs(t.open, Handed(raw)), m.ptsUs);
    }
  }

  lemma {:induction false} RawsSound(t: Tap, u: Udp, raws: seq<Data>, ms: nat -> Moment, e: Endpoints, mac: Mac)
    requires Settled(t.agent.peers, e, mac) && Safe(t.agent.peers, u, mac)
    ensures var s := OnRaws(t, u, raws, ms).0;
            Sounds(s.kept) == Sounds(t.kept) + if FromDoor(u, e, mac) then OwnSound(raws, e) else []
  {
    if raws != [] {
      var n := |raws| - 1;
      RawsSound(t, u, raws[..n], ms, e, mac);
      RawsAreTaken(t, u, raws[..n], ms, e, mac);
      RawSound(OnRaws(t, u, raws[..n], ms).0, u, raws[n], ms(n), e, mac);
      Associates(Sounds(t.kept), OwnSound(raws[..n], e), OwnSoundOf(raws[n], e));
    }
  }

  lemma FrameSound(t: Tap, ports: Ports, frame: Data, ms: nat -> Moment, e: Endpoints, mac: Mac)
    requires Settled(t.agent.peers, e, mac)
    requires Parse(frame).Ok? ==> Safe(t.agent.peers, Parse(frame).value, mac)
    ensures var s := OnFrame(t, ports, frame, ms).0;
            Sounds(s.kept) == Sounds(t.kept) + DoorSound(frame, ports, e, mac)
  {
    assert Sounds(t.kept) + [] == Sounds(t.kept);
    if Parse(frame).Ok? && ToControl(Parse(frame).value, ports) {
      RawsSound(t, Parse(frame).value, Split(Parse(frame).value.flow.payload), ms, e, mac);
    }
  }

  /** Whatever goes by, the pre-roll buffer of a settled household is given exactly the door's own
      sound, in order. */
  lemma {:induction false} DoorSoundIsKept(
    t: Tap, ports: Ports, frames: seq<Data>, ms: nat -> nat -> Moment, e: Endpoints, mac: Mac)
    requires Settled(t.agent.peers, e, mac) && SafeTraffic(t.agent.peers, frames, mac)
    ensures var s := OnFrames(t, ports, frames, ms).0;
            Sounds(s.kept) == Sounds(t.kept) + AllDoorSound(frames, ports, e, mac)
  {
    if frames != [] {
      var n := |frames| - 1;
      assert forall frame | frame in frames[..n] :: frame in frames;
      assert frames[n] in frames;
      DoorSoundIsKept(t, ports, frames[..n], ms, e, mac);
      DoorMediaIsTaken(t, ports, frames[..n], ms, e, mac);
      FrameSound(OnFrames(t, ports, frames[..n], ms).0, ports, frames[n], ms(n), e, mac);
      Associates(Sounds(t.kept), AllDoorSound(frames[..n], ports, e, mac), DoorSound(frames[n], ports, e, mac));
    }
  }

  // ------------------------------------------------------------ when it is kept

  /** The times never decrease and none is later than now. */
  ghost predicate InTime(items: seq<Item>, nowUs: nat) {
    && (forall i, j | 0 <= i < j < |items| :: items[i].sample.ptsUs <= items[j].sample.ptsUs)
    && forall i | 0 <= i < |items| :: items[i].sample.ptsUs <= nowUs
  }

  /** Each message is stamped with its own moment. */
  lemma RawIsStamped(t: Tap, u: Udp, raw: Data, m: Moment)
    ensures var s := OnRaw(t, u, raw, m).0;
            && |t.kept| <= |s.kept| && s.kept[..|t.kept|] == t.kept
            && forall i | |t.kept| <= i < |s.kept| :: s.kept[i].sample.ptsUs == m.ptsUs
  {
  }

  lemma RawInTime(t: Tap, u: Udp, raw: Data, m: Moment)
    requires InTime(t.kept, m.ptsUs)
    ensures InTime(OnRaw(t, u, raw, m).0.kept, m.ptsUs)
  {
    RawIsStamped(t, u, raw, m);
    var kept := OnRaw(t, u, raw, m).0.kept;
    assert forall i | 0 <= i < |t.kept| :: kept[i] == t.kept[i];
  }

  lemma Later(items: seq<Item>, a: nat, b: nat)
    requires InTime(items, a) && a <= b
    ensures InTime(items, b)
  {
  }

  lemma {:induction false} RawsInTime(t: Tap, u: Udp, raws: seq<Data>, ms: nat -> Moment)
    requires InTime(t.kept, ms(0).ptsUs) && forall i: nat, j: nat | i <= j :: ms(i).ptsUs <= ms(j).ptsUs
    ensures InTime(OnRaws(t, u, raws, ms).0.kept, ms(|raws|).ptsUs)
  {
    if raws != [] {
      var n := |raws| - 1;
      RawsInTime(t, u, raws[..n], ms);
      RawInTime(OnRaws(t, u, raws[..n], ms).0, u, raws[n], ms(n));
      Later(OnRaws(t, u, raws, ms).0.kept, ms(n).ptsUs, ms(n + 1).ptsUs);
    }
  }

  /** The clock that stamps messages never runs back, within a frame and from frame to frame. */
  ghost predicate ClockNeverBack(ms: nat -> nat -> Moment) {
    forall n: nat, k: nat, n': nat, k': nat | n < n' || (n == n' && k <= k') :: ms(n)(k).ptsUs <= ms(n')(k').ptsUs
  }

  lemma FrameInTime(t: Tap, ports: Ports, frame: Data, ms: nat -> Moment, next: nat)
    requires InTime(t.kept, ms(0).ptsUs)
    requires forall i: nat, j: nat | i <= j :: ms(i).ptsUs <= ms(j).ptsUs
    requires forall i: nat :: ms(i).ptsUs <= next
    ensures InTime(OnFrame(t, ports, frame, ms).0.kept, next)
  {
    Later(t.kept, ms(0).ptsUs, next);
    if Parse(frame).Ok? && ToControl(Parse(frame).value, ports) {
      var raws := Split(Parse(frame).value.flow.payload);
      RawsInTime(t, Parse(frame).value, raws, ms);
      Later(OnRaws(t, Parse(frame).value, raws, ms).0.kept, ms(|raws|).ptsUs, next);
    }
  }

  /** What is kept is stamped in order of time, as the pre-roll buffer's laws ask, whatever goes by. */
  lemma {:induction false} KeptInTime(t: Tap, ports: Ports, frames: seq<Data>, ms: nat -> nat -> Moment)
    requires ClockNeverBack(ms) && InTime(t.kept, ms(0)(0).ptsUs)
    ensures InTime(OnFrames(t, ports, frames, ms).0.kept, ms(|frames|)(0).ptsUs)
  {
    if frames != [] {
      var n := |frames| - 1;
      KeptInTime(t, ports, frames[..n], ms);
      FrameInTime(OnFrames(t, ports, frames[..n], ms).0, ports, frames[n], ms(n), ms(n + 1)(0).ptsUs);
    }
  }
}
