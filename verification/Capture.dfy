/** The capture loop (src/wire_tap.rs:69-129) and the media arm of on_wire (src/agent.rs:672-687):
    from Ethernet frames between door and Pad to turns of the agent and pushes to the reassembler,
    with no monitor and no outbound call active. */
module Capture {
  import opened Bytes
  import opened Protocol
  import opened Fragmenter
  import opened Splitter
  import opened Ethernet
  import opened Identity
  import opened Reassembler
  import opened Reassembly
  import opened MediaPath
  import opened MediaRing
  import opened AgentModel
  import opened AgentRuns
  import opened AgentLog
  import opened AgentSafety
  import opened Interleaving
  import CallMachine

  datatype Ports = Ports(control: U16, discovery: U16)

  /** What the outside world adds to one message: how its side effects fare, and the time. */
  datatype Moment = Moment(outcome: Outcome, ptsUs: nat)

  /** The agent, the video frames it has not received in full yet, and everything it has ever put
      into its pre-roll buffer. */
  datatype Tap = Tap(agent: Agent, open: seq<Entry>, kept: seq<Item>)

  /** The room that a discovery request or reply, by its first byte, is about. */
  function DiscoveryRoom(kind: Byte, payload: Data): Option<Data> {
    if payload == [] || payload[0] != kind then None
    else
      var text := payload[1..];
      Some(text[..FirstZero(text)])
  }

  /** Which station a session message comes from, going by its block and its IP source. */
  function Origin(p: Peers, source: Ipv4, raw: Data): Option<Side> {
    var session := SessionBlock(raw);
    if session.None? || session.value.1.room.id != p.room.id then None
    else if source == session.value.1.room.ip then Some(PadSide)
    else if source == session.value.1.door.ip then Some(DoorSide)
    else None
  }

  /** The media of an attributed message are taken in: the door's, in a block that is accepted. */
  predicate Takes(p: Peers, side: Side, opcode: U32, e: Endpoints) {
    opcode == OP_MEDIA && side.DoorSide? && AcceptEndpoints(p, e).1
  }

  /** The sound of a message, if that is what it carries. */
  function Sound(raw: Data): Option<Data> {
    var message := ParseMessage(raw);
    if message.Err? then None else
    var media := MessageMedia(message.value);
    if media.Some? && media.value.mediaType == MEDIA_AUDIO then Some(media.value.data) else None
  }

  /** What one message puts into the pre-roll buffer: its sound, or the frames it completes. */
  function Kept(raw: Data, outs: seq<Option<Data>>, ptsUs: nat): seq<Item> { KeptOf(Sound(raw), outs, ptsUs) }

  function KeptOf(sound: Option<Data>, outs: seq<Option<Data>>, ptsUs: nat): seq<Item> {
    if sound.Some? then [Item(false, Sample(ptsUs, sound.value))]
    else if |outs| == 1 && outs[0].Some? then [Item(true, Sample(ptsUs, outs[0].value))]
    else []
  }

  /** The media arm: fragments to the reassembler, sound and whole frames into the buffer. */
  function OnMedia(t: Tap, raw: Data, ptsUs: nat): (Tap, seq<Option<Data>>) {
    var outs := Outs(t.open, Handed(raw));
    (Tap(t.agent, Reassembly.After(t.open, Handed(raw)), t.kept + Kept(raw, outs, ptsUs)), outs)
  }

  function OnSession(t: Tap, side: Side, opcode: U32, e: Endpoints, raw: Data, m: Moment): (Tap, seq<Option<Data>>) {
    var s := t.(agent := OnWire(t.agent, side, opcode, e, m.outcome));
    if Takes(t.agent.peers, side, opcode, e) then OnMedia(s, raw, m.ptsUs) else (s, [])
  }

  /** One message from one side, and what its pushes to the reassembler returned. */
  function OnMessage(t: Tap, side: Side, raw: Data, m: Moment): (Tap, seq<Option<Data>>) {
    var session := SessionBlock(raw);
    if session.None? then (t, []) else OnSession(t, side, session.value.0, session.value.1, raw, m)
  }

  /** One message of a datagram: attributed, its MAC pinned or checked, then taken in. */
  function OnRaw(t: Tap, u: Udp, raw: Data, m: Moment): (Tap, seq<Option<Data>>) {
    var side := Origin(t.agent.peers, u.flow.sourceIp, raw);
    if side.None? then (t, [])
    else
      var (peers, same) := PinMac(t.agent.peers, side.value, u.sourceMac);
      var s := t.(agent := t.agent.(peers := peers));
      if same then OnMessage(s, side.value, raw, m) else (s, [])
  }

  function OnRaws(t: Tap, u: Udp, raws: seq<Data>, ms: nat -> Moment): (Tap, seq<Option<Data>>) {
    if raws == [] then (t, [])
    else
      var n := |raws| - 1;
      var (s, outs) := OnRaws(t, u, raws[..n], ms);
      var (r, more) := OnRaw(s, u, raws[n], ms(n));
      (r, outs + more)
  }

  lemma RawsNext(t: Tap, u: Udp, raws: seq<Data>, i: nat, ms: nat -> Moment)
    requires i < |raws|
    ensures var (s, outs) := OnRaws(t, u, raws[..i], ms);
            var (r, more) := OnRaw(s, u, raws[i], ms(i));
            OnRaws(t, u, raws[..i + 1], ms) == (r, outs + more)
  {
    assert raws[..i + 1][..i] == raws[..i];
  }

  /** A station's address, and with it its MAC, from the discovery exchange. */
  function Discovered(p: Peers, side: Side, u: Udp): Peers {
    var (q, known) := LearnAddress(p, side, u.flow.sourceIp);
    if known then PinMac(q, side, u.sourceMac).0 else q
  }

  function OnDiscovery(p: Peers, u: Udp): Peers {
    if DiscoveryRoom(1, u.flow.payload) == Some(p.room.id) then Discovered(p, DoorSide, u)
    else if DiscoveryRoom(2, u.flow.payload) == Some(p.room.id) then Discovered(p, PadSide, u)
    else p
  }

  function OnFrame(t: Tap, ports: Ports, frame: Data, ms: nat -> Moment): (Tap, seq<Option<Data>>) {
    var parsed := Parse(frame);
    if parsed.Err? then (t, []) else
    var u := parsed.value;
    if u.flow.destinationPort == ports.discovery || u.flow.sourcePort == ports.discovery then
      (t.(agent := t.agent.(peers := OnDiscovery(t.agent.peers, u))), [])
    else if u.flow.sourcePort != ports.control && u.flow.destinationPort != ports.control then (t, [])
    else OnRaws(t, u, Split(u.flow.payload), ms)
  }

  function OnFrames(t: Tap, ports: Ports, frames: seq<Data>, ms: nat -> nat -> Moment): (Tap, seq<Option<Data>>) {
    if frames == [] then (t, [])
    else
      var n := |frames| - 1;
      var (s, outs) := OnFrames(t, ports, frames[..n], ms);
      var (r, more) := OnFrame(s, ports, frames[n], ms(n));
      (r, outs + more)
  }

  // ---------------------------------------------- captured traffic is a run

  ghost predicate NoCommands(turns: seq<Turn>) {
    forall i | 0 <= i < |turns| :: !turns[i].input.Command?
  }

  lemma {:induction false} RunsJoin(s: Agent, a: seq<Turn>, b: seq<Turn>)
    ensures RunTurns(s, a + b) == RunTurns(RunTurns(s, a), b)
  {
    if b == [] {
      assert a + b == a;
    } else {
      var n := |b| - 1;
      RunsJoin(s, a, b[..n]);
      assert (a + b)[..|a + b| - 1] == a + b[..n];
    }
  }

  lemma RawIsARun(t: Tap, u: Udp, raw: Data, m: Moment) returns (turns: seq<Turn>)
    ensures OnRaw(t, u, raw, m).0.agent == RunTurns(t.agent, turns) && NoCommands(turns)
  {
    var side := Origin(t.agent.peers, u.flow.sourceIp, raw);
    if side.None? {
      turns := [];
    } else {
      var seen := Turn(Seen(Sighting.Frame(side.value, u.sourceMac)), m.outcome);
      var (opcode, e) := SessionBlock(raw).value;
      var said := Turn(FromWire(side.value, opcode, e), m.outcome);
      TwoTurns(t.agent, seen, said);
      turns := if PinMac(t.agent.peers, side.value, u.sourceMac).1 then [seen, said] else [seen];
    }
  }

  lemma {:induction false} RawsAreARun(t: Tap, u: Udp, raws: seq<Data>, ms: nat -> Moment) returns (turns: seq<Turn>)
    ensures OnRaws(t, u, raws, ms).0.agent == RunTurns(t.agent, turns) && NoCommands(turns)
  {
    if raws == [] {
      turns := [];
    } else {
      var n := |raws| - 1;
      var first := RawsAreARun(t, u, raws[..n], ms);
      var more := RawIsARun(OnRaws(t, u, raws[..n], ms).0, u, raws[n], ms(n));
      RunsJoin(t.agent, first, more);
      turns := first + more;
    }
  }

  lemma DiscoveryIsARun(s: Agent, u: Udp, m: Moment) returns (turns: seq<Turn>)
    ensures s.(peers := OnDiscovery(s.peers, u)) == RunTurns(s, turns) && NoCommands(turns)
  {
    if OnDiscovery(s.peers, u) == s.peers {
      turns := [];
    } else {
      var side := if DiscoveryRoom(1, u.flow.payload) == Some(s.peers.room.id) then DoorSide else PadSide;
      var address := Turn(Seen(Address(side, u.flow.sourceIp)), m.outcome);
      var mac := Turn(Seen(Sighting.Frame(side, u.sourceMac)), m.outcome);
      TwoTurns(s, address, mac);
      turns := if LearnAddress(s.peers, side, u.flow.sourceIp).1 then [address, mac] else [address];
    }
  }

  /** Whatever frames go by, malformed, foreign or forged, the agent has made turns of its model, none
      of them a command: every law about runs is a law about captured traffic. */
  lemma {:induction false} FramesAreARun(t: Tap, ports: Ports, frames: seq<Data>, ms: nat -> nat -> Moment)
    returns (turns: seq<Turn>)
    ensures OnFrames(t, ports, frames, ms).0.agent == RunTurns(t.agent, turns) && NoCommands(turns)
  {
    if frames == [] {
      turns := [];
    } else {
      var n := |frames| - 1;
      var first := FramesAreARun(t, ports, frames[..n], ms);
      var s := OnFrames(t, ports, frames[..n], ms).0;
      var more := FrameIsARun(s, ports, frames[n], ms(n));
      RunsJoin(t.agent, first, more);
      turns := first + more;
    }
  }

  lemma FrameIsARun(t: Tap, ports: Ports, frame: Data, ms: nat -> Moment) returns (turns: seq<Turn>)
    ensures OnFrame(t, ports, frame, ms).0.agent == RunTurns(t.agent, turns) && NoCommands(turns)
  {
    turns := [];
    if Parse(frame).Ok? {
      var u := Parse(frame).value;
      if u.flow.destinationPort == ports.discovery || u.flow.sourcePort == ports.discovery {
        turns := DiscoveryIsARun(t.agent, u, ms(0));
      } else if u.flow.sourcePort == ports.control || u.flow.destinationPort == ports.control {
        turns := RawsAreARun(t, u, Split(u.flow.payload), ms);
      }
    }
  }

  lemma {:induction false} NothingUnannounced(s: Agent, turns: seq<Turn>)
    requires NoCommands(turns)
    ensures Never(s, turns, Unannounced)
  {
    if turns != [] {
      NothingUnannounced(s, turns[..|turns| - 1]);
    }
  }

  /** No captured traffic can make the log and the call differ. */
  lemma CapturedTrafficIsTracked(t: Tap, ports: Ports, frames: seq<Data>, ms: nat -> nat -> Moment)
    requires Tracks(t.agent)
    ensures Tracks(OnFrames(t, ports, frames, ms).0.agent)
  {
    var turns := FramesAreARun(t, ports, frames, ms);
    NothingUnannounced(t.agent, turns);
    LogDeterminesTheCall(t.agent, turns);
  }

  // ------------------------------------------------------------ what is kept

  /** The video frames among the items, and among what the reassembler returned. */
  function Pictures(items: seq<Item>): seq<Data> {
    if items == [] then []
    else Pictures(items[..|items| - 1]) + if items[|items| - 1].isVideo then [items[|items| - 1].sample.data] else []
  }

  function Shown(outs: seq<Option<Data>>): seq<Data> {
    if outs == [] then []
    else Shown(outs[..|outs| - 1]) + if outs[|outs| - 1].Some? then [outs[|outs| - 1].value] else []
  }

  lemma {:induction false} PicturesJoin(a: seq<Item>, b: seq<Item>)
    ensures Pictures(a + b) == Pictures(a) + Pictures(b)
  {
    if b == [] {
      assert a + b == a;
    } else {
      PicturesJoin(a, b[..|b| - 1]);
      assert (a + b)[..|a + b| - 1] == a + b[..|b| - 1];
    }
  }

  lemma {:induction false} ShownJoin(a: seq<Option<Data>>, b: seq<Option<Data>>)
    ensures Shown(a + b) == Shown(a) + Shown(b)
  {
    if b == [] {
      assert a + b == a;
    } else {
      ShownJoin(a, b[..|b| - 1]);
      assert (a + b)[..|a + b| - 1] == a + b[..|b| - 1];
    }
  }

  /** A message carries sound or a fragment, not both. */
  lemma KeptIsShown(raw: Data, s: seq<Entry>, ptsUs: nat)
    ensures var outs := Outs(s, Handed(raw)); Pictures(Kept(raw, outs, ptsUs)) == Shown(outs)
  {
    var outs := Outs(s, Handed(raw));
    assert Sound(raw).Some? ==> Handed(raw) == [];
    assert outs != [] ==> outs[..0] == [];
    var items := Kept(raw, outs, ptsUs);
    assert items != [] ==> items[..0] == [];
  }

  lemma RawKeeps(t: Tap, u: Udp, raw: Data, m: Moment)
    ensures var (s, outs) := OnRaw(t, u, raw, m); Pictures(s.kept) == Pictures(t.kept) + Shown(outs)
  {
    var (s, outs) := OnRaw(t, u, raw, m);
    if s.kept == t.kept && outs == [] {
      KeepsNothing(t.kept);
    } else {
      KeptIsShown(raw, t.open, m.ptsUs);
      PicturesJoin(t.kept, Kept(raw, outs, m.ptsUs));
    }
  }

  lemma {:induction false} RawsKeep(t: Tap, u: Udp, raws: seq<Data>, ms: nat -> Moment)
    ensures var (s, outs) := OnRaws(t, u, raws, ms); Pictures(s.kept) == Pictures(t.kept) + Shown(outs)
  {
    if raws != [] {
      var n := |raws| - 1;
      RawsKeep(t, u, raws[..n], ms);
      var (s, outs) := OnRaws(t, u, raws[..n], ms);
      var (r, more) := OnRaw(s, u, raws[n], ms(n));
      RawKeeps(s, u, raws[n], ms(n));
      KeepsJoin(t.kept, s.kept, r.kept, outs, more);
    } else {
      KeepsNothing(t.kept);
    }
  }

  lemma KeepsJoin(a: seq<Item>, b: seq<Item>, c: seq<Item>, outs: seq<Option<Data>>, more: seq<Option<Data>>)
    requires Pictures(b) == Pictures(a) + Shown(outs) && Pictures(c) == Pictures(b) + Shown(more)
    ensures Pictures(c) == Pictures(a) + Shown(outs + more)
  {
    ShownJoin(outs, more);
    Associates(Pictures(a), Shown(outs), Shown(more));
  }

  lemma KeepsNothing(a: seq<Item>)
    ensures Pictures(a) == Pictures(a) + Shown([])
  {
    assert Pictures(a) + [] == Pictures(a);
  }

  lemma FrameKeeps(t: Tap, ports: Ports, frame: Data, ms: nat -> Moment)
    ensures var (s, outs) := OnFrame(t, ports, frame, ms); Pictures(s.kept) == Pictures(t.kept) + Shown(outs)
  {
    var (s, outs) := OnFrame(t, ports, frame, ms);
    if s.kept == t.kept && outs == [] {
      KeepsNothing(t.kept);
    } else {
      RawsKeep(t, Parse(frame).value, Split(Parse(frame).value.flow.payload), ms);
    }
  }

  /** The pre-roll buffer is given exactly the frames that the reassembler returns, in order. */
  lemma {:induction false} EveryPictureIsKept(t: Tap, ports: Ports, frames: seq<Data>, ms: nat -> nat -> Moment)
    ensures var (s, outs) := OnFrames(t, ports, frames, ms); Pictures(s.kept) == Pictures(t.kept) + Shown(outs)
  {
    if frames != [] {
      var n := |frames| - 1;
      EveryPictureIsKept(t, ports, frames[..n], ms);
      var (s, outs) := OnFrames(t, ports, frames[..n], ms);
      var (r, more) := OnFrame(s, ports, frames[n], ms(n));
      FrameKeeps(s, ports, frames[n], ms(n));
      KeepsJoin(t.kept, s.kept, r.kept, outs, more);
    } else {
      KeepsNothing(t.kept);
    }
  }

  // --------------------------------------------------- video through the tap

  /** Both stations are known in full, under different addresses and with ids a block can carry,
      and the door's MAC, if known, is this one. */
  ghost predicate Settled(p: Peers, e: Endpoints, mac: Mac) {
    && p.Block() == Some(e) && FullySpecified(e) && e.Packable() && e.NulFree()
    && e.room.ip != e.door.ip && (p.doorMac.Some? ==> p.doorMac.value == mac)
  }

  /** A household known in full stays as it is. */
  lemma SettledStays(p: Peers, q: Peers, e: Endpoints, mac: Mac)
    requires Settled(p, e, mac) && Keeps(p, q) && (q.doorMac == p.doorMac || q.doorMac == Some(mac))
    ensures Settled(q, e, mac) && (p.doorMac.Some? ==> q.doorMac.Some?)
  {
  }

  /** Then a block is accepted exactly when it is the household's own. */
  lemma OnlyItsOwnBlock(p: Peers, e: Endpoints, mac: Mac, block: Endpoints)
    requires Settled(p, e, mac)
    ensures AcceptEndpoints(p, block).1 <==> block == e
  {
    AcceptedIffAgrees(p, block);
  }

  /** While the door's MAC is still unknown, the traffic has to come from it. */
  ghost predicate Safe(p: Peers, u: Udp, mac: Mac) {
    p.doorMac.Some? || u.sourceMac == mac
  }

  /** The fragments of the household's own media messages. */
  function OwnMedia(raws: seq<Data>, e: Endpoints): seq<MediaFragment> {
    if raws == [] then []
    else OwnMedia(raws[..|raws| - 1], e) + OwnMediaOf(raws[|raws| - 1], e)
  }

  function OwnMediaOf(raw: Data, e: Endpoints): seq<MediaFragment> {
    if SessionBlock(raw).Some? && SessionBlock(raw).value.1 == e then Handed(raw) else []
  }

  predicate FromDoor(u: Udp, e: Endpoints, mac: Mac) { u.sourceMac == mac && u.flow.sourceIp == e.door.ip }

  predicate ToControl(u: Udp, ports: Ports) {
    && u.flow.destinationPort != ports.discovery && u.flow.sourcePort != ports.discovery
    && (u.flow.sourcePort == ports.control || u.flow.destinationPort == ports.control)
  }

  /** The fragments that any one frame brings: those of the household's own media messages, sent from
      the door's MAC and address to the control port. */
  function DoorMedia(frame: Data, ports: Ports, e: Endpoints, mac: Mac): seq<MediaFragment> {
    if Parse(frame).Err? then [] else
    var u := Parse(frame).value;
    if ToControl(u, ports) && FromDoor(u, e, mac) then OwnMedia(Split(u.flow.payload), e) else []
  }

  function AllDoorMedia(frames: seq<Data>, ports: Ports, e: Endpoints, mac: Mac): seq<MediaFragment> {
    if frames == [] then []
    else AllDoorMedia(frames[..|frames| - 1], ports, e, mac) + DoorMedia(frames[|frames| - 1], ports, e, mac)
  }

  lemma RawKeepsSettled(t: Tap, u: Udp, raw: Data, m: Moment, e: Endpoints, mac: Mac)
    requires Settled(t.agent.peers, e, mac) && Safe(t.agent.peers, u, mac)
    ensures var q := OnRaw(t, u, raw, m).0.agent.peers; Settled(q, e, mac) && Safe(q, u, mac)
  {
    var side := Origin(t.agent.peers, u.flow.sourceIp, raw);
    if side.Some? {
      SeeKeeps(t.agent.peers, Sighting.Frame(side.value, u.sourceMac));
      var (peers, same) := PinMac(t.agent.peers, side.value, u.sourceMac);
      SettledStays(t.agent.peers, peers, e, mac);
      var (opcode, block) := SessionBlock(raw).value;
      SeeKeeps(peers, Session(block));
      SettledStays(peers, AcceptEndpoints(peers, block).0, e, mac);
      WirePeers(t.agent.(peers := peers), side.value, opcode, block, m.outcome);
    }
  }

  lemma WirePeers(s: Agent, side: Side, opcode: U32, block: Endpoints, o: Outcome)
    ensures OnWire(s, side, opcode, block, o).peers == AcceptEndpoints(s.peers, block).0
  {
  }

  /** Attribution, the MAC check and the identity check let pass exactly the door's own media. */
  lemma RawIsTaken(t: Tap, u: Udp, raw: Data, m: Moment, e: Endpoints, mac: Mac)
    requires Settled(t.agent.peers, e, mac) && Safe(t.agent.peers, u, mac)
    ensures var (s, outs) := OnRaw(t, u, raw, m);
            var fs := if FromDoor(u, e, mac) then OwnMediaOf(raw, e) else [];
            s.open == Reassembly.After(t.open, fs) && outs == Outs(t.open, fs)
  {
    var side := Origin(t.agent.peers, u.flow.sourceIp, raw);
    if side.Some? {
      var (peers, same) := PinMac(t.agent.peers, side.value, u.sourceMac);
      var block := SessionBlock(raw).value.1;
      SeeKeeps(t.agent.peers, Sighting.Frame(side.value, u.sourceMac));
      SettledStays(t.agent.peers, peers, e, mac);
      OnlyItsOwnBlock(peers, e, mac, block);
      assert SessionBlock(raw).value.0 != OP_MEDIA ==> Handed(raw) == [];
      assert side.value.DoorSide? ==> u.flow.sourceIp == block.door.ip && (same <==> u.sourceMac == mac);
    }
  }

  lemma {:induction false} RawsAreTaken(t: Tap, u: Udp, raws: seq<Data>, ms: nat -> Moment, e: Endpoints, mac: Mac)
    requires Settled(t.agent.peers, e, mac) && Safe(t.agent.peers, u, mac)
    ensures var (s, outs) := OnRaws(t, u, raws, ms);
            var fs := if FromDoor(u, e, mac) then OwnMedia(raws, e) else [];
            && Settled(s.agent.peers, e, mac) && Safe(s.agent.peers, u, mac)
            && s.open == Reassembly.After(t.open, fs) && outs == Outs(t.open, fs)
  {
    if raws != [] {
      var n := |raws| - 1;
      RawsAreTaken(t, u, raws[..n], ms, e, mac);
      var s := OnRaws(t, u, raws[..n], ms).0;
      RawKeepsSettled(s, u, raws[n], ms(n), e, mac);
      RawIsTaken(s, u, raws[n], ms(n), e, mac);
      var before := if FromDoor(u, e, mac) then OwnMedia(raws[..n], e) else [];
      var now := if FromDoor(u, e, mac) then OwnMediaOf(raws[n], e) else [];
      RunsCompose(t.open, before, now);
    }
  }

  lemma DiscoveryKeepsSettled(p: Peers, u: Udp, e: Endpoints, mac: Mac)
    requires Settled(p, e, mac) && Safe(p, u, mac)
    ensures Settled(OnDiscovery(p, u), e, mac) && (p.doorMac.Some? ==> OnDiscovery(p, u).doorMac.Some?)
  {
  }

  lemma FrameIsTaken(t: Tap, ports: Ports, frame: Data, ms: nat -> Moment, e: Endpoints, mac: Mac)
    requires Settled(t.agent.peers, e, mac)
    requires Parse(frame).Ok? ==> Safe(t.agent.peers, Parse(frame).value, mac)
    ensures var (s, outs) := OnFrame(t, ports, frame, ms);
            var fs := DoorMedia(frame, ports, e, mac);
            && Settled(s.agent.peers, e, mac) && (t.agent.peers.doorMac.Some? ==> s.agent.peers.doorMac.Some?)
            && s.open == Reassembly.After(t.open, fs) && outs == Outs(t.open, fs)
  {
    if Parse(frame).Ok? {
      var u := Parse(frame).value;
      if ToControl(u, ports) {
        RawsAreTaken(t, u, Split(u.flow.payload), ms, e, mac);
        if t.agent.peers.doorMac.Some? {
          RawsKeepTheMac(t, u, Split(u.flow.payload), ms);
        }
      } else {
        DiscoveryKeepsSettled(t.agent.peers, u, e, mac);
      }
    }
  }

  lemma {:induction false} RawsKeepTheMac(t: Tap, u: Udp, raws: seq<Data>, ms: nat -> Moment)
    requires t.agent.peers.doorMac.Some?
    ensures OnRaws(t, u, raws, ms).0.agent.peers.doorMac == t.agent.peers.doorMac
  {
    if raws != [] {
      var n := |raws| - 1;
      RawsKeepTheMac(t, u, raws[..n], ms);
      var turns := RawIsARun(OnRaws(t, u, raws[..n], ms).0, u, raws[n], ms(n));
      RunKeepsPeers(OnRaws(t, u, raws[..n], ms).0.agent, turns);
    }
  }

  /** Until the door's MAC is known every frame comes from it; afterwards anything may go by. */
  ghost predicate SafeTraffic(p: Peers, frames: seq<Data>, mac: Mac) {
    p.doorMac.Some? || forall frame | frame in frames && Parse(frame).Ok? :: Parse(frame).value.sourceMac == mac
  }

  /** Whatever goes by, of the Pad, of the door, of other hosts, malformed or forged, the reassembler of
      a settled household is handed exactly the door's own media, in order. */
  lemma {:induction false} DoorMediaIsTaken(
    t: Tap, ports: Ports, frames: seq<Data>, ms: nat -> nat -> Moment, e: Endpoints, mac: Mac)
    requires Settled(t.agent.peers, e, mac) && SafeTraffic(t.agent.peers, frames, mac)
    ensures var (s, outs) := OnFrames(t, ports, frames, ms);
            var fs := AllDoorMedia(frames, ports, e, mac);
            && Settled(s.agent.peers, e, mac) && (t.agent.peers.doorMac.Some? ==> s.agent.peers.doorMac.Some?)
            && s.open == Reassembly.After(t.open, fs) && outs == Outs(t.open, fs)
  {
    if frames != [] {
      var n := |frames| - 1;
      assert forall frame | frame in frames[..n] :: frame in frames;
      assert frames[n] in frames;
      DoorMediaIsTaken(t, ports, frames[..n], ms, e, mac);
      FrameIsTaken(OnFrames(t, ports, frames[..n], ms).0, ports, frames[n], ms(n), e, mac);
      RunsCompose(t.open, AllDoorMedia(frames[..n], ports, e, mac), DoorMedia(frames[n], ports, e, mac));
    }
  }

  // ------------------------------------------------ what the door's frames bring

  /** Any built messages, the JPEG packets among them under the household's own block. */
  ghost predicate Ours(g: seq<Built>, e: Endpoints) {
    Splittable(g) && forall b | b in g && b.Jpeg? :: b.e == e
  }

  /** One datagram of the door's: such messages, to the control port. */
  ghost predicate Brings(frame: Data, ports: Ports, g: seq<Built>, e: Endpoints, mac: Mac) {
    && Ours(g, e) && Parse(frame).Ok?
    && var u := Parse(frame).value;
       ToControl(u, ports) && FromDoor(u, e, mac) && u.flow.payload == Flatten(WireAll(g))
  }

  /** Anything else: not from the door's address and MAC, or not to the control port. */
  ghost predicate Foreign(frame: Data, ports: Ports, e: Endpoints, mac: Mac) {
    Parse(frame).Ok? ==> var u := Parse(frame).value; !ToControl(u, ports) || !FromDoor(u, e, mac)
  }

  /** Each frame of the traffic brings its group of messages, or is foreign and has none. */
  ghost predicate Traffic(frames: seq<Data>, ports: Ports, groups: seq<seq<Built>>, e: Endpoints, mac: Mac) {
    && |frames| == |groups|
    && (frames != [] ==>
          var n := |frames| - 1;
          && Traffic(frames[..n], ports, groups[..n], e, mac)
          && (Brings(frames[n], ports, groups[n], e, mac) || (groups[n] == [] && Foreign(frames[n], ports, e, mac))))
  }

  lemma JpegBlock(sequence: U16, chunks: seq<Data>, e: Endpoints, i: nat)
    requires e.Packable() && e.NulFree() && Slotted(chunks) && i < |chunks|
    ensures SessionBlock(JpegPacket(sequence, chunks, e, i)) == Some((OP_MEDIA, e))
  {
    var block := PackEndpoints(e).value;
    var body := MediaBody(block, Fragment(sequence, chunks, i), SLOT);
    PacketParses(FAMILY_SESSION, OP_MEDIA, 1290, body, []);
    var p := JpegPacket(sequence, chunks, e, i);
    assert p + [] == p && body + [] == body;
    EndpointsRoundTrip(e);
    assert body[..48] == block;
  }

  lemma BuiltIsOwn(b: Built, e: Endpoints)
    requires b.Legal() && e.Packable() && e.NulFree() && (b.Jpeg? ==> b.e == e)
    ensures OwnMediaOf(b.Wire(), e) == Handed(b.Wire())
  {
    HandedByBuilt(b);
    if b.Jpeg? {
      JpegBlock(b.sequence, b.chunks, e, b.i);
    }
  }

  lemma {:induction false} GroupIsOwn(g: seq<Built>, e: Endpoints)
    requires Ours(g, e) && e.Packable() && e.NulFree()
    ensures OwnMedia(WireAll(g), e) == Carried(g)
  {
    if g != [] {
      var n := |g| - 1;
      var init, b := g[..n], g[n];
      assert g == init + [b];
      OursSplit(init, b, e);
      GroupIsOwn(init, e);
      BuiltIsOwn(b, e);
      CarriedOne(init, b);
    }
  }

  lemma OursSplit(init: seq<Built>, b: Built, e: Endpoints)
    requires Ours(init + [b], e)
    ensures Ours(init, e) && Ours([b], e) && b.Legal() && !b.Elevator? && (b.Jpeg? ==> b.e == e)
    ensures WireAll(init + [b])[..|init|] == WireAll(init) && WireAll(init + [b])[|init|] == b.Wire()
  {
    assert forall x | x in init :: x in init + [b];
    assert b in init + [b];
    assert forall i | 0 <= i < |init| :: (init + [b])[i] == init[i];
    assert (init + [b])[|init|] == b;
  }

  lemma CarriedOne(init: seq<Built>, b: Built)
    requires Splittable(init) && b.Legal() && !b.Elevator?
    ensures Splittable(init + [b])
    ensures Carried(init + [b]) == Carried(init) + Handed(b.Wire())
  {
    HandedByBuilt(b);
    CarriedAppend(init, [b]);
    assert [b][1..] == [];
  }

  lemma OneGroupMore(init: seq<seq<Built>>, g: seq<Built>)
    requires Splittable(Flatten(init)) && Splittable(g)
    ensures Splittable(Flatten(init + [g])) && Carried(Flatten(init + [g])) == Carried(Flatten(init)) + Carried(g)
  {
    FlattenSnoc(init, g);
    CarriedAppend(Flatten(init), g);
  }

  /** A group is what its frame brings. */
  lemma FrameBrings(frame: Data, ports: Ports, g: seq<Built>, e: Endpoints, mac: Mac)
    requires e.Packable() && e.NulFree()
    requires Brings(frame, ports, g, e, mac) || (g == [] && Foreign(frame, ports, e, mac))
    ensures Splittable(g) && DoorMedia(frame, ports, e, mac) == Carried(g)
  {
    if Brings(frame, ports, g, e, mac) {
      BuiltMessagesSplit(g);
      GroupIsOwn(g, e);
    }
  }

  lemma {:induction false} TrafficBrings(frames: seq<Data>, ports: Ports, groups: seq<seq<Built>>, e: Endpoints, mac: Mac)
    requires e.Packable() && e.NulFree() && Traffic(frames, ports, groups, e, mac)
    ensures Splittable(Flatten(groups)) && AllDoorMedia(frames, ports, e, mac) == Carried(Flatten(groups))
  {
    if frames != [] {
      var n := |frames| - 1;
      var init, g := groups[..n], groups[n];
      assert groups == init + [g];
      TrafficBrings(frames[..n], ports, init, e, mac);
      FrameBrings(frames[n], ports, g, e, mac);
      OneGroupMore(init, g);
    }
  }

  /** The whole way, from Ethernet frames to a video frame: the packets of a JPEG frame may come in
      any order, repeated, among other messages and other hosts' traffic, grouped into datagrams at
      will and behind any VLAN tags, options and padding; the frame comes out unchanged at its last
      missing slot, and is kept. */
  lemma FrameSurvivesTheTap(
    t: Tap, ports: Ports, frames: seq<Data>, groups: seq<seq<Built>>, ms: nat -> nat -> Moment, e: Endpoints, mac: Mac,
    q: U16, jpeg: Data, before: seq<nat>, last: nat)
    requires Settled(t.agent.peers, e, mac) && SafeTraffic(t.agent.peers, frames, mac)
    requires Traffic(frames, ports, groups, e, mac)
    requires Healthy(t.open) && Fresh(t.open, q, |Chunks(jpeg)|, last)
    requires Fragmentable(jpeg) && Delimited(jpeg)
    requires var n := |Chunks(jpeg)|;
             && InRange(before, n) && last < n && last !in before
             && (forall i: nat | i < n :: i in before + [last])
             && InRange(before + [last], n)
    requires Splittable(Flatten(groups)) && Carried(Flatten(groups)) == Arrivals(q, Chunks(jpeg), before + [last])
    ensures var (s, outs) := OnFrames(t, ports, frames, ms);
            && outs == seq(|before|, _ => None) + [Some(jpeg)]
            && Pictures(s.kept) == Pictures(t.kept) + [jpeg]
  {
    TrafficIsTaken(t, ports, frames, groups, ms, e, mac);
    FrameComesOut(t.open, q, jpeg, before, last);
    EveryPictureIsKept(t, ports, frames, ms);
  }

  lemma FrameComesOut(s: seq<Entry>, q: U16, jpeg: Data, before: seq<nat>, last: nat)
    requires Healthy(s) && Fresh(s, q, |Chunks(jpeg)|, last) && Fragmentable(jpeg) && Delimited(jpeg)
    requires var n := |Chunks(jpeg)|;
             && InRange(before, n) && last < n && last !in before
             && (forall i: nat | i < n :: i in before + [last])
             && InRange(before + [last], n)
    ensures var outs := Outs(s, Arrivals(q, Chunks(jpeg), before + [last]));
            outs == seq(|before|, _ => None) + [Some(jpeg)] && Shown(outs) == [jpeg]
  {
    ChunksJoin(jpeg);
    AnyArrivalOrder(s, q, Chunks(jpeg), before, last);
    OneShown(seq(|before|, _ => None), jpeg);
  }

  /** The reassembler is handed what the groups carry. */
  lemma TrafficIsTaken(
    t: Tap, ports: Ports, frames: seq<Data>, groups: seq<seq<Built>>, ms: nat -> nat -> Moment, e: Endpoints, mac: Mac)
    requires Settled(t.agent.peers, e, mac) && SafeTraffic(t.agent.peers, frames, mac)
    requires Traffic(frames, ports, groups, e, mac)
    ensures Splittable(Flatten(groups))
    ensures OnFrames(t, ports, frames, ms).1 == Outs(t.open, Carried(Flatten(groups)))
  {
    DoorMediaIsTaken(t, ports, frames, ms, e, mac);
    TrafficBrings(frames, ports, groups, e, mac);
  }

  lemma OneShown(outs: seq<Option<Data>>, jpeg: Data)
    requires forall i | 0 <= i < |outs| :: outs[i].None?
    ensures Shown(outs + [Some(jpeg)]) == [jpeg]
  {
    NothingShown(outs);
    assert (outs + [Some(jpeg)])[..|outs|] == outs;
  }

  lemma {:induction false} NothingShown(outs: seq<Option<Data>>)
    requires forall i | 0 <= i < |outs| :: outs[i].None?
    ensures Shown(outs) == []
  {
    if outs != [] {
      NothingShown(outs[..|outs| - 1]);
    }
  }

  /** What the pushes under one number returned. */
  function Picked(fs: seq<MediaFragment>, outs: seq<Option<Data>>, q: U16): seq<Option<Data>>
    requires |fs| == |outs|
  {
    if fs == [] then []
    else Picked(fs[..|fs| - 1], outs[..|fs| - 1], q) + if fs[|fs| - 1].sequence == q then [outs[|fs| - 1]] else []
  }

  lemma {:induction false} PickedIsOutsFor(fs: seq<MediaFragment>, q: U16)
    ensures Picked(fs, Outs([], fs), q) == OutsFor(fs, q)
  {
    if fs != [] {
      PickedIsOutsFor(fs[..|fs| - 1], q);
      assert Outs([], fs)[..|fs| - 1] == Outs([], fs[..|fs| - 1]);
    }
  }

  /** Many frames at once: as long as at most eight are ever incomplete, each frame whose packets go
      by comes out once and unchanged, however its packets are interleaved with those of others. */
  lemma InterleavedFrameSurvivesTheTap(
    t: Tap, ports: Ports, frames: seq<Data>, groups: seq<seq<Built>>, ms: nat -> nat -> Moment, e: Endpoints, mac: Mac,
    q: U16, jpeg: Data, before: seq<nat>, last: nat, earlier: seq<MediaFragment>, later: seq<MediaFragment>)
    requires Settled(t.agent.peers, e, mac) && SafeTraffic(t.agent.peers, frames, mac) && t.open == []
    requires Traffic(frames, ports, groups, e, mac)
    requires Fragmentable(jpeg) && Delimited(jpeg)
    requires var n := |Chunks(jpeg)|;
             && InRange(before, n) && last < n && last !in before
             && (forall i: nat | i < n :: i in before + [last])
             && InRange(before + [last], n)
    requires Splittable(Flatten(groups)) && EightAtMost(Carried(Flatten(groups)))
    requires Only(Carried(Flatten(groups)), q) == earlier + Arrivals(q, Chunks(jpeg), before + [last]) + later
    requires Fresh(Reassembly.After([], earlier), q, |Chunks(jpeg)|, last)
    ensures var outs := OnFrames(t, ports, frames, ms).1;
            && |outs| == |Carried(Flatten(groups))|
            && var picked := Picked(Carried(Flatten(groups)), outs, q);
               && |picked| == |earlier| + |before| + 1 + |later|
               && picked[|earlier|..|earlier| + |before| + 1] == seq(|before|, _ => None) + [Some(jpeg)]
  {
    TrafficIsTaken(t, ports, frames, groups, ms, e, mac);
    ChunksJoin(jpeg);
    PickedIsOutsFor(Carried(Flatten(groups)), q);
    InterleavedFrame(Carried(Flatten(groups)), q, Chunks(jpeg), before, last, earlier, later);
  }

  // ----------------------------------------------- what a refused message teaches

  function MacOf(p: Peers, side: Side): Option<Mac> { if side.DoorSide? then p.doorMac else p.padMac }

  /** The message is attributed to a side, and its block is then refused. */
  ghost predicate Refused(p: Peers, u: Udp, raw: Data) {
    var side := Origin(p, u.flow.sourceIp, raw);
    side.Some? && !AcceptEndpoints(PinMac(p, side.value, u.sourceMac).0, SessionBlock(raw).value.1).1
  }

  /** The loop pins a sender's MAC before the identity check: a message whose block is refused still
      teaches its sender's MAC exactly when none was known for its side, and no MAC of the other. */
  lemma RefusedMessageTeaches(t: Tap, u: Udp, raw: Data, m: Moment)
    requires Refused(t.agent.peers, u, raw)
    ensures var p, q := t.agent.peers, OnRaw(t, u, raw, m).0.agent.peers;
            var side := Origin(p, u.flow.sourceIp, raw).value;
            var other := if side.DoorSide? then PadSide else DoorSide;
            && (MacOf(q, side) != MacOf(p, side) <==> MacOf(p, side).None?)
            && MacOf(q, side) == Some(if MacOf(p, side).None? then u.sourceMac else MacOf(p, side).value)
            && MacOf(q, other) == MacOf(p, other)
  {
    var side := Origin(t.agent.peers, u.flow.sourceIp, raw).value;
    var peers := PinMac(t.agent.peers, side, u.sourceMac).0;
    var (opcode, block) := SessionBlock(raw).value;
    WirePeers(t.agent.(peers := peers), side, opcode, block, m.outcome);
  }

  /** Frames from another MAC than the one known for the door are then of no effect as the door's. */
  lemma OtherMacIsIgnored(t: Tap, u: Udp, raw: Data, m: Moment)
    requires Origin(t.agent.peers, u.flow.sourceIp, raw) == Some(DoorSide)
    requires t.agent.peers.doorMac.Some? && t.agent.peers.doorMac.value != u.sourceMac
    ensures OnRaw(t, u, raw, m) == (t, [])
  {
  }

  lemma ControlBlock(opcode: U32, e: Endpoints)
    requires e.Packable() && e.NulFree()
    ensures SessionBlock(SessionControl(opcode, e).value) == Some((opcode, e))
  {
    SessionControlRoundTrip(opcode, e);
  }

  /** A run, from a boot that knows the room's id alone, in which a refused message decides the door's
      MAC: a keepalive of the Pad names the door, and one message under another address claims to be
      the door. The household stays as the Pad named it, and nothing the door says is taken. */
  lemma RefusedMessageCanTakeTheDoorsMac(
    policy: CallMachine.Policy, e: Endpoints, pad: Udp, other: Udp, door: Udp, said: Data, m: Moment)
    requires FullySpecified(e) && e.Packable() && e.NulFree() && e.room.ip != e.door.ip
    requires pad.flow.sourceIp == e.room.ip
    requires other.flow.sourceIp != e.room.ip && other.flow.sourceIp != e.door.ip
    requires door.sourceMac != other.sourceMac
    ensures var claim := Endpoints(e.door.(ip := other.flow.sourceIp), e.room);
            var boot := Boot(policy, Peers(Station(e.room.id, Ipv4(0, 0, 0, 0)), None, None, None));
            var s := OnRaw(Tap(boot, [], []), pad, SessionControl(OP_KEEPALIVE, e).value, m).0;
            var t := OnRaw(s, other, SessionControl(OP_KEEPALIVE, claim).value, m).0;
            && Refused(s.agent.peers, other, SessionControl(OP_KEEPALIVE, claim).value)
            && t.agent.peers.Block() == Some(e) && t.agent.peers.doorMac == Some(other.sourceMac)
            && (Origin(t.agent.peers, door.flow.sourceIp, said) == Some(DoorSide) ==> OnRaw(t, door, said, m) == (t, []))
  {
    var claim := Endpoints(e.door.(ip := other.flow.sourceIp), e.room);
    var boot := Boot(policy, Peers(Station(e.room.id, Ipv4(0, 0, 0, 0)), None, None, None));
    var naming, claiming := SessionControl(OP_KEEPALIVE, e).value, SessionControl(OP_KEEPALIVE, claim).value;
    ControlBlock(OP_KEEPALIVE, e);
    ControlBlock(OP_KEEPALIVE, claim);
    PadNamesTheDoor(Tap(boot, [], []), e, pad, naming, m);
    RefusedClaim(OnRaw(Tap(boot, [], []), pad, naming, m).0, claim, other, claiming, m);
  }

  lemma PadNamesTheDoor(t: Tap, e: Endpoints, pad: Udp, raw: Data, m: Moment)
    requires FullySpecified(e) && pad.flow.sourceIp == e.room.ip && SessionBlock(raw) == Some((OP_KEEPALIVE, e))
    requires t.agent.peers == Peers(Station(e.room.id, Ipv4(0, 0, 0, 0)), None, None, None)
    ensures OnRaw(t, pad, raw, m).0.agent.peers == Peers(e.room, Some(e.door), None, Some(pad.sourceMac))
  {
    var p := t.agent.peers.(padMac := Some(pad.sourceMac));
    WirePeers(t.agent.(peers := p), PadSide, OP_KEEPALIVE, e, m.outcome);
  }

  lemma RefusedClaim(t: Tap, claim: Endpoints, other: Udp, raw: Data, m: Moment)
    requires SessionBlock(raw) == Some((OP_KEEPALIVE, claim)) && claim.door.ip == other.flow.sourceIp != claim.room.ip
    requires var p := t.agent.peers;
             && p.doorMac.None? && p.room == claim.room && p.door.Some? && p.door.value.id == claim.door.id != []
             && !p.door.value.ip.Unspecified() && p.door.value.ip != claim.door.ip
    ensures Refused(t.agent.peers, other, raw)
    ensures OnRaw(t, other, raw, m).0.agent.peers == t.agent.peers.(doorMac := Some(other.sourceMac))
  {
    var p := t.agent.peers.(doorMac := Some(other.sourceMac));
    AcceptedIffAgrees(p, claim);
    RejectedBlockTeaches(p, claim);
    WirePeers(t.agent.(peers := p), DoorSide, OP_KEEPALIVE, claim, m.outcome);
  }
}
