/** Trust on first use (src/agent.rs:437-558): what the household's stations are known to be, how
    it is learned from the wire, and how it is pinned. */
module Identity {
  import opened Bytes
  import opened Protocol

  datatype Side = DoorSide | PadSide

  datatype Peers = Peers(room: Station, door: Option<Station>, doorMac: Option<Mac>, padMac: Option<Mac>) {
    /** The endpoint block for Pad-originated packets, once the door is known. */
    function Block(): Option<Endpoints> {
      if door.Some? then Some(Endpoints(door.value, room)) else None
    }
  }

  /** What the wire can show: an own address, a discovery address, a frame's MAC, a session block. */
  datatype Sighting =
    | OwnAddress(ip: Ipv4)
    | Address(side: Side, ip: Ipv4)
    | Frame(side: Side, mac: Mac)
    | Session(block: Endpoints)

  // ------------------------------------------------------------ specification

  function SetRoomIp(p: Peers, ip: Ipv4): Peers {
    if p.room.ip.Unspecified() && !ip.Unspecified() then p.(room := p.room.(ip := ip)) else p
  }

  function LearnAddress(p: Peers, side: Side, ip: Ipv4): (Peers, bool) {
    if ip.Unspecified() then (p, false)
    else if side.PadSide? then
      if p.room.ip.Unspecified() then (p.(room := p.room.(ip := ip)), true) else (p, p.room.ip == ip)
    else if p.door.None? then (p.(door := Some(Station([], ip))), true)
    else if p.door.value.ip.Unspecified() then (p.(door := Some(p.door.value.(ip := ip))), true)
    else (p, p.door.value.ip == ip)
  }

  function PinMac(p: Peers, side: Side, mac: Mac): (Peers, bool) {
    if side.DoorSide? then
      if p.doorMac.None? then (p.(doorMac := Some(mac)), true) else (p, p.doorMac.value == mac)
    else
      if p.padMac.None? then (p.(padMac := Some(mac)), true) else (p, p.padMac.value == mac)
  }

  /** A block is checked room first: a room address may be learned even if the door then fails. */
  function AcceptEndpoints(p: Peers, e: Endpoints): (Peers, bool) {
    if e.room.id != p.room.id then (p, false)
    else if !p.room.ip.Unspecified() && p.room.ip != e.room.ip then (p, false)
    else
      var q := if p.room.ip.Unspecified() && !e.room.ip.Unspecified() then p.(room := p.room.(ip := e.room.ip)) else p;
      if q.door.None? then (q.(door := Some(e.door)), true)
      else if q.door.value.id == [] && q.door.value.ip == e.door.ip then
        (q.(door := Some(q.door.value.(id := e.door.id))), true)
      else if q.door.value.id == e.door.id && q.door.value.ip.Unspecified() then
        (q.(door := Some(q.door.value.(ip := e.door.ip))), true)
      else (q, q.door.value.id == e.door.id && q.door.value.ip == e.door.ip)
  }

  function See(p: Peers, s: Sighting): (Peers, bool) {
    match s
    case OwnAddress(ip) => (SetRoomIp(p, ip), true)
    case Address(side, ip) => LearnAddress(p, side, ip)
    case Frame(side, mac) => PinMac(p, side, mac)
    case Session(block) => AcceptEndpoints(p, block)
  }

  // ------------------------------------------------------------------- laws

  /** Whatever p knows, q knows the same: addresses, the door's id, and both MACs. */
  ghost predicate Keeps(p: Peers, q: Peers) {
    && q.room.id == p.room.id
    && (!p.room.ip.Unspecified() ==> q.room.ip == p.room.ip)
    && (p.door.Some? ==>
          && q.door.Some?
          && (p.door.value.id != [] ==> q.door.value.id == p.door.value.id)
          && (!p.door.value.ip.Unspecified() ==> q.door.value.ip == p.door.value.ip))
    && (p.doorMac.Some? ==> q.doorMac == p.doorMac)
    && (p.padMac.Some? ==> q.padMac == p.padMac)
  }

  lemma SeeKeeps(p: Peers, s: Sighting)
    ensures Keeps(p, See(p, s).0)
  {
  }

  function AddressOf(p: Peers, side: Side): Ipv4 {
    if side.PadSide? then p.room.ip else if p.door.Some? then p.door.value.ip else Ipv4(0, 0, 0, 0)
  }

  /** A discovered address is believed exactly when it is one and contradicts none that is known;
      then it is the station's, and nothing else has changed. */
  lemma AddressBelievedIff(p: Peers, side: Side, ip: Ipv4)
    ensures var (q, known) := LearnAddress(p, side, ip);
            && (known <==> !ip.Unspecified() && (AddressOf(p, side).Unspecified() || AddressOf(p, side) == ip))
            && AddressOf(q, side) == (if known then ip else AddressOf(p, side))
            && (side.PadSide? ==> q == p.(room := q.room) && q.room.id == p.room.id)
            && (side.DoorSide? ==> q == p.(door := q.door) && (known && p.door.None? ==> q.door == Some(Station([], ip)))
                                   && (p.door.Some? ==> q.door.Some? && q.door.value.id == p.door.value.id))
  {
  }

  /** A MAC is accepted exactly when it is the first of its side or the same again. */
  lemma MacAcceptedIff(p: Peers, side: Side, mac: Mac)
    ensures var (q, accepted) := PinMac(p, side, mac);
            var before := if side.DoorSide? then p.doorMac else p.padMac;
            && (accepted <==> before.None? || before.value == mac)
            && q == (if side.DoorSide? then p.(doorMac := if accepted then Some(mac) else before)
                     else p.(padMac := if accepted then Some(mac) else before))
  {
  }

  /** The Pad's own address is learned once, from the first that is one. */
  lemma OwnAddressOnce(p: Peers, ip: Ipv4)
    ensures SetRoomIp(p, ip) == p.(room := p.room.(ip := if p.room.ip.Unspecified() then ip else p.room.ip))
  {
  }

  /** A block contradicts nothing that is known. */
  ghost predicate Agrees(p: Peers, e: Endpoints) {
    && e.room.id == p.room.id
    && (!p.room.ip.Unspecified() ==> e.room.ip == p.room.ip)
    && (p.door.Some? && p.door.value.id != [] ==> e.door.id == p.door.value.id)
    && (p.door.Some? && !p.door.value.ip.Unspecified() ==> e.door.ip == p.door.value.ip)
  }

  /** A door record with neither id nor address, which learns only one of them at a time. */
  ghost predicate BlankDoor(p: Peers) {
    p.door.Some? && p.door.value.id == [] && p.door.value.ip.Unspecified()
  }

  /** A block agrees with everything known and does not bring both the id and the address to a
      blank door record. */
  ghost predicate Acceptable(p: Peers, e: Endpoints) {
    Agrees(p, e) && (BlankDoor(p) ==> e.door.id == [] || e.door.ip.Unspecified())
  }

  /** That is exactly when it is accepted; then the pinned endpoints become that block. */
  lemma AcceptedIffAgrees(p: Peers, e: Endpoints)
    ensures AcceptEndpoints(p, e).1 <==> Acceptable(p, e)
    ensures AcceptEndpoints(p, e).1 ==> AcceptEndpoints(p, e).0.Block() == Some(e)
  {
  }

  /** From any household whose door is unknown, one all-zero door record on the wire is enough to
      have every complete block rejected that nothing known contradicts. */
  lemma BlankDoorIsReachable(p: Peers, e: Endpoints)
    requires p.door.None? && Agrees(p, e) && e.door.id != [] && !e.door.ip.Unspecified()
    ensures var q := After(p, [Session(Endpoints(Station([], Ipv4(0, 0, 0, 0)), e.room))]);
            BlankDoor(q) && Agrees(q, e) && !AcceptEndpoints(q, e).1
  {
    var blank := Session(Endpoints(Station([], Ipv4(0, 0, 0, 0)), e.room));
    assert [blank][..0] == [];
    assert After(p, [blank]) == See(p, blank).0;
  }

  /** Everything the block specifies is what is known. */
  ghost predicate Pinned(p: Peers, e: Endpoints) {
    && p.room.id == e.room.id && p.door.Some?
    && (!e.room.ip.Unspecified() ==> p.room.ip == e.room.ip)
    && (e.door.id != [] ==> p.door.value.id == e.door.id)
    && (!e.door.ip.Unspecified() ==> p.door.value.ip == e.door.ip)
  }

  /** A rejected block still teaches the room's address exactly when only its door is wrong and
      the address was unknown; it never teaches anything else. */
  lemma RejectedBlockTeaches(p: Peers, e: Endpoints)
    requires !AcceptEndpoints(p, e).1
    ensures var q := AcceptEndpoints(p, e).0;
            && q.(room := p.room) == p
            && (q != p <==> e.room.id == p.room.id && p.room.ip.Unspecified() && !e.room.ip.Unspecified())
  {
  }

  function After(p: Peers, run: seq<Sighting>): Peers {
    if run == [] then p else See(After(p, run[..|run| - 1]), run[|run| - 1]).0
  }

  /** Nothing known ever changes, over any run. */
  lemma {:induction false} RunKeeps(p: Peers, run: seq<Sighting>, i: nat)
    requires i <= |run|
    ensures Keeps(After(p, run[..i]), After(p, run))
    decreases |run|
  {
    if i < |run| {
      var before := run[..|run| - 1];
      assert before[..i] == run[..i];
      RunKeeps(p, before, i);
      SeeKeeps(After(p, before), run[|run| - 1]);
    } else {
      assert run[..i] == run;
    }
  }

  /** The i-th sighting is a session block, and it was accepted. */
  ghost predicate AcceptedAt(p: Peers, run: seq<Sighting>, i: nat)
    requires i < |run|
  {
    run[i].Session? && See(After(p, run[..i]), run[i]).1
  }

  predicate FullySpecified(e: Endpoints) {
    e.door.id != [] && !e.door.ip.Unspecified() && !e.room.ip.Unspecified()
  }

  /** Over any run, every block accepted after a fully specified one is that same block. */
  lemma AcceptedBlocksAreIdentical(p: Peers, run: seq<Sighting>, i: nat, j: nat)
    requires i < j < |run| && AcceptedAt(p, run, i) && AcceptedAt(p, run, j)
    requires FullySpecified(run[i].block)
    ensures run[j].block == run[i].block
  {
    var first, mid := run[..i + 1], run[..j];
    assert first[..i] == run[..i] && mid[..i + 1] == first;
    AcceptedIffAgrees(After(p, run[..i]), run[i].block);
    assert After(p, first).Block() == Some(run[i].block);
    RunKeeps(p, mid, i + 1);
    AcceptedIffAgrees(After(p, mid), run[j].block);
  }

  // ----------------------------------------------------------- implementation

  class PeerTable {
    var room: Station
    var door: Option<Station>
    var doorMac: Option<Mac>
    var padMac: Option<Mac>

    function View(): Peers
      reads this
    {
      Peers(room, door, doorMac, padMac)
    }

    constructor (peers: Peers)
      ensures View() == peers
    {
      room, door, doorMac, padMac := peers.room, peers.door, peers.doorMac, peers.padMac;
    }

    method SetRoomIpIfUnset(ip: Ipv4)
      modifies this
      ensures View() == SetRoomIp(old(View()), ip)
    {
      if room.ip.Unspecified() && !ip.Unspecified() {
        room := room.(ip := ip);
      }
    }

    method Learn(side: Side, ip: Ipv4) returns (known: bool)
      modifies this
      ensures (View(), known) == LearnAddress(old(View()), side, ip)
    {
      if ip.Unspecified() {
        return false;
      }
      match side
      case PadSide =>
        if room.ip.Unspecified() {
          room := room.(ip := ip);
          known := true;
        } else {
          known := room.ip == ip;
        }
      case DoorSide =>
        match door
        case None =>
          door := Some(Station([], ip));
          known := true;
        case Some(d) =>
          if d.ip.Unspecified() {
            door := Some(d.(ip := ip));
            known := true;
          } else {
            known := d.ip == ip;
          }
    }

    method Pin(side: Side, mac: Mac) returns (accepted: bool)
      modifies this
      ensures (View(), accepted) == PinMac(old(View()), side, mac)
    {
      var slot := if side.DoorSide? then doorMac else padMac;
      match slot
      case None =>
        if side.DoorSide? {
          doorMac := Some(mac);
        } else {
          padMac := Some(mac);
        }
        accepted := true;
      case Some(pinned) =>
        accepted := pinned == mac;
    }

    method Accept(e: Endpoints) returns (accepted: bool)
      modifies this
      ensures (View(), accepted) == AcceptEndpoints(old(View()), e)
    {
      if e.room.id != room.id {
        return false;
      }
      if room.ip.Unspecified() {
        if !e.room.ip.Unspecified() {
          room := room.(ip := e.room.ip);
        }
      } else if room.ip != e.room.ip {
        return false;
      }
      match door
      case None =>
        door := Some(e.door);
        accepted := true;
      case Some(d) =>
        if d.id == [] && d.ip == e.door.ip {
          door := Some(d.(id := e.door.id));
          accepted := true;
        } else if d.id == e.door.id && d.ip.Unspecified() {
          door := Some(d.(ip := e.door.ip));
          accepted := true;
        } else {
          accepted := d.id == e.door.id && d.ip == e.door.ip;
        }
    }
  }
}
