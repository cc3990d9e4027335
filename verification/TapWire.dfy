/** The tap (src/wire_tap.rs): frames injected between door and Pad, and the silence table. */
module TapWire {
  import opened Bytes
  import opened Protocol
  import opened Ethernet
  import opened Identity
  import opened AgentModel

  /** What the receiver of an injected frame makes of it: a control packet of this opcode and
      block, between the two stations' addresses. */
  ghost predicate Delivers(frame: Data, port: U16, opcode: U32, e: Endpoints, towardsDoor: bool) {
    Parse(frame).Ok? &&
    var f := Parse(frame).value.flow;
    && f.sourceIp == (if towardsDoor then e.room.ip else e.door.ip)
    && f.destinationIp == (if towardsDoor then e.door.ip else e.room.ip)
    && f.sourcePort == f.destinationPort == port
    && SessionControl(opcode, e) == Ok(f.payload)
  }

  /** The frame goes from one station's MAC to the other's. */
  ghost predicate SentBetween(frame: Data, source: Option<Mac>, destination: Option<Mac>) {
    && Parse(frame).Ok? && source == Some(Parse(frame).value.sourceMac)
    && destination == Some(Parse(frame).value.destinationMac)
  }

  /** The tap sends nothing before it knows every address. */
  function OverTap(p: Peers, o: Outcome): Outcome {
    o.(sends := o.sends && AddressesKnown(p))
  }

  class TapWire {
    const port: U16
    var counter: U16
    var toDoor: seq<Data>
    var toPad: seq<Data>
    var silenced: bool
    ghost var sent: seq<Packet>
    ghost var resets: seq<Endpoints>

    /** Each frame delivers the control packet of its command, or a hangup to the Pad. */
    ghost predicate Valid()
      reads this
    {
      && |toDoor| == |sent| && |toPad| == |resets|
      && (forall i | 0 <= i < |sent| :: Delivers(toDoor[i], port, sent[i].opcode, sent[i].block, true))
      && (forall i | 0 <= i < |resets| :: Delivers(toPad[i], port, OP_HANGUP, resets[i], false))
    }

    constructor (port: U16)
      ensures Valid() && sent == [] && resets == [] && !silenced && counter == 1
    {
      this.port := port;
      counter, toDoor, toPad, silenced, sent, resets := 1, [], [], false, [], [];
    }

    /** A frame with the next identification. */
    method Frame(sourceMac: Mac, destinationMac: Mac, source: Ipv4, destination: Ipv4, payload: Data)
      returns (frame: Data)
      requires |payload| <= 65507
      modifies this`counter
      ensures Parse(frame) == Ok(Udp(sourceMac, destinationMac, Flow(source, destination, port, port, payload)))
      ensures frame == Built(Udp(sourceMac, destinationMac, Flow(source, destination, port, port, payload)), old(counter))
      ensures counter == (old(counter) + 1) % 0x1_0000
    {
      var u := Udp(sourceMac, destinationMac, Flow(source, destination, port, port, payload));
      var built := BuildUdpIpv4(u, counter);
      FrameRoundTrip(u, counter, []);
      assert built.value + [] == built.value;
      counter := (counter + 1) % 0x1_0000;
      frame := built.value;
    }

    method SendAsPad(packet: Data, opcode: U32, peers: Peers, o: Outcome) returns (ok: bool)
      requires Valid() && peers.Block().Some? && SessionControl(opcode, peers.Block().value) == Ok(packet)
      modifies this`toDoor, this`sent, this`counter
      ensures Valid() && ok == OverTap(peers, o).sends
      ensures sent == if ok then old(sent) + [Packet(opcode, peers.Block().value)] else old(sent)
      ensures toDoor == old(toDoor) || |toDoor| == |old(toDoor)| + 1
      ensures ok ==>
                && !peers.door.value.ip.Unspecified() && !peers.room.ip.Unspecified()
                && SentBetween(toDoor[|old(toDoor)|], peers.padMac, peers.doorMac)
    {
      if !AddressesKnown(peers) {
        return false;
      }
      var frame := Frame(peers.padMac.value, peers.doorMac.value, peers.room.ip, peers.door.value.ip, packet);
      ok := o.sends;
      if ok {
        toDoor := toDoor + [frame];
        sent := sent + [Packet(opcode, peers.Block().value)];
      }
    }

    /** Silence the Pad, and tell it in the door's name that its call is over. */
    method OnRemoteClaim(peers: Peers, o: Outcome)
      requires Valid() && peers.Block().Some? && peers.Block().value.Packable()
      modifies this`silenced, this`toPad, this`resets, this`counter
      ensures Valid()
      ensures silenced == (old(silenced) || (AddressesKnown(peers) && o.installs))
      ensures resets == if AddressesKnown(peers) && o.resets then old(resets) + [peers.Block().value] else old(resets)
      ensures |resets| > |old(resets)| ==> SentBetween(toPad[|old(resets)|], peers.doorMac, peers.padMac)
    {
      if !AddressesKnown(peers) {
        return;
      }
      if o.installs {
        silenced := true;
      }
      var e := peers.Block().value;
      var reset := SessionControl(OP_HANGUP, e);
      var frame := Frame(peers.doorMac.value, peers.padMac.value, e.door.ip, e.room.ip, reset.value);
      if o.resets {
        toPad := toPad + [frame];
        resets := resets + [e];
      }
    }

    method OnCallEnd(o: Outcome)
      modifies this`silenced
      ensures silenced == (old(silenced) && !o.flushes)
    {
      if o.flushes {
        silenced := false;
      }
    }
  }
}
