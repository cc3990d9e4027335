/** The agent object itself (src/agent.rs): its handlers update the peers, the call, the command
    cache, the event log and the wire in place, and each refines one step of the model. */
module CallAgent {
  import opened Bytes
  import opened Protocol
  import opened Identity
  import opened AgentModel
  import opened TapWire
  import opened Ethernet
  import opened Splitter
  import opened Reassembler
  import opened MediaPath
  import opened Capture
  import Cache = CommandCache
  import Log = EventLog
  import Call = CallMachine
  import Reassembly
  import Ring = MediaRing

  function Kinds(all: seq<Log.Event<EventKind>>): (k: seq<EventKind>)
    ensures |k| == |all| && forall i | 0 <= i < |k| :: k[i] == all[i].kind
  {
    seq(|all|, i requires 0 <= i < |all| => all[i].kind)
  }

  class CallAgent {
    const peers: PeerTable
    const machine: Call.CallMachine
    const events: Log.EventLog<EventKind>
    const commands: Cache.CommandCache
    const wire: TapWire
    const jpeg: JpegReassembler
    const history: Ring.MediaRing
    const ports: Ports
    var nextSession: nat
    ghost var stored: seq<Cache.CommandResult>

    ghost predicate Valid()
      reads this, events, commands, wire, jpeg, history
    {
      events.Valid() && wire.Valid() && jpeg.Valid() && history.Valid() && commands.capacity == CACHE_SIZE
    }

    ghost function View(): Agent
      reads this, peers, machine, events, commands, wire
    {
      Agent(machine.policy, peers.View(), machine.View(), nextSession, Kinds(events.all),
            commands.View(), stored, wire.sent, wire.resets, wire.silenced)
    }

    ghost function Whole(): Tap
      reads this, peers, machine, events, commands, wire, jpeg, history
      requires Valid()
    {
      Tap(View(), jpeg.View(), history.pushed)
    }

    constructor (policy: Call.Policy, household: Peers, ports: Ports, windowUs: nat, maxBytes: nat)
      ensures Valid() && Whole() == Tap(Boot(policy, household), [], [])
    {
      peers := new PeerTable(household);
      machine := new Call.CallMachine(policy);
      events := new Log.EventLog<EventKind>(256);
      commands := new Cache.CommandCache(CACHE_SIZE);
      wire := new TapWire(ports.control);
      jpeg := new JpegReassembler();
      history := new Ring.MediaRing(windowUs, maxBytes);
      this.ports := ports;
      nextSession, stored := 1, [];
    }

    // ------------------------------------------------------------- captured

    /** One captured frame; what each push of a fragment returned comes out in order. */
    method OnFrame(frame: Data, ms: nat -> Moment, nowMs: nat) returns (video: seq<Option<Data>>)
      requires Valid()
      modifies this, peers, machine, events, wire, jpeg, history
      ensures Valid()
      ensures (Whole(), video) == Capture.OnFrame(old(Whole()), ports, frame, ms)
    {
      video := [];
      var parsed := ParseFrame(frame);
      if parsed.Err? {
        return;
      }
      var u := parsed.value;
      if u.flow.destinationPort == ports.discovery || u.flow.sourcePort == ports.discovery {
        OnDiscovery(u);
        return;
      }
      if u.flow.sourcePort != ports.control && u.flow.destinationPort != ports.control {
        return;
      }
      video := OnDatagram(u, ms, nowMs);
    }

    /** Both stations are learned from the discovery exchange as it goes by. */
    method OnDiscovery(u: Udp)
      requires Valid()
      modifies peers
      ensures Valid()
      ensures Whole() == old(Whole()).(agent := old(View()).(peers := Capture.OnDiscovery(old(View()).peers, u)))
    {
      var room := Some(peers.View().room.id);
      if DiscoveryRoom(1, u.flow.payload) == room {
        var known := peers.Learn(DoorSide, u.flow.sourceIp);
        if known {
          var _ := peers.Pin(DoorSide, u.sourceMac);
        }
      } else if DiscoveryRoom(2, u.flow.payload) == room {
        var known := peers.Learn(PadSide, u.flow.sourceIp);
        if known {
          var _ := peers.Pin(PadSide, u.sourceMac);
        }
      }
    }

    method OnDatagram(u: Udp, ms: nat -> Moment, nowMs: nat) returns (video: seq<Option<Data>>)
      requires Valid()
      modifies this, peers, machine, events, wire, jpeg, history
      ensures Valid()
      ensures (Whole(), video) == OnRaws(old(Whole()), u, Split(u.flow.payload), ms)
    {
      video := [];
      var raws := SplitCoalesced(u.flow.payload);
      for i := 0 to |raws|
        invariant Valid()
        invariant (Whole(), video) == OnRaws(old(Whole()), u, raws[..i], ms)
      {
        RawsNext(old(Whole()), u, raws, i, ms);
        var more := OnRaw(u, raws[i], ms(i), nowMs);
        video := video + more;
      }
      assert raws[..|raws|] == raws;
    }

    method OnRaw(u: Udp, raw: Data, m: Moment, nowMs: nat) returns (video: seq<Option<Data>>)
      requires Valid()
      modifies this, peers, machine, events, wire, jpeg, history
      ensures Valid()
      ensures (Whole(), video) == Capture.OnRaw(old(Whole()), u, raw, m)
    {
      video := [];
      var side := Origin(peers.View(), u.flow.sourceIp, raw);
      if side.None? {
        return;
      }
      var same := peers.Pin(side.value, u.sourceMac);
      if !same {
        return;
      }
      video := OnWire(side.value, raw, m, nowMs);
    }

    /** One PENGUIN0 message from the wire, already attributed to a side. */
    method OnWire(side: Side, raw: Data, m: Moment, nowMs: nat) returns (video: seq<Option<Data>>)
      requires Valid()
      modifies this, peers, machine, events, wire, jpeg, history
      ensures Valid()
      ensures (Whole(), video) == OnMessage(old(Whole()), side, raw, m)
    {
      video := [];
      var session := SessionBlock(raw);
      if session.Some? {
        video := OnSession(side, session.value.0, session.value.1, raw, m, nowMs);
      }
    }

    method OnSession(side: Side, opcode: U32, e: Endpoints, raw: Data, m: Moment, nowMs: nat)
      returns (video: seq<Option<Data>>)
      requires Valid()
      modifies this, peers, machine, events, wire, jpeg, history
      ensures Valid()
      ensures (Whole(), video) == Capture.OnSession(old(Whole()), side, opcode, e, raw, m)
    {
      video := [];
      var accepted := OnCall(side, opcode, e, m.outcome, nowMs);
      if accepted && opcode == OP_MEDIA && side.DoorSide? {
        video := OnMedia(raw, m.ptsUs);
      }
    }

    /** The door's sound and pictures: fragments go to the reassembler, and sound and whole frames
        into the pre-roll buffer, stamped with the time. */
    method OnMedia(raw: Data, ptsUs: nat) returns (video: seq<Option<Data>>)
      requires Valid()
      modifies jpeg, history
      ensures Valid()
      ensures (Whole(), video) == Capture.OnMedia(old(Whole()), raw, ptsUs)
    {
      var sound := Sound(raw);
      video := FeedMessage(jpeg, raw);
      Keep(sound, video, ptsUs);
    }

    method Keep(sound: Option<Data>, video: seq<Option<Data>>, ptsUs: nat)
      requires Valid()
      modifies history
      ensures Valid() && View() == old(View()) && jpeg.View() == old(jpeg.View())
      ensures history.pushed == old(history.pushed) + KeptOf(sound, video, ptsUs)
    {
      if sound.Some? {
        history.PushAudio(Ring.Sample(ptsUs, sound.value));
      } else if |video| == 1 && video[0].Some? {
        history.PushVideo(Ring.Sample(ptsUs, video[0].value));
      }
    }

    method OnCall(side: Side, opcode: U32, e: Endpoints, o: Outcome, nowMs: nat) returns (accepted: bool)
      requires Valid()
      modifies this, peers, machine, events, wire
      ensures Valid() && jpeg.View() == old(jpeg.View()) && history.pushed == old(history.pushed)
      ensures accepted == AcceptEndpoints(old(View()).peers, e).1
      ensures View() == AgentModel.OnWire(old(View()), side, opcode, e, o)
    {
      accepted := peers.Accept(e);
      if !accepted {
        return;
      }
      if opcode == OP_REQUEST && side.DoorSide? {
        OnCallStarted(e, nowMs);
      } else if opcode == OP_ANSWER && side.PadSide? {
        OnPadAnswer(nowMs);
      } else if opcode == OP_UNLOCK && side.PadSide? {
        OnPadUnlock(nowMs);
      } else if opcode == OP_HANGUP {
        OnWireHangup(o, nowMs);
      }
    }

    // --------------------------------------------------------------- handlers

    method PushEvent(kind: EventKind, nowMs: nat)
      requires Valid()
      modifies events
      ensures Valid() && View() == old(View()).(events := old(View()).events + [kind])
    {
      var _ := events.Push(kind, nowMs);
    }

    method OnCallStarted(e: Endpoints, nowMs: nat)
      requires Valid()
      modifies this`nextSession, machine, events
      ensures Valid() && View() == AgentModel.OnCallStarted(old(View()), e)
    {
      if machine.phase != Call.Idle {
        return;
      }
      var id := nextSession;
      nextSession := nextSession + 1;
      machine.StartCall(id);
      PushEvent(CallStarted(id, e.door.id, e.room.id), nowMs);
    }

    method OnPadAnswer(nowMs: nat)
      requires Valid()
      modifies machine, events
      ensures Valid() && View() == AgentModel.OnPadAnswer(old(View()))
    {
      var id := machine.sessionId;
      var error := machine.PadAnswer();
      if error.None? {
        PushEvent(PadAnswered(id), nowMs);
      }
    }

    method OnPadUnlock(nowMs: nat)
      requires Valid()
      modifies events
      ensures Valid() && View() == AgentModel.OnPadUnlock(old(View()))
    {
      if machine.owner == Call.Pad {
        PushEvent(Unlocked(machine.sessionId, Call.Pad), nowMs);
      }
    }

    method OnWireHangup(o: Outcome, nowMs: nat)
      requires Valid()
      modifies machine, events, wire
      ensures Valid() && View() == AgentModel.OnWireHangup(old(View()), o)
    {
      var id := machine.sessionId;
      var active := machine.phase != Call.Idle;
      machine.Hangup();
      if active {
        wire.OnCallEnd(o);
        PushEvent(CallEnded(id, WireHangup), nowMs);
      }
    }

    /** Let the machine take the command, without telling anyone yet. */
    method Attempt(action: Action, now: int) returns (error: Option<Cache.CallError>)
      requires Valid()
      modifies machine
      ensures error == CommandRefusal(old(View()), action, now)
      ensures Valid()
      ensures View() == if error.Some? then old(View())
                        else old(View()).(machine := Call.Apply(machine.policy, old(View()).machine, OpOf(action, now)))
    {
      if peers.door.None? {
        return Some(Cache.NoCall);
      }
      match action
      case Claim =>
        error := machine.RemoteAnswer();
      case OpenDoor =>
        error := machine.Unlock(now);
      case HangUp =>
        if machine.phase == Call.Idle {
          error := Some(Cache.NoCall);
        } else {
          machine.Hangup();
          error := None;
        }
    }

    /** Send the command's packet and, once it is out, follow it up. */
    method Transmit(action: Action, session: nat, o: Outcome, nowMs: nat) returns (sent: bool)
      requires Valid() && View().peers.Block().Some?
      modifies events, wire
      ensures Valid() && sent == GetsOut(old(View()), OverTap(old(View()).peers, o))
      ensures View() == if !sent then old(View()) else Announce(old(View()), action, session, o)
    {
      sent := Send(action, o);
      if sent {
        FollowUp(action, o);
        PushEvent(EventOf(action, session), nowMs);
      }
    }

    method Send(action: Action, o: Outcome) returns (sent: bool)
      requires Valid() && View().peers.Block().Some?
      modifies wire
      ensures Valid() && sent == GetsOut(old(View()), OverTap(old(View()).peers, o))
      ensures View() == if !sent then old(View())
                        else old(View()).(sent := old(View()).sent + [Packet(OpcodeOf(action), old(View()).peers.Block().value)])
    {
      var packet := SessionControl(OpcodeOf(action), peers.View().Block().value);
      if packet.Err? {
        return false;
      }
      sent := wire.SendAsPad(packet.value, OpcodeOf(action), peers.View(), o);
    }

    method FollowUp(action: Action, o: Outcome)
      requires Valid() && View().peers.Block().Some? && View().peers.Block().value.Packable()
      modifies wire
      ensures Valid()
      ensures View() == old(View()).(silenced := OnSent(old(View()), action, o), resets := Reset(old(View()), action, o))
    {
      match action {
        case Claim => wire.OnRemoteClaim(peers.View(), o);
        case HangUp => wire.OnCallEnd(o);
        case OpenDoor =>
      }
    }

    method Store(result: Cache.CommandResult)
      requires Valid()
      modifies this`stored, commands
      ensures Valid() && View() == Remember(old(View()), result)
    {
      commands.Store(result);
      stored := stored + [result];
    }

    method Perform(action: Action, id: Data, now: int, o: Outcome, nowMs: nat) returns (result: Cache.CommandResult)
      requires Valid()
      modifies machine, events, wire
      ensures Valid()
      ensures (View(), result) == AgentModel.Perform(old(View()), action, id, now, OverTap(old(View()).peers, o))
    {
      var session := machine.sessionId;
      var error := Attempt(action, now);
      if error.Some? {
        return Cache.Rejected(id, error.value);
      }
      var sent := Transmit(action, session, o, nowMs);
      result := if sent then Cache.Accepted(id) else Cache.Rejected(id, Cache.AgentOffline);
    }

    /** One remote command. */
    method Execute(action: Action, id: Data, now: int, o: Outcome, nowMs: nat) returns (result: Cache.CommandResult)
      requires Valid()
      modifies this, machine, events, commands, wire
      ensures Valid() && jpeg.View() == old(jpeg.View()) && history.pushed == old(history.pushed)
      ensures (View(), result) == AgentModel.Execute(old(View()), action, id, now, OverTap(old(View()).peers, o))
    {
      var replayed := commands.Get(id);
      if replayed.Some? {
        return replayed.value;
      }
      result := Perform(action, id, now, o, nowMs);
      Store(result);
    }
  }
}
