/** The agent's call handling as one state machine: wire messages and remote commands, each
    handler one atomic step (src/agent.rs:563-849), with no monitor and no outbound call active.
    Whether a send or an nft invocation succeeds is part of the input. */
module AgentModel {
  import opened Bytes
  import opened Protocol
  import opened CommandCache
  import opened CallMachine
  import opened Identity

  const CACHE_SIZE: nat := 256

  datatype Reason = WireHangup | RemoteHangup

  datatype EventKind =
    | CallStarted(sessionId: nat, doorId: Data, roomId: Data)
    | PadAnswered(sessionId: nat)
    | RemoteAnswered(sessionId: nat)
    | Unlocked(sessionId: nat, opener: Owner)
    | CallEnded(sessionId: nat, reason: Reason)

  datatype Action = Claim | OpenDoor | HangUp

  /** What the outside world does with a step's side effects: whether the packet to the door and
      the reset to the Pad get out, and whether the silence table can be installed and removed. */
  datatype Outcome = Outcome(sends: bool, resets: bool, installs: bool, flushes: bool)

  /** Something the wire shows of the stations, a session message with its endpoint block, from
      either side, or a remote command. */
  datatype Input =
    | Seen(sighting: Sighting)
    | FromWire(side: Side, opcode: U32, block: Endpoints)
    | Command(action: Action, id: Data, now: int)

  /** A command packet, by what SessionControl builds it from. */
  datatype Packet = Packet(opcode: U32, block: Endpoints)

  datatype Agent = Agent(
    policy: Policy,
    peers: Peers,
    machine: Machine,
    nextSession: nat,
    events: seq<EventKind>,        // every event ever logged
    cache: Cache,
    stored: seq<CommandResult>,    // every result ever cached
    sent: seq<Packet>,             // every command packet that reached the wire
    resets: seq<Endpoints>,        // every hangup injected towards the Pad, by its block
    silenced: bool)                // the table that drops door-Pad traffic is installed

  function Boot(policy: Policy, peers: Peers): Agent {
    Agent(policy, peers, FRESH, 1, [], Cache(map[], []), [], [], [], false)
  }

  // ---------------------------------------------------------------- wire in

  function OnCallStarted(s: Agent, e: Endpoints): Agent {
    if s.machine.phase != Idle then s
    else
      var id := s.nextSession;
      s.(nextSession := id + 1,
         machine := Apply(s.policy, s.machine, StartCall(id)),
         events := s.events + [CallStarted(id, e.door.id, e.room.id)])
  }

  function OnPadAnswer(s: Agent): Agent {
    if Refusal(s.policy, s.machine, PadAnswer).Some? then s
    else s.(machine := Apply(s.policy, s.machine, PadAnswer), events := s.events + [PadAnswered(s.machine.sessionId)])
  }

  function OnPadUnlock(s: Agent): Agent {
    if s.machine.owner == Pad then s.(events := s.events + [Unlocked(s.machine.sessionId, Pad)]) else s
  }

  function OnWireHangup(s: Agent, o: Outcome): Agent {
    var t := s.(machine := Apply(s.policy, s.machine, Hangup));
    if s.machine.phase == Idle then t
    else t.(silenced := s.silenced && !o.flushes, events := s.events + [CallEnded(s.machine.sessionId, WireHangup)])
  }

  /** The opcode and block of a raw message that takes part in call handling; no other message
      changes anything modelled here. */
  function SessionBlock(raw: Data): Option<(U32, Endpoints)> {
    var m := ParseMessage(raw);
    if m.Err? || m.value.family != FAMILY_SESSION then None
    else
      var e := MessageEndpoints(m.value);
      if e.Some? then Some((m.value.opcode, e.value)) else None
  }

  function OnWire(s: Agent, side: Side, opcode: U32, e: Endpoints, o: Outcome): Agent {
    var (peers, accepted) := AcceptEndpoints(s.peers, e);
    var t := s.(peers := peers);
    if !accepted then t
    else if opcode == OP_REQUEST && side.DoorSide? then OnCallStarted(t, e)
    else if opcode == OP_ANSWER && side.PadSide? then OnPadAnswer(t)
    else if opcode == OP_UNLOCK && side.PadSide? then OnPadUnlock(t)
    else if opcode == OP_HANGUP then OnWireHangup(t, o)
    else t
  }

  // --------------------------------------------------------------- commands

  function OpOf(action: Action, now: int): Op {
    match action
    case Claim => RemoteAnswer
    case OpenDoor => Unlock(now)
    case HangUp => Hangup
  }

  function OpcodeOf(action: Action): U32 {
    match action
    case Claim => OP_ANSWER
    case OpenDoor => OP_UNLOCK
    case HangUp => OP_HANGUP
  }

  function EventOf(action: Action, session: nat): EventKind {
    match action
    case Claim => RemoteAnswered(session)
    case OpenDoor => Unlocked(session, Remote)
    case HangUp => CallEnded(session, RemoteHangup)
  }

  /** Why a command does not get as far as changing the machine. */
  function CommandRefusal(s: Agent, action: Action, now: int): Option<CallError> {
    if s.peers.Block().None? then Some(NoCall)
    else if action == HangUp && s.machine.phase == Idle then Some(NoCall)
    else Refusal(s.policy, s.machine, OpOf(action, now))
  }

  /** The command's packet gets out: both station ids fit it and the wire takes it. */
  predicate GetsOut(s: Agent, o: Outcome) {
    s.peers.Block().Some? && s.peers.Block().value.Packable() && o.sends
  }

  /** Every address the silencing rules need is known. */
  predicate AddressesKnown(p: Peers) {
    && p.door.Some? && !p.door.value.ip.Unspecified() && !p.room.ip.Unspecified()
    && p.doorMac.Some? && p.padMac.Some?
  }

  /** A claim tells the Pad that the call is over, if every address is known. */
  function Reset(s: Agent, action: Action, o: Outcome): seq<Endpoints>
    requires s.peers.Block().Some?
  {
    if action == Claim && AddressesKnown(s.peers) && o.resets then s.resets + [s.peers.Block().value] else s.resets
  }

  /** A command's packet is on the wire: claim silences the Pad, hangup restores it. */
  function OnSent(s: Agent, action: Action, o: Outcome): bool {
    match action
    case Claim => s.silenced || (AddressesKnown(s.peers) && o.installs)
    case OpenDoor => s.silenced
    case HangUp => s.silenced && !o.flushes
  }

  /** The command's packet got out: the table follows it and the log says so. */
  function Announce(s: Agent, action: Action, session: nat, o: Outcome): Agent
    requires s.peers.Block().Some?
  {
    s.(silenced := OnSent(s, action, o),
       resets := Reset(s, action, o),
       events := s.events + [EventOf(action, session)],
       sent := s.sent + [Packet(OpcodeOf(action), s.peers.Block().value)])
  }

  function Remember(s: Agent, r: CommandResult): Agent {
    s.(cache := Stored(s.cache, CACHE_SIZE, r), stored := s.stored + [r])
  }

  /** A command that is not a repetition: the machine first, then the packet, then the rest. */
  function Perform(s: Agent, action: Action, id: Data, now: int, o: Outcome): (Agent, CommandResult) {
    var refusal := CommandRefusal(s, action, now);
    if refusal.Some? then (s, Rejected(id, refusal.value)) else
    var t := s.(machine := Apply(s.policy, s.machine, OpOf(action, now)));
    if !GetsOut(s, o) then (t, Rejected(id, AgentOffline))
    else (Announce(t, action, s.machine.sessionId, o), Accepted(id))
  }

  function Execute(s: Agent, action: Action, id: Data, now: int, o: Outcome): (Agent, CommandResult) {
    var replay := Found(s.cache, id);
    if replay.Some? then (s, replay.value)
    else
      var (t, result) := Perform(s, action, id, now, o);
      (Remember(t, result), result)
  }

  // ------------------------------------------------------------------- runs

  function Step(s: Agent, i: Input, o: Outcome): Agent {
    match i
    case Seen(sighting) => s.(peers := See(s.peers, sighting).0)
    case FromWire(side, opcode, block) => OnWire(s, side, opcode, block, o)
    case Command(action, id, now) => Execute(s, action, id, now, o).0
  }

  datatype Turn = Turn(input: Input, outcome: Outcome)

  function RunTurns(s: Agent, turns: seq<Turn>): Agent {
    if turns == [] then s
    else Step(RunTurns(s, turns[..|turns| - 1]), turns[|turns| - 1].input, turns[|turns| - 1].outcome)
  }
}
