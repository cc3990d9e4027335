/** Remote commands over whole runs: what they send, what they log, and that each id counts once. */
module AgentCommands {
  import opened Bytes
  import opened Protocol
  import opened CommandCache
  import opened CallMachine
  import opened Identity
  import opened AgentModel
  import opened AgentRuns
  import opened AgentLog
  import opened AgentSafety

  /** What the run lemmas ask of a starting state holds at boot. */
  lemma BootIsSound(policy: Policy, peers: Peers)
    ensures var s := Boot(policy, peers); Tracks(s) && Orderly(s) && CacheSound(s)
  {
  }

  /** The laws of every run of the agent, from boot: the log determines the call exactly while claims
      and hangups get out, the Pad is silenced only for the remote side's call exactly while hangups
      restore it, the cache holds the newest results, and nothing known is forgotten. */
  lemma EveryRunFromBoot(policy: Policy, peers: Peers, turns: seq<Turn>)
    ensures var s := Boot(policy, peers);
            && (Always(s, turns, Tracks) <==> Never(s, turns, Unannounced))
            && (Always(s, turns, Orderly) <==> Never(s, turns, LeavesTable))
            && CacheSound(RunTurns(s, turns)) && Keeps(peers, RunTurns(s, turns).peers)
  {
    var s := Boot(policy, peers);
    BootIsSound(policy, peers);
    LogDeterminesTheCall(s, turns);
    RunFailsOpen(s, turns);
    RunIsCacheSound(s, turns);
    RunKeepsPeers(s, turns);
  }

  // ------------------------------------------------ commands and events correspond

  function CommandEvents(events: seq<EventKind>): seq<EventKind> {
    if events == [] then []
    else if ByCommand(events[|events| - 1])
    then CommandEvents(events[..|events| - 1]) + [events[|events| - 1]]
    else CommandEvents(events[..|events| - 1])
  }

  /** The opcode of the packet that announces a command event. */
  function Announcement(e: EventKind): U32 {
    if e.RemoteAnswered? then OP_ANSWER else if e.Unlocked? then OP_UNLOCK else OP_HANGUP
  }

  /** The command packets on the wire and the command events in the log match one for one, and
      every packet names the stations of this household as they are pinned. */
  ghost predicate Matched(s: Agent) {
    && |s.sent| == |CommandEvents(s.events)|
    && (forall i | 0 <= i < |s.sent| :: s.sent[i].opcode == Announcement(CommandEvents(s.events)[i]))
    && forall i | 0 <= i < |s.sent| :: Pinned(s.peers, s.sent[i].block)
  }

  lemma CommandEventsSnoc(events: seq<EventKind>, e: EventKind)
    ensures CommandEvents(events + [e]) == if ByCommand(e) then CommandEvents(events) + [e] else CommandEvents(events)
  {
    assert (events + [e])[..|events|] == events;
  }

  /** Every step of every handler, whether its sends succeed or fail, keeps the match. */
  lemma StepMatches(s: Agent, i: Input, o: Outcome)
    requires Matched(s)
    ensures Matched(Step(s, i, o))
  {
    match i
    case Seen(sighting) => SeeKeeps(s.peers, sighting);
    case FromWire(side, opcode, block) => WireMatches(s, side, opcode, block, o);
    case Command(action, id, now) => CommandMatches(s, action, id, now, o);
  }

  lemma WireMatches(s: Agent, side: Side, opcode: U32, block: Endpoints, o: Outcome)
    requires Matched(s)
    ensures Matched(OnWire(s, side, opcode, block, o))
  {
    SeeKeeps(s.peers, Session(block));
    WireSendsNothing(s, side, opcode, block, o);
    var e := StepLogsOne(s, FromWire(side, opcode, block), o);
    CommandEventsSnoc(s.events, e);
  }

  lemma WireSendsNothing(s: Agent, side: Side, opcode: U32, block: Endpoints, o: Outcome)
    ensures var t := OnWire(s, side, opcode, block, o);
            t.sent == s.sent && t.peers == See(s.peers, Session(block)).0
  {
  }

  lemma CommandMatches(s: Agent, action: Action, id: Data, now: int, o: Outcome)
    requires Matched(s)
    ensures Matched(Execute(s, action, id, now, o).0)
  {
    if Found(s.cache, id).None? {
      PerformMatches(s, action, id, now, o);
    }
  }

  lemma PerformMatches(s: Agent, action: Action, id: Data, now: int, o: Outcome)
    requires Matched(s)
    ensures Matched(Perform(s, action, id, now, o).0)
  {
    var t := Perform(s, action, id, now, o).0;
    if t.sent != s.sent {
      var e, p := EventOf(action, s.machine.sessionId), Packet(OpcodeOf(action), s.peers.Block().value);
      OneMoreMatched(s, t, e, p);
    }
  }

  lemma OneMoreMatched(s: Agent, t: Agent, e: EventKind, p: Packet)
    requires Matched(s) && t.peers == s.peers && t.sent == s.sent + [p] && t.events == s.events + [e]
    requires ByCommand(e) && p.opcode == Announcement(e) && Pinned(s.peers, p.block)
    ensures Matched(t)
  {
    CommandEventsSnoc(s.events, e);
  }

  lemma RunMatches(policy: Policy, peers: Peers, turns: seq<Turn>)
    ensures Matched(RunTurns(Boot(policy, peers), turns))
  {
    forall t, i, o | Matched(t) ensures Matched(Step(t, i, o)) {
      StepMatches(t, i, o);
    }
    StepwiseKept(Boot(policy, peers), turns, Matched);
  }

  /** All command packets of a run that name both stations in full name the same two. */
  lemma OneHouseholdPerRun(policy: Policy, peers: Peers, turns: seq<Turn>, i: nat, j: nat)
    requires var sent := RunTurns(Boot(policy, peers), turns).sent;
             i < |sent| && j < |sent| && FullySpecified(sent[i].block) && FullySpecified(sent[j].block)
    ensures var sent := RunTurns(Boot(policy, peers), turns).sent; sent[i].block == sent[j].block
  {
    RunMatches(policy, peers, turns);
    var t := RunTurns(Boot(policy, peers), turns);
    assert Pinned(t.peers, t.sent[i].block) && Pinned(t.peers, t.sent[j].block);
  }

  /** Once the Pad has answered, it owns the call: in any run after that, until a hangup or a new call,
      every new claim is refused and changes nothing. */
  lemma PadKeepsItsCall(s: Agent, e: Endpoints, o: Outcome, turns: seq<Turn>, id: Data, now: int, o': Outcome)
    requires Consistent(s.machine) && s.machine.phase == Ringing && Acceptable(s.peers, e)
    requires var t := Step(s, FromWire(PadSide, OP_ANSWER, e), o);
             Never(t, turns, EndsOrStarts) && Found(RunTurns(t, turns).cache, id).None?
    ensures var u := RunTurns(Step(s, FromWire(PadSide, OP_ANSWER, e), o), turns);
            && u.machine.phase == Connected && u.machine.owner == Pad
            && Execute(u, Claim, id, now, o') == (Remember(u, Rejected(id, NotRinging)), Rejected(id, NotRinging))
  {
    var t := Step(s, FromWire(PadSide, OP_ANSWER, e), o);
    AcceptedIffAgrees(s.peers, e);
    assert t.machine.phase == Connected && t.peers.door.Some?;
    ConnectedCallStays(t, turns);
    RunKeepsPeers(t, turns);
  }

  // ------------------------------------------------------ what the caller is told

  /** A new command is answered with its own id, and ok exactly when its packet went out and its
      event was logged; otherwise nothing was sent or logged. */
  lemma AnswerIsTrue(s: Agent, action: Action, id: Data, now: int, o: Outcome)
    requires Found(s.cache, id).None?
    ensures var (t, r) := Execute(s, action, id, now, o);
            && r.commandId == id && !r.replayed && (r.ok <==> r.error.None?)
            && (r.ok <==> |t.sent| == |s.sent| + 1) && (!r.ok <==> t.sent == s.sent)
            && (r.ok <==> |t.events| == |s.events| + 1) && (!r.ok <==> t.events == s.events)
  {
  }

  /** Which error a refused command is answered with, guard by guard, and that a command passes
      exactly when none of the guards stops it. */
  lemma ErrorsByGuard(s: Agent, action: Action, id: Data, now: int, o: Outcome)
    requires Found(s.cache, id).None? && Consistent(s.machine)
    requires s.machine.lastUnlock.Some? ==> s.machine.lastUnlock.value <= now
    ensures var (t, r) := Execute(s, action, id, now, o);
            var cooling := s.machine.lastUnlock.Some? && now - s.machine.lastUnlock.value < s.policy.cooldown;
            var refused := match action
                           case Claim => if s.machine.phase != Ringing then Some(NotRinging) else None
                           case HangUp => if s.machine.phase == Idle then Some(NoCall) else None
                           case OpenDoor =>
                             if s.policy.requiresAnswer && !RemoteOwned(s.machine) then Some(UnlockNotAllowed)
                             else if cooling then Some(UnlockCooldown)
                             else None;
            r.error == if s.peers.door.None? then Some(NoCall)
                       else if refused.Some? then refused
                       else if |s.peers.door.value.id| > 20 || |s.peers.room.id| > 20 || !o.sends then Some(AgentOffline)
                       else None
  {
  }

  // ----------------------------------------------------------- idempotent commands

  ghost predicate CacheSound(s: Agent) {
    Remembers(s.cache, s.stored, 256)
  }

  /** A command stores its result unless it is a replay, and nothing else stores. */
  lemma StepRemembers(s: Agent, i: Input, o: Outcome)
    ensures var t := Step(s, i, o);
            if i.Command? && Found(s.cache, i.id).None? then
              var r := Execute(s, i.action, i.id, i.now, o).1;
              t.cache == Stored(s.cache, CACHE_SIZE, r) && t.stored == s.stored + [r] && r.commandId == i.id
            else t.cache == s.cache && t.stored == s.stored
  {
  }

  lemma StepStores(s: Agent, i: Input, o: Outcome)
    requires CacheSound(s)
    ensures CacheSound(Step(s, i, o))
    ensures Step(s, i, o).stored == s.stored ||
            (i.Command? && Found(s.cache, i.id).None? && Step(s, i, o).stored == s.stored + [Execute(s, i.action, i.id, i.now, o).1])
  {
    StepRemembers(s, i, o);
    if i.Command? && Found(s.cache, i.id).None? {
      StoredRemembers(s.cache, s.stored, CACHE_SIZE, Execute(s, i.action, i.id, i.now, o).1);
    }
  }

  ghost predicate Extends(longer: seq<CommandResult>, shorter: seq<CommandResult>) {
    && |shorter| <= |longer|
    && forall i | 0 <= i < |shorter| :: longer[i] == shorter[i]
  }

  lemma {:induction false} RunIsCacheSound(s: Agent, turns: seq<Turn>)
    requires CacheSound(s)
    ensures CacheSound(RunTurns(s, turns)) && Extends(RunTurns(s, turns).stored, s.stored)
  {
    if turns != [] {
      var init, last := turns[..|turns| - 1], turns[|turns| - 1];
      RunIsCacheSound(s, init);
      StepStores(RunTurns(s, init), last.input, last.outcome);
    }
  }

  /** Entry i of the store history is the last one under its id. */
  ghost predicate LastUnderId(stored: seq<CommandResult>, i: nat)
    requires i < |stored|
  {
    forall j | i < j < |stored| :: stored[j].commandId != stored[i].commandId
  }

  lemma StepStaysUnique(s: Agent, n: nat, i: Input, o: Outcome)
    requires CacheSound(s) && n < |s.stored| <= n + CACHE_SIZE && LastUnderId(s.stored, n)
    ensures Extends(Step(s, i, o).stored, s.stored) && LastUnderId(Step(s, i, o).stored, n)
  {
    StepRemembers(s, i, o);
    FoundIffRecent(s.cache, s.stored, CACHE_SIZE, n);
  }

  /** While fewer than 256 results are stored after it, an id is not stored again. */
  lemma {:induction false} StaysUnique(s: Agent, n: nat, turns: seq<Turn>)
    requires CacheSound(s) && n < |s.stored| && LastUnderId(s.stored, n)
    requires |RunTurns(s, turns).stored| <= n + CACHE_SIZE
    ensures CacheSound(RunTurns(s, turns)) && Extends(RunTurns(s, turns).stored, s.stored)
    ensures LastUnderId(RunTurns(s, turns).stored, n)
  {
    RunIsCacheSound(s, turns);
    if turns != [] {
      var init, last := turns[..|turns| - 1], turns[|turns| - 1];
      RunIsCacheSound(s, init);
      StepStores(RunTurns(s, init), last.input, last.outcome);
      StaysUnique(s, n, init);
      StepStaysUnique(RunTurns(s, init), n, last.input, last.outcome);
    }
  }

  /** A command id is executed once: after any run in which fewer than 256 results were stored,
      repeating it, with any action, returns the same result flagged as replayed and changes
      nothing at all: no machine state, no packet, no event. */
  lemma RepeatedCommandIsReplayed(
    s: Agent, action: Action, id: Data, now: int, o: Outcome, turns: seq<Turn>,
    action': Action, now': int, o': Outcome)
    requires CacheSound(s) && Found(s.cache, id).None?
    requires var t := Step(s, Command(action, id, now), o);
             |RunTurns(t, turns).stored| < |t.stored| + 256
    ensures var (t, result) := Execute(s, action, id, now, o);
            var u := RunTurns(t, turns);
            Execute(u, action', id, now', o') == (u, result.(replayed := true))
  {
    var (t, result) := Execute(s, action, id, now, o);
    StepStores(s, Command(action, id, now), o);
    StepRemembers(s, Command(action, id, now), o);
    StaysUnique(t, |s.stored|, turns);
    ReplayOf(RunTurns(t, turns), |s.stored|, action', now', o');
  }

  lemma ReplayOf(u: Agent, n: nat, action: Action, now: int, o: Outcome)
    requires CacheSound(u) && n < |u.stored| <= n + CACHE_SIZE && LastUnderId(u.stored, n)
    ensures Execute(u, action, u.stored[n].commandId, now, o) == (u, u.stored[n].(replayed := true))
  {
    FoundIffRecent(u.cache, u.stored, CACHE_SIZE, n);
  }
}
