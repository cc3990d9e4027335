/** The event log and the call: what every run of the agent writes down. */
module AgentLog {
  import opened Bytes
  import opened Protocol
  import opened CommandCache
  import opened CallMachine
  import opened Identity
  import opened AgentModel
  import opened AgentRuns

  /** The events that remote commands cause. */
  predicate ByCommand(e: EventKind) {
    e.RemoteAnswered? || (e.Unlocked? && e.opener == Remote) || (e.CallEnded? && e.reason == RemoteHangup)
  }

  /** The event a step logs, if any. */
  lemma StepLogsOne(s: Agent, i: Input, o: Outcome) returns (e: EventKind)
    ensures var t := Step(s, i, o);
            t.events == s.events || t.events == s.events + [e]
    ensures Step(s, i, o).events != s.events && !i.Command? ==> !ByCommand(e)
  {
    var t := Step(s, i, o);
    e := if |t.events| > |s.events| then t.events[|s.events|] else CallStarted(0, [], []);
  }

  datatype Account = Account(phase: CallPhase, owner: Owner, sessionId: nat)

  /** The grammar of calls: started, answered at most once, ended, with consecutive numbers. */
  function Follow(a: Account, e: EventKind): Option<Account> {
    match e
    case CallStarted(id, _, _) =>
      if a.phase == Idle && id == a.sessionId + 1 then Some(Account(Ringing, Nobody, id)) else None
    case PadAnswered(id) =>
      if a.phase == Ringing && id == a.sessionId then Some(Account(Connected, Pad, id)) else None
    case RemoteAnswered(id) =>
      if a.phase == Ringing && id == a.sessionId then Some(Account(Connected, Remote, id)) else None
    case Unlocked(id, opener) =>
      if id == a.sessionId && opener != Nobody && (opener == Pad ==> a.owner == Pad) then Some(a) else None
    case CallEnded(id, _) =>
      if a.phase != Idle && id == a.sessionId then Some(Account(Idle, Nobody, id)) else None
  }

  /** Folding the log; None when it breaks the grammar. */
  function Tally(events: seq<EventKind>): Option<Account> {
    if events == [] then Some(Account(Idle, Nobody, 0)) else
    var before := Tally(events[..|events| - 1]);
    if before.None? then None else Follow(before.value, events[|events| - 1])
  }

  lemma TallySnoc(events: seq<EventKind>, e: EventKind)
    ensures Tally(events + [e]) == if Tally(events).None? then None else Follow(Tally(events).value, e)
  {
    assert (events + [e])[..|events|] == events;
  }

  /** The log obeys the grammar and its fold is the machine's phase, owner and session. */
  ghost predicate Tracks(s: Agent) {
    && Consistent(s.machine)
    && s.nextSession == s.machine.sessionId + 1
    && Tally(s.events) == Some(Account(s.machine.phase, s.machine.owner, s.machine.sessionId))
  }

  /** A claim or hangup that the machine carries out although its packet does not get out. */
  ghost predicate Unannounced(s: Agent, i: Input, o: Outcome) {
    && i.Command? && i.action != OpenDoor
    && Found(s.cache, i.id).None?
    && CommandRefusal(s, i.action, i.now).None?
    && !GetsOut(s, o)
  }

  /** The exact condition, step by step: the log goes on determining the call if and only if the
      step is not a claim or hangup whose packet failed. */
  lemma StepTracks(s: Agent, i: Input, o: Outcome)
    requires Tracks(s)
    ensures Tracks(Step(s, i, o)) <==> !Unannounced(s, i, o)
  {
    var e := StepLogsOne(s, i, o);
    TallySnoc(s.events, e);
    match i
    case Seen(_) =>
    case FromWire(side, opcode, block) => WireTracks(s, side, opcode, block, o);
    case Command(action, id, now) => CommandTracks(s, action, id, now, o);
  }

  lemma WireTracks(s: Agent, side: Side, opcode: U32, block: Endpoints, o: Outcome)
    requires Tracks(s)
    ensures Tracks(OnWire(s, side, opcode, block, o))
  {
    var t := s.(peers := AcceptEndpoints(s.peers, block).0);
    StartTracks(t, block);
    AnswerTracks(t);
    UnlockTracks(t);
    HangupTracks(t, o);
  }

  lemma StartTracks(s: Agent, block: Endpoints)
    requires Tracks(s)
    ensures Tracks(OnCallStarted(s, block))
  {
    TallySnoc(s.events, CallStarted(s.nextSession, block.door.id, block.room.id));
  }

  lemma AnswerTracks(s: Agent)
    requires Tracks(s)
    ensures Tracks(OnPadAnswer(s))
  {
    TallySnoc(s.events, PadAnswered(s.machine.sessionId));
  }

  lemma UnlockTracks(s: Agent)
    requires Tracks(s)
    ensures Tracks(OnPadUnlock(s))
  {
    TallySnoc(s.events, Unlocked(s.machine.sessionId, Pad));
  }

  lemma HangupTracks(s: Agent, o: Outcome)
    requires Tracks(s)
    ensures Tracks(OnWireHangup(s, o))
  {
    TallySnoc(s.events, CallEnded(s.machine.sessionId, WireHangup));
  }

  lemma CommandTracks(s: Agent, action: Action, id: Data, now: int, o: Outcome)
    requires Tracks(s)
    ensures Tracks(Execute(s, action, id, now, o).0) <==> !Unannounced(s, Command(action, id, now), o)
  {
    if Found(s.cache, id).None? {
      PerformTracks(s, action, id, now, o);
      RememberTracks(Perform(s, action, id, now, o).0, Perform(s, action, id, now, o).1);
    }
  }

  lemma RememberTracks(s: Agent, r: CommandResult)
    ensures Tracks(Remember(s, r)) <==> Tracks(s)
  {
  }

  lemma PerformTracks(s: Agent, action: Action, id: Data, now: int, o: Outcome)
    requires Tracks(s)
    ensures Tracks(Perform(s, action, id, now, o).0)
       <==> action == OpenDoor || CommandRefusal(s, action, now).Some? || GetsOut(s, o)
  {
    TallySnoc(s.events, EventOf(action, s.machine.sessionId));
  }

  /** Over whole runs: the log determines the call at every moment if and only if no claim or
      hangup of the run failed to get out. */
  lemma LogDeterminesTheCall(s: Agent, turns: seq<Turn>)
    requires Tracks(s)
    ensures Always(s, turns, Tracks) <==> Never(s, turns, Unannounced)
  {
    forall t, i, o | Tracks(t) ensures Tracks(Step(t, i, o)) <==> !Unannounced(t, i, o) {
      StepTracks(t, i, o);
    }
    StepwiseExact(s, turns, Tracks, Unannounced);
  }

  /** A run that makes them differ, from any boot with a known door: a ring, and a claim whose
      packet fails. The machine is connected while the log still tells of a ringing call. */
  lemma LogCanDiverge(policy: Policy, peers: Peers, id: Data) returns (turns: seq<Turn>)
    requires peers.door.Some?
    ensures var t := RunTurns(Boot(policy, peers), turns);
            && t.machine.phase == Connected && t.machine.owner == Remote
            && Tally(t.events) == Some(Account(Ringing, Nobody, 1)) && !Tracks(t)
  {
    var block := peers.Block().value;
    var ring := Turn(FromWire(DoorSide, OP_REQUEST, block), Outcome(true, true, true, true));
    var claim := Turn(Command(Claim, id, 0), Outcome(false, true, true, true));
    turns := [ring, claim];
    TwoTurns(Boot(policy, peers), ring, claim);
    RingStarts(Boot(policy, peers), block, ring.outcome);
    TallySnoc([], CallStarted(1, block.door.id, block.room.id));
  }

  lemma RingStarts(s: Agent, block: Endpoints, o: Outcome)
    requires s.peers.Block() == Some(block) && s.machine.phase == Idle
    ensures Step(s, FromWire(DoorSide, OP_REQUEST, block), o) == OnCallStarted(s, block)
  {
    AcceptedIffAgrees(s.peers, block);
    assert AcceptEndpoints(s.peers, block).0.Block() == Some(block);
  }

  predicate IsAnswer(e: EventKind) { e.PadAnswered? || e.RemoteAnswered? }

  /** A prefix of a grammatical log is grammatical. */
  lemma {:induction false} TallyPrefix(events: seq<EventKind>, n: nat)
    requires Tally(events).Some? && n <= |events|
    ensures Tally(events[..n]).Some?
    ensures n < |events| ==> Tally(events[..n + 1]).Some? && Tally(events[..n + 1]) == Follow(Tally(events[..n]).value, events[n])
    decreases |events|
  {
    if n < |events| {
      var init := events[..|events| - 1];
      TallySnoc(events[..n], events[n]);
      assert events[..n + 1] == events[..n] + [events[n]];
      if n < |init| {
        TallyPrefix(init, n);
        assert init[..n] == events[..n] && init[..n + 1] == events[..n + 1];
      } else {
        assert events[..n] == init && events[..n + 1] == events;
      }
    } else {
      assert events[..n] == events;
    }
  }

  /** Between two moments of a log a phase can only change through its own event. */
  lemma {:induction false} PhasePersists(events: seq<EventKind>, i: nat, j: nat)
    requires Tally(events).Some? && i <= j <= |events|
    ensures Tally(events[..i]).Some? && Tally(events[..j]).Some?
    ensures Tally(events[..i]).value.sessionId <= Tally(events[..j]).value.sessionId
    ensures Tally(events[..i]).value.phase == Connected && (forall k | i <= k < j :: !events[k].CallEnded?)
            ==> Tally(events[..j]).value.phase == Connected
    ensures Tally(events[..i]).value.phase == Idle && (forall k | i <= k < j :: !events[k].CallStarted?)
            ==> Tally(events[..j]).value.phase == Idle
    ensures Tally(events[..i]).value.phase != Idle && (forall k | i <= k < j :: !events[k].CallEnded?)
            ==> Tally(events[..j]).value.phase != Idle
    decreases j - i
  {
    if i == j {
      TallyPrefix(events, i);
    } else {
      PhasePersists(events, i, j - 1);
      TallyPrefix(events, j - 1);
      FollowKeeps(Tally(events[..j - 1]).value, events[j - 1]);
    }
  }

  /** What one event can do to a phase. */
  lemma FollowKeeps(a: Account, e: EventKind)
    requires Follow(a, e).Some?
    ensures var b := Follow(a, e).value;
            && a.sessionId <= b.sessionId
            && (a.phase == Connected && !e.CallEnded? ==> b.phase == Connected)
            && (a.phase == Idle && !e.CallStarted? ==> b.phase == Idle)
            && (a.phase != Idle && !e.CallEnded? ==> b.phase != Idle)
  {
  }

  /** In every run whose claims and hangups get out, a call ends before the next one starts. */
  lemma CallsAreSeparated(policy: Policy, peers: Peers, turns: seq<Turn>, i: nat, j: nat) returns (k: nat)
    requires Never(Boot(policy, peers), turns, Unannounced)
    requires var events := RunTurns(Boot(policy, peers), turns).events;
             i < j < |events| && events[i].CallStarted? && events[j].CallStarted?
    ensures i < k < j && RunTurns(Boot(policy, peers), turns).events[k].CallEnded?
  {
    var events := RunTurns(Boot(policy, peers), turns).events;
    LogDeterminesTheCall(Boot(policy, peers), turns);
    assert Tracks(RunTurns(Boot(policy, peers), turns));
    TallyPrefix(events, i);
    TallyPrefix(events, j);
    PhasePersists(events, i + 1, j);
    k :| i < k < j && events[k].CallEnded?;
  }

  // --------------------------------------------------- what the Pad does is noticed

  /** The Pad's answer to a ringing call is taken: the call is connected, the Pad owns it, the log says
      so, and a remote claim that follows is refused. */
  lemma PadAnswerIsTaken(s: Agent, e: Endpoints, o: Outcome, id: Data, now: int, o': Outcome)
    requires Consistent(s.machine) && s.machine.phase == Ringing && Acceptable(s.peers, e)
    requires Found(s.cache, id).None?
    ensures var t := Step(s, FromWire(PadSide, OP_ANSWER, e), o);
            && t.machine == s.machine.(phase := Connected, owner := Pad)
            && t.events == s.events + [PadAnswered(s.machine.sessionId)]
            && Execute(t, Claim, id, now, o').1 == Rejected(id, NotRinging)
            && Execute(t, Claim, id, now, o').0.machine == t.machine
  {
    AcceptedIffAgrees(s.peers, e);
  }

  /** In any run after it, until a hangup or a new call, every new claim is refused. */
  lemma {:induction false} ConnectedCallStays(s: Agent, turns: seq<Turn>)
    requires s.machine.phase == Connected
    requires Never(s, turns, EndsOrStarts)
    ensures var t := RunTurns(s, turns);
            t.machine.phase == Connected && t.machine.owner == s.machine.owner && t.machine.sessionId == s.machine.sessionId
  {
    if turns != [] {
      var init, last := turns[..|turns| - 1], turns[|turns| - 1];
      ConnectedCallStays(s, init);
      ConnectedStep(RunTurns(s, init), last.input, last.outcome);
    }
  }

  /** A hangup is heard or commanded; a ring in a connected call changes nothing. */
  ghost predicate EndsOrStarts(s: Agent, i: Input, o: Outcome) {
    match i
    case Seen(_) => false
    case FromWire(_, opcode, e) => opcode == OP_HANGUP && Acceptable(s.peers, e)
    case Command(action, _, _) => action == HangUp
  }

  lemma ConnectedStep(s: Agent, i: Input, o: Outcome)
    requires s.machine.phase == Connected && !EndsOrStarts(s, i, o)
    ensures var t := Step(s, i, o);
            t.machine.phase == Connected && t.machine.owner == s.machine.owner && t.machine.sessionId == s.machine.sessionId
  {
    if i.FromWire? {
      AcceptedIffAgrees(s.peers, i.block);
    }
  }

  /** A Pad that owns the call and opens the door itself is logged; in any other call nothing is. */
  lemma PadUnlockIsLogged(s: Agent, e: Endpoints, o: Outcome)
    requires Acceptable(s.peers, e)
    ensures Step(s, FromWire(PadSide, OP_UNLOCK, e), o).events
         == if s.machine.owner == Pad then s.events + [Unlocked(s.machine.sessionId, Pad)] else s.events
  {
    AcceptedIffAgrees(s.peers, e);
  }

  /** A ring starts a call exactly when none is on, and the log names the two stations. */
  lemma RingIsLogged(s: Agent, e: Endpoints, o: Outcome)
    requires Acceptable(s.peers, e)
    ensures var t := Step(s, FromWire(DoorSide, OP_REQUEST, e), o);
            t.events == (if s.machine.phase == Idle
                         then s.events + [CallStarted(s.nextSession, e.door.id, e.room.id)] else s.events)
            && (t.machine.phase == Ringing <==> s.machine.phase == Idle || s.machine.phase == Ringing)
  {
    AcceptedIffAgrees(s.peers, e);
  }

  /** A hangup from either side ends any call and is logged exactly if there was one. */
  lemma HangupIsHeard(s: Agent, side: Side, e: Endpoints, o: Outcome)
    requires Acceptable(s.peers, e)
    ensures var t := Step(s, FromWire(side, OP_HANGUP, e), o);
            && t.machine.phase == Idle && t.machine.owner == Nobody && t.machine.lastUnlock.None?
            && t.events == (if s.machine.phase == Idle then s.events
                            else s.events + [CallEnded(s.machine.sessionId, WireHangup)])
  {
    AcceptedIffAgrees(s.peers, e);
  }

  /** Every other message, and every message whose block is refused, changes nothing but what is known
      of the stations. */
  lemma OtherMessagesAreIgnored(s: Agent, side: Side, opcode: U32, e: Endpoints, o: Outcome)
    requires !Acceptable(s.peers, e)
          || !((opcode == 0x01 && side.DoorSide?) || (opcode == 0x05 && side.PadSide?)
               || (opcode == 0x06 && side.PadSide?) || opcode == 0x1e)
    ensures var t := Step(s, FromWire(side, opcode, e), o); t == s.(peers := t.peers)
  {
    AcceptedIffAgrees(s.peers, e);
  }

  /** Only messages of the family B7 take part. */
  lemma OnlySessionMessages(raw: Data)
    requires SessionBlock(raw).Some?
    ensures |raw| >= 80 && raw[8] == 0xb7 && raw[9] == 0x00
    ensures SessionBlock(raw).value.0 == FromLe32(raw[10], raw[11], raw[12], raw[13])
  {
  }

  /** Every call in the log names this household's stations. */
  ghost predicate RingsNameTheHouse(s: Agent) {
    forall i | 0 <= i < |s.events| && s.events[i].CallStarted? ::
      && s.events[i].roomId == s.peers.room.id && s.peers.door.Some?
      && (s.events[i].doorId != [] ==> s.events[i].doorId == s.peers.door.value.id)
  }

  lemma StepRings(s: Agent, i: Input, o: Outcome)
    requires RingsNameTheHouse(s)
    ensures RingsNameTheHouse(Step(s, i, o))
  {
    match i
    case Seen(sighting) => SeeKeeps(s.peers, sighting);
    case FromWire(side, opcode, block) =>
      SeeKeeps(s.peers, Session(block));
      AcceptedIffAgrees(s.peers, block);
      RingsStay(s, AcceptEndpoints(s.peers, block).0);
      WireRings(s.(peers := AcceptEndpoints(s.peers, block).0), side, opcode, block, o);
    case Command(action, id, now) => CommandRings(s, action, id, now, o);
  }

  lemma RingsStay(s: Agent, peers: Peers)
    requires RingsNameTheHouse(s) && Keeps(s.peers, peers)
    ensures RingsNameTheHouse(s.(peers := peers))
  {
  }

  /** Once the block is accepted, or refused. */
  lemma WireRings(s: Agent, side: Side, opcode: U32, e: Endpoints, o: Outcome)
    requires RingsNameTheHouse(s)
    ensures RingsNameTheHouse(OnPadAnswer(s)) && RingsNameTheHouse(OnPadUnlock(s)) && RingsNameTheHouse(OnWireHangup(s, o))
    ensures s.peers.Block() == Some(e) ==> RingsNameTheHouse(OnCallStarted(s, e))
  {
  }

  lemma CommandRings(s: Agent, action: Action, id: Data, now: int, o: Outcome)
    requires RingsNameTheHouse(s)
    ensures RingsNameTheHouse(Execute(s, action, id, now, o).0)
  {
  }

  lemma RunRings(policy: Policy, peers: Peers, turns: seq<Turn>)
    ensures RingsNameTheHouse(RunTurns(Boot(policy, peers), turns))
  {
    forall t, i, o | RingsNameTheHouse(t) ensures RingsNameTheHouse(Step(t, i, o)) {
      StepRings(t, i, o);
    }
    StepwiseKept(Boot(policy, peers), turns, RingsNameTheHouse);
  }

  // ------------------------------------------- what holds whether or not sends succeed

  /** The call that was started last has been answered. */
  predicate Answered(events: seq<EventKind>) {
    events != [] &&
    var last := events[|events| - 1];
    !last.CallStarted? && (IsAnswer(last) || Answered(events[..|events| - 1]))
  }

  /** No call is answered twice. */
  predicate OneAnswerEach(events: seq<EventKind>) {
    events != [] ==>
      var init, last := events[..|events| - 1], events[|events| - 1];
      OneAnswerEach(init) && (IsAnswer(last) ==> !Answered(init))
  }

  ghost predicate AnswersOnce(s: Agent) {
    OneAnswerEach(s.events) && (s.machine.phase == Ringing ==> !Answered(s.events))
  }

  lemma AnswerSnoc(events: seq<EventKind>, e: EventKind)
    ensures Answered(events + [e]) <==> !e.CallStarted? && (IsAnswer(e) || Answered(events))
    ensures OneAnswerEach(events + [e]) <==> OneAnswerEach(events) && (IsAnswer(e) ==> !Answered(events))
  {
    assert (events + [e])[..|events|] == events;
  }

  lemma StepAnswersOnce(s: Agent, i: Input, o: Outcome)
    requires AnswersOnce(s)
    ensures AnswersOnce(Step(s, i, o))
  {
    var e := StepLogsOne(s, i, o);
    StepAnswers(s, i, o);
    AnsweredNext(s, Step(s, i, o), e);
  }

  /** An answer takes the machine out of ringing, and only a new call takes it there. */
  ghost predicate AnswersRingingOnly(s: Agent, t: Agent) {
    && |s.events| <= |t.events|
    && (t.events != s.events && IsAnswer(t.events[|t.events| - 1]) ==>
          s.machine.phase == Ringing && t.machine.phase != Ringing)
    && (t.machine.phase == Ringing && s.machine.phase != Ringing ==>
          t.events != s.events && t.events[|t.events| - 1].CallStarted?)
  }

  lemma StepAnswers(s: Agent, i: Input, o: Outcome)
    ensures AnswersRingingOnly(s, Step(s, i, o))
  {
  }

  lemma AnsweredNext(s: Agent, t: Agent, e: EventKind)
    requires AnswersOnce(s) && AnswersRingingOnly(s, t) && (t.events == s.events || t.events == s.events + [e])
    ensures AnswersOnce(t)
  {
    AnswerSnoc(s.events, e);
  }

  /** First answer wins, in every run, failures included: between two answers a new call starts. */
  lemma AnswersAreSeparated(policy: Policy, peers: Peers, turns: seq<Turn>, i: nat, j: nat) returns (k: nat)
    requires var events := RunTurns(Boot(policy, peers), turns).events;
             i < j < |events| && IsAnswer(events[i]) && IsAnswer(events[j])
    ensures i < k < j && RunTurns(Boot(policy, peers), turns).events[k].CallStarted?
  {
    forall t, i, o | AnswersOnce(t) ensures AnswersOnce(Step(t, i, o)) {
      StepAnswersOnce(t, i, o);
    }
    StepwiseKept(Boot(policy, peers), turns, AnswersOnce);
    k := StartBetween(RunTurns(Boot(policy, peers), turns).events, i, j);
  }

  lemma {:induction false} StartBetween(events: seq<EventKind>, i: nat, j: nat) returns (k: nat)
    requires OneAnswerEach(events) && i < j < |events| && IsAnswer(events[i]) && IsAnswer(events[j])
    ensures i < k < j && events[k].CallStarted?
    decreases |events|
  {
    var init := events[..|events| - 1];
    if j < |init| {
      k := StartBetween(init, i, j);
    } else {
      k := LastStart(init, i);
    }
  }

  lemma {:induction false} LastStart(events: seq<EventKind>, i: nat) returns (k: nat)
    requires i < |events| && IsAnswer(events[i]) && !Answered(events)
    ensures i < k < |events| && events[k].CallStarted?
  {
    var n := |events| - 1;
    if events[n].CallStarted? {
      k := n;
    } else {
      k := LastStart(events[..n], i);
    }
  }

  /** Calls are numbered upwards, below the next number to be given out. */
  ghost predicate Numbering(s: Agent) {
    && (forall i | 0 <= i < |s.events| && s.events[i].CallStarted? :: s.events[i].sessionId < s.nextSession)
    && forall i, j | 0 <= i < j < |s.events| && s.events[i].CallStarted? && s.events[j].CallStarted? ::
         s.events[i].sessionId < s.events[j].sessionId
  }

  lemma StepNumbers(s: Agent, i: Input, o: Outcome)
    requires Numbering(s)
    ensures Numbering(Step(s, i, o))
  {
    var e := StepLogsOne(s, i, o);
    StepNumbersNext(s, i, o);
    NumberedNext(s, Step(s, i, o), e);
  }

  /** A new call gets the next number. */
  ghost predicate NumbersNext(s: Agent, t: Agent) {
    && s.nextSession <= t.nextSession && |s.events| <= |t.events|
    && (t.events != s.events && t.events[|t.events| - 1].CallStarted? ==>
          t.events[|t.events| - 1].sessionId == s.nextSession < t.nextSession)
  }

  lemma StepNumbersNext(s: Agent, i: Input, o: Outcome)
    requires var t := Step(s, i, o); |s.events| <= |t.events|
    ensures NumbersNext(s, Step(s, i, o))
  {
  }

  lemma NumberedNext(s: Agent, t: Agent, e: EventKind)
    requires Numbering(s) && NumbersNext(s, t) && (t.events == s.events || t.events == s.events + [e])
    ensures Numbering(t)
  {
  }

  /** In every run session numbers strictly increase, so a retransmitted ring never starts a call
      under a number that was used before. */
  lemma SessionsIncrease(policy: Policy, peers: Peers, turns: seq<Turn>, i: nat, j: nat)
    requires var events := RunTurns(Boot(policy, peers), turns).events;
             i < j < |events| && events[i].CallStarted? && events[j].CallStarted?
    ensures var events := RunTurns(Boot(policy, peers), turns).events; events[i].sessionId < events[j].sessionId
  {
    forall t, i, o | Numbering(t) ensures Numbering(Step(t, i, o)) {
      StepNumbers(t, i, o);
    }
    StepwiseKept(Boot(policy, peers), turns, Numbering);
  }
}
