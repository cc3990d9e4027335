/** What keeps the house usable: the Pad is silenced only for the remote side's call, the door is
    opened only as the policy says, and nothing known about the household changes. */
module AgentSafety {
  import opened Bytes
  import opened Protocol
  import opened CommandCache
  import opened CallMachine
  import opened Identity
  import opened AgentModel
  import opened AgentRuns

  // -------------------------------------------------------- fail-open silencing

  /** The Pad is silenced only while the remote side holds an answered call. */
  ghost predicate FailsOpen(s: Agent) {
    s.silenced ==> RemoteOwned(s.machine)
  }

  ghost predicate Orderly(s: Agent) { Consistent(s.machine) && FailsOpen(s) }

  /** A hangup that is carried out: on the wire in a block that is accepted, or a new command in a
      call, with the door known. */
  ghost predicate HangsUp(s: Agent, i: Input) {
    && s.machine.phase != Idle
    && match i
       case Seen(_) => false
       case FromWire(_, opcode, block) => opcode == OP_HANGUP && Acceptable(s.peers, block)
       case Command(action, id, _) => action == HangUp && Found(s.cache, id).None? && s.peers.Block().Some?
  }

  /** It also gets to remove the table: the command's packet gets out, and the removal works. */
  ghost predicate Restores(s: Agent, i: Input, o: Outcome) {
    HangsUp(s, i) && o.flushes && (i.Command? ==> GetsOut(s, o))
  }

  /** A hangup is carried out while the table is installed, and does not get to remove it. */
  ghost predicate LeavesTable(s: Agent, i: Input, o: Outcome) {
    s.silenced && HangsUp(s, i) && !Restores(s, i, o)
  }

  /** The exact condition, step by step: silencing stays confined to the remote owner's call if
      and only if no hangup fails to remove the table. */
  lemma StepFailsOpen(s: Agent, i: Input, o: Outcome)
    requires Orderly(s)
    ensures Orderly(Step(s, i, o)) <==> !LeavesTable(s, i, o)
  {
    if i.FromWire? {
      AcceptedIffAgrees(s.peers, i.block);
    }
  }

  /** Over whole runs: the Pad is at every moment silenced only for the remote side's call if and
      only if no hangup of the run fails to remove the table. */
  lemma RunFailsOpen(s: Agent, turns: seq<Turn>)
    requires Orderly(s)
    ensures Always(s, turns, Orderly) <==> Never(s, turns, LeavesTable)
  {
    forall t, i, o | Orderly(t) ensures Orderly(Step(t, i, o)) <==> !LeavesTable(t, i, o) {
      StepFailsOpen(t, i, o);
    }
    StepwiseExact(s, turns, Orderly, LeavesTable);
  }

  /** The table goes in exactly one kind of step: a hangup of an active call that gets to remove
      it. In particular no hangup between calls removes one that was left behind. */
  lemma TableGoesIff(s: Agent, i: Input, o: Outcome)
    requires s.silenced
    ensures !Step(s, i, o).silenced <==> Restores(s, i, o)
  {
    if i.FromWire? {
      AcceptedIffAgrees(s.peers, i.block);
    }
  }

  ghost predicate Silenced(s: Agent) { s.silenced }

  /** A table that is there stays all along a run if and only if the run has no such hangup. */
  lemma TableStaysIff(s: Agent, turns: seq<Turn>)
    requires s.silenced
    ensures Always(s, turns, Silenced) <==> Never(s, turns, Restores)
  {
    forall t, i, o | Silenced(t) ensures Silenced(Step(t, i, o)) <==> !Restores(t, i, o) {
      TableGoesIff(t, i, o);
    }
    StepwiseExact(s, turns, Silenced, Restores);
  }

  /** A run that leaves the table behind, from any boot that knows every address: a ring, a claim,
      and a hangup whose packet fails. The call is over and the Pad still silenced. */
  lemma LeftoverTableIsReachable(policy: Policy, peers: Peers, id: Data, id': Data) returns (turns: seq<Turn>)
    requires peers.door.Some? && !peers.door.value.ip.Unspecified() && !peers.room.ip.Unspecified()
    requires peers.doorMac.Some? && peers.padMac.Some? && peers.Block().value.Packable() && id != id'
    ensures var t := RunTurns(Boot(policy, peers), turns);
            t.silenced && t.machine.phase == Idle && !Orderly(t)
  {
    var block, works := peers.Block().value, Outcome(true, true, true, true);
    var ring := Turn(FromWire(DoorSide, OP_REQUEST, block), works);
    var claim := Turn(Command(Claim, id, 0), works);
    var hangup := Turn(Command(HangUp, id', 0), works.(sends := false));
    turns := [ring, claim, hangup];
    TwoTurns(Boot(policy, peers), ring, claim);
    ThreeTurns(Boot(policy, peers), ring, claim, hangup);
    RingStartsCall(Boot(policy, peers), block, works);
    ClaimSilences(RunTurns(Boot(policy, peers), [ring]), id, works);
    var s := RunTurns(Boot(policy, peers), [ring, claim]);
    FailedHangupLeaves(s, id', hangup.outcome);
  }

  lemma RingStartsCall(s: Agent, block: Endpoints, o: Outcome)
    requires s.peers.Block() == Some(block) && s.machine.phase == Idle
    ensures var t := Step(s, FromWire(DoorSide, OP_REQUEST, block), o);
            && t.peers == s.peers && t.cache == s.cache && t.machine.phase == Ringing && t.machine.owner == Nobody
  {
    AcceptedIffAgrees(s.peers, block);
  }

  lemma ClaimSilences(s: Agent, id: Data, o: Outcome)
    requires s.machine.phase == Ringing && s.machine.owner == Nobody && s.cache.results == map[] && s.cache.queue == []
    requires s.peers.door.Some? && !s.peers.door.value.ip.Unspecified() && !s.peers.room.ip.Unspecified()
    requires s.peers.doorMac.Some? && s.peers.padMac.Some? && s.peers.Block().value.Packable()
    requires o.sends && o.installs
    ensures var t := Step(s, Command(Claim, id, 0), o);
            && t.peers == s.peers && t.silenced && RemoteOwned(t.machine)
            && forall other | other != id :: Found(t.cache, other).None?
  {
  }

  lemma FailedHangupLeaves(s: Agent, id: Data, o: Outcome)
    requires s.silenced && RemoteOwned(s.machine) && s.peers.door.Some? && Found(s.cache, id).None? && !o.sends
    ensures var t := Step(s, Command(HangUp, id, 0), o); t.silenced && t.machine.phase == Idle
  {
  }

  // ------------------------------------------------------- resets towards the Pad

  /** The blocks of the claims that got out. */
  function Claims(sent: seq<Packet>): seq<Endpoints> {
    if sent == [] then []
    else Claims(sent[..|sent| - 1]) +
         if sent[|sent| - 1].opcode == OP_ANSWER then [sent[|sent| - 1].block] else []
  }

  /** The Pad is told that its call is over at most once per claim, and in the words of one. */
  ghost predicate ResetsFollowClaims(s: Agent) {
    && |s.resets| <= |Claims(s.sent)|
    && forall e | e in s.resets :: e in Claims(s.sent) && e.Packable()
  }

  lemma ClaimsSnoc(sent: seq<Packet>, p: Packet)
    ensures Claims(sent + [p]) == Claims(sent) + if p.opcode == OP_ANSWER then [p.block] else []
  {
    assert (sent + [p])[..|sent|] == sent;
  }

  lemma StepResets(s: Agent, i: Input, o: Outcome)
    requires ResetsFollowClaims(s)
    ensures ResetsFollowClaims(Step(s, i, o))
  {
    match i
    case Seen(_) =>
    case FromWire(side, opcode, block) => WireResetsNothing(s, side, opcode, block, o);
    case Command(action, id, now) =>
      var t := Execute(s, action, id, now, o).0;
      if t.sent != s.sent {
        ClaimsSnoc(s.sent, Packet(OpcodeOf(action), s.peers.Block().value));
        ClaimResets(s, action, id, now, o);
      }
  }

  lemma WireResetsNothing(s: Agent, side: Side, opcode: U32, block: Endpoints, o: Outcome)
    ensures var t := OnWire(s, side, opcode, block, o); t.sent == s.sent && t.resets == s.resets
  {
  }

  lemma ClaimResets(s: Agent, action: Action, id: Data, now: int, o: Outcome)
    ensures var t := Execute(s, action, id, now, o).0;
            || (t.sent == s.sent && t.resets == s.resets)
            || (s.peers.Block().Some? && s.peers.Block().value.Packable()
                && t.sent == s.sent + [Packet(OpcodeOf(action), s.peers.Block().value)]
                && t.resets == s.resets + if action == Claim && AddressesKnown(s.peers) && o.resets
                                          then [s.peers.Block().value] else [])
  {
  }

  /** A claim that gets out resets the Pad exactly if every address is known and the reset gets out. */
  lemma ClaimResetsThePad(s: Agent, id: Data, now: int, o: Outcome)
    requires Execute(s, Claim, id, now, o).0.sent != s.sent
    ensures var t := Execute(s, Claim, id, now, o).0;
            var known := !s.peers.door.value.ip.Unspecified() && !s.peers.room.ip.Unspecified()
                         && s.peers.doorMac.Some? && s.peers.padMac.Some?;
            && s.peers.door.Some?
            && t.resets == (if known && o.resets then s.resets + [Endpoints(s.peers.door.value, s.peers.room)] else s.resets)
            && t.silenced == (s.silenced || (known && o.installs))
  {
  }

  lemma RunResets(policy: Policy, peers: Peers, turns: seq<Turn>)
    ensures ResetsFollowClaims(RunTurns(Boot(policy, peers), turns))
  {
    forall t, i, o | ResetsFollowClaims(t) ensures ResetsFollowClaims(Step(t, i, o)) {
      StepResets(t, i, o);
    }
    StepwiseKept(Boot(policy, peers), turns, ResetsFollowClaims);
  }

  // ------------------------------------------------------------ opening the door

  /** The step opens the door: an unlock packet goes out. */
  predicate OpensDoor(s: Agent, i: Input, o: Outcome) {
    i.Command? && i.action == OpenDoor && |Step(s, i, o).sent| > |s.sent|
  }

  /** It does so without the remote side holding an answered call. */
  ghost predicate OpensUnasked(s: Agent, i: Input, o: Outcome) {
    OpensDoor(s, i, o) && !RemoteOwned(s.machine)
  }

  lemma {:induction false} StrictRunsNeverOpenUnasked(s: Agent, turns: seq<Turn>)
    requires s.policy.requiresAnswer
    ensures RunTurns(s, turns).policy == s.policy && Never(s, turns, OpensUnasked)
  {
    if turns != [] {
      var init, last := turns[..|turns| - 1], turns[|turns| - 1];
      StrictRunsNeverOpenUnasked(s, init);
      StrictStep(RunTurns(s, init), last.input, last.outcome);
    }
  }

  lemma StrictStep(s: Agent, i: Input, o: Outcome)
    requires s.policy.requiresAnswer
    ensures Step(s, i, o).policy == s.policy && !OpensUnasked(s, i, o)
  {
  }

  /** The exact condition for the documented rule: over all runs the door is opened only for the
      remote owner of an answered call if and only if the policy is the strict one. Under the other
      one the first command after boot opens the door with no call at all. */
  lemma UnlockRuleIsExact(policy: Policy, peers: Peers)
    requires peers.Block().Some? && peers.Block().value.Packable()
    ensures policy.requiresAnswer <==> forall turns :: Never(Boot(policy, peers), turns, OpensUnasked)
  {
    var s := Boot(policy, peers);
    if policy.requiresAnswer {
      forall turns ensures Never(s, turns, OpensUnasked) {
        StrictRunsNeverOpenUnasked(s, turns);
      }
    } else {
      var turns := LenientRunOpensUnasked(policy, peers);
    }
  }

  lemma LenientRunOpensUnasked(policy: Policy, peers: Peers) returns (turns: seq<Turn>)
    requires !policy.requiresAnswer && peers.Block().Some? && peers.Block().value.Packable()
    ensures !Never(Boot(policy, peers), turns, OpensUnasked)
  {
    var s, works := Boot(policy, peers), Outcome(true, true, true, true);
    turns := [Turn(Command(OpenDoor, [], 0), works)];
    assert turns[..0] == [];
    FirstCommandOpens(s, works);
  }

  lemma FirstCommandOpens(s: Agent, o: Outcome)
    requires !s.policy.requiresAnswer && s.machine == FRESH && s.cache.results == map[]
    requires GetsOut(s, o)
    ensures OpensUnasked(s, Command(OpenDoor, [], 0), o)
  {
    assert Refusal(s.policy, s.machine, Unlock(0)).None?;
    assert Step(s, Command(OpenDoor, [], 0), o).sent == s.sent + [Packet(OP_UNLOCK, s.peers.Block().value)];
  }

  // ------------------------------------------------------------ how often it opens

  /** The machine accepts an unlock command, whether or not its packet then gets out. */
  predicate Unlocks(s: Agent, i: Input) {
    && i.Command? && i.action == OpenDoor
    && Found(s.cache, i.id).None? && CommandRefusal(s, OpenDoor, i.now).None?
  }

  /** The cooldown starts over: a hangup is carried out, on the wire also between calls, or a call
      starts. */
  ghost predicate StartsOver(s: Agent, i: Input, o: Outcome) {
    match i
    case Seen(_) => false
    case FromWire(side, opcode, block) =>
      && Acceptable(s.peers, block)
      && (opcode == OP_HANGUP || (opcode == OP_REQUEST && side.DoorSide? && s.machine.phase == Idle))
    case Command(_, _, _) => HangsUp(s, i)
  }

  /** The times of the accepted unlock commands of a run. */
  function Opened(s: Agent, turns: seq<Turn>): seq<int> {
    if turns == [] then []
    else
      var init, last := turns[..|turns| - 1], turns[|turns| - 1].input;
      Opened(s, init) + if Unlocks(RunTurns(s, init), last) then [last.now] else []
  }

  /** No unlock command was read off the clock before an earlier one. */
  ghost predicate ClockRuns(s: Agent, turns: seq<Turn>) {
    turns != [] ==>
      var init, last := turns[..|turns| - 1], turns[|turns| - 1].input;
      && ClockRuns(s, init)
      && (last.Command? ==> forall i | 0 <= i < |Opened(s, init)| :: Opened(s, init)[i] <= last.now)
  }

  lemma StepUnlocks(s: Agent, i: Input, o: Outcome)
    requires !StartsOver(s, i, o)
    ensures Step(s, i, o).policy == s.policy
    ensures Step(s, i, o).machine.lastUnlock == if Unlocks(s, i) then Some(i.now) else s.machine.lastUnlock
  {
    if i.FromWire? {
      AcceptedIffAgrees(s.peers, i.block);
    }
  }

  lemma CooldownIsOver(s: Agent, i: Input)
    requires Unlocks(s, i) && s.machine.lastUnlock.Some?
    ensures Since(i.now, s.machine.lastUnlock.value) >= s.policy.cooldown
  {
  }

  /** Accepted unlocks come at least one cooldown apart. */
  lemma {:induction false} RunUnlocksAreSpaced(s: Agent, turns: seq<Turn>)
    requires ClockRuns(s, turns) && Never(s, turns, StartsOver)
    ensures var t, e := Opened(s, turns), RunTurns(s, turns);
            && e.policy == s.policy
            && e.machine.lastUnlock == (if t == [] then s.machine.lastUnlock else Some(t[|t| - 1]))
            && Spaced(t, s.policy.cooldown)
  {
    if turns != [] {
      var init, last := turns[..|turns| - 1], turns[|turns| - 1];
      var e, t := RunTurns(s, init), Opened(s, init);
      RunUnlocksAreSpaced(s, init);
      StepUnlocks(e, last.input, last.outcome);
      if Unlocks(e, last.input) && t != [] {
        CooldownIsOver(e, last.input);
        assert t[|t| - 1] <= last.input.now;
      }
    }
  }

  /** Over any run of the agent without a new call or a hangup, n accepted unlock commands span at
      least n - 1 cooldowns. */
  lemma RunUnlockRateBound(s: Agent, turns: seq<Turn>)
    requires ClockRuns(s, turns) && Never(s, turns, StartsOver)
    ensures var t := Opened(s, turns);
            t != [] ==> t[|t| - 1] - t[0] >= (|t| - 1) * s.policy.cooldown
  {
    RunUnlocksAreSpaced(s, turns);
    Spread(Opened(s, turns), s.policy.cooldown);
  }

  // ------------------------------------------------------------------- identity

  /** No handler ever changes anything known about the household. */
  lemma {:induction false} RunKeepsPeers(s: Agent, turns: seq<Turn>)
    ensures Keeps(s.peers, RunTurns(s, turns).peers)
  {
    if turns != [] {
      var n := |turns| - 1;
      RunKeepsPeers(s, turns[..n]);
      var t := RunTurns(s, turns[..n]);
      match turns[n].input
      case Seen(sighting) => SeeKeeps(t.peers, sighting);
      case FromWire(_, _, block) => SeeKeeps(t.peers, Session(block));
      case Command(_, _, _) =>
    }
  }
}
