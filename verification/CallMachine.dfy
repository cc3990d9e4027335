/** Call arbitration (src/state.rs, CallMachine): first answer wins, and unlocking is bounded by a
    cooldown. Times are integers on the machine's monotonic clock. */
module CallMachine {
  import opened Bytes
  import opened CommandCache

  datatype CallPhase = Idle | Ringing | Connected | Ending

  datatype Owner = Nobody | Pad | Remote

  datatype Policy = Policy(cooldown: nat, requiresAnswer: bool)

  datatype Machine = Machine(sessionId: nat, phase: CallPhase, owner: Owner, unlocks: nat, lastUnlock: Option<int>) {
    predicate RemoteMediaAllowed(id: nat) { sessionId == id && phase == Connected && owner == Remote }
  }

  datatype Op =
    | StartCall(id: nat)
    | PadAnswer
    | RemoteAnswer
    | Unlock(now: int)
    | Hangup

  // ------------------------------------------------------------ specification

  const FRESH := Machine(0, Idle, Nobody, 0, None)

  /** Time since an earlier instant, zero when the clock reads earlier still. */
  function Since(now: int, last: int): nat {
    if now >= last then now - last else 0
  }

  /** Why the machine refuses an operation, if it does. */
  function Refusal(p: Policy, m: Machine, op: Op): Option<CallError> {
    match op
    case StartCall(_) => None
    case PadAnswer => if m.phase != Ringing || m.owner == Remote then Some(NotRinging) else None
    case RemoteAnswer =>
      if m.phase != Ringing then Some(NotRinging)
      else if m.owner == Pad then Some(PadOwnsCall)
      else None
    case Unlock(now) =>
      if p.requiresAnswer && (m.phase != Connected || m.owner != Remote) then Some(UnlockNotAllowed)
      else if m.lastUnlock.Some? && Since(now, m.lastUnlock.value) < p.cooldown then Some(UnlockCooldown)
      else None
    case Hangup => None
  }

  /** The machine after an operation; a refused one changes nothing. */
  function Apply(p: Policy, m: Machine, op: Op): Machine {
    if Refusal(p, m, op).Some? then m else
    match op
    case StartCall(id) => Machine(id, Ringing, Nobody, 0, None)
    case PadAnswer => m.(owner := Pad, phase := Connected)
    case RemoteAnswer => m.(owner := Remote, phase := Connected)
    case Unlock(now) => m.(unlocks := m.unlocks + 1, lastUnlock := Some(now))
    case Hangup => m.(phase := Idle, owner := Nobody, lastUnlock := None)
  }

  /** The call has an owner exactly while it is connected. */
  predicate Consistent(m: Machine) {
    && m.phase != Ending
    && (m.owner == Nobody <==> m.phase != Connected)
  }

  lemma ApplyIsConsistent(p: Policy, m: Machine, op: Op)
    requires Consistent(m)
    ensures Consistent(Apply(p, m, op))
  {
  }

  /** When each operation is accepted. Either side's answer is accepted exactly while the call rings,
      and decides who owns it. */
  lemma AnswersAcceptedIff(p: Policy, m: Machine)
    requires Consistent(m)
    ensures Refusal(p, m, PadAnswer).None? <==> m.phase == Ringing
    ensures Refusal(p, m, RemoteAnswer).None? <==> m.phase == Ringing
    ensures m.phase == Ringing ==>
              && Apply(p, m, PadAnswer) == m.(phase := Connected, owner := Pad)
              && Apply(p, m, RemoteAnswer) == m.(phase := Connected, owner := Remote)
  {
  }

  /** An unlock is accepted exactly when the policy allows it to this caller and the last accepted
      one of the call is a full cooldown back; the first one of a call never has to wait. */
  lemma UnlockAcceptedIff(p: Policy, m: Machine, now: int)
    requires m.lastUnlock.Some? ==> m.lastUnlock.value <= now
    ensures Refusal(p, m, Unlock(now)).None? <==>
              && (p.requiresAnswer ==> RemoteOwned(m))
              && (m.lastUnlock.Some? ==> now - m.lastUnlock.value >= p.cooldown)
    ensures Refusal(p, m, Unlock(now)) == Some(UnlockNotAllowed) <==> p.requiresAnswer && !RemoteOwned(m)
    ensures forall id :: Apply(p, m, StartCall(id)).lastUnlock.None?
    ensures Apply(p, m, Hangup).lastUnlock.None? && Apply(p, m, Hangup).phase == Idle
  {
  }

  /** The machine counts the unlocks it accepts. */
  lemma {:induction false} UnlocksAreCounted(p: Policy, m: Machine, ops: seq<Op>)
    requires forall i | 0 <= i < |ops| :: !ops[i].StartCall?
    ensures Run(p, m, ops).unlocks == m.unlocks + |UnlockTimes(p, m, ops)|
    decreases |ops|
  {
    if ops != [] {
      UnlocksAreCounted(p, Apply(p, m, ops[0]), ops[1..]);
    }
  }

  // ------------------------------------------------------------- whole runs

  function Run(p: Policy, m: Machine, ops: seq<Op>): Machine
    decreases |ops|
  {
    if ops == [] then m else Run(p, Apply(p, m, ops[0]), ops[1..])
  }

  lemma {:induction false} RunIsConsistent(p: Policy, m: Machine, ops: seq<Op>)
    requires Consistent(m)
    ensures Consistent(Run(p, m, ops))
    decreases |ops|
  {
    if ops != [] {
      ApplyIsConsistent(p, m, ops[0]);
      RunIsConsistent(p, Apply(p, m, ops[0]), ops[1..]);
    }
  }

  /** First answer wins: once a call is connected, no run without a hangup or a new call changes
      who owns it or which call it is. */
  lemma {:induction false} FirstAnswerWins(p: Policy, m: Machine, ops: seq<Op>)
    requires m.phase == Connected
    requires forall i | 0 <= i < |ops| :: !ops[i].Hangup? && !ops[i].StartCall?
    ensures var e := Run(p, m, ops); e.phase == Connected && e.owner == m.owner && e.sessionId == m.sessionId
    decreases |ops|
  {
    if ops != [] {
      FirstAnswerWins(p, Apply(p, m, ops[0]), ops[1..]);
    }
  }

  /** The times at which unlocks were accepted. */
  function UnlockTimes(p: Policy, m: Machine, ops: seq<Op>): seq<int>
    decreases |ops|
  {
    if ops == [] then []
    else
      var rest := UnlockTimes(p, Apply(p, m, ops[0]), ops[1..]);
      if ops[0].Unlock? && Refusal(p, m, ops[0]).None? then [ops[0].now] + rest else rest
  }

  /** The clock never runs backwards, starting from the last unlock. */
  ghost predicate Monotonic(last: Option<int>, ops: seq<Op>)
    decreases |ops|
  {
    ops == [] ||
    (match ops[0]
     case Unlock(now) => (last.Some? ==> last.value <= now) && Monotonic(Some(now), ops[1..])
     case _ => Monotonic(last, ops[1..]))
  }

  lemma {:induction false} MonotonicEarlier(last: Option<int>, earlier: Option<int>, ops: seq<Op>)
    requires Monotonic(last, ops)
    requires earlier.Some? ==> last.Some? && earlier.value <= last.value
    ensures Monotonic(earlier, ops)
  {
    if ops != [] && !ops[0].Unlock? {
      MonotonicEarlier(last, earlier, ops[1..]);
    }
  }

  ghost predicate Spaced(t: seq<int>, gap: nat) { forall i | 0 < i < |t| :: t[i] >= t[i - 1] + gap }

  /** Each accepted unlock comes at least one cooldown after the one before it. */
  lemma {:induction false} UnlocksAreSpaced(p: Policy, m: Machine, ops: seq<Op>)
    requires Monotonic(m.lastUnlock, ops)
    requires forall i | 0 <= i < |ops| :: !ops[i].Hangup? && !ops[i].StartCall?
    ensures var t := UnlockTimes(p, m, ops);
            && (t != [] && m.lastUnlock.Some? ==> t[0] >= m.lastUnlock.value + p.cooldown)
            && Spaced(t, p.cooldown)
    decreases |ops|
  {
    if ops != [] {
      var n := Apply(p, m, ops[0]);
      if ops[0].Unlock? && Refusal(p, m, ops[0]).Some? {
        MonotonicEarlier(Some(ops[0].now), m.lastUnlock, ops[1..]);
      }
      UnlocksAreSpaced(p, n, ops[1..]);
      if ops[0].Unlock? && Refusal(p, m, ops[0]).None? {
        SpacedCons(ops[0].now, UnlockTimes(p, n, ops[1..]), p.cooldown);
      }
    }
  }

  lemma SpacedCons(first: int, rest: seq<int>, gap: nat)
    requires Spaced(rest, gap) && (rest != [] ==> rest[0] >= first + gap)
    ensures Spaced([first] + rest, gap)
  {
    var t := [first] + rest;
    forall i | 0 < i < |t| ensures t[i] >= t[i - 1] + gap {
      assert t[i] == rest[i - 1];
      assert i > 1 ==> t[i - 1] == rest[i - 2] && rest[i - 1] >= rest[i - 2] + gap;
    }
  }

  /** n accepted unlocks with no hangup or new call between them span at least n - 1 cooldowns. */
  lemma UnlockRateBound(p: Policy, m: Machine, ops: seq<Op>)
    requires Monotonic(m.lastUnlock, ops)
    requires forall i | 0 <= i < |ops| :: !ops[i].Hangup? && !ops[i].StartCall?
    ensures var t := UnlockTimes(p, m, ops);
            t != [] ==> t[|t| - 1] - t[0] >= (|t| - 1) * p.cooldown
  {
    UnlocksAreSpaced(p, m, ops);
    Spread(UnlockTimes(p, m, ops), p.cooldown);
  }

  lemma {:induction false} Spread(t: seq<int>, gap: nat)
    requires Spaced(t, gap)
    ensures t != [] ==> t[|t| - 1] - t[0] >= (|t| - 1) * gap
  {
    if |t| > 1 {
      var init := t[..|t| - 1];
      forall i | 0 < i < |init| ensures init[i] >= init[i - 1] + gap {
        assert t[i] >= t[i - 1] + gap;
      }
      Spread(init, gap);
      assert (|t| - 1) * gap == (|t| - 2) * gap + gap;
    }
  }

  predicate RemoteOwned(m: Machine) { m.phase == Connected && m.owner == Remote }

  /** The machine as each accepted unlock found it. */
  function UnlockedIn(p: Policy, m: Machine, ops: seq<Op>): (found: seq<Machine>)
    decreases |ops|
  {
    if ops == [] then []
    else
      var rest := UnlockedIn(p, Apply(p, m, ops[0]), ops[1..]);
      if ops[0].Unlock? && Refusal(p, m, ops[0]).None? then [m] + rest else rest
  }

  /** The documented rule: the door opens only for the remote owner of an answered call. */
  ghost predicate OpensOnlyForRemoteOwner(p: Policy, m: Machine, ops: seq<Op>) {
    |UnlockedIn(p, m, ops)| == |UnlockTimes(p, m, ops)|
    && forall i | 0 <= i < |UnlockedIn(p, m, ops)| :: RemoteOwned(UnlockedIn(p, m, ops)[i])
  }

  lemma {:induction false} StrictRunsObey(p: Policy, m: Machine, ops: seq<Op>)
    requires p.requiresAnswer
    ensures OpensOnlyForRemoteOwner(p, m, ops)
    decreases |ops|
  {
    if ops != [] {
      StrictRunsObey(p, Apply(p, m, ops[0]), ops[1..]);
    }
  }

  /** The exact condition: every run obeys the rule if and only if the policy is the strict one. A
      lenient policy opens the door before any call. */
  lemma StrictPolicyIsExact(p: Policy)
    ensures p.requiresAnswer <==> forall ops :: OpensOnlyForRemoteOwner(p, FRESH, ops)
    ensures p.requiresAnswer <==> forall m, now :: Refusal(p, m, Unlock(now)).None? ==> RemoteOwned(m)
  {
    if p.requiresAnswer {
      forall ops ensures OpensOnlyForRemoteOwner(p, FRESH, ops) {
        StrictRunsObey(p, FRESH, ops);
      }
    } else {
      var early := [Unlock(0)];
      assert Refusal(p, FRESH, Unlock(0)).None?;
      assert UnlockedIn(p, FRESH, early)[0] == FRESH;
      assert !OpensOnlyForRemoteOwner(p, FRESH, early);
    }
  }

  // ----------------------------------------------------------- implementation

  class CallMachine {
    var sessionId: nat
    var phase: CallPhase
    var owner: Owner
    var unlocks: nat
    var lastUnlock: Option<int>
    const policy: Policy

    function View(): Machine
      reads this
    {
      Machine(sessionId, phase, owner, unlocks, lastUnlock)
    }

    constructor (policy: Policy)
      ensures View() == FRESH && this.policy == policy
    {
      this.policy := policy;
      sessionId, phase, owner, unlocks, lastUnlock := 0, Idle, Nobody, 0, None;
    }

    method StartCall(id: nat)
      modifies this
      ensures View() == Apply(policy, old(View()), Op.StartCall(id))
    {
      sessionId, phase, owner, unlocks := id, Ringing, Nobody, 0;
      lastUnlock := None;
    }

    method PadAnswer() returns (error: Option<CallError>)
      modifies this
      ensures error == Refusal(policy, old(View()), Op.PadAnswer)
      ensures View() == Apply(policy, old(View()), Op.PadAnswer)
    {
      if phase != Ringing {
        return Some(NotRinging);
      }
      if owner == Remote {
        return Some(NotRinging);
      }
      owner := Pad;
      phase := Connected;
      return None;
    }

    method RemoteAnswer() returns (error: Option<CallError>)
      modifies this
      ensures error == Refusal(policy, old(View()), Op.RemoteAnswer)
      ensures View() == Apply(policy, old(View()), Op.RemoteAnswer)
    {
      if phase != Ringing {
        return Some(NotRinging);
      }
      if owner == Pad {
        return Some(PadOwnsCall);
      }
      owner := Remote;
      phase := Connected;
      return None;
    }

    method Unlock(now: int) returns (error: Option<CallError>)
      modifies this
      ensures error == Refusal(policy, old(View()), Op.Unlock(now))
      ensures View() == Apply(policy, old(View()), Op.Unlock(now))
    {
      if policy.requiresAnswer && (phase != Connected || owner != Remote) {
        return Some(UnlockNotAllowed);
      }
      if lastUnlock.Some? && Since(now, lastUnlock.value) < policy.cooldown {
        return Some(UnlockCooldown);
      }
      lastUnlock := Some(now);
      unlocks := unlocks + 1;
      return None;
    }

    method Hangup()
      modifies this
      ensures View() == Apply(policy, old(View()), Op.Hangup)
    {
      phase := Idle;
      owner := Nobody;
      lastUnlock := None;
    }
  }
}
