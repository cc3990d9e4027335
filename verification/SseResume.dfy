/** Resuming an event stream (src/agent_server.rs, events_stream; src/agent_api.rs, EventLog):
    any number of pushers, each appending to the log and later broadcasting, interleaved step by
    step with one client that subscribes, replays what it missed, drains its channel, and may lose
    the connection at any line and come back. */
module SseResume {
  import opened Bytes
  import opened EventLog

  /** firstId is the Last-Event-ID the client starts with. subscribeFirst is the order that
      events_stream follows; inOrder says that no broadcast overtakes an earlier one, reconnects
      that connections may break. */
  datatype Config = Config(
    logCapacity: nat, liveCapacity: nat, firstId: Option<nat>,
    subscribeFirst: bool, inOrder: bool, reconnects: bool)

  /** A snapshot accounts for the events that the log had when it was taken. */
  datatype Line<+K> = Sent(event: Event<K>) | Snapshot(upTo: nat)

  datatype State<K> = State(
    all: seq<Event<K>>,
    unsent: set<nat>,        // numbers of the events appended but not yet broadcast
    subscribed: bool,
    replayed: bool,
    channel: seq<Event<K>>,  // what the client's receiver still holds
    lagged: bool,            // the receiver lost messages and has not reported it yet
    wire: seq<Line<K>>,      // what the client was sent, over all connections
    mark: nat)               // how much of that before this connection

  datatype Step<+K> =
    | Append(kind: K, atMs: nat)
    | Broadcast(seqNo: nat)
    | Subscribe
    | Replay
    | Receive
    | Disconnect(kept: nat)  // how many lines had reached the client

  function Start<K>(): State<K> {
    State([], {}, false, false, [], false, [], 0)
  }

  /** The id the client resumes from: that of the last line it got; a snapshot's is 0. */
  function LastId<K>(c: Config, wire: seq<Line<K>>): Option<nat> {
    if wire == [] then c.firstId
    else match wire[|wire| - 1]
         case Sent(e) => Some(e.seqNo)
         case Snapshot(_) => Some(0)
  }

  predicate Enabled<K>(c: Config, s: State<K>, step: Step<K>) {
    match step
    case Append(_, _) => true
    case Broadcast(n) => n in s.unsent && 1 <= n <= |s.all| && (c.inOrder ==> forall m | m in s.unsent :: n <= m)
    case Subscribe => !s.subscribed
    case Replay => !s.replayed && (c.subscribeFirst ==> s.subscribed)
    case Receive => s.subscribed && s.replayed && (s.lagged || s.channel != [])
    case Disconnect(kept) => c.reconnects && s.mark <= kept <= |s.wire|
  }

  function Lines<K>(events: seq<Event<K>>): (l: seq<Line<K>>)
    ensures |l| == |events| && forall i | 0 <= i < |l| :: l[i] == Sent(events[i])
  {
    seq(|events|, i requires 0 <= i < |events| => Sent(events[i]))
  }

  /** A full channel drops its oldest message and remembers that it did. */
  function Deliver<K>(c: Config, s: State<K>, e: Event<K>): State<K> {
    if !s.subscribed then s
    else if |s.channel| >= c.liveCapacity then s.(channel := (s.channel + [e])[1..], lagged := true)
    else s.(channel := s.channel + [e])
  }

  ghost function Missed<K>(c: Config, s: State<K>): Option<seq<Event<K>>> {
    var last := LastId(c, s.wire);
    if last.Some? then Resume(s.all, c.logCapacity, last.value) else None
  }

  ghost function Do<K>(c: Config, s: State<K>, step: Step<K>): State<K>
    requires Enabled(c, s, step)
  {
    match step
    case Append(kind, atMs) =>
      var n := |s.all| + 1;
      s.(all := s.all + [Event(n, atMs, kind)], unsent := s.unsent + {n})
    case Broadcast(n) => Deliver(c, s.(unsent := s.unsent - {n}), s.all[n - 1])
    case Subscribe => s.(subscribed := true)
    case Replay =>
      var missed := Missed(c, s);
      s.(replayed := true, wire := s.wire + if missed.Some? then Lines(missed.value) else [Snapshot(|s.all|)])
    case Receive =>
      if s.lagged then s.(lagged := false, wire := s.wire + [Snapshot(|s.all|)])
      else s.(channel := s.channel[1..], wire := s.wire + [Sent(s.channel[0])])
    case Disconnect(kept) =>
      s.(subscribed := false, replayed := false, channel := [], lagged := false, wire := s.wire[..kept], mark := kept)
  }

  /** The state after a run, or None when some step was not enabled. */
  ghost function Exec<K>(c: Config, steps: seq<Step<K>>): Option<State<K>> {
    if steps == [] then Some(Start()) else
    var before := Exec(c, steps[..|steps| - 1]);
    if before.Some? && Enabled(c, before.value, steps[|steps| - 1])
    then Some(Do(c, before.value, steps[|steps| - 1]))
    else None
  }

  ghost predicate IsRun<K>(c: Config, steps: seq<Step<K>>) { Exec(c, steps).Some? }

  ghost function After<K>(c: Config, steps: seq<Step<K>>): State<K>
    requires IsRun(c, steps)
  {
    Exec(c, steps).value
  }

  // ------------------------------------------------------------------ safety

  /** The number from which on the client has to be told: what its last snapshot accounts for, or
      else the id it came with. */
  function Base<K>(c: Config, wire: seq<Line<K>>): nat {
    if wire == [] then (if c.firstId.Some? then c.firstId.value else 0)
    else match wire[|wire| - 1]
         case Snapshot(n) => n
         case Sent(_) => Base(c, wire[..|wire| - 1])
  }

  /** The event is among the client's lines or waiting in its channel. */
  ghost predicate Reached<K>(s: State<K>, e: Event<K>) {
    Sent(e) in s.wire || e in s.channel
  }

  /** No event is lost: whenever the client is connected and no lag is pending, every event above
      its base whose broadcast has finished was sent to it, on this connection or an earlier one,
      or waits for it. */
  ghost predicate NothingLost<K>(c: Config, s: State<K>) {
    s.subscribed && s.replayed && !s.lagged ==>
      forall e | e in s.all && e.seqNo > Base(c, s.wire) && e.seqNo !in s.unsent :: Reached(s, e)
  }

  /** The client is only sent events of the log. */
  ghost predicate NothingInvented<K>(s: State<K>) {
    && (forall e | e in s.channel :: e in s.all)
    && (forall l | l in s.wire && l.Sent? :: l.event in s.all)
  }

  ghost predicate Has<K>(wire: seq<Line<K>>, n: nat) {
    exists l :: l in wire && l.Sent? && l.event.seqNo == n
  }

  /** Every event line comes after lines for all numbers between its base and its own. */
  ghost predicate Gapless<K>(c: Config, wire: seq<Line<K>>) {
    wire != [] ==>
      var init, last := wire[..|wire| - 1], wire[|wire| - 1];
      && Gapless(c, init)
      && (last.Sent? ==> forall n: nat | Base(c, init) < n < last.event.seqNo :: Has(init, n))
  }

  /** How many events have been broadcast, when they are in order. */
  ghost function Done<K>(s: State<K>): int { |s.all| - |s.unsent| }

  /** What broadcasting in order gives: the log splits into sent and unsent, the channel holds the
      newest sent ones, and everything before them above the base is among the client's lines. */
  ghost predicate InStep<K>(c: Config, s: State<K>) {
    && 0 <= Done(s)
    && (forall n :: n in s.unsent <==> Done(s) < n <= |s.all|)
    && |s.channel| <= Done(s)
    && (forall i | 0 <= i < |s.channel| :: s.channel[i].seqNo == Done(s) - |s.channel| + i + 1)
    && (s.subscribed && s.replayed && !s.lagged ==>
          forall n: nat | Base(c, s.wire) < n <= Done(s) - |s.channel| :: Has(s.wire, n))
    && Gapless(c, s.wire)
  }

  ghost predicate Invariant<K>(c: Config, s: State<K>) {
    && Numbered(s.all)
    && (forall n | n in s.unsent :: 1 <= n <= |s.all|)
    && NothingInvented(s)
    && s.mark <= |s.wire|
    && (s.replayed ==> s.subscribed)
    && (!s.subscribed ==> s.channel == [] && !s.lagged)
    && (!c.reconnects && !s.replayed ==> s.wire == [])
    && (c.inOrder ==> InStep(c, s))
    && NothingLost(c, s)
  }

  // ------------------------------------------------------------------- lines

  lemma BaseSnoc<K>(c: Config, wire: seq<Line<K>>, l: Line<K>)
    ensures Base(c, wire + [l]) == if l.Sent? then Base(c, wire) else l.upTo
  {
    assert (wire + [l])[..|wire|] == wire;
  }

  lemma HasSnoc<K>(wire: seq<Line<K>>, l: Line<K>, n: nat)
    ensures Has(wire + [l], n) <==> Has(wire, n) || (l.Sent? && l.event.seqNo == n)
  {
    assert forall x :: x in wire + [l] <==> x in wire || x == l;
    assert l in wire + [l];
  }

  lemma GaplessSnoc<K>(c: Config, wire: seq<Line<K>>, l: Line<K>)
    requires Gapless(c, wire)
    requires l.Sent? ==> forall n: nat | Base(c, wire) < n < l.event.seqNo :: Has(wire, n)
    ensures Gapless(c, wire + [l])
  {
    assert (wire + [l])[..|wire|] == wire;
  }

  lemma {:induction false} GaplessPrefix<K>(c: Config, wire: seq<Line<K>>, k: nat)
    requires Gapless(c, wire) && k <= |wire|
    ensures Gapless(c, wire[..k])
  {
    if k == |wire| {
      assert wire[..k] == wire;
    } else {
      GaplessPrefix(c, wire[..|wire| - 1], k);
      assert wire[..|wire| - 1][..k] == wire[..k];
    }
  }

  /** A client whose lines have no gap has everything up to the id it resumes from. */
  lemma ResumesWhereItIs<K>(c: Config, wire: seq<Line<K>>, n: nat)
    requires Gapless(c, wire) && LastId(c, wire).Some? && Base(c, wire) < n <= LastId(c, wire).value
    ensures Has(wire, n)
  {
    var k := |wire| - 1;
    assert wire == wire[..k] + [wire[k]];
    BaseSnoc(c, wire[..k], wire[k]);
    HasSnoc(wire[..k], wire[k], n);
  }

  /** A replay behind lines without a gap adds the following numbers and leaves none out. */
  lemma {:induction false} LinesFollow<K>(c: Config, wire: seq<Line<K>>, events: seq<Event<K>>, from: nat)
    requires Gapless(c, wire)
    requires forall i | 0 <= i < |events| :: events[i].seqNo == from + i + 1
    requires forall n: nat | Base(c, wire) < n <= from :: Has(wire, n)
    ensures Base(c, wire + Lines(events)) == Base(c, wire)
    ensures Gapless(c, wire + Lines(events))
    ensures forall n: nat | Base(c, wire) < n <= from + |events| :: Has(wire + Lines(events), n)
    decreases |events|
  {
    if events == [] {
      assert wire + Lines(events) == wire;
    } else {
      var k := |events| - 1;
      LinesFollow(c, wire, events[..k], from);
      LinesSnoc(wire, events);
      LineFollows(c, wire + Lines(events[..k]), events[k], Base(c, wire));
    }
  }

  lemma LinesSnoc<K>(wire: seq<Line<K>>, events: seq<Event<K>>)
    requires events != []
    ensures var k := |events| - 1; wire + Lines(events) == wire + Lines(events[..k]) + [Sent(events[k])]
  {
  }

  lemma LineFollows<K>(c: Config, wire: seq<Line<K>>, e: Event<K>, base: nat)
    requires Gapless(c, wire) && Base(c, wire) == base
    requires forall n: nat | base < n < e.seqNo :: Has(wire, n)
    ensures Gapless(c, wire + [Sent(e)]) && Base(c, wire + [Sent(e)]) == base
    ensures forall n: nat | base < n <= e.seqNo :: Has(wire + [Sent(e)], n)
  {
    BaseSnoc(c, wire, Sent(e));
    GaplessSnoc(c, wire, Sent(e));
    forall n: nat | base < n <= e.seqNo ensures Has(wire + [Sent(e)], n) {
      HasSnoc(wire, Sent(e), n);
    }
  }

  lemma {:induction false} LinesKeepBase<K>(c: Config, wire: seq<Line<K>>, events: seq<Event<K>>)
    ensures Base(c, wire + Lines(events)) == Base(c, wire)
    decreases |events|
  {
    if events == [] {
      assert wire + Lines(events) == wire;
    } else {
      var k := |events| - 1;
      LinesKeepBase(c, wire, events[..k]);
      LinesSnoc(wire, events);
      BaseSnoc(c, wire + Lines(events[..k]), Sent(events[k]));
    }
  }

  lemma LinesMembers<K>(events: seq<Event<K>>)
    ensures forall l | l in Lines(events) :: l.Sent? && l.event in events
    ensures forall e | e in events :: Sent(e) in Lines(events)
  {
    forall e | e in events ensures Sent(e) in Lines(events) {
      var i :| 0 <= i < |events| && events[i] == e;
      assert Lines(events)[i] == Sent(e);
    }
  }

  lemma {:induction false} LaterMembers<K>(events: seq<Event<K>>, after: nat)
    ensures forall e :: e in Later(events, after) <==> e in events && e.seqNo > after
  {
    if events != [] {
      LaterMembers(events[1..], after);
      assert events == [events[0]] + events[1..];
    }
  }

  /** A number on the wire is the event of that number. */
  lemma HasIsSent<K>(s: State<K>, e: Event<K>)
    requires Numbered(s.all) && NothingInvented(s) && e in s.all && Has(s.wire, e.seqNo)
    ensures Sent(e) in s.wire
  {
    var l :| l in s.wire && l.Sent? && l.event.seqNo == e.seqNo;
    assert l.event in s.all;
    assert l.event == e;
  }

  // ------------------------------------------------------------ step by step

  lemma AppendKeeps<K>(c: Config, s: State<K>, kind: K, atMs: nat)
    requires Invariant(c, s)
    ensures Invariant(c, Do(c, s, Append(kind, atMs)))
  {
    var t := Do(c, s, Append(kind, atMs));
    assert |s.all| + 1 !in s.unsent;
    assert |t.unsent| == |s.unsent| + 1;
    assert forall e | e in s.all :: e in t.all;
    assert forall e | e in t.all && e.seqNo !in t.unsent :: e in s.all;
  }

  lemma DeliverReaches<K>(c: Config, s: State<K>, e: Event<K>)
    ensures var t := Deliver(c, s, e);
            && t.wire == s.wire && t.all == s.all
            && (forall x :: x in t.channel ==> x in s.channel || x == e)
            && (!t.lagged ==> !s.lagged && forall x :: Reached(s, x) ==> Reached(t, x))
            && (!t.lagged && s.subscribed ==> Reached(t, e))
  {
    var all := s.channel + [e];
    assert forall x :: x in all <==> x in s.channel || x == e;
    if s.subscribed && |s.channel| >= c.liveCapacity {
      assert forall x | x in all[1..] :: x in all;
    } else if s.subscribed {
      assert all[|s.channel|] == e;
    }
  }

  lemma BroadcastKeeps<K>(c: Config, s: State<K>, n: nat)
    requires Invariant(c, s) && Enabled(c, s, Broadcast(n))
    ensures Invariant(c, Do(c, s, Broadcast(n)))
  {
    DeliverReaches(c, s.(unsent := s.unsent - {n}), s.all[n - 1]);
    assert forall e | e in s.all && e.seqNo == n :: e == s.all[n - 1];
    if c.inOrder {
      BroadcastStaysInStep(c, s, n);
    }
  }

  lemma BroadcastStaysInStep<K>(c: Config, s: State<K>, n: nat)
    requires Numbered(s.all) && InStep(c, s) && c.inOrder && Enabled(c, s, Broadcast(n))
    requires !s.subscribed ==> s.channel == [] && !s.lagged
    ensures InStep(c, Do(c, s, Broadcast(n)))
  {
    var t := Do(c, s, Broadcast(n));
    assert Done(s) + 1 in s.unsent;
    assert n == Done(s) + 1;
    assert |t.unsent| == |s.unsent| - 1;
  }

  lemma ReplayKeeps<K>(c: Config, s: State<K>)
    requires Invariant(c, s) && Enabled(c, s, Replay) && c.subscribeFirst && (c.inOrder || !c.reconnects)
    ensures Invariant(c, Do(c, s, Replay))
  {
    var missed := Missed(c, s);
    if missed.None? {
      SnapshotKeeps(c, s);
    } else {
      ReplayInventsNothing(c, s);
      ReplayLosesNothing(c, s);
      if c.inOrder {
        ReplayStaysInStep(c, s);
      }
    }
  }

  /** What a replay from an id of the log sends: exactly the later events, if the ring still holds them
      all, and a snapshot if not. */
  lemma ReplayFrom<K>(c: Config, s: State<K>, n: nat)
    requires Numbered(s.all) && n <= |s.all| && LastId(c, s.wire) == Some(n)
    ensures Missed(c, s) == if |s.all| <= n + c.logCapacity then Some(s.all[n..]) else None
  {
    GapIsOverflow(s.all, c.logCapacity, n);
    LaterFrom(s.all, 1, n);
  }

  /** A client that broke off right behind a snapshot starts over: it is replayed the whole log if the
      ring still holds it, and another snapshot if not. */
  lemma AfterASnapshot<K>(c: Config, s: State<K>)
    requires Numbered(s.all) && Enabled(c, s, Replay)
    requires s.wire != [] && s.wire[|s.wire| - 1].Snapshot?
    ensures Do(c, s, Replay).wire
         == s.wire + if |s.all| <= c.logCapacity then Lines(s.all) else [Snapshot(|s.all|)]
  {
    ReplayFrom(c, s, 0);
    assert s.all[0..] == s.all;
  }

  /** A client that broke off behind an event goes on behind it: it is replayed exactly the later events,
      if the ring still holds them all. */
  lemma AfterAnEvent<K>(c: Config, s: State<K>, e: Event<K>)
    requires Numbered(s.all) && Enabled(c, s, Replay) && e in s.all
    requires s.wire != [] && s.wire[|s.wire| - 1] == Sent(e)
    ensures Do(c, s, Replay).wire
         == s.wire + if |s.all| <= e.seqNo + c.logCapacity then Lines(s.all[e.seqNo..]) else [Snapshot(|s.all|)]
  {
    ReplayFrom(c, s, e.seqNo);
  }

  /** The client's channel never holds more than its capacity, and lag means that it was full. */
  lemma {:induction false} ChannelIsBounded<K>(c: Config, steps: seq<Step<K>>)
    requires IsRun(c, steps)
    ensures |After(c, steps).channel| <= c.liveCapacity
  {
    if steps != [] {
      ChannelIsBounded(c, steps[..|steps| - 1]);
    }
  }

  lemma LagMeansFull<K>(c: Config, s: State<K>, n: nat)
    requires Enabled(c, s, Broadcast(n)) && !s.lagged
    ensures Do(c, s, Broadcast(n)).lagged <==> s.subscribed && |s.channel| >= c.liveCapacity
  {
  }

  lemma SnapshotKeeps<K>(c: Config, s: State<K>)
    requires Invariant(c, s) && Enabled(c, s, Replay) && c.subscribeFirst && Missed(c, s).None?
    ensures Invariant(c, Do(c, s, Replay))
  {
    var l := Snapshot(|s.all|);
    BaseSnoc(c, s.wire, l);
    assert forall x :: x in s.wire + [l] <==> x in s.wire || x == l;
    if c.inOrder {
      GaplessSnoc(c, s.wire, l);
    }
  }

  lemma ReplayInventsNothing<K>(c: Config, s: State<K>)
    requires NothingInvented(s) && Enabled(c, s, Replay) && Missed(c, s).Some?
    ensures NothingInvented(Do(c, s, Replay))
  {
    var t, missed := Do(c, s, Replay), Missed(c, s).value;
    LaterMembers(s.all, LastId(c, s.wire).value);
    LinesMembers(missed);
    forall l | l in t.wire && l.Sent? ensures l.event in t.all {
      assert l in s.wire || l in Lines(missed);
    }
  }

  lemma ReplayLosesNothing<K>(c: Config, s: State<K>)
    requires Invariant(c, s) && Enabled(c, s, Replay) && (c.inOrder || !c.reconnects) && Missed(c, s).Some?
    ensures NothingLost(c, Do(c, s, Replay))
  {
    var t, missed, after := Do(c, s, Replay), Missed(c, s).value, LastId(c, s.wire).value;
    LinesKeepBase(c, s.wire, missed);
    forall e | e in s.all && e.seqNo > Base(c, s.wire) ensures Sent(e) in t.wire {
      if e.seqNo > after {
        LaterMembers(s.all, after);
        LinesMembers(missed);
        assert Sent(e) in Lines(missed);
      } else {
        ResumesWhereItIs(c, s.wire, e.seqNo);
        HasIsSent(s, e);
      }
    }
  }

  /** The missed events are numbered on from the id the client resumes from, up to the log's end. */
  lemma MissedFollow<K>(c: Config, s: State<K>)
    requires Numbered(s.all) && Missed(c, s).Some?
    ensures var after, missed := LastId(c, s.wire).value, Missed(c, s).value;
            && after + |missed| >= |s.all|
            && forall i | 0 <= i < |missed| :: missed[i].seqNo == after + i + 1
  {
    LaterFrom(s.all, 1, LastId(c, s.wire).value);
  }

  lemma ReplayStaysInStep<K>(c: Config, s: State<K>)
    requires Numbered(s.all) && InStep(c, s) && Enabled(c, s, Replay) && Missed(c, s).Some?
    ensures InStep(c, Do(c, s, Replay))
  {
    var after := LastId(c, s.wire).value;
    MissedFollow(c, s);
    forall n: nat | Base(c, s.wire) < n <= after ensures Has(s.wire, n) {
      ResumesWhereItIs(c, s.wire, n);
    }
    LinesFollow(c, s.wire, Missed(c, s).value, after);
  }

  lemma ReceiveKeeps<K>(c: Config, s: State<K>)
    requires Invariant(c, s) && Enabled(c, s, Receive)
    ensures Invariant(c, Do(c, s, Receive))
  {
    var t := Do(c, s, Receive);
    var l := t.wire[|s.wire|];
    assert t.wire == s.wire + [l];
    BaseSnoc(c, s.wire, l);
    assert forall x :: x in t.wire <==> x in s.wire || x == l;
    if !s.lagged {
      assert s.channel == [s.channel[0]] + t.channel;
    }
    if c.inOrder {
      GaplessSnoc(c, s.wire, l);
      forall n: nat | Has(s.wire, n) || (l.Sent? && l.event.seqNo == n) ensures Has(t.wire, n) {
        HasSnoc(s.wire, l, n);
      }
    }
  }

  lemma DisconnectKeeps<K>(c: Config, s: State<K>, kept: nat)
    requires Invariant(c, s) && Enabled(c, s, Disconnect(kept))
    ensures Invariant(c, Do(c, s, Disconnect(kept)))
  {
    var t := Do(c, s, Disconnect(kept));
    assert forall l | l in t.wire :: l in s.wire;
    if c.inOrder {
      GaplessPrefix(c, s.wire, kept);
    }
  }

  /** Every step of every participant keeps the invariant. */
  lemma StepKeepsInvariant<K>(c: Config, s: State<K>, step: Step<K>)
    requires c.subscribeFirst && (c.inOrder || !c.reconnects) && Invariant(c, s) && Enabled(c, s, step)
    ensures Invariant(c, Do(c, s, step))
  {
    match step
    case Append(kind, atMs) => AppendKeeps(c, s, kind, atMs);
    case Broadcast(n) => BroadcastKeeps(c, s, n);
    case Subscribe =>
    case Replay => ReplayKeeps(c, s);
    case Receive => ReceiveKeeps(c, s);
    case Disconnect(kept) => DisconnectKeeps(c, s, kept);
  }

  lemma {:induction false} RunKeepsInvariant<K>(c: Config, steps: seq<Step<K>>)
    requires c.subscribeFirst && (c.inOrder || !c.reconnects) && IsRun(c, steps)
    ensures Invariant(c, After(c, steps))
  {
    if steps != [] {
      RunKeepsInvariant(c, steps[..|steps| - 1]);
      StepKeepsInvariant(c, After(c, steps[..|steps| - 1]), steps[|steps| - 1]);
    }
  }

  // ------------------------------------------------------------ what goes wrong

  lemma ExecSnoc<K>(c: Config, steps: seq<Step<K>>, step: Step<K>, next: State<K>)
    requires IsRun(c, steps) && Enabled(c, After(c, steps), step) && Do(c, After(c, steps), step) == next
    ensures Exec(c, steps + [step]) == Some(next)
  {
    assert (steps + [step])[..|steps|] == steps;
  }

  /** Any number of events can be pushed before the client connects. */
  lemma {:induction false} Pushes<K>(c: Config, kind: K, n: nat) returns (steps: seq<Step<K>>, s: State<K>)
    ensures Exec(c, steps) == Some(s)
    ensures |s.all| == n && Numbered(s.all) && s == Start().(all := s.all)
  {
    if n == 0 {
      steps, s := [], Start();
    } else {
      var steps', s' := Pushes(c, kind, n - 1);
      steps, s := Push(c, steps', s', kind);
    }
  }

  /** One event pushed while the client is away. */
  lemma Push<K>(c: Config, r: seq<Step<K>>, s: State<K>, kind: K) returns (steps: seq<Step<K>>, t: State<K>)
    requires Exec(c, r) == Some(s) && s.unsent == {} && !s.subscribed && Numbered(s.all)
    ensures Exec(c, steps) == Some(t) && Numbered(t.all)
    ensures t == s.(all := s.all + [Event(|s.all| + 1, 0, kind)])
  {
    var n := |s.all| + 1;
    var s1 := Do(c, s, Append(kind, 0));
    ExecSnoc(c, r, Append(kind, 0), s1);
    t := s1.(unsent := {});
    assert s1.unsent - {n} == {};
    ExecSnoc(c, r + [Append(kind, 0)], Broadcast(n), t);
    steps := r + [Append(kind, 0)] + [Broadcast(n)];
  }

  /** A client that has seen the whole log, or has no id, is replayed no event. */
  lemma ReplaysNothing<K>(c: Config, s: State<K>)
    requires Numbered(s.all) && Enabled(c, s, Replay)
    requires LastId(c, s.wire).Some? ==> LastId(c, s.wire).value == |s.all|
    ensures Do(c, s, Replay) ==
            s.(replayed := true, wire := s.wire + if LastId(c, s.wire).Some? then [] else [Snapshot(|s.all|)])
  {
    GapIsOverflow(s.all, c.logCapacity, |s.all|);
    LaterFrom(s.all, 1, |s.all|);
  }

  /** Replaying before subscribing loses what is pushed in between. */
  lemma ReplayFirstLoses<K>(c: Config, kind: K) returns (steps: seq<Step<K>>)
    requires !c.subscribeFirst
    ensures IsRun(c, steps) && !NothingLost(c, After(c, steps))
  {
    var r, s := ReplayedEarly(c, kind);
    var lost := Event(|s.all| + 1, 0, kind);
    var r', s' := Push(c, r, s, kind);
    var t := s'.(subscribed := true);
    ExecSnoc(c, r', Subscribe, t);
    steps := r' + [Subscribe];
    assert lost in t.all && !Reached(t, lost);
  }

  /** The state after replaying a log of a events without subscribing, when the client's id is a or
      none. */
  lemma ReplayedEarly<K>(c: Config, kind: K) returns (steps: seq<Step<K>>, s: State<K>)
    requires !c.subscribeFirst
    ensures var a := if c.firstId.Some? then c.firstId.value else 0;
            && Exec(c, steps) == Some(s) && |s.all| == a && Numbered(s.all)
            && s == State(s.all, {}, false, true, [], false, if c.firstId.Some? then [] else [Snapshot(0)], 0)
            && Base(c, s.wire) == a
  {
    var a := if c.firstId.Some? then c.firstId.value else 0;
    var r0, s0 := Pushes(c, kind, a);
    ReplaysNothing(c, s0);
    s := Do(c, s0, Replay);
    ExecSnoc(c, r0, Replay, s);
    steps := r0 + [Replay];
  }

  /** The state after connecting to a log of a events, when the client's id is a or none. */
  lemma Connected<K>(c: Config, kind: K) returns (steps: seq<Step<K>>, s: State<K>)
    requires c.subscribeFirst
    ensures var a := if c.firstId.Some? then c.firstId.value else 0;
            && Exec(c, steps) == Some(s) && |s.all| == a && Numbered(s.all)
            && s == State(s.all, {}, true, true, [], false, if c.firstId.Some? then [] else [Snapshot(0)], 0)
            && Base(c, s.wire) == a
  {
    var a := if c.firstId.Some? then c.firstId.value else 0;
    var r0, s0 := Pushes(c, kind, a);
    var s1 := s0.(subscribed := true);
    ExecSnoc(c, r0, Subscribe, s1);
    ReplaysNothing(c, s1);
    s := Do(c, s1, Replay);
    ExecSnoc(c, r0 + [Subscribe], Replay, s);
    steps := r0 + [Subscribe] + [Replay];
  }

  /** A broadcast that overtakes another before the connection breaks loses the other's event: the
      client resumes behind it. */
  lemma OvertakingLoses<K>(c: Config, kind: K) returns (steps: seq<Step<K>>)
    requires c.subscribeFirst && !c.inOrder && c.reconnects && c.liveCapacity > 0
    ensures IsRun(c, steps) && !NothingLost(c, After(c, steps))
  {
    var r, s := Connected(c, kind);
    var a := |s.all|;
    var lost, seen := Event(a + 1, 0, kind), Event(a + 2, 0, kind);
    var r', s' := TwoAppends(c, r, s, kind);
    var r'', t := Overtake(c, r', s', a, seen);
    assert Sent(lost) !in t.wire;
    steps := ResumeBehind(c, r'', t, lost, seen);
  }

  lemma TwoAppends<K>(c: Config, r: seq<Step<K>>, s: State<K>, kind: K) returns (steps: seq<Step<K>>, t: State<K>)
    requires Exec(c, r) == Some(s) && s.unsent == {} && Numbered(s.all)
    ensures var n := |s.all|;
            && Exec(c, steps) == Some(t) && Numbered(t.all)
            && t == s.(all := s.all + [Event(n + 1, 0, kind)] + [Event(n + 2, 0, kind)], unsent := {n + 1, n + 2})
  {
    var r', s' := OneAppend(c, r, s, kind);
    steps, t := OneAppend(c, r', s', kind);
  }

  lemma OneAppend<K>(c: Config, r: seq<Step<K>>, s: State<K>, kind: K) returns (steps: seq<Step<K>>, t: State<K>)
    requires Exec(c, r) == Some(s) && Numbered(s.all)
    ensures var n := |s.all| + 1;
            && Exec(c, steps) == Some(t) && Numbered(t.all)
            && t == s.(all := s.all + [Event(n, 0, kind)], unsent := s.unsent + {n})
  {
    t := Do(c, s, Append(kind, 0));
    ExecSnoc(c, r, Append(kind, 0), t);
    steps := r + [Append(kind, 0)];
  }

  lemma Overtake<K>(c: Config, r: seq<Step<K>>, s: State<K>, a: nat, seen: Event<K>)
    returns (steps: seq<Step<K>>, t: State<K>)
    requires !c.inOrder && c.liveCapacity > 0
    requires Exec(c, r) == Some(s) && |s.all| == a + 2 && s.all[a + 1] == seen && s.unsent == {a + 1, a + 2}
    requires s.subscribed && s.replayed && !s.lagged && s.channel == []
    ensures Exec(c, steps) == Some(t) && t == s.(unsent := {a + 1}, wire := s.wire + [Sent(seen)])
    ensures Base(c, t.wire) == Base(c, s.wire)
  {
    var s3 := s.(unsent := {a + 1}, channel := [seen]);
    assert s.unsent - {a + 2} == {a + 1};
    ExecSnoc(c, r, Broadcast(a + 2), s3);
    t := s3.(channel := [], wire := s.wire + [Sent(seen)]);
    ExecSnoc(c, r + [Broadcast(a + 2)], Receive, t);
    steps := r + [Broadcast(a + 2)] + [Receive];
    BaseSnoc(c, s.wire, Sent(seen));
  }

  /** The rest of that run: the connection breaks, the broadcast follows, the client resumes. */
  lemma ResumeBehind<K>(c: Config, r: seq<Step<K>>, s: State<K>, lost: Event<K>, seen: Event<K>) returns (steps: seq<Step<K>>)
    requires c.subscribeFirst && !c.inOrder && c.reconnects
    requires Exec(c, r) == Some(s) && s.mark <= |s.wire| && Numbered(s.all)
    requires s.subscribed && s.replayed && !s.lagged && s.channel == []
    requires |s.all| >= 2 && s.all[|s.all| - 2] == lost && s.all[|s.all| - 1] == seen
    requires s.unsent == {lost.seqNo}
    requires |s.wire| > 0 && s.wire[|s.wire| - 1] == Sent(seen) && Sent(lost) !in s.wire
    requires Base(c, s.wire) < lost.seqNo
    ensures IsRun(c, steps) && !NothingLost(c, After(c, steps))
  {
    var k := |s.wire|;
    assert s.wire[..k] == s.wire;
    var s1 := s.(subscribed := false, replayed := false, mark := k);
    ExecSnoc(c, r, Disconnect(k), s1);
    var r1 := r + [Disconnect(k)];
    var s2 := s1.(unsent := {});
    assert s.unsent - {lost.seqNo} == {};
    ExecSnoc(c, r1, Broadcast(lost.seqNo), s2);
    var r2 := r1 + [Broadcast(lost.seqNo)];
    var s3 := s2.(subscribed := true);
    ExecSnoc(c, r2, Subscribe, s3);
    var r3 := r2 + [Subscribe];
    ReplaysNothing(c, s3);
    var s4 := s3.(replayed := true);
    assert s3.wire + [] == s3.wire;
    ExecSnoc(c, r3, Replay, s4);
    steps := r3 + [Replay];
    assert lost in s4.all && !Reached(s4, lost);
  }

  /** The exact condition: no interleaving loses an event if and only if the client subscribes
      before it replays and, unless connections never break, broadcasts come in the order of the
      log. */
  lemma ResumingIsExact<K(00)>(c: Config)
    requires c.liveCapacity > 0
    ensures c.subscribeFirst && (c.inOrder || !c.reconnects)
       <==> forall steps: seq<Step<K>> | IsRun(c, steps) :: NothingLost(c, After(c, steps))
  {
    if c.subscribeFirst && (c.inOrder || !c.reconnects) {
      forall steps: seq<Step<K>> | IsRun(c, steps) ensures NothingLost(c, After(c, steps)) {
        RunKeepsInvariant(c, steps);
      }
    } else {
      var kind: K :| true;
      if c.subscribeFirst {
        var steps := OvertakingLoses(c, kind);
      } else {
        var steps := ReplayFirstLoses(c, kind);
      }
    }
  }

  // ----------------------------------------------------------- run by run

  /** An event of the log up to the given number that the client should have and does not: above its
      base, broadcast, and neither among its lines nor in its channel. */
  ghost predicate Hole<K>(c: Config, s: State<K>, upTo: nat) {
    exists e :: e in s.all && Base(c, s.wire) < e.seqNo <= upTo && e.seqNo !in s.unsent && !Reached(s, e)
  }

  /** The step makes the connection complete over a hole: a replay that starts behind one, or a
      subscription after the replay. */
  ghost predicate Skips<K>(c: Config, s: State<K>, step: Step<K>) {
    match step
    case Replay => s.subscribed && !s.lagged && Missed(c, s).Some? && Hole(c, s, LastId(c, s.wire).value)
    case Subscribe => s.replayed && !s.lagged && Hole(c, s, |s.all|)
    case _ => false
  }

  /** What holds in every configuration. */
  ghost predicate Sane<K>(s: State<K>) {
    && Numbered(s.all)
    && (forall n | n in s.unsent :: 1 <= n <= |s.all|)
    && (!s.subscribed ==> s.channel == [] && !s.lagged)
  }

  lemma SaneStep<K>(c: Config, s: State<K>, step: Step<K>)
    requires Sane(s) && Enabled(c, s, step)
    ensures Sane(Do(c, s, step))
  {
  }

  lemma AppendLosesNothing<K>(c: Config, s: State<K>, kind: K, atMs: nat)
    requires Sane(s) && NothingLost(c, s)
    ensures NothingLost(c, Do(c, s, Append(kind, atMs)))
  {
    var t := Do(c, s, Append(kind, atMs));
    assert forall e | e in t.all && e.seqNo !in t.unsent :: e in s.all;
  }

  lemma BroadcastLosesNothing<K>(c: Config, s: State<K>, n: nat)
    requires Sane(s) && NothingLost(c, s) && Enabled(c, s, Broadcast(n))
    ensures NothingLost(c, Do(c, s, Broadcast(n)))
  {
    DeliverReaches(c, s.(unsent := s.unsent - {n}), s.all[n - 1]);
    assert forall e | e in s.all && e.seqNo == n :: e == s.all[n - 1];
  }

  lemma ReceiveLosesNothing<K>(c: Config, s: State<K>)
    requires Sane(s) && NothingLost(c, s) && Enabled(c, s, Receive)
    ensures NothingLost(c, Do(c, s, Receive))
  {
    var t := Do(c, s, Receive);
    var l := t.wire[|s.wire|];
    assert t.wire == s.wire + [l];
    BaseSnoc(c, s.wire, l);
    assert forall x :: x in t.wire <==> x in s.wire || x == l;
    if !s.lagged {
      assert s.channel == [s.channel[0]] + t.channel;
    }
  }

  /** A replay closes every hole above the id it starts from, and none below it. */
  lemma ReplayIsExact<K>(c: Config, s: State<K>)
    requires Sane(s) && Enabled(c, s, Replay)
    ensures NothingLost(c, Do(c, s, Replay)) <==> !Skips(c, s, Replay)
  {
    var t := Do(c, s, Replay);
    if Missed(c, s).None? {
      BaseSnoc(c, s.wire, Snapshot(|s.all|));
    } else {
      var missed, after := Missed(c, s).value, LastId(c, s.wire).value;
      LinesKeepBase(c, s.wire, missed);
      LaterMembers(s.all, after);
      LinesMembers(missed);
      forall e | e in s.all ensures Reached(t, e) <==> Reached(s, e) || e.seqNo > after {
        assert Sent(e) in t.wire <==> Sent(e) in s.wire || Sent(e) in Lines(missed);
        assert Sent(e) in Lines(missed) ==> e in missed;
      }
    }
  }

  /** The exact condition, step by step. */
  lemma StepLosesNothingIff<K>(c: Config, s: State<K>, step: Step<K>)
    requires Sane(s) && NothingLost(c, s) && Enabled(c, s, step)
    ensures NothingLost(c, Do(c, s, step)) <==> !Skips(c, s, step)
  {
    match step
    case Append(kind, atMs) => AppendLosesNothing(c, s, kind, atMs);
    case Broadcast(n) => BroadcastLosesNothing(c, s, n);
    case Subscribe => SubscribeIsExact(c, s);
    case Replay => ReplayIsExact(c, s);
    case Receive => ReceiveLosesNothing(c, s);
    case Disconnect(kept) =>
  }

  lemma SubscribeIsExact<K>(c: Config, s: State<K>)
    requires Sane(s) && Enabled(c, s, Subscribe)
    ensures NothingLost(c, Do(c, s, Subscribe)) <==> !Skips(c, s, Subscribe)
  {
    var t := Do(c, s, Subscribe);
    assert forall e :: Reached(t, e) <==> Reached(s, e);
    assert forall e | e in s.all :: e.seqNo <= |s.all|;
  }

  /** Nothing is lost at any moment of the run. */
  ghost predicate AlwaysNothingLost<K>(c: Config, steps: seq<Step<K>>)
    requires IsRun(c, steps)
  {
    NothingLost(c, After(c, steps)) && (steps != [] ==> AlwaysNothingLost(c, steps[..|steps| - 1]))
  }

  /** No step of the run skips an event. */
  ghost predicate NeverSkips<K>(c: Config, steps: seq<Step<K>>)
    requires IsRun(c, steps)
  {
    steps != [] ==>
      var init, last := steps[..|steps| - 1], steps[|steps| - 1];
      NeverSkips(c, init) && !Skips(c, After(c, init), last)
  }

  /** The exact condition, run by run and in every configuration: nothing is lost at any moment if and
      only if no step completes a connection over a hole. */
  lemma {:induction false} RunLosesNothingIff<K>(c: Config, steps: seq<Step<K>>)
    requires IsRun(c, steps)
    ensures Sane(After(c, steps))
    ensures AlwaysNothingLost(c, steps) <==> NeverSkips(c, steps)
  {
    if steps != [] {
      var init, last := steps[..|steps| - 1], steps[|steps| - 1];
      RunLosesNothingIff(c, init);
      SaneStep(c, After(c, init), last);
      if NothingLost(c, After(c, init)) {
        StepLosesNothingIff(c, After(c, init), last);
      } else {
        LostBefore(c, init);
      }
    }
  }

  lemma LostBefore<K>(c: Config, steps: seq<Step<K>>)
    requires IsRun(c, steps) && !NothingLost(c, After(c, steps))
    ensures !AlwaysNothingLost(c, steps)
  {
  }

  /** Once every broadcast is done, the channel is drained and no lag is pending, the client has been
      sent exactly the events above its base: all of them and no others. */
  lemma DrainedClientHasEverything<K>(c: Config, steps: seq<Step<K>>)
    requires c.subscribeFirst && (c.inOrder || !c.reconnects) && IsRun(c, steps)
    requires var s := After(c, steps);
             s.subscribed && s.replayed && s.unsent == {} && s.channel == [] && !s.lagged
    ensures var s := After(c, steps);
            forall e: Event<K> | e.seqNo > Base(c, s.wire) :: Sent(e) in s.wire <==> e in s.all
  {
    RunKeepsInvariant(c, steps);
    var s := After(c, steps);
    forall e: Event<K> | e.seqNo > Base(c, s.wire) ensures Sent(e) in s.wire <==> e in s.all {
      if e in s.all {
        assert Reached(s, e);
      } else {
        assert !Reached(s, e);
      }
    }
  }
}
