/** The sequence-numbered event ring (src/agent_api.rs, EventLog). It answers every question as
    the unbounded log would, or says that it cannot. */
module EventLog {
  import opened Bytes

  datatype Event<+K> = Event(seqNo: nat, atMs: nat, kind: K)

  /** The unbounded log: events numbered from 1 without gaps. */
  ghost predicate Numbered<K>(all: seq<Event<K>>) {
    forall i | 0 <= i < |all| :: all[i].seqNo == i + 1
  }

  /** The events numbered above after, in order. */
  function Later<K>(events: seq<Event<K>>, after: nat): seq<Event<K>> {
    if events == [] then []
    else (if events[0].seqNo > after then [events[0]] else []) + Later(events[1..], after)
  }

  /** Some event numbered above after has left a ring of the given capacity. */
  ghost predicate Gap<K>(all: seq<Event<K>>, capacity: nat, after: nat) {
    exists e :: e in all && e.seqNo > after && e !in Newest(all, capacity)
  }

  /** What a resuming reader gets: everything it missed, or nothing at all. */
  ghost function Resume<K>(all: seq<Event<K>>, capacity: nat, after: nat): Option<seq<Event<K>>> {
    if Gap(all, capacity, after) then None else Some(Later(all, after))
  }

  lemma {:induction false} LaterFrom<K>(events: seq<Event<K>>, first: nat, after: nat)
    requires forall i | 0 <= i < |events| :: events[i].seqNo == first + i
    ensures var n := if after < first then 0 else after + 1 - first;
            Later(events, after) == if n <= |events| then events[n..] else []
  {
    if events != [] {
      LaterFrom(events[1..], first + 1, after);
    }
  }

  /** There is a gap exactly when more events follow than the ring holds; without one, the ring
      and the unbounded log agree on what follows. */
  lemma GapIsOverflow<K>(all: seq<Event<K>>, capacity: nat, after: nat)
    requires Numbered(all)
    ensures Gap(all, capacity, after) <==> after + capacity < |all|
    ensures !Gap(all, capacity, after) ==> Later(Newest(all, capacity), after) == Later(all, after)
  {
    if after + capacity < |all| {
      var e := all[|all| - capacity - 1];
      HeldIffNewest(all, capacity, e);
    } else {
      forall e | e in all && e.seqNo > after ensures e in Newest(all, capacity) {
        HeldIffNewest(all, capacity, e);
      }
      NewestAgrees(all, capacity, after);
    }
  }

  lemma HeldIffNewest<K>(all: seq<Event<K>>, capacity: nat, e: Event<K>)
    requires Numbered(all) && e in all
    ensures e in Newest(all, capacity) <==> e.seqNo + capacity > |all|
  {
    var held := Newest(all, capacity);
    var lost := |all| - |held|;
    assert forall i | 0 <= i < |held| :: held[i] == all[lost + i];
    if e.seqNo + capacity > |all| {
      assert held[e.seqNo - 1 - lost] == e;
    }
  }

  lemma NewestAgrees<K>(all: seq<Event<K>>, capacity: nat, after: nat)
    requires Numbered(all) && |all| <= after + capacity
    ensures Later(Newest(all, capacity), after) == Later(all, after)
  {
    var held := Newest(all, capacity);
    var lost := |all| - |held|;
    if lost > 0 {
      LaterFrom(all, 1, after);
      LaterFrom(held, lost + 1, after);
      if after <= |all| {
        DropDrop(all, lost, after);
      }
    }
  }

  lemma DropDrop<T>(s: seq<T>, i: nat, j: nat)
    requires i <= j <= |s|
    ensures s[i..][j - i..] == s[j..]
  {
  }

  class EventLog<K> {
    var events: seq<Event<K>>
    var nextSeq: nat
    const capacity: nat

    /** Everything ever pushed. */
    ghost var all: seq<Event<K>>

    ghost predicate Valid()
      reads this
    {
      && capacity > 0
      && Numbered(all)
      && nextSeq == |all| + 1
      && events == Newest(all, capacity)
    }

    constructor (capacity: nat)
      requires capacity > 0
      ensures Valid() && all == [] && this.capacity == capacity
    {
      this.capacity := capacity;
      events, nextSeq, all := [], 1, [];
    }

    method Push(kind: K, nowMs: nat) returns (event: Event<K>)
      requires Valid()
      modifies this
      ensures Valid()
      ensures event == Event(old(|all|) + 1, nowMs, kind)
      ensures all == old(all) + [event]
    {
      event := Event(nextSeq, nowMs, kind);
      nextSeq := nextSeq + 1;
      if |events| == capacity {
        events := events[1..];
      }
      events := events + [event];
      all := all + [event];
    }

    method LastSeq() returns (n: nat)
      requires Valid()
      ensures n == |all|
    {
      n := nextSeq - 1;
    }

    /** Some exactly when nothing after the given number was evicted, and then complete. */
    method Recent(after: nat) returns (r: Option<seq<Event<K>>>)
      requires Valid()
      ensures r == Resume(all, capacity, after)
    {
      GapIsOverflow(all, capacity, after);
      if after + 1 >= nextSeq {
        LaterFrom(all, 1, after);
        return Some([]);
      }
      if events != [] && after + 1 >= events[0].seqNo {
        r := Some(Later(events, after));
      } else {
        r := None;
      }
    }
  }
}
