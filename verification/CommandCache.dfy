/** The bounded idempotency cache for command results (src/agent_api.rs, CommandCache): a map
    and a queue that together remember exactly the newest results. */
module CommandCache {
  import opened Bytes

  datatype CallError =
    | NotRinging | PadOwnsCall | UnlockNotAllowed | UnlockCooldown | NoCall | AgentOffline

  datatype CommandResult = CommandResult(commandId: Data, ok: bool, error: Option<CallError>, replayed: bool)

  function Accepted(commandId: Data): CommandResult { CommandResult(commandId, true, None, false) }

  function Rejected(commandId: Data, error: CallError): CommandResult { CommandResult(commandId, false, Some(error), false) }

  // ------------------------------------------------------------ specification

  datatype Cache = Cache(results: map<Data, CommandResult>, queue: seq<Data>)

  function Found(c: Cache, id: Data): Option<CommandResult> {
    if id in c.results then Some(c.results[id].(replayed := true)) else None
  }

  function Stored(c: Cache, capacity: nat, r: CommandResult): Cache {
    var room := if |c.results| >= capacity && c.queue != [] then Cache(c.results - {c.queue[0]}, c.queue[1..]) else c;
    Cache(room.results[r.commandId := r], room.queue + [r.commandId])
  }

  /** The queue lists the ids of these results oldest first, each once, and the map holds them. */
  ghost predicate Holds(c: Cache, recent: seq<CommandResult>) {
    && |c.queue| == |recent|
    && (forall i, j | 0 <= i < j < |recent| :: recent[i].commandId != recent[j].commandId)
    && (forall i | 0 <= i < |recent| :: c.queue[i] == recent[i].commandId)
    && (forall i | 0 <= i < |recent| :: recent[i].commandId in c.results && c.results[recent[i].commandId] == recent[i])
    && (forall id | id in c.results :: id in c.queue)
  }

  /** The cache is exactly the newest n results of everything ever stored. */
  ghost predicate Remembers(c: Cache, history: seq<CommandResult>, n: nat) {
    Holds(c, Newest(history, n))
  }

  lemma HoldsPush(c: Cache, recent: seq<CommandResult>, r: CommandResult)
    requires Holds(c, recent) && r.commandId !in c.results
    ensures Holds(Cache(c.results[r.commandId := r], c.queue + [r.commandId]), recent + [r])
  {
    var q := c.queue + [r.commandId];
    assert q[|c.queue|] == r.commandId;
    assert forall id | id in c.queue :: id in q;
  }

  lemma HoldsPop(c: Cache, recent: seq<CommandResult>)
    requires Holds(c, recent) && recent != []
    ensures Holds(Cache(c.results - {c.queue[0]}, c.queue[1..]), recent[1..])
  {
    assert c.queue == [c.queue[0]] + c.queue[1..];
  }

  /** The map has exactly the queue's ids, so the two have the same size. */
  lemma {:induction false} SameSize(c: Cache, recent: seq<CommandResult>)
    requires Holds(c, recent)
    ensures |c.results| == |c.queue|
    ensures forall id :: id in c.results <==> id in c.queue
    decreases |recent|
  {
    if recent == [] {
      assert c.results == map[];
    } else {
      HoldsPop(c, recent);
      SameSize(Cache(c.results - {c.queue[0]}, c.queue[1..]), recent[1..]);
      assert c.results.Keys == (c.results - {c.queue[0]}).Keys + {c.queue[0]};
    }
  }

  /** Storing under an id that is not cached keeps the cache at the newest results. */
  lemma StoredRemembers(c: Cache, history: seq<CommandResult>, n: nat, r: CommandResult)
    requires n > 0 && Remembers(c, history, n) && r.commandId !in c.results
    ensures Remembers(Stored(c, n, r), history + [r], n)
  {
    var recent := Newest(history, n);
    SameSize(c, recent);
    NewestPush(history, r, n);
    if |history| < n {
      HoldsPush(c, recent, r);
    } else {
      HoldsPop(c, recent);
      HoldsPush(Cache(c.results - {c.queue[0]}, c.queue[1..]), recent[1..], r);
    }
  }

  lemma NewestPush<T>(history: seq<T>, r: T, n: nat)
    requires n > 0
    ensures Newest(history + [r], n) ==
            if |history| < n then Newest(history, n) + [r] else Newest(history, n)[1..] + [r]
  {
  }

  /** An id is answered from the cache exactly when it was stored and fewer than n results have
      been stored since, and then with the very result stored for it, flagged as replayed. */
  lemma FoundIffRecent(c: Cache, history: seq<CommandResult>, n: nat, i: nat)
    requires Remembers(c, history, n) && i < |history|
    requires forall j | i < j < |history| :: history[j].commandId != history[i].commandId
    ensures Found(c, history[i].commandId) == if |history| <= i + n then Some(history[i].(replayed := true)) else None
  {
    var recent, id := Newest(history, n), history[i].commandId;
    var gone := |history| - |recent|;
    if gone <= i {
      assert recent[i - gone] == history[i];
    } else {
      forall k | 0 <= k < |recent| ensures c.queue[k] != id {
        assert recent[k] == history[gone + k];
      }
      assert id !in c.queue;
    }
  }

  // ----------------------------------------------------------- implementation

  class CommandCache {
    var results: map<Data, CommandResult>
    var queue: seq<Data>
    const capacity: nat

    function View(): Cache
      reads this
    {
      Cache(results, queue)
    }

    constructor (capacity: nat)
      ensures View() == Cache(map[], []) && this.capacity == capacity
    {
      this.capacity := capacity;
      results, queue := map[], [];
    }

    method Get(id: Data) returns (r: Option<CommandResult>)
      ensures r == Found(View(), id)
    {
      r := None;
      if id in results {
        var result := results[id];
        result := result.(replayed := true);
        r := Some(result);
      }
    }

    method Store(result: CommandResult)
      modifies this
      ensures View() == Stored(old(View()), capacity, result)
    {
      if |results| >= capacity {
        if queue != [] {
          var oldest := queue[0];
          queue := queue[1..];
          results := results - {oldest};
        }
      }
      queue := queue + [result.commandId];
      results := results[result.commandId := result];
    }
  }
}
