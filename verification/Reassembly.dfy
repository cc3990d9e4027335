/** Whole runs of the reassembler: any arrival order of one frame's fragments yields the frame,
    and interleaved frames do not disturb each other (src/protocol.rs:514-553). */
module Reassembly {
  import opened Bytes
  import opened Protocol
  import opened Fragmenter
  import opened Reassembler

  // -------------------------------------------------------------------- runs

  /** The open frames after pushing a run of fragments. */
  function After(s: seq<Entry>, fs: seq<MediaFragment>): seq<Entry> {
    if fs == [] then s else Pushed(After(s, fs[..|fs| - 1]), fs[|fs| - 1]).0
  }

  /** What each push of the run returned. */
  function Outs(s: seq<Entry>, fs: seq<MediaFragment>): (o: seq<Option<Data>>)
    ensures |o| == |fs|
  {
    if fs == [] then []
    else Outs(s, fs[..|fs| - 1]) + [Pushed(After(s, fs[..|fs| - 1]), fs[|fs| - 1]).1]
  }

  /** Every reachable state is healthy. */
  lemma {:induction false} RunIsHealthy(s: seq<Entry>, fs: seq<MediaFragment>)
    requires Healthy(s)
    ensures Healthy(After(s, fs))
  {
    if fs != [] {
      RunIsHealthy(s, fs[..|fs| - 1]);
      PushIsHealthy(After(s, fs[..|fs| - 1]), fs[|fs| - 1]);
    }
  }

  lemma {:induction false} RunsCompose(s: seq<Entry>, a: seq<MediaFragment>, b: seq<MediaFragment>)
    ensures After(s, a + b) == After(After(s, a), b)
    ensures Outs(s, a + b) == Outs(s, a) + Outs(After(s, a), b)
  {
    if b == [] {
      assert a + b == a;
    } else {
      RunsCompose(s, a, b[..|b| - 1]);
      assert (a + b)[..|a + b| - 1] == a + b[..|b| - 1];
    }
  }

  // -------------------------------------------- one frame, any arrival order

  /** A frame the wire can carry: 1 to 65535 chunks, none larger than a slot. */
  predicate Sendable(chunks: seq<Data>) { Slotted(chunks) && 1 <= |chunks| <= 65535 }

  ghost predicate InRange(idx: seq<nat>, n: nat) {
    forall k | 0 <= k < |idx| :: idx[k] < n
  }

  /** The run in which the fragments of a frame arrive in the order of idx. */
  ghost function Arrivals(q: U16, chunks: seq<Data>, idx: seq<nat>): (fs: seq<MediaFragment>)
    requires Slotted(chunks) && InRange(idx, |chunks|)
    ensures |fs| == |idx| && forall k | 0 <= k < |idx| :: fs[k] == Fragment(q, chunks, idx[k])
  {
    seq(|idx|, k requires 0 <= k < |idx| => Fragment(q, chunks, idx[k]))
  }

  /** The frame as far as the slots in idx have arrived. */
  ghost function Gathered(chunks: seq<Data>, idx: seq<nat>): Frame
    requires Sendable(chunks)
  {
    Frame(|chunks|, map k | k in Indices(|chunks|) && k - 1 in idx :: chunks[k - 1])
  }

  /** What an earlier frame under the same number leaves in a frame of n slots: its slots, if it has
      as many. */
  ghost function Stale(prior: Option<Frame>, n: nat): map<U16, Data> {
    if prior.Some? && prior.value.count == n then prior.value.parts else map[]
  }

  /** The same with what was there before, as far as it has not been replaced. */
  ghost function Over(prior: Option<Frame>, chunks: seq<Data>, idx: seq<nat>): Frame
    requires Sendable(chunks)
  {
    Frame(|chunks|, Stale(prior, |chunks|) + Gathered(chunks, idx).parts)
  }

  ghost function Held(prior: Option<Frame>, chunks: seq<Data>, idx: seq<nat>): Option<Frame>
    requires Sendable(chunks)
  {
    if idx == [] then prior else Some(Over(prior, chunks, idx))
  }

  lemma GatheredGrows(chunks: seq<Data>, idx: seq<nat>, i: nat)
    requires Sendable(chunks) && i < |chunks|
    ensures Gathered(chunks, idx + [i]).parts == Gathered(chunks, idx).parts[i + 1 := chunks[i]]
  {
    forall k: nat ensures k in idx + [i] <==> k in idx || k == i {
    }
  }

  lemma OverGrows(prior: Option<Frame>, chunks: seq<Data>, idx: seq<nat>, i: nat)
    requires Sendable(chunks) && i < |chunks|
    ensures Over(prior, chunks, idx + [i]).parts == Over(prior, chunks, idx).parts[i + 1 := chunks[i]]
  {
    GatheredGrows(chunks, idx, i);
  }

  lemma NothingOver(prior: Option<Frame>, chunks: seq<Data>)
    requires Sendable(chunks)
    ensures Over(prior, chunks, []).parts == Stale(prior, |chunks|)
  {
    assert Gathered(chunks, []).parts == map[];
  }

  lemma AbsorbOne(prior: Option<Frame>, q: U16, chunks: seq<Data>, idx: seq<nat>, i: nat)
    requires Sendable(chunks) && i < |chunks|
    ensures Accepts(Fragment(q, chunks, i))
    ensures Absorb(Held(prior, chunks, idx), Fragment(q, chunks, i)) == Over(prior, chunks, idx + [i])
  {
    FragmentIs(q, chunks, i);
    AbsorbIs(Held(prior, chunks, idx), Fragment(q, chunks, i));
    StaleOfHeld(prior, chunks, idx);
    OverGrows(prior, chunks, idx, i);
  }

  lemma FragmentIs(q: U16, chunks: seq<Data>, i: nat)
    requires Sendable(chunks) && i < |chunks|
    ensures var f := Fragment(q, chunks, i);
            Accepts(f) && f.sequence == q && f.count == |chunks| && f.index == i + 1 && f.data == chunks[i]
  {
  }

  lemma AbsorbIs(held: Option<Frame>, f: MediaFragment)
    ensures Absorb(held, f) == Frame(f.count, Stale(held, f.count)[f.index := f.data])
  {
  }

  lemma StaleOfHeld(prior: Option<Frame>, chunks: seq<Data>, idx: seq<nat>)
    requires Sendable(chunks)
    ensures Stale(Held(prior, chunks, idx), |chunks|) == Over(prior, chunks, idx).parts
  {
    NothingOver(prior, chunks);
  }

  /** One more slot arrives. */
  lemma GatherOne(s: seq<Entry>, prior: Option<Frame>, q: U16, chunks: seq<Data>, idx: seq<nat>, i: nat, frame: Frame)
    requires Healthy(s) && Sendable(chunks) && i < |chunks| && Lookup(s, q) == Held(prior, chunks, idx)
    requires frame == Over(prior, chunks, idx + [i])
    ensures var (t, out) := Pushed(s, Fragment(q, chunks, i));
            && Lookup(t, q) == (if frame.Complete() then None else Some(frame))
            && out == (if frame.Complete() then Finish(frame) else None)
  {
    AbsorbOne(prior, q, chunks, idx, i);
    PushByLookup(s, Fragment(q, chunks, i), q);
  }

  lemma ArrivalsSnoc(s: seq<Entry>, q: U16, chunks: seq<Data>, idx: seq<nat>, i: nat)
    requires Slotted(chunks) && InRange(idx, |chunks|) && i < |chunks|
    ensures InRange(idx + [i], |chunks|)
    ensures var before, after := Arrivals(q, chunks, idx), Arrivals(q, chunks, idx + [i]);
            var (t, out) := Pushed(After(s, before), Fragment(q, chunks, i));
            After(s, after) == t && Outs(s, after) == Outs(s, before) + [out]
  {
    assert Arrivals(q, chunks, idx + [i])[..|idx|] == Arrivals(q, chunks, idx);
  }

  /** What a frame of these chunks is worth: the joined bytes if they are a JPEG, or nothing. */
  ghost function Whole(chunks: seq<Data>): Option<Data> {
    if Delimited(Flatten(chunks)) then Some(Flatten(chunks)) else None
  }

  lemma EverySlotGathered(chunks: seq<Data>, idx: seq<nat>)
    requires Sendable(chunks) && forall i: nat | i < |chunks| :: i in idx
    ensures Gathered(chunks, idx).parts.Keys == Indices(|chunks|)
    ensures Gathered(chunks, idx).Complete() && Finish(Gathered(chunks, idx)) == Whole(chunks)
  {
    EverySlotThere(chunks, idx);
    FinishIsWhole(Gathered(chunks, idx), chunks);
  }

  lemma EverySlotThere(chunks: seq<Data>, idx: seq<nat>)
    requires Sendable(chunks) && forall i: nat | i < |chunks| :: i in idx
    ensures var f := Gathered(chunks, idx);
            f.parts.Keys == Indices(|chunks|) && f.Complete() && f.Parts() == chunks
  {
    var f := Gathered(chunks, idx);
    assert f.parts.Keys == Indices(f.count);
    assert forall k: U16 | 1 <= k <= |chunks| :: k in f.parts && f.parts[k] == chunks[k - 1];
  }

  lemma FinishIsWhole(f: Frame, chunks: seq<Data>)
    requires f.Complete() && f.Parts() == chunks
    ensures Finish(f) == Whole(chunks)
  {
    JpegIsDelimited(Flatten(chunks));
  }

  /** When every slot has arrived, nothing of an earlier frame is left: the frame is complete and
      joins to exactly the original. */
  lemma AllGathered(prior: Option<Frame>, chunks: seq<Data>, idx: seq<nat>)
    requires Sendable(chunks) && forall i: nat | i < |chunks| :: i in idx
    requires prior.Some? ==> prior.value.Open()
    ensures Over(prior, chunks, idx).Complete() && Finish(Over(prior, chunks, idx)) == Whole(chunks)
  {
    EverySlotGathered(chunks, idx);
    Overwritten(Stale(prior, |chunks|), Gathered(chunks, idx).parts, |chunks|);
  }

  lemma Overwritten(stale: map<U16, Data>, parts: map<U16, Data>, n: nat)
    requires n < 0x1_0000 && parts.Keys == Indices(n) && forall k | k in stale :: 1 <= k <= n
    ensures stale + parts == parts
  {
    forall k | k in stale ensures k in parts {
      assert k in Indices(n);
    }
  }

  lemma StillOpen(prior: Option<Frame>, chunks: seq<Data>, idx: seq<nat>, missing: nat)
    requires Sendable(chunks) && missing < |chunks| && missing !in idx && missing + 1 !in Stale(prior, |chunks|)
    ensures !Over(prior, chunks, idx).Complete()
  {
    assert missing + 1 !in Over(prior, chunks, idx).parts;
  }

  /** While a slot is missing the frame stays open and nothing comes out. */
  lemma {:induction false} GatheringStaysOpen(s: seq<Entry>, q: U16, chunks: seq<Data>, idx: seq<nat>, missing: nat)
    requires Healthy(s) && Sendable(chunks) && InRange(idx, |chunks|)
    requires missing < |chunks| && missing !in idx && missing + 1 !in Stale(Lookup(s, q), |chunks|)
    ensures var fs := Arrivals(q, chunks, idx);
            && Lookup(After(s, fs), q) == Held(Lookup(s, q), chunks, idx)
            && Outs(s, fs) == seq(|idx|, _ => None)
  {
    if idx != [] {
      var n := |idx| - 1;
      var before, i := idx[..n], idx[n];
      assert idx == before + [i];
      GatheringStaysOpen(s, q, chunks, before, missing);
      RunIsHealthy(s, Arrivals(q, chunks, before));
      StillOpen(Lookup(s, q), chunks, idx, missing);
      OneMoreSlot(s, q, chunks, before, i);
    }
  }

  lemma OneMoreSlot(s: seq<Entry>, q: U16, chunks: seq<Data>, before: seq<nat>, i: nat)
    requires Sendable(chunks) && InRange(before, |chunks|) && i < |chunks|
    requires var t := After(s, Arrivals(q, chunks, before));
             Healthy(t) && Lookup(t, q) == Held(Lookup(s, q), chunks, before)
    requires !Over(Lookup(s, q), chunks, before + [i]).Complete()
    ensures InRange(before + [i], |chunks|)
    ensures var fs := Arrivals(q, chunks, before + [i]);
            && Lookup(After(s, fs), q) == Some(Over(Lookup(s, q), chunks, before + [i]))
            && Outs(s, fs) == Outs(s, Arrivals(q, chunks, before)) + [None]
  {
    var t, frame := After(s, Arrivals(q, chunks, before)), Over(Lookup(s, q), chunks, before + [i]);
    GatherOne(t, Lookup(s, q), q, chunks, before, i, frame);
    ArrivalsSnoc(s, q, chunks, before, i);
  }

  lemma LookupIsOpen(s: seq<Entry>, q: U16)
    requires Healthy(s)
    ensures Lookup(s, q).Some? ==> Lookup(s, q).value.Open()
  {
  }

  /** The slot that arrives last is not held already, from an earlier frame of as many slots. */
  ghost predicate Fresh(s: seq<Entry>, q: U16, n: nat, last: nat) {
    last + 1 !in Stale(Lookup(s, q), n)
  }

  /** From any healthy state in which the slot that arrives last is not held already, the slots of a
      frame may arrive in any order, with repeats: nothing comes out before the last missing slot, and
      the push that supplies it returns exactly the original frame, if that is a JPEG. */
  lemma AnyArrivalOrder(s: seq<Entry>, q: U16, chunks: seq<Data>, before: seq<nat>, last: nat)
    requires Healthy(s) && Sendable(chunks) && Fresh(s, q, |chunks|, last)
    requires InRange(before, |chunks|) && last < |chunks| && last !in before
    requires forall i: nat | i < |chunks| :: i in before + [last]
    ensures InRange(before + [last], |chunks|)
    ensures var fs := Arrivals(q, chunks, before + [last]);
            && Outs(s, fs) == seq(|before|, _ => None) + [Whole(chunks)]
            && Lookup(After(s, fs), q).None?
  {
    LookupIsOpen(s, q);
    AllGathered(Lookup(s, q), chunks, before + [last]);
    GatheringStaysOpen(s, q, chunks, before, last);
    LastSlot(s, q, chunks, before, last);
  }

  /** The push of the slot that completes the frame. */
  lemma LastSlot(s: seq<Entry>, q: U16, chunks: seq<Data>, before: seq<nat>, last: nat)
    requires Healthy(s) && Sendable(chunks) && Fresh(s, q, |chunks|, last)
    requires InRange(before, |chunks|) && last < |chunks| && last !in before
    requires Over(Lookup(s, q), chunks, before + [last]).Complete()
    ensures InRange(before + [last], |chunks|)
    ensures var fs := Arrivals(q, chunks, before + [last]);
            && Lookup(After(s, fs), q).None?
            && Outs(s, fs) == Outs(s, Arrivals(q, chunks, before)) + [Finish(Over(Lookup(s, q), chunks, before + [last]))]
  {
    GatheringStaysOpen(s, q, chunks, before, last);
    RunIsHealthy(s, Arrivals(q, chunks, before));
    GatherOne(After(s, Arrivals(q, chunks, before)), Lookup(s, q), q, chunks, before, last,
              Over(Lookup(s, q), chunks, before + [last]));
    ArrivalsSnoc(s, q, chunks, before, last);
  }

  // ------------------------------------------------------- a number in use

  predicate HasSlot(parts: map<U16, Data>, j: nat) { j + 1 in parts }

  /** Slot j was there at the start or is among the arrivals. */
  predicate There(parts: map<U16, Data>, idx: seq<nat>, j: nat) { HasSlot(parts, j) || j in idx }

  /** The arrival with which a frame first has every slot, counting those it had at the start. */
  lemma {:induction false} FillPoint(parts: map<U16, Data>, n: nat, idx: seq<nat>) returns (k: nat)
    requires exists j: nat :: j < n && !HasSlot(parts, j)
    requires forall j: nat | j < n :: There(parts, idx, j)
    ensures k < |idx| && idx[k] < n && !HasSlot(parts, idx[k]) && idx[k] !in idx[..k]
    ensures var first := idx[..k + 1]; forall j: nat | j < n :: There(parts, first, j)
  {
    var some: nat :| some < n && !HasSlot(parts, some);
    assert There(parts, idx, some);
    var m := |idx| - 1;
    var init := idx[..m];
    assert idx == init + [idx[m]];
    if forall j: nat | j < n :: There(parts, init, j) {
      k := FillPoint(parts, n, init);
      assert init[..k] == idx[..k] && init[..k + 1] == idx[..k + 1];
    } else {
      k := m;
      assert idx[..k + 1] == idx;
      var j: nat :| j < n && !There(parts, init, j);
      assert There(parts, idx, j);
    }
  }

  lemma SomethingIsMissing(frame: Frame)
    requires frame.Open()
    ensures exists j: nat :: j < frame.count && !HasSlot(frame.parts, j)
  {
    if forall j: nat | j < frame.count :: HasSlot(frame.parts, j) {
      NothingMissing(frame);
    }
  }

  lemma NothingMissing(frame: Frame)
    requires forall k | k in frame.parts :: 1 <= k <= frame.count
    requires forall j: nat | j < frame.count :: HasSlot(frame.parts, j)
    ensures |frame.parts| == frame.count
  {
    forall k: U16 | k in Indices(frame.count) ensures k in frame.parts {
      assert HasSlot(frame.parts, k - 1);
    }
    assert frame.parts.Keys == Indices(frame.count);
  }

  lemma FullIsComplete(prior: Option<Frame>, chunks: seq<Data>, idx: seq<nat>)
    requires Sendable(chunks) && (prior.Some? ==> prior.value.Open())
    requires forall j: nat | j < |chunks| :: There(Stale(prior, |chunks|), idx, j)
    ensures Over(prior, chunks, idx).Complete()
  {
    var f := Over(prior, chunks, idx);
    forall j: nat | j < |chunks| ensures HasSlot(f.parts, j) {
      OverHas(prior, chunks, idx, j);
    }
    assert forall k | k in Stale(prior, |chunks|) :: 1 <= k <= |chunks|;
    NothingMissing(f);
    forall k: U16 | 1 <= k <= f.count ensures k in f.parts {
      assert HasSlot(f.parts, k - 1);
    }
  }

  lemma OverHas(prior: Option<Frame>, chunks: seq<Data>, idx: seq<nat>, j: nat)
    requires Sendable(chunks) && j < |chunks| && There(Stale(prior, |chunks|), idx, j)
    ensures HasSlot(Over(prior, chunks, idx).parts, j)
  {
    if j in idx {
      assert j + 1 in Indices(|chunks|);
    }
  }

  ghost predicate NoRepeat(idx: seq<nat>) {
    forall i, j | 0 <= i < j < |idx| :: idx[i] != idx[j]
  }

  /** A slot that is held already lets the frame close before it is all there: what comes out mixes
      two frames, and nothing comes out when the last slot arrives. */
  lemma StaleSlotSpoils(s: seq<Entry>, q: U16, chunks: seq<Data>, before: seq<nat>, last: nat)
    requires Healthy(s) && Sendable(chunks) && !Fresh(s, q, |chunks|, last)
    requires InRange(before + [last], |chunks|) && NoRepeat(before + [last])
    requires forall i: nat | i < |chunks| :: i in before + [last]
    ensures Outs(s, Arrivals(q, chunks, before + [last]))[|before|] == None
  {
    var prior, all := Lookup(s, q), before + [last];
    LookupIsOpen(s, q);
    SomethingIsMissing(prior.value);
    forall j: nat | j < |chunks| ensures There(prior.value.parts, before, j) {
      assert j in all;
    }
    var k := FillPoint(prior.value.parts, |chunks|, before);
    var first, rest := before[..k], before[k + 1..] + [last];
    assert before == first + [before[k]] + before[k + 1..];
    assert before[..k + 1] == first + [before[k]];
    assert all == first + [before[k]] + rest;
    NotAgain(first, before[k], rest);
    ClosedEarly(s, q, chunks, first, before[k], rest);
  }

  lemma NotAgain(first: seq<nat>, slot: nat, rest: seq<nat>)
    requires NoRepeat(first + [slot] + rest)
    ensures slot !in rest
  {
    var all := first + [slot] + rest;
    assert all[|first|] == slot;
    assert forall i | 0 <= i < |rest| :: rest[i] == all[|first| + 1 + i];
  }

  /** After the frame has closed, slots without the one that closed it never close it again. */
  lemma ClosedEarly(s: seq<Entry>, q: U16, chunks: seq<Data>, first: seq<nat>, slot: nat, rest: seq<nat>)
    requires Healthy(s) && Sendable(chunks) && InRange(first + [slot] + rest, |chunks|)
    requires slot !in first && slot !in rest && Fresh(s, q, |chunks|, slot)
    requires forall j: nat | j < |chunks| :: There(Stale(Lookup(s, q), |chunks|), first + [slot], j)
    ensures var outs := Outs(s, Arrivals(q, chunks, first + [slot] + rest));
            |outs| == |first| + 1 + |rest| && forall i | |first| < i < |outs| :: outs[i] == None
  {
    ArrivalsSplit(q, chunks, first + [slot], rest);
    ArrivalsSplit(q, chunks, first, [slot]);
    assert [slot][0] == slot;
    LookupIsOpen(s, q);
    FullIsComplete(Lookup(s, q), chunks, first + [slot]);
    LastSlot(s, q, chunks, first, slot);
    var fs := Arrivals(q, chunks, first + [slot]);
    RunIsHealthy(s, fs);
    StaysClosed(After(s, fs), q, chunks, rest, slot);
    RunsCompose(s, fs, Arrivals(q, chunks, rest));
  }

  lemma StaysClosed(s: seq<Entry>, q: U16, chunks: seq<Data>, rest: seq<nat>, slot: nat)
    requires Healthy(s) && Lookup(s, q).None? && Sendable(chunks) && InRange(rest, |chunks|)
    requires slot < |chunks| && slot !in rest
    ensures var outs := Outs(s, Arrivals(q, chunks, rest)); forall i | 0 <= i < |rest| :: outs[i] == None
  {
    GatheringStaysOpen(s, q, chunks, rest, slot);
  }

  lemma ArrivalsSplit(q: U16, chunks: seq<Data>, a: seq<nat>, b: seq<nat>)
    requires Slotted(chunks) && InRange(a + b, |chunks|)
    ensures InRange(a, |chunks|) && InRange(b, |chunks|)
    ensures Arrivals(q, chunks, a + b) == Arrivals(q, chunks, a) + Arrivals(q, chunks, b)
  {
    assert forall k | 0 <= k < |a| :: (a + b)[k] == a[k];
    assert forall k | 0 <= k < |b| :: (a + b)[|a| + k] == b[k];
  }

  /** The exact condition for a number in use: a JPEG frame whose slots arrive without repeats comes
      out at its last slot, and nothing before, if and only if the frame held under its number has
      another count or does not hold the slot that arrives last. */
  lemma NumberInUseIsExact(s: seq<Entry>, q: U16, chunks: seq<Data>, before: seq<nat>, last: nat)
    requires Healthy(s) && Sendable(chunks) && Delimited(Flatten(chunks))
    requires InRange(before + [last], |chunks|) && NoRepeat(before + [last])
    requires forall i: nat | i < |chunks| :: i in before + [last]
    ensures Outs(s, Arrivals(q, chunks, before + [last])) == seq(|before|, _ => None) + [Some(Flatten(chunks))]
       <==> Lookup(s, q).None? || Lookup(s, q).value.count != |chunks| || last + 1 !in Lookup(s, q).value.parts
  {
    var all := before + [last];
    assert all[|before|] == last;
    assert forall i | 0 <= i < |before| :: all[i] == before[i];
    if Fresh(s, q, |chunks|, last) {
      AnyArrivalOrder(s, q, chunks, before, last);
    } else {
      StaleSlotSpoils(s, q, chunks, before, last);
    }
  }
}
