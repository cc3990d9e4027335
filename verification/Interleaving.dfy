/** Frames whose fragments interleave on the wire, sharing one reassembler. */
module Interleaving {
  import opened Bytes
  import opened Protocol
  import opened Fragmenter
  import opened Reassembler
  import opened Reassembly

  /** The fragments of one sequence, in arrival order. */
  function Only(fs: seq<MediaFragment>, q: U16): seq<MediaFragment> {
    if fs == [] then []
    else Only(fs[..|fs| - 1], q) + if fs[|fs| - 1].sequence == q then [fs[|fs| - 1]] else []
  }

  /** A reassembler that this sequence would have for itself. */
  ghost function Own(fs: seq<MediaFragment>, q: U16): seq<Entry> {
    After([], Only(fs, q))
  }

  /** What the shared reassembler returned for the pushes of one sequence. */
  function OutsFor(fs: seq<MediaFragment>, q: U16): seq<Option<Data>> {
    if fs == [] then []
    else
      var before, f := fs[..|fs| - 1], fs[|fs| - 1];
      OutsFor(before, q) + if f.sequence == q then [Pushed(After([], before), f).1] else []
  }

  /** The sequences that are incomplete, each by the account of its own reassembler. */
  ghost function Incomplete(fs: seq<MediaFragment>): set<U16> {
    set q: U16 | 0 <= q < 0x1_0000 && Lookup(Own(fs, q), q).Some?
  }

  ghost predicate EightAtMost(fs: seq<MediaFragment>) {
    forall k | 0 <= k <= |fs| :: |Incomplete(fs[..k])| <= MAX_OPEN
  }

  /** The shared reassembler holds of every sequence what its own would hold. */
  ghost predicate Agrees(fs: seq<MediaFragment>) {
    forall q: U16 :: Lookup(After([], fs), q) == Lookup(Own(fs, q), q)
  }

  // ------------------------------------------------------------------ lemmas

  ghost function Sequences(s: seq<Entry>): set<U16> {
    set i | 0 <= i < |s| :: s[i].sequence
  }

  lemma {:induction false} SequencesSize(s: seq<Entry>)
    requires Distinct(s)
    ensures |Sequences(s)| == |s|
  {
    if s != [] {
      var init, last := s[..|s| - 1], s[|s| - 1];
      SequencesSize(init);
      assert Sequences(s) == Sequences(init) + {last.sequence};
    }
  }

  lemma OpenIffSequence(s: seq<Entry>, q: U16)
    ensures Lookup(s, q).Some? <==> q in Sequences(s)
  {
  }

  /** Where the two accounts agree, their open sequences are the same, so at most eight. */
  lemma AgreementBounds(fs: seq<MediaFragment>)
    requires Agrees(fs) && Healthy(After([], fs))
    ensures Incomplete(fs) == Sequences(After([], fs))
    ensures |Incomplete(fs)| == |After([], fs)| <= MAX_OPEN
  {
    var s := After([], fs);
    forall q: U16 ensures q in Incomplete(fs) <==> q in Sequences(s) {
      OpenIffSequence(s, q);
    }
    assert Incomplete(fs) == Sequences(s);
    SequencesSize(s);
  }

  /** A reassembler of one's own never has more than one frame open. */
  lemma {:induction false} OwnIsAlone(fs: seq<MediaFragment>, q: U16)
    ensures var s := Own(fs, q); |s| <= 1 && forall i | 0 <= i < |s| :: s[i].sequence == q
  {
    if fs != [] {
      OwnIsAlone(fs[..|fs| - 1], q);
      OwnStep(fs[..|fs| - 1], fs[|fs| - 1], q);
      assert fs == fs[..|fs| - 1] + [fs[|fs| - 1]];
      if fs[|fs| - 1].sequence == q {
        PushAlone(Own(fs[..|fs| - 1], q), fs[|fs| - 1]);
      }
    }
  }

  lemma PushAlone(s: seq<Entry>, f: MediaFragment)
    requires |s| <= 1 && forall i | 0 <= i < |s| :: s[i].sequence == f.sequence
    ensures var t := Pushed(s, f).0; |t| <= 1 && forall i | 0 <= i < |t| :: t[i].sequence == f.sequence
  {
  }

  lemma OwnStep(fs: seq<MediaFragment>, f: MediaFragment, q: U16)
    ensures Own(fs + [f], q) == if f.sequence == q then Pushed(Own(fs, q), f).0 else Own(fs, q)
    ensures After([], fs + [f]) == Pushed(After([], fs), f).0
  {
    assert (fs + [f])[..|fs|] == fs;
    var only := Only(fs, q);
    assert Only(fs + [f], q) == only + if f.sequence == q then [f] else [];
    if f.sequence == q {
      assert (only + [f])[..|only|] == only;
    } else {
      assert only + [] == only;
    }
  }

  /** One push changes every sequence's own account just as it changes the shared one, unless
      the shared reassembler has to evict. */
  lemma StepAgrees(fs: seq<MediaFragment>, f: MediaFragment, q: U16)
    requires Agrees(fs) && Healthy(After([], fs))
    ensures var (s, out) := Pushed(After([], fs), f);
            && ((Accepts(f) && Evicts(After([], fs), f, q)) || Lookup(s, q) == Lookup(Own(fs + [f], q), q))
            && (q == f.sequence ==> out == Pushed(Own(fs, q), f).1)
  {
    var s, own := After([], fs), Own(fs, q);
    assert Lookup(s, q) == Lookup(own, q);
    OwnStep(fs, f, q);
    OwnIsAlone(fs, q);
    RunIsHealthy([], Only(fs, q));
    if Accepts(f) {
      PushByLookup(s, f, q);
      if q == f.sequence {
        PushByLookup(own, f, q);
      }
    }
  }

  /** A new sequence that is not complete at once is incomplete; every other one stays as it is. */
  lemma BecomesIncomplete(fs: seq<MediaFragment>, f: MediaFragment, q: U16)
    requires Accepts(f) && !Absorb(None, f).Complete() && Lookup(Own(fs, f.sequence), f.sequence).None?
    requires q == f.sequence || q in Incomplete(fs)
    ensures q in Incomplete(fs + [f])
  {
    OwnStep(fs, f, q);
    OwnIsAlone(fs, q);
    RunIsHealthy([], Only(fs, q));
    if q == f.sequence {
      PushByLookup(Own(fs, q), f, q);
    }
  }

  /** A push that evicts opens a ninth sequence. */
  lemma NinthOpens(fs: seq<MediaFragment>, f: MediaFragment)
    requires |Incomplete(fs)| == MAX_OPEN
    requires Accepts(f) && !Absorb(None, f).Complete() && Lookup(Own(fs, f.sequence), f.sequence).None?
    ensures |Incomplete(fs + [f])| > MAX_OPEN
  {
    forall q | q in Incomplete(fs) + {f.sequence} ensures q in Incomplete(fs + [f]) {
      BecomesIncomplete(fs, f, q);
    }
    OneMore(Incomplete(fs), f.sequence, Incomplete(fs + [f]));
  }

  lemma OneMore<T>(a: set<T>, x: T, b: set<T>)
    requires x !in a && a + {x} <= b
    ensures |b| > |a|
  {
    assert b == a + {x} + (b - a - {x});
  }

  lemma {:induction false} BoundedRunAgrees(fs: seq<MediaFragment>, q: U16)
    requires EightAtMost(fs)
    ensures Agrees(fs) && Healthy(After([], fs))
    ensures OutsFor(fs, q) == Outs([], Only(fs, q))
  {
    RunIsHealthy([], fs);
    if fs == [] {
    } else {
      var before, f := fs[..|fs| - 1], fs[|fs| - 1];
      assert fs == before + [f];
      assert forall k | 0 <= k <= |before| :: before[..k] == fs[..k];
      BoundedRunAgrees(before, q);
      assert fs[..|fs|] == fs;
      forall p: U16 ensures Lookup(After([], fs), p) == Lookup(Own(fs, p), p) {
        OwnStep(before, f, p);
        StepAgrees(before, f, p);
        if Accepts(f) && Evicts(After([], before), f, p) {
          AgreementBounds(before);
          NinthOpens(before, f);
        }
      }
      StepAgrees(before, f, q);
      var only := Only(before, q);
      assert f.sequence == q ==> (only + [f])[..|only|] == only;
      assert f.sequence != q ==> Only(fs, q) == only;
    }
  }

  /** The exact condition for sharing: at every moment the shared reassembler holds what each
      sequence's own would hold if and only if never more than eight are incomplete at once. */
  lemma SharingIsExact(fs: seq<MediaFragment>)
    ensures EightAtMost(fs) <==> forall k | 0 <= k <= |fs| :: Agrees(fs[..k])
  {
    if EightAtMost(fs) {
      forall k | 0 <= k <= |fs| ensures Agrees(fs[..k]) {
        assert forall j | 0 <= j <= k :: fs[..k][..j] == fs[..j];
        BoundedRunAgrees(fs[..k], 0);
      }
    }
    if forall k | 0 <= k <= |fs| :: Agrees(fs[..k]) {
      forall k | 0 <= k <= |fs| ensures |Incomplete(fs[..k])| <= MAX_OPEN {
        RunIsHealthy([], fs[..k]);
        AgreementBounds(fs[..k]);
      }
    }
  }

  /** In an arbitrary interleaving with at most eight incomplete frames, a frame whose slots
      each arrive comes out once and byte-exact, at the push of its last missing slot. Its number
      may have been used before, if no earlier frame has left the slot that arrives last, and may be
      used again. */
  lemma InterleavedFrame(
    fs: seq<MediaFragment>, q: U16, chunks: seq<Data>, before: seq<nat>, last: nat,
    earlier: seq<MediaFragment>, later: seq<MediaFragment>)
    requires EightAtMost(fs) && Sendable(chunks)
    requires InRange(before, |chunks|) && last < |chunks| && last !in before
    requires forall i: nat | i < |chunks| :: i in before + [last]
    requires InRange(before + [last], |chunks|)
    requires Only(fs, q) == earlier + Arrivals(q, chunks, before + [last]) + later
    requires Fresh(After([], earlier), q, |chunks|, last)
    ensures |OutsFor(fs, q)| == |earlier| + |before| + 1 + |later|
    ensures OutsFor(fs, q)[|earlier|..|earlier| + |before| + 1] == seq(|before|, _ => None) + [Whole(chunks)]
  {
    var own := Arrivals(q, chunks, before + [last]);
    BoundedRunAgrees(fs, q);
    RunsCompose([], earlier + own, later);
    RunsCompose([], earlier, own);
    RunIsHealthy([], earlier);
    AnyArrivalOrder(After([], earlier), q, chunks, before, last);
  }
}
