/** The bounded, out-of-order JPEG reassembler (src/protocol.rs, JpegReassembler). The frame map
    and the order queue kept beside it refine one list of open frames, oldest first. */
module Reassembler {
  import opened Bytes
  import opened Protocol

  const MAX_OPEN: nat := 8

  datatype Frame = Frame(count: U16, parts: map<U16, Data>) {
    /** Indices are 1..count and at least one is missing. */
    predicate Open() {
      && (forall k | k in parts :: 1 <= k <= count)
      && |parts| < count
    }

    predicate Complete() {
      && |parts| == count
      && forall k: U16 | 1 <= k <= count :: k in parts
    }

    function Parts(): (p: seq<Data>)
      requires forall k: U16 | 1 <= k <= count :: k in parts
      ensures |p| == count
    {
      seq(count, i requires 0 <= i < count => parts[i + 1])
    }
  }

  datatype Entry = Entry(sequence: U16, frame: Frame)

  predicate IsJpeg(d: Data) {
    && |d| >= 2
    && d[0] == 0xff && d[1] == 0xd8
    && d[|d| - 2] == 0xff && d[|d| - 1] == 0xd9
  }

  /** What a JPEG frame looks like on the wire: it starts with FF D8 and ends with FF D9. */
  ghost predicate Delimited(d: Data) {
    |d| >= 4 && d[..2] == [0xff, 0xd8] && d[|d| - 2..] == [0xff, 0xd9]
  }

  /** The reassembler's test at both ends is exactly that, for data of any length. */
  lemma JpegIsDelimited(d: Data)
    ensures IsJpeg(d) <==> Delimited(d)
  {
    if |d| >= 2 {
      assert d[..2] == [d[0], d[1]];
      assert d[|d| - 2..] == [d[|d| - 2], d[|d| - 1]];
    }
  }

  // ------------------------------------------------------------ specification

  predicate Accepts(f: MediaFragment) {
    f.mediaType == MEDIA_JPEG && f.count != 0 && f.index != 0 && f.index <= f.count
  }

  /** The position of a sequence among the open frames, or their number. */
  function Slot(s: seq<Entry>, q: U16): (i: nat)
    ensures i <= |s| && (i < |s| ==> s[i].sequence == q)
    ensures forall j | 0 <= j < i :: s[j].sequence != q
  {
    if s == [] || s[0].sequence == q then 0 else 1 + Slot(s[1..], q)
  }

  function Lookup(s: seq<Entry>, q: U16): Option<Frame> {
    if Slot(s, q) < |s| then Some(s[Slot(s, q)].frame) else None
  }

  /** The frame after a fragment: a changed fragment count starts it over. */
  function Absorb(held: Option<Frame>, f: MediaFragment): Frame {
    var parts := if held.Some? && held.value.count == f.count then held.value.parts else map[];
    Frame(f.count, parts[f.index := f.data])
  }

  function Finish(frame: Frame): Option<Data>
    requires frame.Complete()
  {
    var jpeg := Flatten(frame.Parts());
    if IsJpeg(jpeg) then Some(jpeg) else None
  }

  function Put(s: seq<Entry>, i: nat, e: Entry): seq<Entry>
    requires i <= |s|
  {
    if i < |s| then s[i := e] else s + [e]
  }

  function Drop(s: seq<Entry>, i: nat): seq<Entry>
    requires i <= |s|
  {
    if i < |s| then s[..i] + s[i + 1..] else s
  }

  /** Oldest first out until at most eight frames are open. */
  function Trimmed(s: seq<Entry>): seq<Entry> {
    if |s| > MAX_OPEN then s[|s| - MAX_OPEN..] else s
  }

  function Pushed(s: seq<Entry>, f: MediaFragment): (seq<Entry>, Option<Data>) {
    if !Accepts(f) then (s, None) else
    var i := Slot(s, f.sequence);
    var frame := Absorb(Lookup(s, f.sequence), f);
    if frame.Complete() then (Drop(s, i), Finish(frame))
    else (Trimmed(Put(s, i, Entry(f.sequence, frame))), None)
  }

  ghost predicate Distinct(s: seq<Entry>) {
    forall i, j | 0 <= i < j < |s| :: s[i].sequence != s[j].sequence
  }

  /** What every reachable state satisfies: at most eight frames are open, under distinct
      sequence numbers, each incomplete and with indices in 1..count. */
  ghost predicate Healthy(s: seq<Entry>) {
    && |s| <= MAX_OPEN
    && Distinct(s)
    && forall i | 0 <= i < |s| :: s[i].frame.Open()
  }

  // ------------------------------------------------------------ consequences

  ghost function Indices(n: nat): (r: set<U16>)
    requires n < 0x1_0000
    ensures |r| == n
    ensures forall k: U16 :: k in r <==> 1 <= k <= n
  {
    if n == 0 then {} else Indices(n - 1) + {n}
  }

  /** With indices in range, the length test alone already implies that every index is there. */
  lemma LengthTestSuffices(frame: Frame)
    requires forall k | k in frame.parts :: 1 <= k <= frame.count
    ensures |frame.parts| <= frame.count
    ensures |frame.parts| == frame.count ==> frame.Complete()
  {
    var keys, all := frame.parts.Keys, Indices(frame.count);
    assert |all| == |keys| + |all - keys| by {
      assert all == keys + (all - keys);
    }
    if |keys| == frame.count {
      assert all - keys == {};
    }
  }

  lemma AbsorbInRange(held: Option<Frame>, f: MediaFragment)
    requires Accepts(f) && (held.Some? ==> held.value.Open())
    ensures var frame := Absorb(held, f); frame.Complete() || frame.Open()
  {
    LengthTestSuffices(Absorb(held, f));
  }

  lemma LookupPut(s: seq<Entry>, e: Entry, q: U16)
    requires Distinct(s)
    ensures var t := Put(s, Slot(s, e.sequence), e);
            && Distinct(t)
            && Lookup(t, q) == if q == e.sequence then Some(e.frame) else Lookup(s, q)
  {
    var i, j := Slot(s, e.sequence), Slot(s, q);
    var t := Put(s, i, e);
    var k := Slot(t, q);
    assert q == e.sequence ==> t[i].sequence == q;
    assert q != e.sequence && j < |s| ==> t[j] == s[j];
    assert q != e.sequence && k < |t| ==> k < |s| && s[k] == t[k];
  }

  lemma LookupDrop(s: seq<Entry>, i: nat, q: U16)
    requires Distinct(s) && i <= |s|
    ensures var t := Drop(s, i);
            && Distinct(t)
            && Lookup(t, q) == if i < |s| && q == s[i].sequence then None else Lookup(s, q)
  {
    var j := Slot(s, q);
    var t := Drop(s, i);
    var k := Slot(t, q);
    assert forall m | 0 <= m < |t| :: t[m] == s[if m < i then m else m + 1];
    assert j < i ==> j < |s| ==> t[j] == s[j];
    assert i < j < |s| ==> t[j - 1] == s[j];
  }

  /** A fragment that is not of a JPEG, or whose index is not in 1..count, is ignored. */
  lemma IgnoredFragments(s: seq<Entry>, f: MediaFragment)
    requires f.mediaType != 1 || f.index < 1 || f.index > f.count
    ensures Pushed(s, f) == (s, None)
  {
  }

  /** A ninth frame drives out the one that was opened first; up to eight stay open. */
  lemma NinthDrivesOutTheFirst(s: seq<Entry>, f: MediaFragment)
    requires Healthy(s) && Lookup(s, f.sequence).None? && f.mediaType == 1 && 1 <= f.index <= f.count && f.count > 1
    ensures var e := Entry(f.sequence, Frame(f.count, map[f.index := f.data]));
            Pushed(s, f) == ((if |s| == 8 then s[1..] else s) + [e], None) && |s| <= 8
  {
    var frame := Frame(f.count, map[f.index := f.data]);
    assert |frame.parts| == 1;
    assert Absorb(None, f) == frame;
    if s != [] {
      assert (s + [Entry(f.sequence, frame)])[1..] == s[1..] + [Entry(f.sequence, frame)];
    }
  }

  /** Every push keeps the invariant, so it holds in every reachable state. */
  lemma PushIsHealthy(s: seq<Entry>, f: MediaFragment)
    requires Healthy(s)
    ensures Healthy(Pushed(s, f).0)
  {
    if Accepts(f) {
      var frame := Absorb(Lookup(s, f.sequence), f);
      AbsorbInRange(Lookup(s, f.sequence), f);
      LookupPut(s, Entry(f.sequence, frame), f.sequence);
      LookupDrop(s, Slot(s, f.sequence), f.sequence);
    }
  }

  /** The frame that a push is about to evict to stay within eight. */
  predicate Evicts(s: seq<Entry>, f: MediaFragment, q: U16) {
    && |s| == MAX_OPEN && s[0].sequence == q
    && Lookup(s, f.sequence).None? && !Absorb(None, f).Complete()
  }

  /** What a push does to each sequence. Its own frame absorbs the fragment and comes out when
      complete; of the others at most the one opened first is evicted, when a ninth opens. */
  lemma PushByLookup(s: seq<Entry>, f: MediaFragment, q: U16)
    requires Healthy(s) && Accepts(f)
    ensures var frame := Absorb(Lookup(s, f.sequence), f);
            && Pushed(s, f).1 == (if frame.Complete() then Finish(frame) else None)
            && Lookup(Pushed(s, f).0, q) ==
                 if q == f.sequence then (if frame.Complete() then None else Some(frame))
                 else if Evicts(s, f, q) then None
                 else Lookup(s, q)
  {
    var i := Slot(s, f.sequence);
    var frame := Absorb(Lookup(s, f.sequence), f);
    if frame.Complete() {
      LookupDrop(s, i, q);
    } else {
      var t := Put(s, i, Entry(f.sequence, frame));
      LookupPut(s, Entry(f.sequence, frame), q);
      if |t| > MAX_OPEN {
        assert Trimmed(t) == Drop(t, 0);
        LookupDrop(t, 0, q);
      }
    }
  }

  // -------------------------------------------- the map and the queue beside it

  ghost predicate NoRepeats(order: seq<U16>) {
    forall i, j | 0 <= i < j < |order| :: order[i] != order[j]
  }

  /** The queue lists exactly the open sequences, each once. */
  ghost predicate Linked(order: seq<U16>, frames: map<U16, Frame>) {
    && NoRepeats(order)
    && (set q | q in order) == frames.Keys
  }

  ghost function Listing(order: seq<U16>, frames: map<U16, Frame>): (s: seq<Entry>)
    requires Linked(order, frames)
    ensures |s| == |order|
    ensures forall i | 0 <= i < |s| :: order[i] in frames && s[i] == Entry(order[i], frames[order[i]])
  {
    assert forall i | 0 <= i < |order| :: order[i] in (set q | q in order);
    seq(|order|, i requires 0 <= i < |order| => Entry(order[i], frames[order[i]]))
  }

  lemma ListingLookup(order: seq<U16>, frames: map<U16, Frame>, q: U16)
    requires Linked(order, frames)
    ensures var s := Listing(order, frames);
            && Distinct(s)
            && (Slot(s, q) < |s| <==> q in frames)
            && Lookup(s, q) == if q in frames then Some(frames[q]) else None
  {
    var s := Listing(order, frames);
    if q in frames {
      assert q in (set p | p in order);
      var j :| 0 <= j < |order| && order[j] == q;
      assert s[j].sequence == q;
    }
  }

  /** Replacing the frame of an open sequence. */
  lemma ListingReplace(order: seq<U16>, frames: map<U16, Frame>, q: U16, frame: Frame)
    requires Linked(order, frames) && q in frames
    ensures Linked(order, frames[q := frame])
    ensures var s := Listing(order, frames);
            Listing(order, frames[q := frame]) == Put(s, Slot(s, q), Entry(q, frame))
  {
    ListingLookup(order, frames, q);
    assert frames[q := frame].Keys == frames.Keys;
    ListingUpdate(order, frames, Slot(Listing(order, frames), q), frame);
  }

  lemma ListingUpdate(order: seq<U16>, frames: map<U16, Frame>, i: nat, frame: Frame)
    requires Linked(order, frames) && i < |order| && Linked(order, frames[order[i] := frame])
    ensures Listing(order, frames[order[i] := frame]) == Listing(order, frames)[i := Entry(order[i], frame)]
  {
    var t, u := Listing(order, frames[order[i] := frame]), Listing(order, frames)[i := Entry(order[i], frame)];
    forall k | 0 <= k < |t| ensures t[k] == u[k] {
      assert order[k] == order[i] <==> k == i;
    }
  }

  /** The frame of the fragment's sequence once it is in. */
  function Inserted(frames: map<U16, Frame>, f: MediaFragment): Frame {
    var parts := if f.sequence in frames && frames[f.sequence].count == f.count then frames[f.sequence].parts else map[];
    Frame(f.count, parts[f.index := f.data])
  }

  lemma InsertIs(order: seq<U16>, frames: map<U16, Frame>, f: MediaFragment)
    requires Linked(order, frames)
    ensures var q, s := f.sequence, Listing(order, frames);
            var order' := order + if q in frames then [] else [q];
            var frames' := frames[q := Inserted(frames, f)];
            && Inserted(frames, f) == Absorb(Lookup(s, q), f)
            && Linked(order', frames')
            && Listing(order', frames') == Put(s, Slot(s, q), Entry(q, Inserted(frames, f)))
  {
    ListingLookup(order, frames, f.sequence);
    if f.sequence in frames {
      assert order + [] == order;
      ListingReplace(order, frames, f.sequence, Inserted(frames, f));
    } else {
      ListingAppend(order, frames, f.sequence, Inserted(frames, f));
    }
  }

  /** Opening a new sequence at the end of the queue. */
  lemma ListingAppend(order: seq<U16>, frames: map<U16, Frame>, q: U16, frame: Frame)
    requires Linked(order, frames) && q !in frames
    ensures Linked(order + [q], frames[q := frame])
    ensures var s := Listing(order, frames);
            Listing(order + [q], frames[q := frame]) == Put(s, Slot(s, q), Entry(q, frame))
  {
    var s, order' := Listing(order, frames), order + [q];
    ListingLookup(order, frames, q);
    assert q !in order by { assert q !in (set p | p in order); }
    assert (set p | p in order') == (set p | p in order) + {q};
    assert NoRepeats(order');
    var t := Listing(order', frames[q := frame]);
    assert forall k | 0 <= k < |order| :: order'[k] == order[k];
    assert t == s + [Entry(q, frame)];
  }

  /** Closing the i-th frame. */
  lemma ListingDrop(order: seq<U16>, frames: map<U16, Frame>, i: nat)
    requires Linked(order, frames) && i < |order|
    ensures var order' := order[..i] + order[i + 1..];
            && Linked(order', frames - {order[i]})
            && Listing(order', frames - {order[i]}) == Drop(Listing(order, frames), i)
            && Without(order, order[i]) == order'
  {
    WithoutDistinct(order, i);
    WithoutIs(order, i);
    var order', frames' := order[..i] + order[i + 1..], frames - {order[i]};
    assert frames'.Keys == frames.Keys - {order[i]};
    ListingCut(order, frames, order', frames', i);
  }

  lemma ListingCut(order: seq<U16>, frames: map<U16, Frame>, order': seq<U16>, frames': map<U16, Frame>, i: nat)
    requires Linked(order, frames) && Linked(order', frames') && i < |order|
    requires order' == order[..i] + order[i + 1..]
    requires forall q | q in frames' :: q in frames && frames'[q] == frames[q]
    ensures Listing(order', frames') == Drop(Listing(order, frames), i)
  {
    var s, t := Listing(order, frames), Listing(order', frames');
    forall k | 0 <= k < |t| ensures t[k] == s[if k < i then k else k + 1] {
      assert order'[k] == order[if k < i then k else k + 1];
    }
    DropAt(s, t, i);
  }

  lemma DropAt(s: seq<Entry>, t: seq<Entry>, i: nat)
    requires i < |s| == |t| + 1 && forall k | 0 <= k < |t| :: t[k] == s[if k < i then k else k + 1]
    ensures t == Drop(s, i)
  {
  }

  lemma WithoutIs(order: seq<U16>, i: nat)
    requires NoRepeats(order) && i < |order|
    ensures var order' := order[..i] + order[i + 1..];
            NoRepeats(order') && (set q | q in order') == (set q | q in order) - {order[i]}
  {
    var order' := order[..i] + order[i + 1..];
    assert forall k | 0 <= k < |order'| :: order'[k] == order[if k < i then k else k + 1];
    forall q | q in order && q != order[i] ensures q in order' {
      var j :| 0 <= j < |order| && order[j] == q;
      assert order'[if j < i then j else j - 1] == q;
    }
  }

  /** The queue with every occurrence of q removed, the others in order. */
  function Without(order: seq<U16>, q: U16): seq<U16> {
    if order == [] then []
    else if order[0] == q then Without(order[1..], q)
    else [order[0]] + Without(order[1..], q)
  }

  lemma {:induction false} WithoutDistinct(order: seq<U16>, i: nat)
    requires i < |order| && NoRepeats(order)
    ensures Without(order, order[i]) == order[..i] + order[i + 1..]
  {
    if i == 0 {
      WithoutAbsent(order[1..], order[0]);
    } else {
      WithoutDistinct(order[1..], i - 1);
      assert order[..i] + order[i + 1..] == [order[0]] + (order[1..][..i - 1] + order[1..][i..]);
    }
  }

  lemma {:induction false} WithoutAbsent(order: seq<U16>, q: U16)
    requires q !in order
    ensures Without(order, q) == order
  {
    if order != [] {
      assert order[0] in order;
      WithoutAbsent(order[1..], q);
    }
  }

  lemma TailIs(order: seq<U16>)
    requires NoRepeats(order) && order != []
    ensures NoRepeats(order[1..]) && (set q | q in order[1..]) == (set q | q in order) - {order[0]}
  {
    assert order == [order[0]] + order[1..];
    assert order[0] !in order[1..];
  }

  /** Closing the oldest frame, as one step of trimming does. */
  lemma ListingPop(order: seq<U16>, frames: map<U16, Frame>)
    requires Linked(order, frames) && order != []
    ensures Linked(order[1..], frames - {order[0]})
    ensures Listing(order[1..], frames - {order[0]}) == Listing(order, frames)[1..]
  {
    TailIs(order);
    assert (frames - {order[0]}).Keys == frames.Keys - {order[0]};
    var s, t := Listing(order, frames), Listing(order[1..], frames - {order[0]});
    assert forall i | 0 <= i < |t| :: order[1..][i] == order[i + 1];
    assert t == s[1..];
  }

  lemma TrimmedStep(s: seq<Entry>)
    requires |s| > MAX_OPEN
    ensures Trimmed(s[1..]) == Trimmed(s)
  {
  }

  lemma {:induction false} LinkedSize(order: seq<U16>, frames: map<U16, Frame>)
    requires Linked(order, frames)
    ensures |frames| == |order|
  {
    if order != [] {
      ListingPop(order, frames);
      LinkedSize(order[1..], frames - {order[0]});
      assert frames.Keys == (frames - {order[0]}).Keys + {order[0]};
    }
  }

  // ----------------------------------------------------------- implementation

  class JpegReassembler {
    var frames: map<U16, Frame>
    var order: seq<U16>

    ghost function View(): (s: seq<Entry>)
      requires Linked(order, frames)
      reads this
    {
      Listing(order, frames)
    }

    ghost predicate Valid()
      reads this
    {
      Linked(order, frames) && Healthy(View())
    }

    constructor ()
      ensures Valid() && View() == []
    {
      frames, order := map[], [];
    }

    /** Put the fragment into its sequence's frame, opening or restarting the frame if needed. */
    method Insert(f: MediaFragment) returns (entry: Frame)
      requires Linked(order, frames)
      modifies this
      ensures Linked(order, frames) && f.sequence in frames && frames[f.sequence] == entry
      ensures var s := old(View());
              && entry == Absorb(Lookup(s, f.sequence), f)
              && View() == Put(s, Slot(s, f.sequence), Entry(f.sequence, entry))
    {
      var q := f.sequence;
      InsertIs(order, frames, f);
      Open(q, f.count);
      entry := frames[q].(parts := frames[q].parts[f.index := f.data]);
      frames := frames[q := entry];
      assert entry == Inserted(old(frames), f);
      assert frames == old(frames)[q := entry];
    }

    method Open(q: U16, count: U16)
      modifies this
      ensures order == old(order) + if q in old(frames) then [] else [q]
      ensures frames == old(frames)[q := if q in old(frames) && old(frames)[q].count == count then old(frames)[q]
                                         else Frame(count, map[])]
    {
      if q !in frames {
        order := order + [q];
        frames := frames[q := Frame(count, map[])];
      }
      if frames[q].count != count {
        frames := frames[q := Frame(count, map[])];
      }
    }

    /** Close the frame of an open sequence. */
    method Close(q: U16)
      requires Linked(order, frames) && q in frames
      modifies this
      ensures Linked(order, frames) && View() == Drop(old(View()), Slot(old(View()), q))
    {
      ListingLookup(order, frames, q);
      ListingDrop(order, frames, Slot(View(), q));
      frames := frames - {q};
      order := Without(order, q);
    }

    method Push(f: MediaFragment) returns (r: Option<Data>)
      requires Valid()
      modifies this
      ensures Valid()
      ensures (View(), r) == Pushed(old(View()), f)
    {
      ghost var s := View();
      PushIsHealthy(s, f);
      if !Accepts(f) {
        return None;
      }
      var entry := Insert(f);
      var complete := |entry.parts| == entry.count && forall k: U16 | 1 <= k <= entry.count :: k in entry.parts;
      if !complete {
        Trim();
        return None;
      }
      DropOfPut(s, Entry(f.sequence, entry));
      Close(f.sequence);
      var jpeg := Join(entry);
      r := if IsJpeg(jpeg) then Some(jpeg) else None;
    }

    method Trim()
      requires Linked(order, frames)
      modifies this
      ensures Linked(order, frames) && View() == Trimmed(old(View()))
    {
      LinkedSize(order, frames);
      while |frames| > MAX_OPEN
        invariant Linked(order, frames) && |frames| == |order|
        invariant Trimmed(View()) == Trimmed(old(View()))
        decreases |order|
      {
        ListingPop(order, frames);
        TrimmedStep(View());
        var oldest := order[0];
        order := order[1..];
        frames := frames - {oldest};
        LinkedSize(order, frames);
      }
    }
  }

  /** A frame completed on arrival leaves the list as if it had been closed in place. */
  lemma DropOfPut(s: seq<Entry>, e: Entry)
    requires Distinct(s)
    ensures var i := Slot(s, e.sequence);
            Slot(Put(s, i, e), e.sequence) == i && Drop(Put(s, i, e), i) == Drop(s, i)
  {
    var i := Slot(s, e.sequence);
    var t := Put(s, i, e);
    assert t[i] == e;
    assert forall j | 0 <= j < i :: t[j] == s[j];
    assert Drop(t, i) == Drop(s, i);
  }

  /** The parts in ascending index order, joined. */
  method Join(frame: Frame) returns (jpeg: Data)
    requires frame.Complete()
    ensures jpeg == Flatten(frame.Parts())
  {
    jpeg := [];
    var index := 0;
    while index < frame.count
      invariant index <= frame.count
      invariant jpeg == Flatten(frame.Parts()[..index])
    {
      index := index + 1;
      jpeg := jpeg + frame.parts[index];
      assert frame.Parts()[..index] == frame.Parts()[..index - 1] + [frame.parts[index]];
      FlattenSnoc(frame.Parts()[..index - 1], frame.parts[index]);
    }
    assert frame.Parts()[..index] == frame.Parts();
  }
}
