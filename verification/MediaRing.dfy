/** The pre-roll buffer of door media (src/agent_api.rs, MediaRing): two queues, evicted by age
    and by bytes, that together hold the longest recent suffix that fits. */
module MediaRing {
  import opened Bytes

  /** A video frame or an audio chunk: its time stamp and its bytes. */
  datatype Sample = Sample(ptsUs: nat, data: Data)

  /** One push, to the video or to the audio queue. */
  datatype Item = Item(isVideo: bool, sample: Sample)

  function Size(q: seq<Sample>): nat {
    if q == [] then 0 else |q[0].data| + Size(q[1..])
  }

  lemma {:induction false} SizeAppend(a: seq<Sample>, b: seq<Sample>)
    ensures Size(a + b) == Size(a) + Size(b)
  {
    if a == [] {
      assert a + b == b;
    } else {
      SizeAppend(a[1..], b);
      assert (a + b)[1..] == a[1..] + b;
    }
  }

  function Floor(newestUs: nat, windowUs: nat): nat {
    if newestUs >= windowUs then newestUs - windowUs else 0
  }

  // ------------------------------------------------- what eviction does, queue by queue

  function DropOld(q: seq<Sample>, floor: nat): seq<Sample> {
    if q != [] && q[0].ptsUs < floor then DropOld(q[1..], floor) else q
  }

  /** While over the cap, drop the front of the queue whose front is oldest; video on a tie. */
  function DropExcess(video: seq<Sample>, audio: seq<Sample>, maxBytes: nat): (seq<Sample>, seq<Sample>)
    decreases |video| + |audio|
  {
    if Size(video) + Size(audio) <= maxBytes then (video, audio)
    else if audio != [] && (video == [] || audio[0].ptsUs < video[0].ptsUs) then DropExcess(video, audio[1..], maxBytes)
    else DropExcess(video[1..], audio, maxBytes)
  }

  function Evicted(video: seq<Sample>, audio: seq<Sample>, windowUs: nat, maxBytes: nat, newestUs: nat)
    : (seq<Sample>, seq<Sample>)
  {
    var floor := Floor(newestUs, windowUs);
    DropExcess(DropOld(video, floor), DropOld(audio, floor), maxBytes)
  }

  // ------------------------------------------------------ what the ring should hold

  /** Two items in the order in which eviction takes them: by time, and video first on a tie. */
  predicate Before(x: Item, y: Item) {
    x.sample.ptsUs < y.sample.ptsUs || (x.sample.ptsUs == y.sample.ptsUs && (x.isVideo || !y.isVideo))
  }

  /** Everything was pushed in that order; strictly increasing times are a special case. */
  ghost predicate Ordered(items: seq<Item>) {
    forall i, j | 0 <= i < j < |items| :: Before(items[i], items[j])
  }

  /** One queue's share of the items from k on. */
  ghost function Share(items: seq<Item>, k: nat, isVideo: bool): seq<Sample>
    decreases |items| - k
  {
    if k >= |items| then []
    else if items[k].isVideo == isVideo then [items[k].sample] + Share(items, k + 1, isVideo)
    else Share(items, k + 1, isVideo)
  }

  /** The bytes of the items from k on. */
  ghost function Total(items: seq<Item>, k: nat): nat
    decreases |items| - k
  {
    if k >= |items| then 0 else |items[k].sample.data| + Total(items, k + 1)
  }

  /** The items from k on are all no older than the newest minus the window, and fit the cap. */
  ghost predicate Fits(items: seq<Item>, k: nat, windowUs: nat, maxBytes: nat) {
    && (forall i | k <= i < |items| :: items[i].sample.ptsUs + windowUs >= items[|items| - 1].sample.ptsUs)
    && Total(items, k) <= maxBytes
  }

  /** The items from k on are the longest suffix that fits. */
  ghost predicate Longest(items: seq<Item>, k: nat, windowUs: nat, maxBytes: nat) {
    && k <= |items|
    && Fits(items, k, windowUs, maxBytes)
    && forall j | 0 <= j < k :: !Fits(items, j, windowUs, maxBytes)
  }

  /** The two queues hold exactly the longest suffix of everything pushed that fits. */
  ghost predicate HoldsLongest(items: seq<Item>, windowUs: nat, maxBytes: nat, video: seq<Sample>, audio: seq<Sample>) {
    exists k: nat :: Longest(items, k, windowUs, maxBytes) && video == Share(items, k, true) && audio == Share(items, k, false)
  }

  // -------------------------------------------------------------------- proof

  lemma {:induction false} ShareSizes(items: seq<Item>, k: nat)
    ensures Size(Share(items, k, true)) + Size(Share(items, k, false)) == Total(items, k)
    decreases |items| - k
  {
    if k < |items| {
      ShareSizes(items, k + 1);
    }
  }

  lemma {:induction false} ShareBound(items: seq<Item>, k: nat, isVideo: bool, floor: nat)
    requires forall i | k <= i < |items| && items[i].isVideo == isVideo :: items[i].sample.ptsUs >= floor
    ensures forall i | 0 <= i < |Share(items, k, isVideo)| :: Share(items, k, isVideo)[i].ptsUs >= floor
    decreases |items| - k
  {
    if k < |items| {
      ShareBound(items, k + 1, isVideo, floor);
    }
  }

  lemma {:induction false} Snoc(items: seq<Item>, x: Item, k: nat, isVideo: bool)
    requires k <= |items|
    ensures Share(items + [x], k, isVideo)
         == if x.isVideo == isVideo then Share(items, k, isVideo) + [x.sample] else Share(items, k, isVideo)
    ensures Total(items + [x], k) == Total(items, k) + |x.sample.data|
    decreases |items| - k
  {
    if k < |items| {
      Snoc(items, x, k + 1, isVideo);
    }
  }

  /** The first item from k on that is fresh enough. */
  ghost function FirstFresh(items: seq<Item>, k: nat, floor: nat): (n: nat)
    requires k <= |items|
    ensures k <= n <= |items|
    ensures forall i | k <= i < n :: items[i].sample.ptsUs < floor
    ensures n < |items| ==> items[n].sample.ptsUs >= floor
    decreases |items| - k
  {
    if k < |items| && items[k].sample.ptsUs < floor then FirstFresh(items, k + 1, floor) else k
  }

  /** The first place from k on whose suffix is within the cap. */
  ghost function FirstWithin(items: seq<Item>, k: nat, maxBytes: nat): (n: nat)
    requires k <= |items|
    ensures k <= n <= |items|
    ensures Total(items, n) <= maxBytes
    ensures forall i | k <= i < n :: Total(items, i) > maxBytes
    decreases |items| - k
  {
    if Total(items, k) <= maxBytes then k else FirstWithin(items, k + 1, maxBytes)
  }

  /** Dropping old samples from each queue drops the old items. */
  lemma {:induction false} DropOldIsSuffix(items: seq<Item>, k: nat, isVideo: bool, floor: nat)
    requires Ordered(items) && k <= |items|
    ensures DropOld(Share(items, k, isVideo), floor) == Share(items, FirstFresh(items, k, floor), isVideo)
    decreases |items| - k
  {
    if k < |items| && items[k].sample.ptsUs < floor {
      DropOldIsSuffix(items, k + 1, isVideo, floor);
    } else {
      assert k < |items| ==> forall i | k < i < |items| :: Before(items[k], items[i]);
      ShareBound(items, k, isVideo, floor);
    }
  }

  /** Dropping whichever front is oldest drops the oldest item. */
  lemma {:induction false} DropExcessIsSuffix(items: seq<Item>, k: nat, maxBytes: nat)
    requires Ordered(items) && k <= |items|
    ensures var n := FirstWithin(items, k, maxBytes);
            DropExcess(Share(items, k, true), Share(items, k, false), maxBytes) == (Share(items, n, true), Share(items, n, false))
    decreases |items| - k
  {
    ShareSizes(items, k);
    if Total(items, k) > maxBytes {
      DropExcessIsSuffix(items, k + 1, maxBytes);
      var floor := items[k].sample.ptsUs + if items[k].isVideo then 0 else 1;
      assert forall i | k < i < |items| :: Before(items[k], items[i]);
      ShareBound(items, k + 1, !items[k].isVideo, floor);
    }
  }

  /** What did not fit before a push does not fit after it. */
  lemma NotFittingStays(items: seq<Item>, x: Item, j: nat, windowUs: nat, maxBytes: nat)
    requires Ordered(items + [x]) && j <= |items| && !Fits(items, j, windowUs, maxBytes)
    ensures !Fits(items + [x], j, windowUs, maxBytes)
  {
    var all := items + [x];
    Snoc(items, x, j, true);
    if i :| j <= i < |items| && items[i].sample.ptsUs < Floor(items[|items| - 1].sample.ptsUs, windowUs) {
      assert all[i] == items[i] && all[|items| - 1] == items[|items| - 1];
      assert Before(all[|items| - 1], all[|items|]);
    }
  }

  /** Where eviction stops after a push is the longest suffix that fits now. */
  lemma StopsAtLongest(items: seq<Item>, x: Item, k: nat, windowUs: nat, maxBytes: nat)
    requires Ordered(items + [x]) && Longest(items, k, windowUs, maxBytes)
    ensures Longest(items + [x], Stop(items + [x], k, windowUs, maxBytes), windowUs, maxBytes)
  {
    forall j | 0 <= j < k ensures !Fits(items + [x], j, windowUs, maxBytes) {
      NotFittingStays(items, x, j, windowUs, maxBytes);
    }
  }

  ghost function Stop(items: seq<Item>, k: nat, windowUs: nat, maxBytes: nat): nat
    requires k < |items|
  {
    FirstWithin(items, FirstFresh(items, k, Floor(items[|items| - 1].sample.ptsUs, windowUs)), maxBytes)
  }

  lemma EvictedIsSuffix(items: seq<Item>, k: nat, windowUs: nat, maxBytes: nat)
    requires Ordered(items) && k < |items|
    ensures var n := Stop(items, k, windowUs, maxBytes);
            Evicted(Share(items, k, true), Share(items, k, false), windowUs, maxBytes, items[|items| - 1].sample.ptsUs)
            == (Share(items, n, true), Share(items, n, false))
  {
    var floor := Floor(items[|items| - 1].sample.ptsUs, windowUs);
    DropOldIsSuffix(items, k, true, floor);
    DropOldIsSuffix(items, k, false, floor);
    DropExcessIsSuffix(items, FirstFresh(items, k, floor), maxBytes);
  }

  /** One push of a later time keeps the ring at the longest suffix that fits. */
  lemma PushHoldsLongest(items: seq<Item>, x: Item, windowUs: nat, maxBytes: nat, video: seq<Sample>, audio: seq<Sample>)
    requires Ordered(items + [x]) && HoldsLongest(items, windowUs, maxBytes, video, audio)
    ensures var (v, a) := Evicted(if x.isVideo then video + [x.sample] else video,
                                  if x.isVideo then audio else audio + [x.sample], windowUs, maxBytes, x.sample.ptsUs);
            HoldsLongest(items + [x], windowUs, maxBytes, v, a)
  {
    var k: nat :| Longest(items, k, windowUs, maxBytes) && video == Share(items, k, true) && audio == Share(items, k, false);
    Snoc(items, x, k, true);
    Snoc(items, x, k, false);
    StopsAtLongest(items, x, k, windowUs, maxBytes);
    EvictedIsSuffix(items + [x], k, windowUs, maxBytes);
  }

  // ------------------------------------------------------ the exact condition

  /** The two queues after everything has been pushed. */
  function Ring(items: seq<Item>, windowUs: nat, maxBytes: nat): (seq<Sample>, seq<Sample>) {
    if items == [] then ([], [])
    else
      var (video, audio) := Ring(items[..|items| - 1], windowUs, maxBytes);
      var x := items[|items| - 1];
      Evicted(if x.isVideo then video + [x.sample] else video,
              if x.isVideo then audio else audio + [x.sample], windowUs, maxBytes, x.sample.ptsUs)
  }

  ghost predicate RingHoldsLongest(items: seq<Item>, windowUs: nat, maxBytes: nat) {
    var (video, audio) := Ring(items, windowUs, maxBytes);
    HoldsLongest(items, windowUs, maxBytes, video, audio)
  }

  /** Whatever the window and the cap, and after every push. */
  ghost predicate AlwaysHoldsLongest(items: seq<Item>) {
    forall n, windowUs: nat, maxBytes: nat | 0 <= n <= |items| && windowUs > 0 :: RingHoldsLongest(items[..n], windowUs, maxBytes)
  }

  lemma {:induction false} OrderedRunHolds(items: seq<Item>, windowUs: nat, maxBytes: nat)
    requires Ordered(items)
    ensures RingHoldsLongest(items, windowUs, maxBytes)
  {
    if items == [] {
      assert Longest(items, 0, windowUs, maxBytes);
    } else {
      var init, x := items[..|items| - 1], items[|items| - 1];
      assert items == init + [x];
      OrderedRunHolds(init, windowUs, maxBytes);
      var (video, audio) := Ring(init, windowUs, maxBytes);
      PushHoldsLongest(init, x, windowUs, maxBytes, video, audio);
    }
  }

  /** A video frame behind an audio chunk of the same time does not survive a cap that does not
      hold both of them. */
  lemma {:induction false} TieExcess(items: seq<Item>, x: Sample, k: nat, maxBytes: nat)
    requires Ordered(items) && k < |items| && !items[|items| - 1].isVideo && items[|items| - 1].sample.ptsUs == x.ptsUs
    requires |items[|items| - 1].sample.data| + |x.data| > maxBytes
    ensures DropExcess(Share(items, k, true) + [x], Share(items, k, false), maxBytes).0 == []
    decreases |items| - k
  {
    var video, audio := Share(items, k, true), Share(items, k, false);
    ShareSizes(items, k);
    SizeAppend(video, [x]);
    LastCounts(items, k);
    if k < |items| - 1 {
      TieExcess(items, x, k + 1, maxBytes);
      assert forall i | k < i < |items| :: Before(items[k], items[i]);
      ShareBound(items, k + 1, !items[k].isVideo, items[k].sample.ptsUs + if items[k].isVideo then 0 else 1);
    }
    if video == [] {
      assert (video + [x])[1..] == [];
      NoVideoStays(audio, maxBytes);
    } else {
      assert (video + [x])[1..] == video[1..] + [x];
    }
  }

  lemma {:induction false} NoVideoStays(audio: seq<Sample>, maxBytes: nat)
    ensures DropExcess([], audio, maxBytes).0 == []
  {
    if audio != [] {
      NoVideoStays(audio[1..], maxBytes);
    }
  }

  /** An empty last chunk stays, unless some video is newer. */
  lemma {:induction false} EmptyChunkStays(video: seq<Sample>, audio: seq<Sample>, maxBytes: nat)
    requires audio != [] && audio[|audio| - 1].data == []
    requires forall i | 0 <= i < |video| :: video[i].ptsUs <= audio[|audio| - 1].ptsUs
    ensures DropExcess(video, audio, maxBytes).1 != []
    decreases |video| + |audio|
  {
    if Size(video) + Size(audio) > maxBytes {
      if audio != [] && (video == [] || audio[0].ptsUs < video[0].ptsUs) {
        EmptyChunkStays(video, audio[1..], maxBytes);
      } else {
        EmptyChunkStays(video[1..], audio, maxBytes);
      }
    }
  }

  /** The last item ends its queue, and nothing in either queue is newer. */
  lemma {:induction false} LastStays(items: seq<Item>, k: nat)
    requires Ordered(items) && k < |items| && !items[|items| - 1].isVideo
    ensures var a := Share(items, k, false); a != [] && a[|a| - 1] == items[|items| - 1].sample
    ensures forall i | 0 <= i < |Share(items, k, true)| :: Share(items, k, true)[i].ptsUs <= items[|items| - 1].sample.ptsUs
    decreases |items| - k
  {
    if k < |items| - 1 {
      assert Before(items[k], items[|items| - 1]);
      LastStays(items, k + 1);
    }
  }

  lemma {:induction false} LastCounts(items: seq<Item>, k: nat)
    requires k < |items|
    ensures Total(items, k) >= |items[|items| - 1].sample.data|
    decreases |items| - k
  {
    if k < |items| - 1 {
      LastCounts(items, k + 1);
    }
  }

  lemma NothingOld(video: seq<Sample>, audio: seq<Sample>, floor: nat)
    requires forall i | 0 <= i < |video| :: video[i].ptsUs >= floor
    requires forall i | 0 <= i < |audio| :: audio[i].ptsUs >= floor
    ensures DropOld(video, floor) == video && DropOld(audio, floor) == audio
  {
  }

  /** One tie in the wrong order is enough, for some cap. */
  lemma TieLosesTheFrame(items: seq<Item>, x: Item, windowUs: nat)
    requires Ordered(items) && items != [] && x.isVideo && !items[|items| - 1].isVideo
    requires items[|items| - 1].sample.ptsUs == x.sample.ptsUs
    requires x.sample.data != []
    ensures exists maxBytes: nat :: !RingHoldsLongest(items + [x], windowUs, maxBytes)
  {
    var last := items[|items| - 1].sample;
    if last.data == [] {
      var maxBytes := |x.sample.data| - 1;
      TieOnRing(items, x, windowUs, maxBytes);
      NothingFits(items, x, windowUs, maxBytes);
      assert !RingHoldsLongest(items + [x], windowUs, maxBytes);
    } else {
      var maxBytes := if |last.data| > |x.sample.data| then |last.data| else |x.sample.data|;
      TieOnRing(items, x, windowUs, maxBytes);
      FrameFits(items, x, windowUs, maxBytes);
      assert !RingHoldsLongest(items + [x], windowUs, maxBytes);
    }
  }

  /** What the push of the frame leaves, under a cap that holds the chunk but not both. */
  lemma TieOnRing(items: seq<Item>, x: Item, windowUs: nat, maxBytes: nat)
    requires Ordered(items) && items != [] && x.isVideo && !items[|items| - 1].isVideo
    requires items[|items| - 1].sample.ptsUs == x.sample.ptsUs
    requires |items[|items| - 1].sample.data| <= maxBytes < |items[|items| - 1].sample.data| + |x.sample.data|
    ensures var (video, audio) := Ring(items + [x], windowUs, maxBytes);
            video == [] && (items[|items| - 1].sample.data == [] ==> audio != [])
  {
    OrderedRunHolds(items, windowUs, maxBytes);
    var (video, audio) := Ring(items, windowUs, maxBytes);
    var k: nat :| Longest(items, k, windowUs, maxBytes) && video == Share(items, k, true) && audio == Share(items, k, false);
    TieOnQueues(items, x, k, windowUs, maxBytes);
    assert (items + [x])[..|items|] == items;
  }

  lemma TieOnQueues(items: seq<Item>, x: Item, k: nat, windowUs: nat, maxBytes: nat)
    requires Ordered(items) && items != [] && !items[|items| - 1].isVideo && Longest(items, k, windowUs, maxBytes)
    requires items[|items| - 1].sample.ptsUs == x.sample.ptsUs
    requires |items[|items| - 1].sample.data| <= maxBytes < |items[|items| - 1].sample.data| + |x.sample.data|
    ensures var (video, audio) :=
              Evicted(Share(items, k, true) + [x.sample], Share(items, k, false), windowUs, maxBytes, x.sample.ptsUs);
            video == [] && (items[|items| - 1].sample.data == [] ==> audio != [])
  {
    var last, video, audio := items[|items| - 1].sample, Share(items, k, true), Share(items, k, false);
    assert Fits(items, |items| - 1, windowUs, maxBytes);
    var floor := Floor(last.ptsUs, windowUs);
    ShareBound(items, k, true, floor);
    ShareBound(items, k, false, floor);
    NothingOld(video + [x.sample], audio, floor);
    TieExcess(items, x.sample, k, maxBytes);
    LastStays(items, k);
    if last.data == [] {
      EmptyChunkStays(video + [x.sample], audio, maxBytes);
    }
  }

  /** The longest suffix that fits ends with the frame just pushed, if that fits at all. */
  lemma FrameFits(items: seq<Item>, x: Item, windowUs: nat, maxBytes: nat)
    requires x.isVideo && |x.sample.data| <= maxBytes
    ensures forall audio :: !HoldsLongest(items + [x], windowUs, maxBytes, [], audio)
  {
    var all := items + [x];
    assert Total(all, |items|) == |x.sample.data|;
    assert Fits(all, |items|, windowUs, maxBytes);
    forall k: nat | k <= |items| ensures Share(all, k, true) != [] {
      Snoc(items, x, k, true);
    }
  }

  /** If it does not fit, the suffix that does is empty. */
  lemma NothingFits(items: seq<Item>, x: Item, windowUs: nat, maxBytes: nat)
    requires |x.sample.data| > maxBytes
    ensures forall video, audio | audio != [] :: !HoldsLongest(items + [x], windowUs, maxBytes, video, audio)
  {
    forall k: nat | k <= |items| ensures !Fits(items + [x], k, windowUs, maxBytes) {
      Snoc(items, x, k, true);
    }
    assert Share(items + [x], |items| + 1, false) == [];
  }

  /** The exact condition: for times that never decrease and video frames that are not empty, as no
      JPEG is, the ring holds the longest suffix under every window and cap if and only if no video
      frame was pushed behind an audio chunk of the same time. */
  lemma OrderIsExact(items: seq<Item>)
    requires forall i, j | 0 <= i < j < |items| :: items[i].sample.ptsUs <= items[j].sample.ptsUs
    requires forall i | 0 <= i < |items| && items[i].isVideo :: items[i].sample.data != []
    ensures AlwaysHoldsLongest(items) <==> Ordered(items)
  {
    if Ordered(items) {
      forall n, windowUs: nat, maxBytes: nat | 0 <= n <= |items| && windowUs > 0
        ensures RingHoldsLongest(items[..n], windowUs, maxBytes) {
        OrderedRunHolds(items[..n], windowUs, maxBytes);
      }
    } else {
      var n := FirstTie(items);
      TieLosesTheFrame(items[..n], items[n], 1);
      assert items[..n + 1] == items[..n] + [items[n]];
    }
  }

  /** The first video frame that comes right behind an audio chunk of its own time. */
  lemma {:induction false} FirstTie(items: seq<Item>) returns (n: nat)
    requires !Ordered(items)
    requires forall i, j | 0 <= i < j < |items| :: items[i].sample.ptsUs <= items[j].sample.ptsUs
    ensures 0 < n < |items| && Ordered(items[..n])
    ensures items[n].isVideo && !items[n - 1].isVideo && items[n - 1].sample.ptsUs == items[n].sample.ptsUs
    decreases |items|
  {
    var init := items[..|items| - 1];
    if Ordered(init) {
      n := |init|;
      assert items == init + [items[n]];
      LastTie(init, items[n]);
    } else {
      n := FirstTie(init);
      assert init[..n] == items[..n];
    }
  }

  /** Only the last item is out of order: then the one before it is a chunk of its own time. */
  lemma LastTie(init: seq<Item>, x: Item)
    requires Ordered(init) && !Ordered(init + [x])
    requires forall i | 0 <= i < |init| :: init[i].sample.ptsUs <= x.sample.ptsUs
    ensures init != [] && x.isVideo && !init[|init| - 1].isVideo && init[|init| - 1].sample.ptsUs == x.sample.ptsUs
  {
    var items, n := init + [x], |init|;
    assert forall a | 0 <= a < n :: items[a] == init[a];
    var i, j :| 0 <= i < j < |items| && !Before(items[i], items[j]);
    assert j == n && items[n] == x;
    assert i < n - 1 ==> Before(init[i], init[n - 1]);
  }

  // ----------------------------------------------------------- implementation

  /** The samples newer than a given time, in order. */
  function Newer(q: seq<Sample>, sinceUs: nat): seq<Sample> {
    if q == [] then []
    else if q[0].ptsUs > sinceUs then [q[0]] + Newer(q[1..], sinceUs)
    else Newer(q[1..], sinceUs)
  }

  /** In a queue whose times never decrease those are a suffix: everything after the given time, and
      nothing else. */
  lemma {:induction false} NewerIsSuffix(q: seq<Sample>, sinceUs: nat) returns (k: nat)
    requires forall i, j | 0 <= i < j < |q| :: q[i].ptsUs <= q[j].ptsUs
    ensures k <= |q| && Newer(q, sinceUs) == q[k..]
    ensures forall i | 0 <= i < |q| :: i < k <==> q[i].ptsUs <= sinceUs
  {
    if q == [] {
      k := 0;
    } else if q[0].ptsUs > sinceUs {
      k := 0;
      assert forall i | 0 < i < |q| :: q[0].ptsUs <= q[i].ptsUs;
      AllNewer(q, sinceUs);
    } else {
      var tail := q[1..];
      assert forall i | 0 <= i < |tail| :: tail[i] == q[i + 1];
      var rest := NewerIsSuffix(tail, sinceUs);
      k := rest + 1;
      assert tail[rest..] == q[k..];
      assert forall i | 1 <= i < |q| :: q[i] == tail[i - 1];
    }
  }

  lemma {:induction false} AllNewer(q: seq<Sample>, sinceUs: nat)
    requires forall i | 0 <= i < |q| :: q[i].ptsUs > sinceUs
    ensures Newer(q, sinceUs) == q
  {
    if q != [] {
      AllNewer(q[1..], sinceUs);
      assert q == [q[0]] + q[1..];
    }
  }

  class MediaRing {
    var video: seq<Sample>
    var audio: seq<Sample>
    var bytes: nat
    const windowUs: nat
    const maxBytes: nat

    /** Everything ever pushed, in order. */
    ghost var pushed: seq<Item>

    /** For any time stamps the byte count is exact and within the cap, and the queues are what
        the pushes make them; for ordered ones they hold the longest suffix that fits. A zero window
        disables the ring. */
    ghost predicate Valid()
      reads this
    {
      && bytes == Size(video) + Size(audio) <= maxBytes
      && (video, audio) == (if windowUs == 0 then ([], []) else Ring(pushed, windowUs, maxBytes))
      && (windowUs > 0 && Ordered(pushed) ==> HoldsLongest(pushed, windowUs, maxBytes, video, audio))
    }

    constructor (windowUs: nat, maxBytes: nat)
      ensures Valid() && pushed == []
      ensures this.windowUs == windowUs && this.maxBytes == maxBytes
    {
      this.windowUs, this.maxBytes := windowUs, maxBytes;
      video, audio, bytes, pushed := [], [], 0, [];
      new;
      assert Longest(pushed, 0, windowUs, maxBytes);
    }

    method PushVideo(frame: Sample)
      requires Valid()
      modifies this
      ensures Valid() && pushed == old(pushed) + [Item(true, frame)]
      ensures (video, audio) == if windowUs == 0 then ([], [])
                                else Evicted(old(video) + [frame], old(audio), windowUs, maxBytes, frame.ptsUs)
    {
      RecordPush(Item(true, frame));
      if windowUs == 0 {
        return;
      }
      bytes := bytes + |frame.data|;
      SizeAppend(video, [frame]);
      video := video + [frame];
      Evict(frame.ptsUs);
    }

    method PushAudio(chunk: Sample)
      requires Valid()
      modifies this
      ensures Valid() && pushed == old(pushed) + [Item(false, chunk)]
      ensures (video, audio) == if windowUs == 0 then ([], [])
                                else Evicted(old(video), old(audio) + [chunk], windowUs, maxBytes, chunk.ptsUs)
    {
      RecordPush(Item(false, chunk));
      if windowUs == 0 {
        return;
      }
      bytes := bytes + |chunk.data|;
      SizeAppend(audio, [chunk]);
      audio := audio + [chunk];
      Evict(chunk.ptsUs);
    }

    /** Bookkeeping for the proof: the push is recorded, and Evict is known to do it justice. */
    ghost method RecordPush(x: Item)
      requires Valid()
      modifies this`pushed
      ensures pushed == old(pushed) + [x]
      ensures windowUs > 0 ==>
                Ring(pushed, windowUs, maxBytes) ==
                Evicted(if x.isVideo then video + [x.sample] else video,
                        if x.isVideo then audio else audio + [x.sample], windowUs, maxBytes, x.sample.ptsUs)
      ensures windowUs > 0 && Ordered(pushed) ==>
                var (v, a) := Evicted(if x.isVideo then video + [x.sample] else video,
                                      if x.isVideo then audio else audio + [x.sample], windowUs, maxBytes, x.sample.ptsUs);
                HoldsLongest(pushed, windowUs, maxBytes, v, a)
    {
      if windowUs > 0 && Ordered(pushed + [x]) {
        assert forall i | 0 <= i < |pushed| :: (pushed + [x])[i] == pushed[i];
        PushHoldsLongest(pushed, x, windowUs, maxBytes, video, audio);
      }
      assert (pushed + [x])[..|pushed|] == pushed;
      pushed := pushed + [x];
    }

    method Evict(newestUs: nat)
      requires bytes == Size(video) + Size(audio)
      modifies this`video, this`audio, this`bytes
      ensures bytes == Size(video) + Size(audio) <= maxBytes
      ensures (video, audio) == Evicted(old(video), old(audio), windowUs, maxBytes, newestUs)
    {
      var floor := Floor(newestUs, windowUs);
      while video != [] && video[0].ptsUs < floor
        invariant bytes == Size(video) + Size(audio) && audio == old(audio)
        invariant DropOld(video, floor) == DropOld(old(video), floor)
        decreases |video|
      {
        var dropped := video[0];
        video := video[1..];
        bytes := bytes - |dropped.data|;
      }
      while audio != [] && audio[0].ptsUs < floor
        invariant bytes == Size(video) + Size(audio) && video == DropOld(old(video), floor)
        invariant DropOld(audio, floor) == DropOld(old(audio), floor)
        decreases |audio|
      {
        var dropped := audio[0];
        audio := audio[1..];
        bytes := bytes - |dropped.data|;
      }
      while bytes > maxBytes
        invariant bytes == Size(video) + Size(audio)
        invariant DropExcess(video, audio, maxBytes)
               == DropExcess(DropOld(old(video), floor), DropOld(old(audio), floor), maxBytes)
        decreases |video| + |audio|
      {
        if video != [] && audio != [] && audio[0].ptsUs < video[0].ptsUs {
          var dropped := audio[0];
          audio := audio[1..];
          bytes := bytes - |dropped.data|;
        } else if video != [] {
          var dropped := video[0];
          video := video[1..];
          bytes := bytes - |dropped.data|;
        } else {
          var dropped := audio[0];
          audio := audio[1..];
          bytes := bytes - |dropped.data|;
        }
      }
    }

    method History(sinceUs: nat) returns (v: seq<Sample>, a: seq<Sample>)
      ensures v == Newer(video, sinceUs) && a == Newer(audio, sinceUs)
    {
      v, a := Newer(video, sinceUs), Newer(audio, sinceUs);
    }

    /** The span between the oldest and the newest sample held. */
    method Buffered() returns (span: nat)
      requires Valid()
      ensures Ordered(pushed) ==> span <= windowUs
      ensures span == Span(video, audio)
    {
      span := Span(video, audio);
      if Ordered(pushed) && windowUs > 0 {
        ghost var k: nat :| Longest(pushed, k, windowUs, maxBytes)
                         && video == Share(pushed, k, true) && audio == Share(pushed, k, false);
        SpanOfSuffix(pushed, k, windowUs, maxBytes);
      }
    }
  }

  function Span(video: seq<Sample>, audio: seq<Sample>): nat {
    var oldest, newest := Earlier(Front(video), Front(audio)), Later(Back(video), Back(audio));
    if oldest.Some? && newest.Some? && newest.value >= oldest.value then newest.value - oldest.value else 0
  }

  /** The reported span is that of the suffix held, and at most the window. */
  lemma SpanOfSuffix(items: seq<Item>, k: nat, windowUs: nat, maxBytes: nat)
    requires Ordered(items) && Longest(items, k, windowUs, maxBytes)
    ensures Span(Share(items, k, true), Share(items, k, false)) <= windowUs
    ensures Span(Share(items, k, true), Share(items, k, false))
         == if k == |items| then 0 else items[|items| - 1].sample.ptsUs - items[k].sample.ptsUs
  {
    ShareEnds(items, k);
  }

  function Earlier(a: Option<nat>, b: Option<nat>): Option<nat> {
    if a.None? || (b.Some? && b.value < a.value) then b else a
  }

  function Later(a: Option<nat>, b: Option<nat>): Option<nat> {
    if a.None? || (b.Some? && b.value > a.value) then b else a
  }

  function Front(q: seq<Sample>): Option<nat> { if q == [] then None else Some(q[0].ptsUs) }

  function Back(q: seq<Sample>): Option<nat> { if q == [] then None else Some(q[|q| - 1].ptsUs) }

  /** The fronts and backs of the two queues are the ends of the suffix they share. */
  lemma {:induction false} ShareEnds(items: seq<Item>, k: nat)
    requires Ordered(items)
    ensures var v, a := Share(items, k, true), Share(items, k, false);
            && Earlier(Front(v), Front(a)) == (if k >= |items| then None else Some(items[k].sample.ptsUs))
            && Later(Back(v), Back(a)) == (if k >= |items| then None else Some(items[|items| - 1].sample.ptsUs))
    decreases |items| - k
  {
    if k < |items| {
      ShareEnds(items, k + 1);
      assert forall i | k < i < |items| :: Before(items[k], items[i]);
      ShareBound(items, k + 1, !items[k].isVideo, items[k].sample.ptsUs);
    }
  }
}
