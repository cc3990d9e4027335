/** Cutting a buffer into messages, for any rule that says where a message may start and how
    long the one at the front of a buffer is (the loop of src/protocol.rs, split_coalesced). */
module Gluing {
  import opened Bytes

  datatype Framing = Framing(starts: Data -> bool, size: Data -> nat) {
    /** A start is recognised whatever follows it, and no message is empty or overlong. */
    ghost predicate Sound() {
      && !starts([])
      && (forall p | starts(p) :: 0 < size(p) <= |p|)
      && (forall p, rest | starts(p) :: starts(p + rest))
    }

    /** Skip to the next start, cut the message there, and go on behind it. */
    function Split(p: Data): seq<Data>
      requires Sound()
      decreases |p|
    {
      if p == [] then []
      else if starts(p) then [p[..size(p)]] + Split(p[size(p)..])
      else Split(p[1..])
    }

    /** Bytes in front of the first start do not matter. */
    lemma {:induction false} SplitSkips(p: Data, n: nat)
      requires Sound() && n <= |p| && forall j | 0 <= j < n :: !starts(p[j..])
      ensures Split(p) == Split(p[n..])
    {
      if n > 0 {
        assert p[0..] == p;
        assert forall j | 0 <= j < n - 1 :: p[1..][j..] == p[j + 1..];
        SplitSkips(p[1..], n - 1);
        assert p[1..][n - 1..] == p[n..];
      }
    }

    // --------------------------------------------------------- arbitrary input

    /** The places in a larger buffer, at offset base, that Split cuts out of p. */
    ghost function Spans(p: Data, base: nat): seq<Span>
      requires Sound()
      decreases |p|
    {
      if p == [] then []
      else if starts(p) then [Span(base, base + size(p))] + Spans(p[size(p)..], base + size(p))
      else Spans(p[1..], base + 1)
    }

    /** Slices that are non-empty, in order, disjoint and inside the buffer from base on, each
        beginning where a message may start and equal to the bytes its span marks. */
    ghost predicate Ordered(whole: Data, base: nat, spans: seq<Span>, out: seq<Data>) {
      && |spans| == |out|
      && (forall i | 0 <= i < |spans| :: base <= spans[i].from < spans[i].to <= |whole|)
      && (forall i | 0 <= i < |spans| :: starts(whole[spans[i].from..]))
      && (forall i | 0 <= i < |spans| :: out[i] == whole[spans[i].from..spans[i].to])
      && (forall i, j | 0 <= i < j < |spans| :: spans[i].to <= spans[j].from)
    }

    lemma OrderedCons(whole: Data, base: nat, head: Span, spans: seq<Span>, out: seq<Data>)
      requires base <= head.from < head.to <= |whole| && starts(whole[head.from..])
      requires Ordered(whole, head.to, spans, out)
      ensures Ordered(whole, base, [head] + spans, [whole[head.from..head.to]] + out)
    {
    }

    lemma {:induction false} SlicesAreOrdered(whole: Data, base: nat)
      requires Sound() && base <= |whole|
      ensures Ordered(whole, base, Spans(whole[base..], base), Split(whole[base..]))
      decreases |whole| - base
    {
      var p := whole[base..];
      if p == [] {
      } else if starts(p) {
        var to := base + size(p);
        assert p[size(p)..] == whole[to..] && p[..size(p)] == whole[base..to];
        SlicesAreOrdered(whole, to);
        OrderedCons(whole, base, Span(base, to), Spans(whole[to..], to), Split(whole[to..]));
      } else {
        assert p[1..] == whole[base + 1..];
        SlicesAreOrdered(whole, base + 1);
      }
    }

    /** No message start is lost: wherever one occurs, it lies inside some slice. */
    lemma {:induction false} EveryStartIsCovered(p: Data, base: nat, j: nat)
      requires Sound() && j <= |p| && starts(p[j..])
      ensures Covered(Spans(p, base), base + j)
      decreases |p|
    {
      if starts(p) {
        var n := size(p);
        if n <= j {
          assert p[n..][j - n..] == p[j..];
          EveryStartIsCovered(p[n..], base + n, j - n);
        }
        CoveredCons(Span(base, base + n), Spans(p[n..], base + n), base + j);
      } else {
        assert p[0..] == p && p[1..][j - 1..] == p[j..];
        EveryStartIsCovered(p[1..], base + 1, j - 1);
      }
    }

    // ----------------------------------------------- splitting inverts gluing

    /** What may follow a whole message in a buffer: nothing, or another message. */
    predicate Boundary(rest: Data) { rest == [] || starts(rest) }

    /** A message that is cut off whole, alone or before another message. */
    ghost predicate Framed(m: Data) {
      && starts(m)
      && forall rest | Boundary(rest) :: size(m + rest) == |m|
    }

    lemma SplitHead(m: Data, rest: Data)
      requires Sound() && Framed(m) && Boundary(rest)
      ensures Boundary(m + rest) && Split(m + rest) == [m] + Split(rest)
    {
      var p := m + rest;
      assert p[..|m|] == m && p[|m|..] == rest;
    }

    lemma {:induction false} SplitFramedPrefix(ms: seq<Data>, tail: Data)
      requires Sound() && (forall m | m in ms :: Framed(m)) && Boundary(tail)
      ensures Boundary(Flatten(ms) + tail)
      ensures Split(Flatten(ms) + tail) == ms + Split(tail)
    {
      if ms == [] {
        assert Flatten(ms) + tail == tail;
      } else {
        SplitFramedPrefix(ms[1..], tail);
        SplitHead(ms[0], Flatten(ms[1..]) + tail);
        Associates(ms[0], Flatten(ms[1..]), tail);
        assert ms == [ms[0]] + ms[1..];
        Associates([ms[0]], ms[1..], Split(tail));
      }
    }

    /** Gluing any list of framed messages and splitting the result gives the list back. */
    lemma SplitInvertsGluing(ms: seq<Data>)
      requires Sound() && forall m | m in ms :: Framed(m)
      ensures Split(Flatten(ms)) == ms
    {
      SplitFramedPrefix(ms, []);
      assert Flatten(ms) + [] == Flatten(ms);
    }

    /** Whatever follows it, the message is cut after n bytes. */
    ghost predicate CutAt(m: Data, n: nat) {
      && starts(m)
      && forall rest :: size(m + rest) == n
    }

    /** One message that is cut at the wrong length is enough to lose the list. */
    lemma FirstMisfit(ms: seq<Data>, i: nat, n: nat)
      requires Sound() && i < |ms| && CutAt(ms[i], n) && n != |ms[i]|
      requires forall m | m in ms[..i] :: Framed(m)
      ensures Split(Flatten(ms)) != ms
    {
      var tail := ms[i] + Flatten(ms[i + 1..]);
      FlattenAt(ms, i);
      SplitFramedPrefix(ms[..i], tail);
      assert starts(tail) && size(tail) == n;
      assert |Split(Flatten(ms))[i]| == n;
    }
  }

  datatype Span = Span(from: nat, to: nat)

  /** Position j lies in one of the spans. */
  ghost predicate Covered(spans: seq<Span>, j: nat) {
    exists i :: 0 <= i < |spans| && spans[i].from <= j < spans[i].to
  }

  lemma CoveredCons(head: Span, spans: seq<Span>, j: nat)
    requires head.from <= j < head.to || Covered(spans, j)
    ensures Covered([head] + spans, j)
  {
    var all := [head] + spans;
    if head.from <= j < head.to {
      assert all[0] == head;
    } else {
      var i :| 0 <= i < |spans| && spans[i].from <= j < spans[i].to;
      assert all[i + 1] == spans[i];
    }
  }
}
