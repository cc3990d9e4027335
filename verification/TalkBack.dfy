/** Talk-back: PCM received in WebSocket messages, forwarded as 512-byte audio packets
    (src/agent_server.rs:1234-1262, src/agent.rs:1113-1134), with no outbound call active. */
module TalkBack {
  import opened Bytes
  import opened Protocol
  import opened CommandCache
  import opened CallMachine

  const FRAME: nat := 512

  /** What one talk meets: the call as it stands, the endpoints if known, and how many of its
      packets the wire takes. */
  datatype Fate = Fate(call: Machine, endpoints: Option<Endpoints>, sends: nat) {
    /** The remote side owns an answered call. */
    predicate Allowed() { call.RemoteMediaAllowed(call.sessionId) }
  }

  /** The sequence counter and everything put on the wire. */
  datatype Voice = Voice(counter: U32, packets: seq<Data>)

  function Bump(counter: U32): U32 { (counter + 1) % 0x1_0000_0000 }

  // -------------------------------------------------------------- one talk

  /** PCM cut every FRAME bytes, the last piece padded with silence. */
  function Frames(pcm: Data): (frames: seq<Data>)
    ensures forall i | 0 <= i < |frames| :: |frames[i]| == FRAME
  {
    if pcm == [] then []
    else if |pcm| <= FRAME then [pcm + Zeros(FRAME - |pcm|)]
    else [pcm[..FRAME]] + Frames(pcm[FRAME..])
  }

  /** Send the frames until one fails; a frame that fails has used up its number. */
  function Say(v: Voice, frames: seq<Data>, e: Endpoints, sends: nat): (Voice, bool)
    decreases |frames|
  {
    if frames == [] then (v, true) else
    var packet := AudioPacket(v.counter % 0x1_0000, frames[0], e);
    if packet.Err? || sends == 0 then (v.(counter := Bump(v.counter)), false)
    else Say(Voice(Bump(v.counter), v.packets + [packet.value]), frames[1..], e, sends - 1)
  }

  function Talk(v: Voice, pcm: Data, fate: Fate): (Voice, Option<CallError>) {
    if !fate.Allowed() then (v, Some(UnlockNotAllowed))
    else if fate.endpoints.None? then (v, Some(AgentOffline))
    else
      var (after, ok) := Say(v, Frames(pcm), fate.endpoints.value, fate.sends);
      (after, if ok then None else Some(AgentOffline))
  }

  /** Everything a single-frame talk needs. */
  predicate Passes(fate: Fate) {
    fate.Allowed() && fate.endpoints.Some? && fate.endpoints.value.Packable() && fate.sends > 0
  }

  /** The receiver takes this PCM with this sequence number from the packet. */
  predicate Spoken(packet: Data, sequence: U16, pcm: Data) {
    var m := ParseMessage(packet);
    m.Ok? && MessageMedia(m.value) == Some(AudioFragment(sequence, pcm))
  }

  lemma SayOne(v: Voice, pcm: Data, e: Endpoints, sends: nat)
    ensures Say(v, [pcm], e, sends) ==
            var packet := AudioPacket(v.counter % 0x1_0000, pcm, e);
            if packet.Err? || sends == 0 then (v.(counter := Bump(v.counter)), false)
            else (Voice(Bump(v.counter), v.packets + [packet.value]), true)
  {
    assert [pcm][1..] == [];
  }

  /** One frame's worth of PCM is one packet, if the talk passes, and nothing otherwise. */
  lemma OneFrame(v: Voice, pcm: Data, fate: Fate) returns (packet: Data)
    requires |pcm| == FRAME
    ensures Talk(v, pcm, fate).1.None? <==> Passes(fate)
    ensures Passes(fate) ==> Talk(v, pcm, fate).0 == Voice(Bump(v.counter), v.packets + [packet])
    ensures Passes(fate) ==> Spoken(packet, v.counter % 0x1_0000, pcm)
    ensures !Passes(fate) ==> Talk(v, pcm, fate).0.packets == v.packets
  {
    packet := [];
    assert Frames(pcm) == [pcm] by {
      assert pcm + Zeros(0) == pcm;
    }
    if fate.endpoints.Some? {
      SayOne(v, pcm, fate.endpoints.value, fate.sends);
      if Passes(fate) {
        packet := AudioPacket(v.counter % 0x1_0000, pcm, fate.endpoints.value).value;
        AudioRoundTrip(v.counter % 0x1_0000, pcm, fate.endpoints.value);
      }
    }
  }

  /** The zeros that fill up the last of n bytes' frames. */
  function Pad(n: nat): nat { if n % 512 == 0 then 0 else 512 - n % 512 }

  /** Cutting and padding lose nothing: the frames join to the PCM and fewer than 512 zeros. */
  lemma {:induction false} FramesJoin(pcm: Data)
    ensures Flatten(Frames(pcm)) == pcm + Zeros(Pad(|pcm|))
    decreases |pcm|
  {
    if |pcm| > 512 {
      var first, rest := pcm[..512], pcm[512..];
      FramesJoin(rest);
      JoinOneMore(first, Frames(rest));
      assert Pad(|rest|) == Pad(|pcm|);
      Associates(first, rest, Zeros(Pad(|pcm|)));
      assert first + rest == pcm;
    } else if pcm != [] {
      JoinOneMore(pcm + Zeros(512 - |pcm|), []);
    }
  }

  lemma JoinOneMore(first: Data, frames: seq<Data>)
    ensures Flatten([first] + frames) == first + Flatten(frames)
    ensures frames == [] ==> Flatten([first]) == first
  {
    assert ([first] + frames)[1..] == frames;
    assert first + [] == first && (frames == [] ==> [first] + frames == [first]);
  }

  /** What a talk is answered with: refused unless the remote side owns an answered call, offline if
      the door is unknown, a station id does not fit or the wire does not take every packet. */
  lemma TalkAnswer(v: Voice, pcm: Data, fate: Fate)
    ensures var error := Talk(v, pcm, fate).1;
            var owned := fate.call.phase == Connected && fate.call.owner == Remote;
            var sends := pcm == [] || (fate.endpoints.Some? && fate.endpoints.value.Packable() && fate.sends >= |Frames(pcm)|);
            error == if !owned then Some(UnlockNotAllowed)
                     else if fate.endpoints.None? || !sends then Some(AgentOffline)
                     else None
  {
    if fate.endpoints.Some? {
      SaidIff(v, Frames(pcm), fate.endpoints.value, fate.sends);
    }
  }

  lemma {:induction false} SaidIff(v: Voice, frames: seq<Data>, e: Endpoints, sends: nat)
    requires forall i | 0 <= i < |frames| :: |frames[i]| == FRAME
    ensures Say(v, frames, e, sends).1 <==> frames == [] || (e.Packable() && sends >= |frames|)
    decreases |frames|
  {
    if frames != [] && e.Packable() && sends > 0 {
      var packet := AudioPacket(v.counter % 0x1_0000, frames[0], e).value;
      SaidIff(Voice(Bump(v.counter), v.packets + [packet]), frames[1..], e, sends - 1);
    }
  }

  // -------------------------------------------------------------- one socket

  datatype Socket = Socket(pending: Data, voice: Voice, forwarded: nat, ended: bool)

  /** Forward whole frames until fewer than FRAME bytes are left or a talk is refused. */
  function Drain(s: Socket, fates: nat -> Fate): Socket
    decreases |s.pending|
  {
    if s.ended || |s.pending| < FRAME then s
    else
      var (voice, error) := Talk(s.voice, s.pending[..FRAME], fates(s.forwarded));
      if error.Some? then Socket([], voice, s.forwarded, true)
      else Drain(Socket(s.pending[FRAME..], voice, s.forwarded + 1, false), fates)
  }

  /** A refused talk closes the socket; what arrives afterwards is not looked at. */
  function Receive(s: Socket, bytes: Data, fates: nat -> Fate): Socket {
    if s.ended then s else Drain(s.(pending := s.pending + bytes), fates)
  }

  function ReceiveAll(s: Socket, messages: seq<Data>, fates: nat -> Fate): Socket
    decreases |messages|
  {
    if messages == [] then s
    else ReceiveAll(Receive(s, messages[0], fates), messages[1..], fates)
  }

  /** Draining before more bytes arrive changes nothing. */
  lemma {:induction false} DrainEarly(s: Socket, more: Data, fates: nat -> Fate)
    requires !s.ended
    ensures Receive(Drain(s, fates), more, fates) == Drain(s.(pending := s.pending + more), fates)
    decreases |s.pending|
  {
    if |s.pending| >= FRAME {
      var all := s.pending + more;
      assert all[..FRAME] == s.pending[..FRAME] && all[FRAME..] == s.pending[FRAME..] + more;
      var (voice, error) := Talk(s.voice, s.pending[..FRAME], fates(s.forwarded));
      if error.None? {
        DrainEarly(Socket(s.pending[FRAME..], voice, s.forwarded + 1, false), more, fates);
      }
    }
  }

  /** Where the stream is cut into messages makes no difference, to failures neither. */
  lemma {:induction false} CutsAreInvisible(s: Socket, messages: seq<Data>, fates: nat -> Fate)
    requires !s.ended ==> |s.pending| < FRAME
    ensures ReceiveAll(s, messages, fates) == Receive(s, Flatten(messages), fates)
    decreases |messages|
  {
    if messages == [] {
      assert s.pending + [] == s.pending;
    } else if s.ended {
      CutsAreInvisible(s, messages[1..], fates);
    } else {
      var first := s.(pending := s.pending + messages[0]);
      DrainLeavesLess(first, fates);
      CutsAreInvisible(Drain(first, fates), messages[1..], fates);
      DrainEarly(first, Flatten(messages[1..]), fates);
      Associates(s.pending, messages[0], Flatten(messages[1..]));
    }
  }

  lemma {:induction false} DrainLeavesLess(s: Socket, fates: nat -> Fate)
    ensures var t := Drain(s, fates); !t.ended ==> |t.pending| < FRAME
    decreases |s.pending|
  {
    if !s.ended && |s.pending| >= FRAME {
      var (voice, error) := Talk(s.voice, s.pending[..FRAME], fates(s.forwarded));
      if error.None? {
        DrainLeavesLess(Socket(s.pending[FRAME..], voice, s.forwarded + 1, false), fates);
      }
    }
  }

  // ------------------------------------------------------ what is heard

  /** There are k packets, numbered from the given one on, and they carry the first k frames. */
  ghost predicate Says(packets: seq<Data>, first: U32, frames: seq<Data>, k: nat) {
    && |packets| == k <= |frames|
    && forall j | 0 <= j < k :: Spoken(packets[j], (first + j) % 0x1_0000, frames[j])
  }

  /** The whole frames of a stream, and the bytes they leave over. */
  function Cut(stream: Data): (frames: seq<Data>)
    ensures forall i | 0 <= i < |frames| :: |frames[i]| == FRAME
  {
    if |stream| < FRAME then [] else [stream[..FRAME]] + Cut(stream[FRAME..])
  }

  function Rest(stream: Data): (rest: Data)
    ensures |rest| < FRAME
  {
    if |stream| < FRAME then stream else Rest(stream[FRAME..])
  }

  lemma {:induction false} CutJoins(stream: Data)
    ensures Flatten(Cut(stream)) + Rest(stream) == stream
  {
    if |stream| >= FRAME {
      CutJoins(stream[FRAME..]);
      assert Cut(stream)[1..] == Cut(stream[FRAME..]);
      assert stream[..FRAME] + stream[FRAME..] == stream;
    }
  }

  /** The first talk from number i on, and before number n, that does not pass, or n. */
  function Refused(fates: nat -> Fate, i: nat, n: nat): (k: nat)
    requires i <= n
    ensures i <= k <= n && (k < n ==> !Passes(fates(k)))
    ensures forall j | i <= j < k :: Passes(fates(j))
    decreases n - i
  {
    if i == n || !Passes(fates(i)) then i else Refused(fates, i + 1, n)
  }

  /** What the receiver has heard so far, and the number that comes next. */
  ghost predicate Heard(v: Voice, first: U32, frames: seq<Data>, k: nat) {
    Says(v.packets, first, frames, k) && v.counter == (first + k) % 0x1_0000_0000
  }

  /** One passing talk is heard in full. */
  lemma OneHeard(v: Voice, first: U32, frames: seq<Data>, k: nat, fate: Fate)
    requires Heard(v, first, frames, k) && k < |frames| && |frames[k]| == FRAME && Passes(fate)
    ensures Heard(Talk(v, frames[k], fate).0, first, frames, k + 1)
  {
    var packet := OneFrame(v, frames[k], fate);
    NextNumber(v.counter, first, k);
  }

  lemma NextNumber(counter: U32, first: U32, n: nat)
    requires counter == (first + n) % 0x1_0000_0000
    ensures counter % 0x1_0000 == (first + n) % 0x1_0000 && Bump(counter) == (first + (n + 1)) % 0x1_0000_0000
  {
    var q := (first + n) / 0x1_0000_0000;
    assert first + n == counter + 0x1_0000 * (0x1_0000 * q);
    LowBits(counter, 0x1_0000 * q);
    assert first + (n + 1) == 0x1_0000_0000 * q + (counter + 1);
  }

  lemma LowBits(v: nat, q: nat)
    ensures (v + 0x1_0000 * q) % 0x1_0000 == v % 0x1_0000
  {
  }

  /** Talking frame after frame, from number i on, until one is refused. */
  function Deliver(v: Voice, frames: seq<Data>, i: nat, fates: nat -> Fate): (Voice, bool)
    requires i <= |frames|
    decreases |frames| - i
  {
    if i == |frames| then (v, false)
    else
      var (after, error) := Talk(v, frames[i], fates(i));
      if error.Some? then (after, true) else Deliver(after, frames, i + 1, fates)
  }

  /** A drain delivers the whole frames of what is pending. */
  lemma {:induction false} DrainDelivers(s: Socket, frames: seq<Data>, fates: nat -> Fate)
    requires !s.ended && s.forwarded <= |frames| && Cut(s.pending) == frames[s.forwarded..]
    ensures var (voice, refused) := Deliver(s.voice, frames, s.forwarded, fates);
            var t := Drain(s, fates);
            t.voice == voice && t.ended == refused && t.pending == if refused then [] else Rest(s.pending)
    decreases |s.pending|
  {
    var i := s.forwarded;
    if |s.pending| >= FRAME {
      var frame, rest := s.pending[..FRAME], s.pending[FRAME..];
      assert frames[i..][0] == frame;
      assert frames[i + 1..] == frames[i..][1..] == Cut(rest);
      var (voice, error) := Talk(s.voice, frame, fates(i));
      if error.None? {
        DrainDelivers(Socket(rest, voice, i + 1, false), frames, fates);
      }
    }
  }

  /** Frames are heard in order and numbered consecutively, up to the first talk that does not
      pass. */
  lemma {:induction false} DeliveredIsHeard(v: Voice, first: U32, frames: seq<Data>, i: nat, fates: nat -> Fate)
    requires Heard(v, first, frames, i) && forall j | 0 <= j < |frames| :: |frames[j]| == FRAME
    ensures var k := Refused(fates, i, |frames|);
            var (after, refused) := Deliver(v, frames, i, fates);
            Says(after.packets, first, frames, k) && (refused <==> k < |frames|)
    decreases |frames| - i
  {
    if i < |frames| {
      var packet := OneFrame(v, frames[i], fates(i));
      if Passes(fates(i)) {
        OneHeard(v, first, frames, i, fates(i));
        DeliveredIsHeard(Talk(v, frames[i], fates(i)).0, first, frames, i + 1, fates);
      }
    }
  }

  /** However the stream is cut into messages, the door hears its longest prefix of whole frames
      that no refused talk cuts short: with every talk passing, all but the last partial frame. */
  lemma StreamIsHeard(counter: U32, messages: seq<Data>, fates: nat -> Fate)
    ensures var t := ReceiveAll(Socket([], Voice(counter, []), 0, false), messages, fates);
            var frames := Cut(Flatten(messages));
            && Says(t.voice.packets, counter, frames, Refused(fates, 0, |frames|))
            && (t.ended <==> exists i: nat :: i < |frames| && !Passes(fates(i)))
            && (!t.ended ==> Flatten(frames) + t.pending == Flatten(messages) && |t.pending| < FRAME)
  {
    var s := Socket([], Voice(counter, []), 0, false);
    var stream := Flatten(messages);
    CutsAreInvisible(s, messages, fates);
    assert s.pending + stream == stream;
    assert Cut(stream)[0..] == Cut(stream);
    DrainDelivers(s.(pending := stream), Cut(stream), fates);
    DeliveredIsHeard(s.voice, counter, Cut(stream), 0, fates);
    CutJoins(stream);
  }

  // ------------------------------------------------------ the server's socket

  class TalkSocket {
    var pending: Data
    var counter: U32
    var packets: seq<Data>
    var forwarded: nat
    var ended: bool

    ghost function View(): Socket
      reads this
    {
      Socket(pending, Voice(counter, packets), forwarded, ended)
    }

    constructor (counter: U32)
      ensures View() == Socket([], Voice(counter, []), 0, false)
    {
      this.counter := counter;
      pending, packets, forwarded, ended := [], [], 0, false;
    }

    method Forward(pcm: Data, fate: Fate) returns (error: Option<CallError>)
      modifies this`counter, this`packets
      ensures (Voice(counter, packets), error) == Talk(Voice(old(counter), old(packets)), pcm, fate)
    {
      if !fate.Allowed() {
        return Some(UnlockNotAllowed);
      }
      if fate.endpoints.None? {
        return Some(AgentOffline);
      }
      var frames := Frames(pcm);
      var sends := fate.sends;
      var i := 0;
      while i < |frames|
        invariant i <= |frames|
        invariant Say(Voice(old(counter), old(packets)), frames, fate.endpoints.value, fate.sends)
               == Say(Voice(counter, packets), frames[i..], fate.endpoints.value, sends)
      {
        var sequence := counter % 0x1_0000;
        counter := Bump(counter);
        var packet := AudioPacket(sequence, frames[i], fate.endpoints.value);
        if packet.Err? || sends == 0 {
          return Some(AgentOffline);
        }
        assert frames[i..][1..] == frames[i + 1..];
        packets, sends := packets + [packet.value], sends - 1;
        i := i + 1;
      }
      error := None;
    }

    method ForwardOne(fates: nat -> Fate)
      requires !ended && |pending| >= FRAME
      modifies this
      ensures Drain(View(), fates) == Drain(old(View()), fates)
      ensures ended || |pending| < |old(pending)|
    {
      ForwardFirst(fates(forwarded));
    }

    /** Forward the first frame of what is pending; a refusal closes the socket. */
    method ForwardFirst(fate: Fate)
      requires !ended && |pending| >= FRAME
      modifies this
      ensures var (voice, error) := Talk(old(View()).voice, old(pending)[..FRAME], fate);
              View() == if error.Some? then Socket([], voice, old(forwarded), true)
                        else Socket(old(pending)[FRAME..], voice, old(forwarded) + 1, false)
    {
      var chunk := pending[..FRAME];
      pending := pending[FRAME..];
      var error := Forward(chunk, fate);
      if error.Some? {
        pending, ended := [], true;
      } else {
        forwarded := forwarded + 1;
      }
    }

    /** One binary message. */
    method OnBinary(bytes: Data, fates: nat -> Fate)
      requires !ended
      modifies this
      ensures View() == Receive(old(View()), bytes, fates)
    {
      pending := pending + bytes;
      while !ended && |pending| >= FRAME
        invariant Drain(View(), fates) == Receive(old(View()), bytes, fates)
        decreases !ended, |pending|
      {
        ForwardOne(fates);
      }
    }
  }
}
