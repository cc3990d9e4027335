/** Cutting a JPEG frame into fixed 1200-byte media slots (src/protocol.rs, jpeg_packets). */
module Fragmenter {
  import opened Bytes
  import opened Protocol

  const SLOT: nat := 1200

  /** The frame cut every SLOT bytes; only the last chunk may be shorter. */
  function Chunks(jpeg: Data): (c: seq<Data>)
    ensures |c| == (|jpeg| + SLOT - 1) / SLOT
    ensures forall i | 0 <= i < |c| :: 1 <= |c[i]| <= SLOT
  {
    if jpeg == [] then []
    else if |jpeg| <= SLOT then [jpeg]
    else [jpeg[..SLOT]] + Chunks(jpeg[SLOT..])
  }

  /** Nothing is lost, repeated or reordered by cutting. */
  lemma {:induction false} ChunksJoin(jpeg: Data)
    ensures Flatten(Chunks(jpeg)) == jpeg
  {
    if |jpeg| > SLOT {
      ChunksJoin(jpeg[SLOT..]);
      assert Chunks(jpeg)[1..] == Chunks(jpeg[SLOT..]);
    } else if jpeg != [] {
      assert Flatten([jpeg]) == jpeg + Flatten<Byte>([]);
    }
  }

  /** The sizes whose slot count and indices fit the wire's u16 fields. */
  predicate Fragmentable(jpeg: Data) { 1 <= |jpeg| <= 65535 * SLOT }

  /** Chunks small enough for a slot's u16 length field. */
  predicate Slotted(chunks: seq<Data>) { forall i | 0 <= i < |chunks| :: |chunks[i]| <= SLOT }

  /** The fragment that carries chunk i. Count and index are the source's casts to u16. */
  function Fragment(sequence: U16, chunks: seq<Data>, i: nat): MediaFragment
    requires Slotted(chunks) && i < |chunks|
  {
    MediaFragment(MEDIA_JPEG, sequence, |chunks| % 0x1_0000, (i + 1) % 0x1_0000, |chunks[i]|, chunks[i])
  }

  function JpegPacket(sequence: U16, chunks: seq<Data>, e: Endpoints, i: nat): (p: Data)
    requires e.Packable() && Slotted(chunks) && i < |chunks|
    ensures |p| == 1290
  {
    Packet(FAMILY_SESSION, OP_MEDIA, 1290, MediaBody(PackEndpoints(e).value, Fragment(sequence, chunks, i), SLOT))
  }

  method JpegPackets(sequence: U16, jpeg: Data, e: Endpoints) returns (r: Result<seq<Data>, ProtocolError>)
    ensures r.Err? <==> !e.Packable()
    ensures r.Err? ==> r.error == StationTooLong
    ensures r.Ok? ==> |r.value| == |Chunks(jpeg)|
    ensures r.Ok? ==> forall i | 0 <= i < |r.value| :: r.value[i] == JpegPacket(sequence, Chunks(jpeg), e, i)
  {
    var block := PackEndpoints(e);
    if block.Err? {
      return Err(block.error);
    }
    var chunks := Chunks(jpeg);
    var count := (if |chunks| > 1 then |chunks| else 1) % 0x1_0000;
    var packets: seq<Data> := [];
    for index := 0 to |chunks|
      invariant |packets| == index
      invariant forall i | 0 <= i < index :: packets[i] == JpegPacket(sequence, chunks, e, i)
    {
      var chunk := chunks[index];
      var header := MediaHeader(MEDIA_JPEG, sequence, count, (index + 1) % 0x1_0000, |chunk|);
      var body := block.value + header + chunk;
      body := body + Zeros(48 + 10 + SLOT - |body|);
      packets := packets + [Packet(FAMILY_SESSION, OP_MEDIA, 1290, body)];
    }
    r := Ok(packets);
  }

  /** The receiver reads from packet i exactly chunk i and its coordinates. */
  lemma JpegPacketParses(sequence: U16, chunks: seq<Data>, e: Endpoints, i: nat)
    requires e.Packable() && Slotted(chunks) && i < |chunks|
    ensures var m := ParseMessage(JpegPacket(sequence, chunks, e, i));
            m.Ok? && MessageMedia(m.value) == Some(Fragment(sequence, chunks, i))
  {
    MediaParses(PackEndpoints(e).value, Fragment(sequence, chunks, i), SLOT, 1290);
  }
}
