/** What the packets and frames look like byte by byte (src/protocol.rs, src/ethernet.rs): the
    positions and constants that a door station, a Pad or a capture tool relies on. */
module WireFormat {
  import opened Bytes
  import opened Protocol
  import opened Fragmenter
  import opened Ethernet
  import opened AgentModel

  /** "PENGUIN0", then family, opcode and declared size, least significant byte first, and fourteen
      zeros. */
  function Head(family0: Byte, family1: Byte, opcode: Byte, size0: Byte, size1: Byte): Data {
    [0x50, 0x45, 0x4e, 0x47, 0x55, 0x49, 0x4e, 0x30] + [family0, family1] + [opcode, 0, 0, 0] + [size0, size1, 0, 0]
    + [0, 0, 0, 0, 0, 0, 0, 0, 0, 0, 0, 0, 0, 0]
  }

  lemma HeaderBytes(family: U16, opcode: U32, declared: U32)
    requires opcode < 0x100 && declared < 0x1_0000
    ensures Header(family, opcode, declared)
         == Head(family % 0x100, family / 0x100, opcode, declared % 0x100, declared / 0x100)
  {
    assert Le32(opcode) == [opcode, 0, 0, 0];
    assert Le32(declared) == [declared % 0x100, declared / 0x100, 0, 0];
    assert Zeros(14) == [0, 0, 0, 0, 0, 0, 0, 0, 0, 0, 0, 0, 0, 0];
  }

  /** The door's id in 20 bytes and its address, then the room's. */
  lemma BlockBytes(e: Endpoints)
    requires e.Packable()
    ensures var b, d, r := PackEndpoints(e).value, e.door, e.room;
            b == (d.id + Zeros(20 - |d.id|) + [d.ip.a, d.ip.b, d.ip.c, d.ip.d])
               + (r.id + Zeros(20 - |r.id|) + [r.ip.a, r.ip.b, r.ip.c, r.ip.d])
  {
  }

  /** The command packets: family B7, opcode 5 to claim, 6 to open the door, 1E to hang up, 80 bytes
      declared. */
  lemma CommandBytes(e: Endpoints)
    requires e.Packable()
    ensures SessionControl(OpcodeOf(Claim), e).value == Head(0xb7, 0x00, 0x05, 0x50, 0x00) + PackEndpoints(e).value
    ensures SessionControl(OpcodeOf(OpenDoor), e).value == Head(0xb7, 0x00, 0x06, 0x50, 0x00) + PackEndpoints(e).value
    ensures SessionControl(OpcodeOf(HangUp), e).value == Head(0xb7, 0x00, 0x1e, 0x50, 0x00) + PackEndpoints(e).value
  {
    HeaderBytes(FAMILY_SESSION, OpcodeOf(Claim), 80);
    HeaderBytes(FAMILY_SESSION, OpcodeOf(OpenDoor), 80);
    HeaderBytes(FAMILY_SESSION, OpcodeOf(HangUp), 80);
  }

  lemma MediaHeaderBytes(kind: U16, sequence: U16, count: U16, index: U16, valid: U16)
    ensures MediaHeader(kind, sequence, count, index, valid)
         == [kind % 0x100, kind / 0x100, sequence % 0x100, sequence / 0x100, count % 0x100, count / 0x100,
             index % 0x100, index / 0x100, valid % 0x100, valid / 0x100]
  {
  }

  /** A JPEG packet: family B7, opcode 0A, 1290 bytes declared; behind the block the type 1, the
      sequence, the count, the index from 1 on and the valid length; then the chunk in 1200 bytes. */
  lemma JpegBytes(sequence: U16, chunks: seq<Data>, e: Endpoints, i: nat)
    requires e.Packable() && Slotted(chunks) && i < |chunks| <= 65535
    ensures var n, k, v := |chunks|, i + 1, |chunks[i]|;
            var header := [1, 0, sequence % 0x100, sequence / 0x100, n % 0x100, n / 0x100, k % 0x100, k / 0x100, v % 0x100, v / 0x100];
            var body := PackEndpoints(e).value + header + chunks[i] + Zeros(1200 - v);
            JpegPacket(sequence, chunks, e, i) == Head(0xb7, 0x00, 0x0a, 0x0a, 0x05) + body
  {
    var block, f := PackEndpoints(e).value, MediaFragment(1, sequence, |chunks|, i + 1, |chunks[i]|, chunks[i]);
    FragmentFields(sequence, chunks, i);
    PacketBytes(block, f);
    BodyBytes(block, f, 1200);
  }

  lemma FragmentFields(sequence: U16, chunks: seq<Data>, i: nat)
    requires Slotted(chunks) && i < |chunks| <= 65535
    ensures Fragment(sequence, chunks, i) == MediaFragment(1, sequence, |chunks|, i + 1, |chunks[i]|, chunks[i])
  {
  }

  lemma PacketBytes(block: Data, f: MediaFragment)
    requires |block| == 48 && |f.data| <= 1200
    ensures Protocol.Packet(FAMILY_SESSION, OP_MEDIA, 1290, MediaBody(block, f, 1200))
         == Head(0xb7, 0x00, 0x0a, 0x0a, 0x05) + MediaBody(block, f, 1200)
  {
    HeaderBytes(FAMILY_SESSION, OP_MEDIA, 1290);
  }

  lemma BodyBytes(block: Data, f: MediaFragment, slot: nat)
    requires |block| == 48 && |f.data| <= slot
    ensures MediaBody(block, f, slot)
         == block + [f.mediaType % 0x100, f.mediaType / 0x100, f.sequence % 0x100, f.sequence / 0x100,
                     f.count % 0x100, f.count / 0x100, f.index % 0x100, f.index / 0x100,
                     f.validLength % 0x100, f.validLength / 0x100] + f.data + Zeros(slot - |f.data|)
  {
    MediaHeaderBytes(f.mediaType, f.sequence, f.count, f.index, f.validLength);
  }

  /** An audio packet: type 3, count and index 1, 512 bytes of PCM, 602 bytes declared and sent. */
  lemma AudioBytes(sequence: U16, pcm: Data, e: Endpoints)
    requires |pcm| == 512 && e.Packable()
    ensures AudioPacket(sequence, pcm, e).value
         == Head(0xb7, 0x00, 0x0a, 0x5a, 0x02)
          + (PackEndpoints(e).value + [3, 0, sequence % 0x100, sequence / 0x100, 1, 0, 1, 0, 0x00, 0x02] + pcm)
  {
    HeaderBytes(FAMILY_SESSION, OP_MEDIA, 602);
    MediaHeaderBytes(MEDIA_AUDIO, sequence, 1, 1, 512);
    NoPadding(PackEndpoints(e).value + MediaHeader(MEDIA_AUDIO, sequence, 1, 1, 512) + pcm);
  }

  lemma NoPadding(d: Data)
    ensures d + Zeros(0) == d
  {
  }

  /** The requests without a block, as captured. */
  lemma FixedPackets()
    ensures PageRequest() == Head(0x5d, 0x00, 0x01, 0x24, 0x00) + [0x00, 0x1e, 0x00, 0x00]
    ensures BootstrapRequest() == Head(0x98, 0x00, 0x01, 0x14, 0x00)
  {
    HeaderBytes(FAMILY_PAGE, OP_REQUEST, 36);
    HeaderBytes(FAMILY_BOOTSTRAP, OP_REQUEST, 20);
    var h := Head(0x98, 0x00, 0x01, 0x14, 0x00);
    assert h + [] == h;
  }

  /** The other builders' packets: header, block and tail. */
  lemma SetupBytes(e: Endpoints, ring: Data, view: Data, call: Data)
    requires e.Packable() && |ring| == 174 && |view| == 92 && |call| == 176
    ensures var b := PackEndpoints(e).value;
            && SessionRequest(e, ring).value == Header(0xb7, 1, 254) + (b + ring)
            && SessionReply(e).value == Header(0xb7, 3, 96)
                 + (b + [0x56, 0x49, 0x44, 0x45, 0x4f, 0x41, 0, 0, 50, 0, 9, 0, 9, 0, 255, 0])
            && MonitorRequest(e.door, e.room, view).value == Header(0xb8, 1, 172) + (b + view)
            && CallRequest(e.door, e.room, call).value == Header(0xb7, 1, 256) + (b + call)
            && CallSetup(e.door, e.room).value == Header(0xb7, 0x0d, 82) + (b + [1, 0])
  {
    var video: Data := [0x56, 0x49, 0x44, 0x45, 0x4f, 0x41, 0, 0];
    assert Le16(50) == [50, 0] && Le16(9) == [9, 0] && Le16(255) == [255, 0];
    assert video + Le16(50) + Le16(9) + Le16(9) + Le16(255)
        == [0x56, 0x49, 0x44, 0x45, 0x4f, 0x41, 0, 0, 50, 0, 9, 0, 9, 0, 255, 0];
    assert e == Endpoints(e.door, e.room);
  }

  lemma RoomBytes(room: Station)
    requires |room.id| <= 20
    ensures var block := room.id + Zeros(20 - |room.id|) + [room.ip.a, room.ip.b, room.ip.c, room.ip.d];
            BootstrapReply(room).value == Header(0x98, 2, 898) + ([1, 0] + block + Zeros(840))
    ensures ElevatorRequest(room.id).value
         == Header(0x106, 1, 32) + (room.id + Zeros(20 - |room.id|) + [0, 0, 0, 0] + Zeros(18))
  {
  }

  /** A built Ethernet frame: addresses and EtherType 0800; version 4 without options, lengths and
      identification, no fragmentation, 64 hops, protocol 17; ports, UDP length and a zero UDP checksum. */
  lemma FrameBytes(u: Udp, id: U16)
    requires |u.flow.payload| <= 65507
    ensures var f, n, c := u.flow, |u.flow.payload|, HeaderChecksum(u.flow, 28 + |u.flow.payload|, id);
            Built(u, id) == u.destinationMac + u.sourceMac + [0x08, 0x00]
              + ([0x45, 0x00, (28 + n) / 0x100, (28 + n) % 0x100, id / 0x100, id % 0x100, 0x40, 0x00, 64, 17]
                 + [c / 0x100, c % 0x100]
                 + ([f.sourceIp.a, f.sourceIp.b, f.sourceIp.c, f.sourceIp.d]
                    + [f.destinationIp.a, f.destinationIp.b, f.destinationIp.c, f.destinationIp.d]))
              + [f.sourcePort / 0x100, f.sourcePort % 0x100, f.destinationPort / 0x100, f.destinationPort % 0x100,
                 (8 + n) / 0x100, (8 + n) % 0x100, 0, 0]
              + f.payload
  {
    assert Be16(IPV4) == [0x08, 0x00];
    FrontBytes(28 + |u.flow.payload|, id);
    PortBytes(u.flow);
  }

  lemma FrontBytes(length: U16, id: U16)
    ensures IpFront(length, id)
         == [0x45, 0x00, length / 0x100, length % 0x100, id / 0x100, id % 0x100, 0x40, 0x00, 64, 17]
  {
  }

  lemma PortBytes(f: Flow)
    requires |f.payload| <= 0xffff - 8
    ensures var n := 8 + |f.payload|;
            UdpHeader(f, 0) == [f.sourcePort / 0x100, f.sourcePort % 0x100, f.destinationPort / 0x100,
                                f.destinationPort % 0x100, n / 0x100, n % 0x100, 0, 0]
  {
  }
}
