/** PENGUIN0 messages: station identities, the common header, media fragments and the
    message builders (src/protocol.rs). A station id is the byte string of its text; the
    source's lossy UTF-8 conversion is the identity on the ASCII ids in use. */
module Protocol {
  import opened Bytes

  const MAGIC: Data := [0x50, 0x45, 0x4e, 0x47, 0x55, 0x49, 0x4e, 0x30] // "PENGUIN0"

  const FAMILY_PAGE: U16 := 0x005d
  const FAMILY_BOOTSTRAP: U16 := 0x0098
  const FAMILY_SESSION: U16 := 0x00b7
  const FAMILY_MONITOR: U16 := 0x00b8
  const FAMILY_ELEVATOR: U16 := 0x0106

  const OP_REQUEST: U32 := 0x01
  const OP_REPLY: U32 := 0x03
  const OP_ANSWER: U32 := 0x05
  const OP_UNLOCK: U32 := 0x06
  const OP_MEDIA: U32 := 0x0a
  const OP_KEEPALIVE: U32 := 0x0c
  const OP_CALL_SETUP: U32 := 0x0d
  const OP_HANGUP: U32 := 0x1e

  const MEDIA_JPEG: U16 := 1
  const MEDIA_AUDIO: U16 := 3

  datatype ProtocolError = Short | BadMagic | StationTooLong | BadStation | BadAudioLength

  // ---------------------------------------------------------------- stations

  datatype Ipv4 = Ipv4(a: Byte, b: Byte, c: Byte, d: Byte) {
    function Octets(): Data { [a, b, c, d] }
    predicate Unspecified() { this == Ipv4(0, 0, 0, 0) }
  }

  datatype Station = Station(id: Data, ip: Ipv4)

  function PackStation(s: Station): Result<Data, ProtocolError> {
    if |s.id| > 20 then Err(StationTooLong)
    else Ok(s.id + Zeros(20 - |s.id|) + s.ip.Octets())
  }

  /** Position of the first zero byte, or the length when there is none. */
  function FirstZero(raw: Data): (n: nat)
    ensures n <= |raw|
    ensures forall i | 0 <= i < n :: raw[i] != 0
    ensures n < |raw| ==> raw[n] == 0
  {
    if raw == [] || raw[0] == 0 then 0 else 1 + FirstZero(raw[1..])
  }

  function ParseStation(raw: Data): Result<Station, ProtocolError> {
    if |raw| < 24 then Err(BadStation)
    else Ok(Station(raw[..FirstZero(raw[..20])], Ipv4(raw[20], raw[21], raw[22], raw[23])))
  }

  /** Packing then parsing keeps the address and the id up to its first NUL, so a station
      that fits survives exactly when its id has no NUL. */
  lemma StationRoundTrip(s: Station)
    ensures PackStation(s).Err? <==> |s.id| > 20
    ensures |s.id| <= 20 ==>
              var raw := PackStation(s).value;
              && |raw| == 24
              && (ParseStation(raw) == Ok(s) <==> 0 !in s.id)
              && ParseStation(raw) == Ok(Station(s.id[..FirstZero(s.id)], s.ip))
  {
    if |s.id| <= 20 {
      var raw := PackStation(s).value;
      var n := FirstZero(s.id);
      assert raw[..20] == s.id + Zeros(20 - |s.id|);
      var padded := raw[..20];
      assert forall i | 0 <= i < n :: padded[i] == s.id[i];
      assert n < 20 ==> padded[n] == 0;
      assert FirstZero(padded) == n;
      assert raw[..n] == s.id[..n];
      assert ParseStation(raw) == Ok(Station(s.id[..n], s.ip));
      assert 0 in s.id <==> |s.id[..n]| < |s.id|;
      assert n == |s.id| ==> s.id[..n] == s.id;
    }
  }

  datatype Endpoints = Endpoints(door: Station, room: Station) {
    predicate Packable() { |door.id| <= 20 && |room.id| <= 20 }
    predicate NulFree() { 0 !in door.id && 0 !in room.id }
  }

  function PackEndpoints(e: Endpoints): (r: Result<Data, ProtocolError>)
    ensures r.Ok? <==> e.Packable()
    ensures r.Ok? ==> |r.value| == 48
    ensures r.Err? ==> r.error == StationTooLong
  {
    var door := PackStation(e.door);
    if door.Err? then Err(door.error) else
    var room := PackStation(e.room);
    if room.Err? then Err(room.error) else Ok(door.value + room.value)
  }

  function ParseEndpoints(raw: Data): Result<Endpoints, ProtocolError> {
    if |raw| < 48 then Err(Short) else
    var door := ParseStation(raw[..24]);
    if door.Err? then Err(door.error) else
    var room := ParseStation(raw[24..48]);
    if room.Err? then Err(room.error) else Ok(Endpoints(door.value, room.value))
  }

  /** A packable endpoint block survives packing and parsing exactly when neither id has a NUL. */
  lemma EndpointsRoundTrip(e: Endpoints)
    requires e.Packable()
    ensures ParseEndpoints(PackEndpoints(e).value) == Ok(e) <==> e.NulFree()
  {
    StationRoundTrip(e.door);
    StationRoundTrip(e.room);
    var raw := PackEndpoints(e).value;
    assert raw[..24] == PackStation(e.door).value;
    assert raw[24..48] == PackStation(e.room).value;
  }

  // ---------------------------------------------------------------- messages

  datatype Message = Message(family: U16, opcode: U32, declared: U32, reserved: Data, body: Data, raw: Data) {
    predicate SessionLike() { family == FAMILY_SESSION || family == FAMILY_MONITOR }
  }

  /** The eight bytes at position i spell the magic. */
  predicate MagicAt(p: Data, i: int) {
    && 0 <= i <= |p| - 8
    && p[i] == 0x50 && p[i + 1] == 0x45 && p[i + 2] == 0x4e && p[i + 3] == 0x47
    && p[i + 4] == 0x55 && p[i + 5] == 0x49 && p[i + 6] == 0x4e && p[i + 7] == 0x30
  }

  predicate StartsWithMagic(raw: Data) { MagicAt(raw, 0) }

  lemma MagicAtMeans(p: Data, i: int)
    ensures MagicAt(p, i) <==> 0 <= i <= |p| - 8 && p[i..i + 8] == MAGIC
  {
    if 0 <= i <= |p| - 8 {
      var w := p[i..i + 8];
      assert w == [w[0], w[1], w[2], w[3], w[4], w[5], w[6], w[7]];
    }
  }

  function ParseMessage(raw: Data): (r: Result<Message, ProtocolError>)
    ensures r.Ok? <==> |raw| >= 32 && StartsWithMagic(raw)
  {
    if |raw| < 32 then Err(Short)
    else if !StartsWithMagic(raw) then Err(BadMagic)
    else Ok(Message(
      FromLe16(raw[8], raw[9]),
      FromLe32(raw[10], raw[11], raw[12], raw[13]),
      FromLe32(raw[14], raw[15], raw[16], raw[17]),
      raw[18..32], raw[32..], raw))
  }

  function MessageEndpoints(m: Message): Option<Endpoints> {
    if m.SessionLike() && |m.body| >= 48 then
      var e := ParseEndpoints(m.body[..48]);
      if e.Ok? then Some(e.value) else None
    else None
  }

  datatype MediaFragment = MediaFragment(
    mediaType: U16, sequence: U16, count: U16, index: U16, validLength: U16, data: Data)

  function MessageMedia(m: Message): Option<MediaFragment> {
    if !m.SessionLike() || m.opcode != OP_MEDIA || |m.body| < 58 then None else
    var h := m.body[48..58];
    var valid := FromLe16(h[8], h[9]);
    var data := m.body[58..];
    if valid > |data| then None
    else Some(MediaFragment(
      FromLe16(h[0], h[1]), FromLe16(h[2], h[3]), FromLe16(h[4], h[5]), FromLe16(h[6], h[7]),
      valid, data[..valid]))
  }

  // ---------------------------------------------------------------- builders

  function Header(family: U16, opcode: U32, declared: U32): (h: Data)
    ensures |h| == 32
  {
    MAGIC + Le16(family) + Le32(opcode) + Le32(declared) + Zeros(14)
  }

  function Packet(family: U16, opcode: U32, declared: U32, body: Data): (p: Data)
    ensures |p| == 32 + |body|
  {
    Header(family, opcode, declared) + body
  }

  /** Every packet parses back to exactly the fields it was built from; whatever follows it in
      a buffer is taken for body. */
  lemma PacketParses(family: U16, opcode: U32, declared: U32, body: Data, rest: Data)
    ensures var p := Packet(family, opcode, declared, body) + rest;
            ParseMessage(p) == Ok(Message(family, opcode, declared, Zeros(14), body + rest, p))
  {
    var h := Header(family, opcode, declared);
    var p := Packet(family, opcode, declared, body) + rest;
    assert p == h + (body + rest);
    HeaderFields(family, opcode, declared);
    assert forall i | 0 <= i < 32 :: p[i] == h[i];
    assert p[18..32] == h[18..32];
    assert p[32..] == body + rest;
  }

  lemma HeaderFields(family: U16, opcode: U32, declared: U32)
    ensures var h := Header(family, opcode, declared);
            && StartsWithMagic(h)
            && FromLe16(h[8], h[9]) == family
            && FromLe32(h[10], h[11], h[12], h[13]) == opcode
            && FromLe32(h[14], h[15], h[16], h[17]) == declared
            && h[18..32] == Zeros(14)
  {
    Le32RoundTrip(opcode);
    Le32RoundTrip(declared);
    var h := Header(family, opcode, declared);
    assert h[8..10] == Le16(family);
    assert h[8] == h[8..10][0] && h[9] == h[8..10][1];
    var o := h[10..14];
    assert o == Le32(opcode);
    assert h[10] == o[0] && h[11] == o[1] && h[12] == o[2] && h[13] == o[3];
    var d := h[14..18];
    assert d == Le32(declared);
    assert h[14] == d[0] && h[15] == d[1] && h[16] == d[2] && h[17] == d[3];
  }

  function SessionControl(opcode: U32, e: Endpoints): (r: Result<Data, ProtocolError>)
    ensures r.Ok? <==> e.Packable()
    ensures r.Ok? ==> |r.value| == 80
  {
    var block := PackEndpoints(e);
    if block.Err? then Err(block.error) else Ok(Packet(FAMILY_SESSION, opcode, 80, block.value))
  }

  /** A control packet tells its reader the opcode and both stations. */
  lemma SessionControlRoundTrip(opcode: U32, e: Endpoints)
    requires e.Packable() && e.NulFree()
    ensures var m := ParseMessage(SessionControl(opcode, e).value);
            && m.Ok? && m.value.family == FAMILY_SESSION && m.value.opcode == opcode && m.value.declared == 80
            && MessageEndpoints(m.value) == Some(e)
  {
    var block := PackEndpoints(e).value;
    PacketParses(FAMILY_SESSION, opcode, 80, block, []);
    EndpointsRoundTrip(e);
    assert SessionControl(opcode, e).value + [] == SessionControl(opcode, e).value;
    assert block + [] == block;
    assert block[..48] == block;
  }

  /** The header of one media slot, after the endpoint block. */
  function MediaHeader(mediaType: U16, sequence: U16, count: U16, index: U16, valid: U16): (h: Data)
    ensures |h| == 10
  {
    Le16(mediaType) + Le16(sequence) + Le16(count) + Le16(index) + Le16(valid)
  }

  /** A media body: endpoints, media header, the valid bytes and the slot's zero padding. */
  function MediaBody(block: Data, f: MediaFragment, slot: nat): (b: Data)
    requires |block| == 48 && |f.data| <= slot
    ensures |b| == 58 + slot
  {
    block + MediaHeader(f.mediaType, f.sequence, f.count, f.index, f.validLength) + f.data + Zeros(slot - |f.data|)
  }

  /** Padding never leaks: whatever the slot size, the fragment comes back exactly. */
  lemma MediaParses(block: Data, f: MediaFragment, slot: nat, declared: U32)
    requires |block| == 48 && |f.data| == f.validLength <= slot
    ensures var m := ParseMessage(Packet(FAMILY_SESSION, OP_MEDIA, declared, MediaBody(block, f, slot)));
            m.Ok? && MessageMedia(m.value) == Some(f)
  {
    var body := MediaBody(block, f, slot);
    var p := Packet(FAMILY_SESSION, OP_MEDIA, declared, body);
    PacketParses(FAMILY_SESSION, OP_MEDIA, declared, body, []);
    assert p + [] == p && body + [] == body;
    MediaBodyParts(block, f, slot);
  }

  lemma MediaBodyParts(block: Data, f: MediaFragment, slot: nat)
    requires |block| == 48 && |f.data| == f.validLength <= slot
    ensures var b := MediaBody(block, f, slot);
            && b[..48] == block
            && FromLe16(b[48..58][0], b[48..58][1]) == f.mediaType
            && FromLe16(b[48..58][2], b[48..58][3]) == f.sequence
            && FromLe16(b[48..58][4], b[48..58][5]) == f.count
            && FromLe16(b[48..58][6], b[48..58][7]) == f.index
            && FromLe16(b[48..58][8], b[48..58][9]) == f.validLength
            && b[58..][..f.validLength] == f.data
  {
    var h := MediaHeader(f.mediaType, f.sequence, f.count, f.index, f.validLength);
    assert MediaBody(block, f, slot)[48..58] == h;
    assert h == [f.mediaType % 0x100, f.mediaType / 0x100, f.sequence % 0x100, f.sequence / 0x100,
                 f.count % 0x100, f.count / 0x100, f.index % 0x100, f.index / 0x100,
                 f.validLength % 0x100, f.validLength / 0x100];
  }

  function AudioFragment(sequence: U16, pcm: Data): MediaFragment {
    MediaFragment(MEDIA_AUDIO, sequence, 1, 1, 512, pcm)
  }

  function AudioPacket(sequence: U16, pcm: Data, e: Endpoints): (r: Result<Data, ProtocolError>)
    ensures r.Ok? <==> |pcm| == 512 && e.Packable()
  {
    if |pcm| != 512 then Err(BadAudioLength) else
    var block := PackEndpoints(e);
    if block.Err? then Err(block.error)
    else Ok(Packet(FAMILY_SESSION, OP_MEDIA, 602, MediaBody(block.value, AudioFragment(sequence, pcm), 512)))
  }

  lemma AudioRoundTrip(sequence: U16, pcm: Data, e: Endpoints)
    requires |pcm| == 512 && e.Packable()
    ensures var m := ParseMessage(AudioPacket(sequence, pcm, e).value);
            m.Ok? && MessageMedia(m.value) == Some(AudioFragment(sequence, pcm))
  {
    MediaParses(PackEndpoints(e).value, AudioFragment(sequence, pcm), 512, 602);
  }

  // The fixed capability tables are parameters: what follows holds for any table of the
  // length the source declares.

  function PairPacket(family: U16, opcode: U32, declared: U32, e: Endpoints, tail: Data): (r: Result<Data, ProtocolError>)
    ensures r.Ok? <==> e.Packable()
  {
    var block := PackEndpoints(e);
    if block.Err? then Err(block.error) else Ok(Packet(family, opcode, declared, block.value + tail))
  }

  function SessionRequest(e: Endpoints, capability: Data): Result<Data, ProtocolError>
    requires |capability| == 174
  {
    PairPacket(FAMILY_SESSION, OP_REQUEST, 254, e, capability)
  }

  function SessionReply(e: Endpoints): Result<Data, ProtocolError> {
    var video: Data := [0x56, 0x49, 0x44, 0x45, 0x4f, 0x41, 0, 0]; // "VIDEOA" and two NULs
    PairPacket(FAMILY_SESSION, OP_REPLY, 96, e, video + Le16(50) + Le16(9) + Le16(9) + Le16(255))
  }

  function MonitorRequest(us: Station, target: Station, capability: Data): Result<Data, ProtocolError>
    requires |capability| == 92
  {
    PairPacket(FAMILY_MONITOR, OP_REQUEST, 172, Endpoints(us, target), capability)
  }

  function CallRequest(caller: Station, callee: Station, capability: Data): Result<Data, ProtocolError>
    requires |capability| == 176
  {
    PairPacket(FAMILY_SESSION, OP_REQUEST, 256, Endpoints(caller, callee), capability)
  }

  function CallSetup(caller: Station, callee: Station): Result<Data, ProtocolError> {
    PairPacket(FAMILY_SESSION, OP_CALL_SETUP, 82, Endpoints(caller, callee), [1, 0])
  }

  function BootstrapReply(room: Station): (r: Result<Data, ProtocolError>)
    ensures r.Ok? <==> |room.id| <= 20
  {
    var packed := PackStation(room);
    if packed.Err? then Err(packed.error)
    else Ok(Packet(FAMILY_BOOTSTRAP, 2, 898, [1, 0] + packed.value + Zeros(840)))
  }

  function PageRequest(): Data { Packet(FAMILY_PAGE, OP_REQUEST, 36, [0x00, 0x1e, 0x00, 0x00]) }

  /** Declares 20 bytes, fewer than its own header. */
  function BootstrapRequest(): Data { Packet(FAMILY_BOOTSTRAP, OP_REQUEST, 20, []) }

  /** Declares 32 bytes although 74 follow on the wire. */
  function ElevatorRequest(roomId: Data): (r: Result<Data, ProtocolError>)
    ensures r.Ok? <==> |roomId| <= 20
  {
    var packed := PackStation(Station(roomId, Ipv4(0, 0, 0, 0)));
    if packed.Err? then Err(packed.error)
    else Ok(Packet(FAMILY_ELEVATOR, OP_REQUEST, 32, packed.value + Zeros(18)))
  }
}
