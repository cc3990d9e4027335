/** Ethernet, IPv4 and UDP framing (src/ethernet.rs): the parser of captured frames and the
    builder of injected ones. */
module Ethernet {
  import opened Bytes
  import opened Protocol
  import opened Checksum

  datatype EthernetError = MalformedFrame | TooLarge

  /** What a UDP datagram carries between two IPv4 sockets. */
  datatype Flow = Flow(sourceIp: Ipv4, destinationIp: Ipv4, sourcePort: U16, destinationPort: U16, payload: Data)

  datatype Udp = Udp(sourceMac: Mac, destinationMac: Mac, flow: Flow)

  const IPV4: U16 := 0x0800

  predicate Tagging(etherType: U16) { etherType == 0x8100 || etherType == 0x88a8 }

  // ---------------------------------------------------------------- parsing

  /** The network packet behind an EtherType and any number of VLAN tags. */
  function Network(s: Data): Option<Data> {
    if |s| < 2 then None
    else if Tagging(FromBe16(s[0], s[1])) then
      if |s| < 6 then None else Network(s[4..])
    else if FromBe16(s[0], s[1]) == IPV4 then Some(s[2..])
    else None
  }

  function HeaderLength(ip: Data): nat
    requires ip != []
  {
    ip[0] % 16 * 4
  }

  /** The UDP datagram of an IPv4 packet that has room for one. */
  function UdpPart(ip: Data): Option<Data> {
    if |ip| < 20 || ip[9] != 17 || HeaderLength(ip) < 20 || |ip| < HeaderLength(ip) + 8 then None
    else Some(ip[HeaderLength(ip)..])
  }

  function UdpLength(udp: Data): U16
    requires |udp| >= 8
  {
    FromBe16(udp[4], udp[5])
  }

  /** The flow of an IPv4 packet whose UDP payload is the given one. */
  function FlowOf(ip: Data, udp: Data, payload: Data): Flow
    requires |ip| >= 20 && |udp| >= 8
  {
    Flow(Ipv4(ip[12], ip[13], ip[14], ip[15]), Ipv4(ip[16], ip[17], ip[18], ip[19]),
         FromBe16(udp[0], udp[1]), FromBe16(udp[2], udp[3]), payload)
  }

  function ParseIp(ip: Data): Option<Flow> {
    var udp := UdpPart(ip);
    if udp.None? || ip[0] / 16 != 4 || UdpLength(udp.value) < 8 || |udp.value| < UdpLength(udp.value) then None
    else Some(FlowOf(ip, udp.value, udp.value[8..UdpLength(udp.value)]))
  }

  function Parse(frame: Data): Result<Udp, EthernetError> {
    if |frame| < 14 then Err(MalformedFrame) else
    var ip := Network(frame[12..]);
    if ip.None? then Err(MalformedFrame) else
    var flow := ParseIp(ip.value);
    if flow.None? then Err(MalformedFrame) else Ok(Udp(frame[6..12], frame[..6], flow.value))
  }

  method ParseFrame(frame: Data) returns (r: Result<Udp, EthernetError>)
    ensures r == Parse(frame)
  {
    if |frame| < 14 {
      return Err(MalformedFrame);
    }
    var offset := 14;
    var etherType := FromBe16(frame[12], frame[13]);
    while Tagging(etherType)
      invariant 14 <= offset <= |frame|
      invariant etherType == FromBe16(frame[offset - 2], frame[offset - 1])
      invariant Network(frame[12..]) == Network(frame[offset - 2..])
      decreases |frame| - offset
    {
      var rest := frame[offset - 2..];
      if |frame| < offset + 4 {
        return Err(MalformedFrame);
      }
      assert rest[4..] == frame[offset + 2..];
      etherType := FromBe16(frame[offset + 2], frame[offset + 3]);
      offset := offset + 4;
    }
    assert frame[offset - 2..][2..] == frame[offset..];
    if etherType != IPV4 || |frame| < offset + 28 {
      return Err(MalformedFrame);
    }
    var ip := frame[offset..];
    if ip[0] / 16 != 4 || ip[9] != 17 {
      return Err(MalformedFrame);
    }
    var ihl := ip[0] % 16 * 4;
    if ihl < 20 || |ip| < ihl + 8 {
      return Err(MalformedFrame);
    }
    var udp := ip[ihl..];
    var udpLength := FromBe16(udp[4], udp[5]);
    if udpLength < 8 || |udp| < udpLength {
      return Err(MalformedFrame);
    }
    r := Ok(Udp(frame[6..12], frame[..6],
                Flow(Ipv4(ip[12], ip[13], ip[14], ip[15]), Ipv4(ip[16], ip[17], ip[18], ip[19]),
                     FromBe16(udp[0], udp[1]), FromBe16(udp[2], udp[3]), udp[8..udpLength])));
  }

  // --------------------------------------------------- what the parser accepts

  /** A VLAN tag: 8100 or 88A8, and two bytes more. */
  predicate IsTag(tag: Data) {
    |tag| == 4 && ((tag[0] == 0x81 && tag[1] == 0x00) || (tag[0] == 0x88 && tag[1] == 0xa8))
  }

  /** The rest of a frame: VLAN tags, a 20-byte IPv4 header, its options, the UDP checksum and
      whatever pads the frame at the end. */
  datatype Layout = Layout(tags: seq<Data>, header: Data, options: Data, udpChecksum: U16, padding: Data) {
    ghost predicate Carries(f: Flow) {
      && (forall i | 0 <= i < |tags| :: IsTag(tags[i]))
      && |header| == 20 && |options| % 4 == 0 && |options| <= 40
      && header[0] == 0x45 + |options| / 4 && header[9] == 17
      && header[12..16] == f.sourceIp.Octets() && header[16..20] == f.destinationIp.Octets()
      && |f.payload| <= 0xffff - 8
    }
  }

  function UdpHeader(f: Flow, checksum: U16): (h: Data)
    requires |f.payload| <= 0xffff - 8
    ensures |h| == 8
  {
    Be16(f.sourcePort) + Be16(f.destinationPort) + Be16(8 + |f.payload|) + Be16(checksum)
  }

  ghost function Datagram(l: Layout, f: Flow): Data
    requires l.Carries(f)
  {
    UdpHeader(f, l.udpChecksum) + f.payload + l.padding
  }

  ghost function Assembled(l: Layout, u: Udp): Data
    requires l.Carries(u.flow)
  {
    u.destinationMac + u.sourceMac + (Flatten(l.tags) + ([0x08, 0x00] + (l.header + l.options + Datagram(l, u.flow))))
  }

  /** Tags hide nothing: the same packet is found behind any number of them. */
  lemma {:induction false} TagsAreSkipped(tags: seq<Data>, s: Data)
    requires forall i | 0 <= i < |tags| :: IsTag(tags[i])
    ensures |s| >= 2 ==> Network(Flatten(tags) + s) == Network(s)
    ensures |s| < 2 ==> Network(Flatten(tags) + s) == None
  {
    if tags == [] {
      assert Flatten(tags) + s == s;
    } else {
      var more := Flatten(tags[1..]) + s;
      TagsAreSkipped(tags[1..], s);
      assert Flatten(tags) + s == tags[0] + more;
      assert (tags[0] + more)[4..] == more;
    }
  }

  lemma NetworkAfter(macs: Data, ip: Data)
    requires |macs| == 12
    ensures Network((macs + (Be16(IPV4) + ip))[12..]) == Some(ip)
  {
    assert (macs + (Be16(IPV4) + ip))[12..] == Be16(IPV4) + ip;
    assert (Be16(IPV4) + ip)[2..] == ip;
  }

  /** Inserting any number of VLAN tags after the addresses changes nothing, for any frame. */
  lemma VlanTagsAreTransparent(frame: Data, tags: seq<Data>)
    requires |frame| >= 12
    requires forall i | 0 <= i < |tags| :: IsTag(tags[i])
    ensures Parse(frame[..12] + Flatten(tags) + frame[12..]) == Parse(frame)
  {
    var macs, rest := frame[..12], frame[12..];
    TagsAreSkipped(tags, rest);
    Inserted(macs, Flatten(tags), rest);
    Inserted(macs, [], rest);
    assert macs + [] + rest == frame;
    assert Network(rest) == Network([] + rest) by {
      assert [] + rest == rest;
    }
    if |rest| >= 2 {
      SameParse(macs + Flatten(tags) + rest, macs + [] + rest);
    } else {
      TooShort(macs + Flatten(tags) + rest);
    }
  }

  lemma TooShort(frame: Data)
    requires |frame| >= 12 && Network(frame[12..]).None?
    ensures Parse(frame) == Err(MalformedFrame)
  {
  }

  lemma Inserted(macs: Data, tags: Data, rest: Data)
    requires |macs| == 12
    ensures var frame := macs + tags + rest;
            frame[12..] == tags + rest && frame[..6] == macs[..6] && frame[6..12] == macs[6..]
  {
  }

  /** Parsing looks at the addresses and at the network packet only. */
  lemma SameParse(a: Data, b: Data)
    requires |a| >= 12 && |b| >= 12 && a[..6] == b[..6] && a[6..12] == b[6..12]
    requires Network(a[12..]) == Network(b[12..])
    ensures Parse(a) == Parse(b)
  {
  }

  lemma {:induction false} TagsBefore(s: Data) returns (tags: seq<Data>)
    requires Network(s).Some?
    ensures forall i | 0 <= i < |tags| :: IsTag(tags[i])
    ensures s == Flatten(tags) + ([0x08, 0x00] + Network(s).value)
  {
    if Tagging(FromBe16(s[0], s[1])) {
      var others := TagsBefore(s[4..]);
      tags := [s[..4]] + others;
      assert tags[1..] == others;
      assert s == s[..4] + s[4..];
      assert s == s[..4] + Flatten(others) + ([0x08, 0x00] + Network(s).value);
    } else {
      tags := [];
    }
  }

  lemma UdpHeaderFields(f: Flow, checksum: U16)
    requires |f.payload| <= 0xffff - 8
    ensures var h := UdpHeader(f, checksum);
            && FromBe16(h[0], h[1]) == f.sourcePort && FromBe16(h[2], h[3]) == f.destinationPort
            && UdpLength(h) == 8 + |f.payload|
  {
    var n := 8 + |f.payload|;
    assert UdpHeader(f, checksum) ==
      [f.sourcePort / 0x100, f.sourcePort % 0x100, f.destinationPort / 0x100, f.destinationPort % 0x100,
       n / 0x100, n % 0x100, checksum / 0x100, checksum % 0x100];
  }

  lemma AddressesOf(header: Data, f: Flow)
    requires |header| == 20
    ensures (header[12..16] == f.sourceIp.Octets() && header[16..20] == f.destinationIp.Octets())
       <==> (Ipv4(header[12], header[13], header[14], header[15]) == f.sourceIp
             && Ipv4(header[16], header[17], header[18], header[19]) == f.destinationIp)
  {
    var a, b := header[12..16], header[16..20];
    assert a == [header[12], header[13], header[14], header[15]];
    assert b == [header[16], header[17], header[18], header[19]];
    assert f.sourceIp.Octets()[0] == f.sourceIp.a && f.sourceIp.Octets()[1] == f.sourceIp.b;
    assert f.sourceIp.Octets()[2] == f.sourceIp.c && f.sourceIp.Octets()[3] == f.sourceIp.d;
    assert f.destinationIp.Octets()[0] == f.destinationIp.a && f.destinationIp.Octets()[1] == f.destinationIp.b;
    assert f.destinationIp.Octets()[2] == f.destinationIp.c && f.destinationIp.Octets()[3] == f.destinationIp.d;
  }

  /** Options and padding do not disturb the flow. */
  lemma DatagramParses(l: Layout, f: Flow)
    requires l.Carries(f)
    ensures ParseIp(l.header + l.options + Datagram(l, f)) == Some(f)
  {
    var udp := Datagram(l, f);
    var ip := l.header + l.options + udp;
    var h := UdpHeader(f, l.udpChecksum);
    assert forall i | 0 <= i < 20 :: ip[i] == l.header[i];
    AddressesOf(l.header, f);
    BehindHeader(l.header, l.options, udp);
    UdpHeaderFields(f, l.udpChecksum);
    assert forall i | 0 <= i < 8 :: udp[i] == h[i];
    PayloadOf(h, f.payload, l.padding);
  }

  lemma BehindHeader(header: Data, options: Data, udp: Data)
    requires |header| == 20 && |options| % 4 == 0 && |options| <= 40 && header[0] == 0x45 + |options| / 4
    ensures var ip := header + options + udp;
            HeaderLength(ip) == 20 + |options| && ip[HeaderLength(ip)..] == udp
  {
  }

  lemma PayloadOf(header: Data, payload: Data, padding: Data)
    requires |header| == 8
    ensures (header + payload + padding)[8..8 + |payload|] == payload
  {
  }

  /** A UDP datagram is its header, its payload and what pads it. */
  lemma DatagramParts(udp: Data, f: Flow) returns (checksum: U16, padding: Data)
    requires 8 <= |udp| && 8 <= UdpLength(udp) <= |udp| && f.payload == udp[8..UdpLength(udp)]
    requires f.sourcePort == FromBe16(udp[0], udp[1]) && f.destinationPort == FromBe16(udp[2], udp[3])
    ensures |f.payload| <= 0xffff - 8 && udp == UdpHeader(f, checksum) + f.payload + padding
  {
    var h, end := udp[..8], UdpLength(udp);
    checksum, padding := FromBe16(h[6], h[7]), udp[end..];
    BytesOfHeader(h);
    assert udp == h + udp[8..end] + padding;
  }

  lemma BytesOfHeader(h: Data)
    requires |h| == 8
    ensures h == Be16(FromBe16(h[0], h[1])) + Be16(FromBe16(h[2], h[3]))
                 + Be16(FromBe16(h[4], h[5])) + Be16(FromBe16(h[6], h[7]))
  {
    Be16RoundTrip(h[0], h[1]);
    Be16RoundTrip(h[2], h[3]);
    Be16RoundTrip(h[4], h[5]);
    Be16RoundTrip(h[6], h[7]);
    assert h == [h[0], h[1]] + [h[2], h[3]] + [h[4], h[5]] + [h[6], h[7]];
  }

  lemma Be16RoundTrip(hi: Byte, lo: Byte)
    ensures Be16(FromBe16(hi, lo)) == [hi, lo]
  {
  }

  /** What ParseIp reads is an IPv4 packet carrying it. */
  lemma ParsedIsDatagram(ip: Data) returns (l: Layout)
    requires ParseIp(ip).Some?
    ensures l.tags == [] && l.Carries(ParseIp(ip).value)
    ensures ip == l.header + l.options + Datagram(l, ParseIp(ip).value)
  {
    var f, n := ParseIp(ip).value, HeaderLength(ip);
    var udp := ip[n..];
    var checksum, padding := DatagramParts(udp, f);
    var header, options := ip[..20], ip[20..n];
    AddressesOf(header, f);
    assert ip == header + options + udp;
    l := Layout([], header, options, checksum, padding);
  }

  /** The parser accepts exactly the frames that carry the flow, and no others: every tag stack,
      IP option, checksum and trailing padding is allowed. */
  lemma ParserIsExact(frame: Data, u: Udp)
    ensures Parse(frame) == Ok(u) <==> exists l: Layout :: l.Carries(u.flow) && frame == Assembled(l, u)
  {
    if Parse(frame) == Ok(u) {
      var tags := TagsBefore(frame[12..]);
      var ip := Network(frame[12..]).value;
      var part := ParsedIsDatagram(ip);
      var l := part.(tags := tags);
      assert Datagram(l, u.flow) == Datagram(part, u.flow);
      assert frame == frame[..6] + frame[6..12] + frame[12..];
      assert l.Carries(u.flow) && frame == Assembled(l, u);
    }
    if l: Layout :| l.Carries(u.flow) && frame == Assembled(l, u) {
      AssembledParses(l, u);
    }
  }

  lemma AssembledParses(l: Layout, u: Udp)
    requires l.Carries(u.flow)
    ensures Parse(Assembled(l, u)) == Ok(u)
  {
    var frame := Assembled(l, u);
    var ip := l.header + l.options + Datagram(l, u.flow);
    var s := [0x08, 0x00] + ip;
    TagsAreSkipped(l.tags, s);
    assert frame[12..] == Flatten(l.tags) + s;
    assert s[2..] == ip;
    assert frame[..6] == u.destinationMac && frame[6..12] == u.sourceMac;
    DatagramParses(l, u.flow);
  }

  // --------------------------------------------------------------- building

  /** The header up to the checksum field and what follows that field. */
  function IpFront(length: U16, identification: U16): (h: Data)
    ensures |h| == 10
  {
    [0x45, 0] + Be16(length) + Be16(identification) + Be16(0x4000) + [64, 17]
  }

  function IpHeader(f: Flow, length: U16, identification: U16, checksum: U16): (h: Data)
    ensures |h| == 20
  {
    IpFront(length, identification) + Be16(checksum) + (f.sourceIp.Octets() + f.destinationIp.Octets())
  }

  /** The checksum of the header with the checksum field zeroed. */
  function HeaderChecksum(f: Flow, length: U16, identification: U16): U16 {
    InternetChecksum(IpHeader(f, length, identification, 0))
  }

  function Built(u: Udp, identification: U16): Data
    requires |u.flow.payload| <= 65507
  {
    var length := 28 + |u.flow.payload|;
    u.destinationMac + u.sourceMac + Be16(IPV4)
    + IpHeader(u.flow, length, identification, HeaderChecksum(u.flow, length, identification))
    + UdpHeader(u.flow, 0) + u.flow.payload
  }

  /** Overwrite bytes from the given position on. */
  method CopyFromSlice(out: array<Byte>, at: nat, bytes: Data)
    requires at + |bytes| <= out.Length
    modifies out
    ensures out[..] == old(out[..at]) + bytes + old(out[at + |bytes|..])
  {
    for i := 0 to |bytes|
      invariant out[..at] == old(out[..at]) && out[at + |bytes|..] == old(out[at + |bytes|..])
      invariant forall k | 0 <= k < i :: out[at + k] == bytes[k]
    {
      out[at + i] := bytes[i];
    }
    assert out[..] == out[..at] + out[at..at + |bytes|] + out[at + |bytes|..];
  }

  /** What has been written so far, with the rest of the buffer still zero. */
  ghost predicate Holds(out: array<Byte>, done: Data)
    reads out
  {
    |done| <= out.Length && out[..] == done + Zeros(out.Length - |done|)
  }

  method Append(out: array<Byte>, at: nat, bytes: Data, ghost done: Data)
    requires at == |done| && at + |bytes| <= out.Length && Holds(out, done)
    modifies out
    ensures Holds(out, done + bytes)
  {
    CopyFromSlice(out, at, bytes);
    assert old(out[..at]) == done;
    assert old(out[at + |bytes|..]) == Zeros(out.Length - |done + bytes|);
  }

  lemma FieldParts(out: Data, before: Data, after: Data)
    requires |before| == 10 && |after| == 8 && 34 <= |out| && out[14..34] == before + [0, 0] + after
    ensures out[..24] == out[..14] + before && out[26..] == after + out[34..]
  {
    assert out[14..34][..10] == before && out[14..34][12..] == after;
  }

  /** Fill in the checksum of the 20 bytes from position 14, whose checksum field is zero. */
  method WriteChecksum(out: array<Byte>, ghost before: Data, ghost after: Data)
    requires |before| == 10 && |after| == 8 && 34 <= out.Length
    requires out[14..34] == before + [0, 0] + after
    modifies out
    ensures out[..] == old(out[..14]) + (before + Be16(InternetChecksum(before + [0, 0] + after)) + after) + old(out[34..])
  {
    var checksum := ComputeChecksum(out[14..34]);
    ghost var was := out[..];
    FieldParts(was, before, after);
    assert out[14..34] == was[14..34];
    CopyFromSlice(out, 24, Be16(checksum));
    assert old(out[..24]) == was[..24] && old(out[26..]) == was[26..];
  }

  method WriteIpHeader(out: array<Byte>, f: Flow, length: U16, identification: U16, ghost done: Data)
    requires |done| == 14 && 34 <= out.Length && Holds(out, done)
    modifies out
    ensures Holds(out, done + IpHeader(f, length, identification, HeaderChecksum(f, length, identification)))
  {
    ghost var front, addresses := IpFront(length, identification), f.sourceIp.Octets() + f.destinationIp.Octets();
    Append(out, 14, IpFront(length, identification), done);
    assert Holds(out, done + front + [0, 0]);
    Append(out, 26, f.sourceIp.Octets(), done + front + [0, 0]);
    Append(out, 30, f.destinationIp.Octets(), done + front + [0, 0] + f.sourceIp.Octets());
    ghost var zeroed := front + [0, 0] + addresses;
    assert done + front + [0, 0] + f.sourceIp.Octets() + f.destinationIp.Octets() == done + zeroed;
    assert Be16(0) == [0, 0];
    assert out[14..34] == zeroed && out[..14] == done;
    WriteChecksum(out, front, addresses);
  }

  method WriteUdp(out: array<Byte>, f: Flow, ghost done: Data)
    requires |done| == 34 && |f.payload| <= 65507 && out.Length == 42 + |f.payload| && Holds(out, done)
    modifies out
    ensures out[..] == done + UdpHeader(f, 0) + f.payload
  {
    Append(out, 34, UdpHeader(f, 0), done);
    Append(out, 42, f.payload, done + UdpHeader(f, 0));
  }

  method BuildUdpIpv4(u: Udp, identification: U16) returns (r: Result<Data, EthernetError>)
    ensures r == if |u.flow.payload| > 65507 then Err(TooLarge) else Ok(Built(u, identification))
  {
    var udpLength := 8 + |u.flow.payload|;
    var ipLength := 20 + udpLength;
    if ipLength > 0xffff {
      return Err(TooLarge);
    }
    var out := new Byte[14 + ipLength](_ => 0);
    assert Holds(out, []);
    Append(out, 0, u.destinationMac, []);
    Append(out, 6, u.sourceMac, [] + u.destinationMac);
    Append(out, 12, Be16(IPV4), [] + u.destinationMac + u.sourceMac);
    ghost var ethernet := u.destinationMac + u.sourceMac + Be16(IPV4);
    assert [] + u.destinationMac + u.sourceMac + Be16(IPV4) == ethernet;
    WriteIpHeader(out, u.flow, ipLength, identification, ethernet);
    WriteUdp(out, u.flow,
             ethernet + IpHeader(u.flow, ipLength, identification, HeaderChecksum(u.flow, ipLength, identification)));
    r := Ok(out[..]);
  }

  /** How a built frame is laid out. */
  lemma BuiltIsAssembled(u: Udp, identification: U16, padding: Data) returns (l: Layout)
    requires |u.flow.payload| <= 65507
    ensures l.Carries(u.flow) && Built(u, identification) + padding == Assembled(l, u)
  {
    var length := 28 + |u.flow.payload|;
    var header := IpHeader(u.flow, length, identification, HeaderChecksum(u.flow, length, identification));
    l := Layout([], header, [], 0, padding);
    assert IpFront(length, identification)[0] == 0x45 && IpFront(length, identification)[9] == 17;
    assert header[12..16] == u.flow.sourceIp.Octets() && header[16..20] == u.flow.destinationIp.Octets();
    assert header + [] == header;
  }

  /** Parsing inverts building, whatever pads the frame on its way. */
  lemma FrameRoundTrip(u: Udp, identification: U16, padding: Data)
    requires |u.flow.payload| <= 65507
    ensures Parse(Built(u, identification) + padding) == Ok(u)
  {
    var l := BuiltIsAssembled(u, identification, padding);
    AssembledParses(l, u);
  }

  /** A receiver that sums the header of a built frame gets zero, and would have for no other
      value of the checksum field but the second form of zero. */
  lemma BuiltHeaderVerifies(u: Udp, identification: U16, v: U16)
    requires |u.flow.payload| <= 65507
    ensures var length := 28 + |u.flow.payload|;
            var c := HeaderChecksum(u.flow, length, identification);
            && Built(u, identification)[14..34] == IpHeader(u.flow, length, identification, c)
            && (InternetChecksum(IpHeader(u.flow, length, identification, v)) == 0
                <==> v == c || (c == 0 && v == 0xffff))
  {
    var length := 28 + |u.flow.payload|;
    assert Be16(0) == [0, 0];
    FieldVerifies(IpFront(length, identification), v, u.flow.sourceIp.Octets() + u.flow.destinationIp.Octets());
  }
}
