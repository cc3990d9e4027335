/** The second parser of captured frames (src/pcap.rs:73-108), and how it agrees with the first. */
module Pcap {
  import opened Bytes
  import opened Protocol
  import opened Ethernet

  datatype Record = Record(frame: U32, timestampMicros: nat, flow: Flow)

  /** This parser takes what was captured of the payload and any IP version. */
  function DecodeIp(ip: Data): Option<Flow> {
    var udp := UdpPart(ip);
    if udp.None? || UdpLength(udp.value) < 8 then None
    else
      var end := if |udp.value| < UdpLength(udp.value) then |udp.value| else UdpLength(udp.value);
      Some(FlowOf(ip, udp.value, udp.value[8..end]))
  }

  function Decode(raw: Data): Option<Flow> {
    if |raw| < 14 then None else
    var ip := Network(raw[12..]);
    if ip.None? then None else DecodeIp(ip.value)
  }

  method DecodeUdp(frame: U32, raw: Data) returns (r: Option<Record>)
    ensures r == if Decode(raw).None? then None else Some(Record(frame, 0, Decode(raw).value))
  {
    if |raw| < 14 {
      return None;
    }
    var offset := 14;
    var etherType := FromBe16(raw[12], raw[13]);
    while Tagging(etherType)
      invariant 14 <= offset <= |raw|
      invariant etherType == FromBe16(raw[offset - 2], raw[offset - 1])
      invariant Network(raw[12..]) == Network(raw[offset - 2..])
      decreases |raw| - offset
    {
      var rest := raw[offset - 2..];
      if |raw| < offset + 4 {
        return None;
      }
      assert rest[4..] == raw[offset + 2..];
      etherType := FromBe16(raw[offset + 2], raw[offset + 3]);
      offset := offset + 4;
    }
    assert raw[offset - 2..][2..] == raw[offset..];
    if etherType != IPV4 || |raw| < offset + 20 {
      return None;
    }
    var ip := raw[offset..];
    var ihl := ip[0] % 16 * 4;
    if ihl < 20 || |ip| < ihl + 8 || ip[9] != 17 {
      return None;
    }
    var udp := ip[ihl..];
    var udpLength := FromBe16(udp[4], udp[5]);
    if udpLength < 8 {
      return None;
    }
    var end := if |udp| < udpLength then |udp| else udpLength;
    r := Some(Record(frame, 0, Flow(Ipv4(ip[12], ip[13], ip[14], ip[15]), Ipv4(ip[16], ip[17], ip[18], ip[19]),
                                    FromBe16(udp[0], udp[1]), FromBe16(udp[2], udp[3]), udp[8..end])));
  }

  /** Version 4, and captured to the end of its UDP datagram. */
  predicate Whole(ip: Data)
    requires UdpPart(ip).Some?
  {
    ip[0] / 16 == 4 && UdpLength(UdpPart(ip).value) <= |UdpPart(ip).value|
  }

  /** Whatever the first parser accepts the second reads alike, and the first accepts exactly
      what the second does and is whole. */
  lemma ParsersAgree(frame: Data)
    ensures Parse(frame).Ok? ==> Decode(frame) == Some(Parse(frame).value.flow)
    ensures Parse(frame).Ok? <==> Decode(frame).Some? && Whole(Network(frame[12..]).value)
  {
  }

  /** What the second parser makes of a plain header and as much of a datagram as was captured. */
  lemma HeaderThenDatagram(header: Data, f: Flow, n: nat)
    requires |header| == 20 && header[0] % 16 == 5 && header[9] == 17
    requires header[12..16] == f.sourceIp.Octets() && header[16..20] == f.destinationIp.Octets()
    requires n <= |f.payload| <= 65507
    ensures DecodeIp(header + (UdpHeader(f, 0) + f.payload[..n])) == Some(f.(payload := f.payload[..n]))
  {
    var h, part := UdpHeader(f, 0), f.payload[..n];
    var udp := h + part;
    var ip := header + udp;
    AddressesOf(header, f);
    UdpHeaderFields(f, 0);
    assert forall i | 0 <= i < 8 :: udp[i] == h[i];
    assert forall i | 0 <= i < 20 :: ip[i] == header[i];
    assert ip[20..] == udp && udp[8..8 + n] == part;
    assert HeaderLength(ip) == 20 && UdpPart(ip) == Some(udp);
    assert UdpLength(udp) == 8 + |f.payload| && |udp| == 8 + n;
    assert udp[8..|udp|] == part;
  }

  /** The first bytes of an IPv6 packet behind an IPv4 EtherType: only the second parser takes it. */
  lemma SecondTakesMore(f: Flow)
    requires |f.payload| <= 65507
    ensures var header := [0x65, 0, 0, 0, 0, 0, 0, 0, 0, 17, 0, 0] + f.sourceIp.Octets() + f.destinationIp.Octets();
            var ip := header + (UdpHeader(f, 0) + f.payload);
            DecodeIp(ip) == Some(f) && ParseIp(ip) == None
  {
    var header := [0x65, 0, 0, 0, 0, 0, 0, 0, 0, 17, 0, 0] + f.sourceIp.Octets() + f.destinationIp.Octets();
    assert f.payload[..|f.payload|] == f.payload;
    HeaderThenDatagram(header, f, |f.payload|);
    assert (header + (UdpHeader(f, 0) + f.payload))[0] == 0x65;
  }

  /** A capture cut short anywhere behind the UDP header still yields the flow, with the part
      of the payload that was captured. */
  lemma CutCapture(u: Udp, identification: U16, n: nat)
    requires |u.flow.payload| <= 65507 && n <= |u.flow.payload|
    ensures Decode(Built(u, identification)[..42 + n]) == Some(u.flow.(payload := u.flow.payload[..n]))
  {
    var f, length := u.flow, 28 + |u.flow.payload|;
    var c := HeaderChecksum(f, length, identification);
    var header := IpHeader(f, length, identification, c);
    HeaderOfBuilt(f, length, identification, c);
    HeaderThenDatagram(header, f, n);
    var ip := header + (UdpHeader(f, 0) + f.payload[..n]);
    NetworkAfter(u.destinationMac + u.sourceMac, ip);
    FrontOfBuilt(u, identification, n);
  }

  lemma FrontOfBuilt(u: Udp, identification: U16, n: nat)
    requires n <= |u.flow.payload| <= 65507
    ensures var length := 28 + |u.flow.payload|;
            var header := IpHeader(u.flow, length, identification, HeaderChecksum(u.flow, length, identification));
            Built(u, identification)[..42 + n] ==
            u.destinationMac + u.sourceMac + (Be16(IPV4) + (header + (UdpHeader(u.flow, 0) + u.flow.payload[..n])))
  {
    var length := 28 + |u.flow.payload|;
    var header := IpHeader(u.flow, length, identification, HeaderChecksum(u.flow, length, identification));
    CutAfter(u.destinationMac + u.sourceMac + Be16(IPV4) + header + UdpHeader(u.flow, 0), u.flow.payload, n);
  }

  lemma CutAfter(front: Data, payload: Data, n: nat)
    requires n <= |payload|
    ensures (front + payload)[..|front| + n] == front + payload[..n]
  {
  }

  lemma HeaderOfBuilt(f: Flow, length: U16, identification: U16, checksum: U16)
    ensures var header := IpHeader(f, length, identification, checksum);
            && header[0] == 0x45 && header[9] == 17
            && header[12..16] == f.sourceIp.Octets() && header[16..20] == f.destinationIp.Octets()
  {
    var front := IpFront(length, identification);
    assert front[0] == 0x45 && front[9] == 17;
    var header := IpHeader(f, length, identification, checksum);
    assert header[12..] == f.sourceIp.Octets() + f.destinationIp.Octets();
  }
}
