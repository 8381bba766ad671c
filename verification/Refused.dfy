/** The synthesized DNS REFUSED packet (qubes_snitch/dns.py) against the packet parser and
    the checksum rules of RFC 791 section 3.1 and RFC 768. */
module Refused {
  import opened Wrappers
  import opened Policy
  import opened Checksums
  import opened Packets

  function Bytes16(w: Word): (b: seq<byte>)
    ensures |b| == 2
  {
    [w / 256, w % 256]
  }

  function Bytes32(a: Addr): (b: seq<byte>)
    ensures |b| == 4
  {
    var q1 := a / 256;
    var q2 := q1 / 256;
    [q2 / 256, q2 % 256, q1 % 256, a % 256]
  }

  function UdpPacket(sport: Word, dport: Word, length: Word, checksum: Word, wire: seq<byte>): seq<byte> {
    Bytes16(sport) + Bytes16(dport) + Bytes16(length) + Bytes16(checksum) + wire
  }

  function PseudoHeader(src: Addr, dst: Addr, udpLength: Word): seq<byte> {
    Bytes32(src) + Bytes32(dst) + [0, 17] + Bytes16(udpLength)
  }

  /** udp_checksum: a computed zero is sent as all ones. */
  function UdpChecksum(src: Addr, dst: Addr, packet: seq<byte>): Word
    requires |packet| <= 65535
  {
    var c := Checksum(PseudoHeader(src, dst, |packet|) + packet);
    if c == 0 then 65535 else c
  }

  function Header(total: Word, id: Word, flags: Word, checksum: Word, src: Addr, dst: Addr): (h: seq<byte>)
    ensures |h| == 20
  {
    [0x45, 0] + Bytes16(total) + Bytes16(id) + Bytes16(flags) + [64, 17] + Bytes16(checksum) + Bytes32(src) + Bytes32(dst)
  }

  /** A parsed UDP/53 query the daemon may answer. */
  ghost predicate DnsQuery(payload: seq<byte>, r: ParsedPacket) {
    Parsed(payload) == Some(r) && r.malformed.None? && r.proto.Udp? && r.dport == Some(53)
  }

  /** A complete IPv4/UDP packet with both checksums filled in. */
  function UdpDatagram(id: Word, flags: Word, src: Addr, dst: Addr, sport: Word, dport: Word, wire: seq<byte>): seq<byte>
    requires 28 + |wire| <= 65535
  {
    var length := 8 + |wire|;
    var checksum := UdpChecksum(src, dst, UdpPacket(sport, dport, length, 0, wire));
    var c := Checksum(Header(20 + length, id, flags, 0, src, dst));
    Header(20 + length, id, flags, c, src, dst) + UdpPacket(sport, dport, length, checksum, wire)
  }

  /** dns_reject_payload, from the response wire onwards: endpoints and ports swapped, the
      query's id and don't-fragment bit kept. The length fields must fit, as struct.pack
      demands. */
  function RefusedPacket(payload: seq<byte>, r: ParsedPacket, wire: seq<byte>): seq<byte>
    requires r.sport.Some? && r.sport.value <= 65535 && r.dport.Some? && r.dport.value <= 65535
    requires 28 + |wire| <= 65535
  {
    var id := if |payload| >= 8 then U16(payload, 4) else 0;
    var flags := if |payload| >= 8 then U16(payload, 6) / 0x4000 % 2 * 0x4000 else 0;
    UdpDatagram(id, flags, r.dst, r.src, r.dport.value, r.sport.value, wire)
  }

  lemma HeaderChecks(total: Word, id: Word, flags: Word, src: Addr, dst: Addr)
    ensures Checksum(Header(total, id, flags, Checksum(Header(total, id, flags, 0, src, dst)), src, dst)) == 0
  {
    var zeroed := Header(total, id, flags, 0, src, dst);
    var c := Checksum(zeroed);
    ChecksumVerifies(zeroed, 10, c);
    assert Insert(zeroed, 10, c) == Header(total, id, flags, c, src, dst);
  }

  lemma UdpChecks(src: Addr, dst: Addr, sport: Word, dport: Word, wire: seq<byte>)
    requires 8 + |wire| <= 65535
    ensures var length := 8 + |wire|;
            var c := UdpChecksum(src, dst, UdpPacket(sport, dport, length, 0, wire));
            Checksum(PseudoHeader(src, dst, length) + UdpPacket(sport, dport, length, c, wire)) == 0
  {
    var length := 8 + |wire|;
    var zeroed := PseudoHeader(src, dst, length) + UdpPacket(sport, dport, length, 0, wire);
    var c := UdpChecksum(src, dst, UdpPacket(sport, dport, length, 0, wire));
    ChecksumVerifies(zeroed, 18, c);
    assert Insert(zeroed, 18, c) == PseudoHeader(src, dst, length) + UdpPacket(sport, dport, length, c, wire);
  }

  /** What the parser needs to see in a 20-byte header followed by UDP. */
  lemma ParsesAsUdp(reply: seq<byte>, src: Addr, dst: Addr, sport: Word, dport: Word, flags: Word, wire: seq<byte>)
    requires |reply| == 28 + |wire| && reply[0] == 0x45 && reply[9] == 17
    requires U16(reply, 2) == |reply| && U16(reply, 6) == flags && (flags == 0 || flags == 0x4000)
    requires AddrAt(reply, 12) == src && AddrAt(reply, 16) == dst
    requires U16(reply, 20) == sport && U16(reply, 22) == dport && U16(reply, 24) == 8 + |wire|
    requires sport != 0 && dport != 0 && reply[28..] == wire
    ensures Parsed(reply) == Some(ParsedPacket(src, dst, Udp, Some(sport), Some(dport), wire, None))
  {
  }

  lemma LayoutOfReply(total: Word, id: Word, flags: Word, c: Word, src: Addr, dst: Addr,
                      sport: Word, dport: Word, length: Word, checksum: Word, wire: seq<byte>)
    ensures var reply := Header(total, id, flags, c, src, dst) + UdpPacket(sport, dport, length, checksum, wire);
            && |reply| == 28 + |wire| && reply[0] == 0x45 && reply[9] == 17
            && U16(reply, 2) == total && U16(reply, 6) == flags
            && AddrAt(reply, 12) == src && AddrAt(reply, 16) == dst
            && U16(reply, 20) == sport && U16(reply, 22) == dport && U16(reply, 24) == length
            && reply[28..] == wire
  {
  }

  /** Both checksums are right: that of the 20-byte header, and the UDP one over source and destination,
      a zero byte, the protocol, the UDP length and the datagram itself (RFC 768), which is sent. */
  ghost predicate Verifies(packet: seq<byte>) {
    && |packet| >= 28 && Checksum(packet[..20]) == 0
    && Checksum(packet[12..16] + packet[16..20] + [0, packet[9]] + packet[24..26] + packet[20..]) == 0
    && U16(packet, 26) != 0
  }

  lemma PseudoHeaderIsInPacket(header: seq<byte>, udp: seq<byte>, src: Addr, dst: Addr, length: Word)
    requires |header| == 20 && header[9] == 17 && header[12..16] == Bytes32(src) && header[16..] == Bytes32(dst)
    requires |udp| >= 8 && udp[4..6] == Bytes16(length)
    ensures var packet := header + udp;
            packet[12..16] + packet[16..20] + [0, packet[9]] + packet[24..26] == PseudoHeader(src, dst, length)
  {
    var packet := header + udp;
    assert packet[12..16] == header[12..16] && packet[16..20] == header[16..] && packet[9] == 17;
    assert packet[24..26] == udp[4..6];
  }

  lemma HeaderAddresses(total: Word, id: Word, flags: Word, c: Word, src: Addr, dst: Addr)
    ensures var h := Header(total, id, flags, c, src, dst);
            h[9] == 17 && h[8] == 64 && h[12..16] == Bytes32(src) && h[16..] == Bytes32(dst) && U16(h, 4) == id && U16(h, 6) == flags
  {
  }

  lemma UdpFields(sport: Word, dport: Word, length: Word, checksum: Word, wire: seq<byte>)
    ensures var u := UdpPacket(sport, dport, length, checksum, wire);
            |u| == 8 + |wire| && u[4..6] == Bytes16(length) && U16(u, 6) == checksum
  {
  }

  lemma DatagramIsSound(id: Word, flags: Word, src: Addr, dst: Addr, sport: Word, dport: Word, wire: seq<byte>)
    requires 28 + |wire| <= 65535 && (flags == 0 || flags == 0x4000) && sport != 0 && dport != 0
    ensures var reply := UdpDatagram(id, flags, src, dst, sport, dport, wire);
            && |reply| >= 20
            && Parsed(reply) == Some(ParsedPacket(src, dst, Udp, Some(sport), Some(dport), wire, None))
            && Verifies(reply)
            && U16(reply, 4) == id && U16(reply, 6) == flags && reply[8] == 64
  {
    var length := 8 + |wire|;
    var reply := UdpDatagram(id, flags, src, dst, sport, dport, wire);
    var checksum := UdpChecksum(src, dst, UdpPacket(sport, dport, length, 0, wire));
    var udp := UdpPacket(sport, dport, length, checksum, wire);
    var c := Checksum(Header(20 + length, id, flags, 0, src, dst));
    var header := Header(20 + length, id, flags, c, src, dst);
    assert reply[..20] == header && reply[20..] == udp;
    HeaderChecks(20 + length, id, flags, src, dst);
    UdpChecks(src, dst, sport, dport, wire);
    LayoutOfReply(20 + length, id, flags, c, src, dst, sport, dport, length, checksum, wire);
    ParsesAsUdp(reply, src, dst, sport, dport, flags, wire);
    HeaderAddresses(20 + length, id, flags, c, src, dst);
    UdpFields(sport, dport, length, checksum, wire);
    PseudoHeaderIsInPacket(header, udp, src, dst, length);
    assert U16(reply, 26) == U16(udp, 6) && U16(reply, 4) == U16(header, 4) && U16(reply, 6) == U16(header, 6) && reply[8] == header[8];
  }

  lemma QueryPorts(payload: seq<byte>, r: ParsedPacket)
    requires DnsQuery(payload, r)
    ensures r.sport.Some? && 1 <= r.sport.value <= 65535
    ensures |payload| >= 20 && (U16(payload, 6) == 0 || U16(payload, 6) == 0x4000)
  {
  }

  /** The daemon's own parser reads the answer back as sound UDP with both endpoints
      swapped and the response wire as body, and both checksums verify. */
  lemma RefusedRoundTrip(payload: seq<byte>, r: ParsedPacket, wire: seq<byte>)
    requires DnsQuery(payload, r) && 28 + |wire| <= 65535
    ensures r.sport.Some? && r.sport.value <= 65535
    ensures var reply := RefusedPacket(payload, r, wire);
            && |reply| >= 20
            && Parsed(reply) == Some(ParsedPacket(r.dst, r.src, Udp, r.dport, r.sport, wire, None))
            && Verifies(reply)
            && U16(reply, 4) == U16(payload, 4) && U16(reply, 6) == U16(payload, 6) && reply[8] == 64
  {
    QueryPorts(payload, r);
    var id, flags := U16(payload, 4), U16(payload, 6) / 0x4000 % 2 * 0x4000;
    DatagramIsSound(id, flags, r.dst, r.src, r.dport.value, r.sport.value, wire);
  }
}
