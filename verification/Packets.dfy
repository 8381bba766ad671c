/** Field extraction from raw IPv4 packets (qubes_snitch/packets.py), next to the fields
    the kernel reads from the same bytes. */
module Packets {
  import opened Wrappers
  import opened Policy
  import opened Nft
  import opened Checksums

  datatype Defect =
    | BadHeaderLength | TotalLengthMismatch | ReservedFlag | Fragment | UnsupportedProtocol
    | MissingIcmpHeader | MissingPorts | MissingUdpHeader | SourcePortZero | DestinationPortZero
    | MissingTcpHeader | BadTcpOffset | BadUdpLength

  datatype ParsedPacket = ParsedPacket(src: Addr, dst: Addr, proto: Proto, sport: Option<nat>, dport: Option<nat>,
                                       body: seq<byte>, malformed: Option<Defect>)

  function U16(data: seq<byte>, at: nat): (w: Word)
    requires at + 1 < |data|
  {
    var high: int, low: int := data[at], data[at + 1];
    high * 256 + low
  }

  function AddrAt(data: seq<byte>, at: nat): Addr
    requires at + 3 < |data|
  {
    var a: int, b: int, c: int, d: int := data[at], data[at + 1], data[at + 2], data[at + 3];
    a * 0x100_0000 + b * 0x1_0000 + c * 0x100 + d
  }

  function ProtoOf(number: byte): Proto {
    if number == 1 then Icmp else if number == 6 then Tcp else if number == 17 then Udp else Other(number)
  }

  predicate HasPorts(proto: Proto) {
    proto.Tcp? || proto.Udp?
  }

  function HeaderLength(payload: seq<byte>): nat
    requires |payload| >= 20
  {
    payload[0] % 16 * 4
  }

  // ------------------------------------------------------------- specification

  /** The first defect of the IPv4 header, in the order the code looks for them. */
  function HeaderDefect(payload: seq<byte>): Option<Defect>
    requires |payload| >= 20
  {
    var field := U16(payload, 6);
    if HeaderLength(payload) < 20 || HeaderLength(payload) > |payload| then Some(BadHeaderLength)
    else if U16(payload, 2) != |payload| then Some(TotalLengthMismatch)
    else if field >= 0x8000 then Some(ReservedFlag)
    else if field % 0x4000 != 0 then Some(Fragment)
    else if ProtoOf(payload[9]).Other? then Some(UnsupportedProtocol)
    else None
  }

  /** The first defect behind an acceptable IPv4 header. */
  function TransportDefect(payload: seq<byte>): Option<Defect>
    requires |payload| >= 20 && HeaderDefect(payload).None?
  {
    var h := HeaderLength(payload);
    var room := |payload| - h;
    var proto := ProtoOf(payload[9]);
    if proto.Icmp? then (if room < 4 then Some(MissingIcmpHeader) else None)
    else if room < 4 then Some(MissingPorts)
    else if proto.Udp? && room < 8 then Some(MissingUdpHeader)
    else if U16(payload, h) == 0 then Some(SourcePortZero)
    else if U16(payload, h + 2) == 0 then Some(DestinationPortZero)
    else if proto.Tcp? then
      if room < 20 then Some(MissingTcpHeader)
      else if payload[h + 12] / 16 * 4 < 20 || payload[h + 12] / 16 * 4 > room then Some(BadTcpOffset)
      else None
    else if U16(payload, h + 4) < 8 || U16(payload, h + 4) != room then Some(BadUdpLength)
    else None
  }

  /** What parse_packet returns: None, or the fields with the first defect found. Ports are
      known from the point where they have been read, the body only for sound UDP. */
  function Parsed(payload: seq<byte>): Option<ParsedPacket> {
    if |payload| < 20 || payload[0] / 16 != 4 then None
    else
      var src, dst, proto := AddrAt(payload, 12), AddrAt(payload, 16), ProtoOf(payload[9]);
      var header := HeaderDefect(payload);
      var defect := if header.Some? then header else TransportDefect(payload);
      var h := HeaderLength(payload);
      var portsRead := header.None? && HasPorts(proto) && defect != Some(MissingPorts) && defect != Some(MissingUdpHeader);
      Some(ParsedPacket(src, dst, proto,
                        if portsRead then Some(U16(payload, h)) else None,
                        if portsRead then Some(U16(payload, h + 2)) else None,
                        if proto.Udp? && defect.None? then payload[h + 8..] else [],
                        defect))
  }

  /** parse_packet: total on every byte string, with the early returns of the original. */
  method ParsePacket(payload: seq<byte>) returns (request: Option<ParsedPacket>)
    ensures request == Parsed(payload)
  {
    if |payload| < 20 {
      return None;
    }
    if payload[0] / 16 != 4 {
      return None;
    }
    var headerLen := payload[0] % 16 * 4;
    var totalLength := U16(payload, 2);
    var field := U16(payload, 6);
    var malformed: Option<Defect> := None;
    if headerLen < 20 || headerLen > |payload| {
      malformed := Some(BadHeaderLength);
    } else if totalLength != |payload| {
      malformed := Some(TotalLengthMismatch);
    } else if field >= 0x8000 {
      malformed := Some(ReservedFlag);
    } else if field % 0x4000 != 0 {
      malformed := Some(Fragment);
    }
    var proto := ProtoOf(payload[9]);
    var r := ParsedPacket(AddrAt(payload, 12), AddrAt(payload, 16), proto, None, None, [], None);
    if proto.Other? && malformed.None? {
      malformed := Some(UnsupportedProtocol);
    }
    if malformed.Some? {
      return Some(r.(malformed := malformed));
    }
    if proto.Icmp? && |payload| < headerLen + 4 {
      return Some(r.(malformed := Some(MissingIcmpHeader)));
    }
    if HasPorts(proto) {
      if |payload| < headerLen + 4 {
        return Some(r.(malformed := Some(MissingPorts)));
      }
      if proto.Udp? && |payload| < headerLen + 8 {
        return Some(r.(malformed := Some(MissingUdpHeader)));
      }
      r := r.(sport := Some(U16(payload, headerLen)), dport := Some(U16(payload, headerLen + 2)));
      if r.sport == Some(0) {
        return Some(r.(malformed := Some(SourcePortZero)));
      }
      if r.dport == Some(0) {
        return Some(r.(malformed := Some(DestinationPortZero)));
      }
      if proto.Tcp? {
        if |payload| < headerLen + 20 {
          return Some(r.(malformed := Some(MissingTcpHeader)));
        }
        var tcpHeaderLen := payload[headerLen + 12] / 16 * 4;
        if tcpHeaderLen < 20 || headerLen + tcpHeaderLen > totalLength {
          return Some(r.(malformed := Some(BadTcpOffset)));
        }
      }
      if proto.Udp? {
        var udpLength := U16(payload, headerLen + 4);
        if udpLength < 8 || headerLen + udpLength != totalLength {
          return Some(r.(malformed := Some(BadUdpLength)));
        }
        r := r.(body := payload[headerLen + 8..headerLen + udpLength]);
        assert payload[headerLen + 8..headerLen + udpLength] == payload[headerLen + 8..];
      }
    }
    return Some(r);
  }

  // ------------------------------------------------------------ the kernel's view

  /** The packet carries a transport header: it is no later fragment and its IPv4 header is whole. */
  predicate HasTransport(payload: seq<byte>)
    requires |payload| >= 20
  {
    U16(payload, 6) % 0x2000 == 0 && 20 <= HeaderLength(payload) <= |payload| - 4
  }

  /** The header fields nftables reads from the same bytes; ct state and direction come
      from connection tracking. A later fragment has no ports to match. */
  function KernelView(payload: seq<byte>, ct: CtState, reply: bool): Packet
    requires |payload| >= 20
  {
    var h := HeaderLength(payload);
    var proto := ProtoOf(payload[9]);
    var ports := if HasPorts(proto) && HasTransport(payload) then Ports(U16(payload, h), U16(payload, h + 2)) else NoPorts;
    Packet(payload[0] / 16 == 4, AddrAt(payload, 12), AddrAt(payload, 16), proto, ports, ct, reply)
  }

  /** The four bytes of an address, most significant first. */
  function Octets(a: Addr): seq<int> {
    var high := a / 256;
    var higher := high / 256;
    [higher / 256, higher % 256, high % 256, a % 256]
  }

  lemma LowByte(high: nat, low: byte)
    ensures (high * 256 + low) / 256 == high && (high * 256 + low) % 256 == low
  {
  }

  lemma AddrOctets(data: seq<byte>, at: nat)
    requires at + 3 < |data|
    ensures Octets(AddrAt(data, at)) == [data[at], data[at + 1], data[at + 2], data[at + 3]]
  {
    var a: nat, b: nat, c: nat := data[at], data[at + 1], data[at + 2];
    LowByte(a, data[at + 1]);
    LowByte(a * 256 + b, data[at + 2]);
    LowByte((a * 256 + b) * 256 + c, data[at + 3]);
  }

  /** The protocol numbers both stages go by, and the order of the address bytes. */
  lemma FieldsOfHeader(payload: seq<byte>, ct: CtState, reply: bool)
    requires Parsed(payload).Some?
    ensures var r, p := Parsed(payload).value, KernelView(payload, ct, reply);
            && p.proto == r.proto && p.src == r.src && p.dst == r.dst
            && (r.proto == Icmp <==> payload[9] == 1) && (r.proto == Tcp <==> payload[9] == 6) && (r.proto == Udp <==> payload[9] == 17)
            && (r.proto.Other? ==> r.proto.number == payload[9])
            && Octets(r.src) == [payload[12], payload[13], payload[14], payload[15]]
            && Octets(r.dst) == [payload[16], payload[17], payload[18], payload[19]]
  {
    AddrOctets(payload, 12);
    AddrOctets(payload, 16);
  }

  /** For a packet that is not malformed both stages judge the same flow. */
  lemma StagesSeeTheSameFlow(payload: seq<byte>, ct: CtState, reply: bool)
    requires Parsed(payload).Some? && Parsed(payload).value.malformed.None?
    ensures var r, p := Parsed(payload).value, KernelView(payload, ct, reply);
            && p.ipv4 && p.src == r.src && p.dst == r.dst
            && p.Outbound() == Flow(r.dst, r.proto, r.dport) && p.Mirrored() == Flow(r.src, r.proto, r.sport)
            && (p.ToDnsPort() <==> r.proto.Udp? && r.dport == Some(53))
            && (HasPorts(r.proto) <==> r.dport.Some?)
            && (r.dport.Some? ==> 1 <= r.dport.value <= 65535)
  {
  }
}
