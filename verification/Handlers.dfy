/** The second stage: what the daemon decides about a queued packet
    (qubes_snitch/packet_handlers.py and add_dns_query_fields of qubes_snitch/dns.py). */
module Handlers {
  import opened Wrappers
  import opened DnsNames
  import opened Policy
  import opened Checksums
  import opened Packets

  // ------------------------------------------------------------- reading a query

  /** One question of a decoded message; qtype and qclass are dnspython's upper-case names. */
  datatype WireQuestion = WireQuestion(name: string, ascii: bool, qtype: string, qclass: string)

  datatype Edns = Edns(version: nat, extendedRcode: nat, reservedBits: bool)

  /** A decoded message; reservedFlags is true when a header flag other than QR, RD, AD and
      CD is set, sections when answer, authority or additional records are present. */
  datatype DnsMessage = DnsMessage(response: bool, rcode: nat, opcode: nat, reservedFlags: bool, sections: bool,
                                   questions: seq<WireQuestion>, edns: Option<Edns>)

  /** dnspython's from_wire; None stands for a DNSException. */
  type Decoder = seq<byte> -> Option<DnsMessage>

  datatype DnsProblem =
    | EmptyBody | OversizeBody | ParseFailed | NotClientQuery | NonQueryRcode | NonQueryOpcode
    | NonQueryFlags | UnexpectedSections | MultiQuestion | NoQuestion | NonAsciiQname
    | UnsupportedEdnsVersion | UnsupportedEdnsFlags | UnsupportedQclass | UnsupportedAaaa
    | UnsupportedQtype | UnsupportedQname
  {
    predicate Unsupported() {
      UnsupportedEdnsVersion? || UnsupportedEdnsFlags? || UnsupportedQclass? || UnsupportedAaaa?
      || UnsupportedQtype? || UnsupportedQname?
    }
  }

  datatype DnsFields = Problem(problem: DnsProblem) | Asked(question: DnsQuestion)

  const MAX_LIVE_DNS_BODY_BYTES := 1232

  function QuestionProblem(m: DnsMessage, q: WireQuestion): Option<DnsProblem> {
    if !q.ascii then Some(NonAsciiQname)
    else if m.edns.Some? && m.edns.value.version != 0 then Some(UnsupportedEdnsVersion)
    else if m.edns.Some? && m.edns.value.extendedRcode != 0 then Some(NonQueryRcode)
    else if m.edns.Some? && m.edns.value.reservedBits then Some(UnsupportedEdnsFlags)
    else if q.qclass != "IN" then Some(UnsupportedQclass)
    else if q.qtype == "AAAA" then Some(UnsupportedAaaa)
    else if q.qtype !in SUPPORTED_QTYPES then Some(UnsupportedQtype)
    else if !LiveNameSupported(NormalizeName(q.name), q.qtype) then Some(UnsupportedQname)
    else None
  }

  /** add_dns_query_fields for a UDP packet to port 53. */
  function ReadDnsFields(body: seq<byte>, decode: Decoder): DnsFields {
    if body == [] then Problem(EmptyBody)
    else if |body| > MAX_LIVE_DNS_BODY_BYTES then Problem(OversizeBody)
    else if decode(body).None? then Problem(ParseFailed)
    else
      var m := decode(body).value;
      if m.response then Problem(NotClientQuery)
      else if m.rcode != 0 then Problem(NonQueryRcode)
      else if m.opcode != 0 then Problem(NonQueryOpcode)
      else if m.reservedFlags then Problem(NonQueryFlags)
      else if m.sections then Problem(UnexpectedSections)
      else if |m.questions| != 1 then Problem(if m.questions != [] then MultiQuestion else NoQuestion)
      else
        var q := m.questions[0];
        var problem := QuestionProblem(m, q);
        if problem.Some? then Problem(problem.value) else Asked(DnsQuestion(NormalizeName(q.name), q.qtype))
  }

  /** The record types policy knows, one by one. */
  predicate KnownType(t: string) {
    || t == "A" || t == "CNAME" || t == "MX" || t == "TXT" || t == "SRV" || t == "PTR" || t == "CAA" || t == "NS" || t == "SOA"
    || t == "HTTPS" || t == "SVCB" || t == "NAPTR" || t == "DS" || t == "DNSKEY" || t == "RRSIG" || t == "NSEC" || t == "NSEC3"
  }

  /** A normal client query for q: what "supported question" means, independent of the
      order of the checks. */
  ghost predicate SupportedQuery(body: seq<byte>, decode: Decoder, q: DnsQuestion) {
    && 1 <= |body| <= 1232
    && decode(body).Some?
    && var m := decode(body).value;
       && !m.response && m.rcode == 0 && m.opcode == 0 && !m.reservedFlags && !m.sections
       && (m.edns.Some? ==> m.edns.value == Edns(0, 0, false))
       && (exists w: WireQuestion ::
             && m.questions == [w] && w.ascii && w.qclass == "IN"
             && q == DnsQuestion(NormalizeName(w.name), w.qtype))
       && KnownType(q.qtype) && LiveNameSupported(q.qname, q.qtype)
  }

  lemma ReadsExactlySupportedQueries(body: seq<byte>, decode: Decoder, q: DnsQuestion)
    ensures ReadDnsFields(body, decode) == Asked(q) <==> SupportedQuery(body, decode, q)
  {
  }

  // ------------------------------------------------------------------- decisions

  datatype Ruling = Pass | Drop | DropAndRefuse

  /** The policy answers a handler sees: before queueing, and again under the policy lock
      inside queue_prompt. They differ when an answer is saved in between. */
  datatype Readings = Readings(flow: Option<Action>, flowAgain: Option<Action>, name: Option<Action>, nameAgain: Option<Action>)

  /** handle_dns_domain */
  function DomainRuling(fields: DnsFields, seen: Readings): Ruling {
    match fields
    case Problem(p) => if p.Unsupported() then DropAndRefuse else Drop
    case Asked(_) =>
      match seen.name
      case Some(Allow) => Pass
      case Some(Reject) => DropAndRefuse
      case None =>
        match seen.nameAgain
        case Some(Allow) => Pass
        case Some(Reject) => DropAndRefuse
        case None => Drop
  }

  /** handle_dns_transport */
  function TransportRuling(fields: DnsFields, seen: Readings): Ruling {
    match seen.flow
    case Some(Reject) => Drop
    case Some(Allow) => DomainRuling(fields, seen)
    case None => if seen.flowAgain == Some(Allow) then DomainRuling(fields, seen) else Drop
  }

  /** handle_flow_packet */
  function FlowRuling(seen: Readings): Ruling {
    var action := if seen.flow.Some? then seen.flow else seen.flowAgain;
    if action == Some(Allow) then Pass else Drop
  }

  predicate IsDnsQuery(r: ParsedPacket) {
    r.proto.Udp? && r.dport == Some(53)
  }

  /** handle_packet for a packet whose source is known. */
  function PacketRuling(r: ParsedPacket, decode: Decoder, seen: Readings): Ruling {
    if r.malformed.Some? then Drop
    else if IsDnsQuery(r) then TransportRuling(ReadDnsFields(r.body, decode), seen)
    else FlowRuling(seen)
  }

  function FlowRequest(name: Name, r: ParsedPacket): Request {
    Request(name, r.src, r.dst, r.proto, r.dport, None, None)
  }

  function NameRequest(name: Name, r: ParsedPacket, q: DnsQuestion): Request {
    FlowRequest(name, r).(question := Some(q))
  }

  function NameAction(rules: Rules, name: Name, r: ParsedPacket, decode: Decoder): Option<Action> {
    match ReadDnsFields(r.body, decode)
    case Asked(q) => MatchingAction(rules, NameRequest(name, r, q))
    case Problem(_) => None
  }

  /** The readings when the policy does not change while the packet is handled. */
  function SteadyReadings(rules: Rules, name: Name, r: ParsedPacket, decode: Decoder): Readings {
    var flow := MatchingAction(rules, FlowRequest(name, r));
    var asked := NameAction(rules, name, r, decode);
    Readings(flow, flow, asked, asked)
  }

  /** Whatever is saved between the readings: a queued packet passes only if the transport
      was allowed by one of them and, for DNS, a supported question was too. */
  lemma PassNeedsAllow(r: ParsedPacket, decode: Decoder, seen: Readings)
    ensures PacketRuling(r, decode, seen) == Pass ==>
              && r.malformed.None?
              && (seen.flow == Some(Allow) || (seen.flow.None? && seen.flowAgain == Some(Allow)))
              && (IsDnsQuery(r) ==>
                    && (exists q :: SupportedQuery(r.body, decode, q))
                    && (seen.name == Some(Allow) || (seen.name.None? && seen.nameAgain == Some(Allow))))
  {
    if IsDnsQuery(r) && ReadDnsFields(r.body, decode).Asked? {
      ReadsExactlySupportedQueries(r.body, decode, ReadDnsFields(r.body, decode).question);
    }
  }

  /** A message up to its one question that an ordinary client could send. */
  ghost predicate ClientMessage(body: seq<byte>, decode: Decoder, w: WireQuestion) {
    && 1 <= |body| <= 1232 && decode(body).Some?
    && var m := decode(body).value;
       && !m.response && m.rcode == 0 && m.opcode == 0 && !m.reservedFlags && !m.sections
       && m.questions == [w] && w.ascii
  }

  /** A client message the filter has no policy for: another EDNS version or reserved EDNS bits, another
      class, an unsupported type, or a name it does not take. */
  ghost predicate OddQuery(body: seq<byte>, decode: Decoder) {
    exists w :: ClientMessage(body, decode, w) && OddQuestion(decode(body).value.edns, w)
  }

  ghost predicate OddQuestion(edns: Option<Edns>, w: WireQuestion) {
    || (edns.Some? && edns.value.version != 0)
    || (&& (edns.Some? ==> edns.value.extendedRcode == 0)
        && ((edns.Some? && edns.value.reservedBits) || w.qclass != "IN" || !KnownType(w.qtype)
            || !LiveNameSupported(NormalizeName(w.name), w.qtype)))
  }

  lemma OddMeansUnsupported(body: seq<byte>, decode: Decoder)
    ensures OddQuery(body, decode) <==> ReadDnsFields(body, decode).Problem? && ReadDnsFields(body, decode).problem.Unsupported()
  {
    if ReadDnsFields(body, decode).Problem? && ReadDnsFields(body, decode).problem.Unsupported() {
      var w := decode(body).value.questions[0];
      assert decode(body).value.questions == [w];
      assert ClientMessage(body, decode, w) && OddQuestion(decode(body).value.edns, w);
    }
  }

  /** Exactly when a query is answered REFUSED: its transport is allowed, and it is odd or a question a
      rule rejects. */
  lemma RefusesExactly(r: ParsedPacket, decode: Decoder, seen: Readings)
    ensures PacketRuling(r, decode, seen) == DropAndRefuse <==>
              && r.malformed.None? && IsDnsQuery(r)
              && (seen.flow == Some(Allow) || (seen.flow.None? && seen.flowAgain == Some(Allow)))
              && (OddQuery(r.body, decode)
                  || ((exists q :: SupportedQuery(r.body, decode, q))
                      && (seen.name == Some(Reject) || (seen.name.None? && seen.nameAgain == Some(Reject)))))
  {
    OddMeansUnsupported(r.body, decode);
    if ReadDnsFields(r.body, decode).Asked? {
      ReadsExactlySupportedQueries(r.body, decode, ReadDnsFields(r.body, decode).question);
    }
    forall q | SupportedQuery(r.body, decode, q)
      ensures ReadDnsFields(r.body, decode) == Asked(q)
    {
      ReadsExactlySupportedQueries(r.body, decode, q);
    }
  }

  /** Questions and flows the handlers queue are promptable. */
  lemma QueuedRequestsArePromptable(payload: seq<byte>, name: Name, decode: Decoder)
    requires Parsed(payload).Some? && Parsed(payload).value.malformed.None?
    ensures var r := Parsed(payload).value;
            && Promptable(FlowRequest(name, r))
            && (ReadDnsFields(r.body, decode).Asked? ==> Promptable(NameRequest(name, r, ReadDnsFields(r.body, decode).question)))
  {
  }
}
