/** The rendered nftables table as data, its evaluation, and the renderer
    (qubes_snitch/nft.py). */
module Nft {
  import opened Wrappers
  import opened Policy

  // ------------------------------------------------------------------- packets

  datatype CtState = CtInvalid | CtNew | CtEstablished | CtRelated | CtUntracked

  /** NoPorts: a protocol without ports, or a header too short to hold them. */
  datatype Ports = NoPorts | Ports(sport: nat, dport: nat)

  /** A forwarded packet as the kernel sees it; reply is the conntrack direction. The
      addresses mean nothing when ipv4 is false. */
  datatype Packet = Packet(ipv4: bool, src: Addr, dst: Addr, proto: Proto, ports: Ports, ct: CtState, reply: bool) {
    predicate Established() {
      ct.CtEstablished? || ct.CtRelated?
    }

    predicate ToDnsPort() {
      proto.Udp? && ports.Ports? && ports.dport == 53
    }

    /** The flow policy is asked about for a packet leaving a VM. */
    function Outbound(): Flow {
      Flow(dst, proto, if ports.Ports? then Some(ports.dport) else None)
    }

    /** The flow a reply packet belongs to: endpoints and ports swapped. */
    function Mirrored(): Flow {
      Flow(src, proto, if ports.Ports? then Some(ports.sport) else None)
    }
  }

  // --------------------------------------------------------------------- table

  datatype AddrSet = Net(base: Addr, prefix: Prefix) | Hosts(addrs: seq<Addr>)

  datatype Match =
    | NfprotoIpv4
    | Saddr(addrs: AddrSet)
    | Daddr(addrs: AddrSet)
    | SportIn(proto: Proto, ports: PortSpec)
    | DportIn(proto: Proto, ports: PortSpec)
    | L4Proto(proto: Proto)
    | IpProtocol(proto: Proto)
    | StateInvalid
    | StateEstablishedRelated
    | DirectionReply

  datatype ChainName = ForwardChain | SourceChain(name: Name) | UnknownChain

  datatype Verdict = Accept | RejectPacket | Queue | Jump(target: ChainName)

  /** One line of a chain. A limited line carries "limit rate" after its matches and
      before its verdict. */
  datatype Line = Line(matches: seq<Match>, limited: bool, verdict: Verdict)

  datatype Table = Table(forward: seq<Line>, chains: map<ChainName, seq<Line>>)

  // ---------------------------------------------------------------- evaluation

  predicate InSet(a: Addr, s: AddrSet) {
    match s
    case Net(base, prefix) => InNetwork(a, base, prefix)
    case Hosts(addrs) => a in addrs
  }

  predicate PortIn(port: nat, spec: PortSpec) {
    match spec
    case AnyPort => true
    case OnePort(p) => port == p
    case PortRange(first, last) => first <= port <= last
  }

  predicate Holds(m: Match, p: Packet) {
    match m
    case NfprotoIpv4 => p.ipv4
    case Saddr(addrs) => p.ipv4 && InSet(p.src, addrs)
    case Daddr(addrs) => p.ipv4 && InSet(p.dst, addrs)
    case SportIn(proto, spec) => p.proto == proto && p.ports.Ports? && PortIn(p.ports.sport, spec)
    case DportIn(proto, spec) => p.proto == proto && p.ports.Ports? && PortIn(p.ports.dport, spec)
    case L4Proto(proto) => p.proto == proto
    case IpProtocol(proto) => p.ipv4 && p.proto == proto
    case StateInvalid => p.ct.CtInvalid?
    case StateEstablishedRelated => p.Established()
    case DirectionReply => p.reply
  }

  predicate Matches(line: Line, p: Packet) {
    forall m :: m in line.matches ==> Holds(m, p)
  }

  /** Whether a limited line is within its rate right now. The line is named by its chain
      and the lines from it to the end of the chain, so every position has its own answer. */
  type Limiter = (ChainName, seq<Line>) -> bool

  const WITHIN_RATE: Limiter := (_, _) => true
  const OVER_RATE: Limiter := (_, _) => false

  datatype Outcome = Accepted | Rejected | Queued | Dropped | FellThrough

  predicate Fires(c: ChainName, lines: seq<Line>, p: Packet, lim: Limiter)
    requires lines != []
  {
    Matches(lines[0], p) && (lines[0].limited ==> lim(c, lines))
  }

  /** A chain reached by a jump. Rendered source chains hold no jumps, so a jump here is
      not followed. */
  function EvalChain(c: ChainName, lines: seq<Line>, p: Packet, lim: Limiter): Outcome {
    if lines == [] then FellThrough
    else if Fires(c, lines, p, lim) then
      match lines[0].verdict
      case Accept => Accepted
      case RejectPacket => Rejected
      case Queue => Queued
      case Jump(_) => EvalChain(c, lines[1..], p, lim)
    else EvalChain(c, lines[1..], p, lim)
  }

  function EvalForward(t: Table, lines: seq<Line>, p: Packet, lim: Limiter): Outcome {
    if lines == [] then Dropped // policy drop
    else if Fires(ForwardChain, lines, p, lim) then
      match lines[0].verdict
      case Accept => Accepted
      case RejectPacket => Rejected
      case Queue => Queued
      case Jump(target) =>
        var inner := if target in t.chains then EvalChain(target, t.chains[target], p, lim) else FellThrough;
        if inner.FellThrough? then EvalForward(t, lines[1..], p, lim) else inner
    else EvalForward(t, lines[1..], p, lim)
  }

  function EvalTable(t: Table, p: Packet, lim: Limiter): Outcome {
    EvalForward(t, t.forward, p, lim)
  }

  // ------------------------------------------------------------------- sources

  /** SOURCES_BY_NAME: an insertion-ordered dict from policy source to its addresses. */
  datatype SourceEntry = SourceEntry(name: Name, ips: seq<Addr>)

  type SourceMap = seq<SourceEntry>

  function SourceNames(sources: SourceMap): set<Name> {
    set i | 0 <= i < |sources| :: sources[i].name
  }

  /** SOURCES_BY_IP */
  function Owner(sources: SourceMap, ip: Addr): Option<Name> {
    if sources == [] then None
    else if ip in sources[0].ips then Some(sources[0].name)
    else Owner(sources[1..], ip)
  }

  /** Every address belongs to one policy source. */
  ghost predicate OneOwner(sources: SourceMap) {
    forall i, j, ip :: 0 <= i < |sources| && 0 <= j < |sources| && ip in sources[i].ips && ip in sources[j].ips
                       ==> sources[i].name == sources[j].name
  }

  ghost predicate CoversSources(sources: SourceMap, rules: Rules) {
    forall e :: e in sources ==> e.name in rules
  }

  // ------------------------------------------------ what each line is rendered to

  function DestMatches(dest: Dest): seq<Match> {
    match dest
    case AnyDest => []
    case Network(base, prefix) => [Daddr(Net(base, prefix))]
    case Hostname(_, resolved) => [Daddr(Hosts(resolved))]
  }

  function TransportMatches(proto: Proto, port: PortSpec, reply: bool): seq<Match> {
    if proto.Tcp? || proto.Udp? then
      if port.AnyPort? then [L4Proto(proto)]
      else if reply then [SportIn(proto, port)]
      else [DportIn(proto, port)]
    else if proto.Icmp? then [IpProtocol(Icmp)]
    else [L4Proto(proto)]
  }

  function FlowMatches(rule: FlowRule): seq<Match> {
    [NfprotoIpv4] + DestMatches(rule.dest) + TransportMatches(rule.proto, rule.port, false)
  }

  predicate UdpRuleIncludesDns(rule: FlowRule) {
    rule.proto.Udp? && PortIn(53, rule.port)
  }

  function DnsQueueLine(rule: FlowRule): Line {
    Line([NfprotoIpv4] + DestMatches(rule.dest) + [DportIn(Udp, OnePort(53))], false, Queue)
  }

  /** The lines of one rule in its source chain; keepQueue is true in the real table. */
  function RuleLines(rule: FlowRule, keepQueue: bool): seq<Line> {
    if rule.action.Reject? then [Line(FlowMatches(rule), true, RejectPacket)]
    else
      (if UdpRuleIncludesDns(rule) && keepQueue then [DnsQueueLine(rule)] else [])
      + (if UdpRuleIncludesDns(rule) && rule.port == OnePort(53) then [] else [Line(FlowMatches(rule), false, Accept)])
  }

  function AllRuleLines(rules: seq<FlowRule>, keepQueue: bool): seq<Line> {
    if rules == [] then [] else RuleLines(rules[0], keepQueue) + AllRuleLines(rules[1..], keepQueue)
  }

  function ChainHead(): seq<Line> {
    [Line([StateInvalid], true, RejectPacket), Line([DportIn(Udp, OnePort(53))], false, Queue)]
  }

  function ChainTail(): seq<Line> {
    [Line([], false, Queue), Line([], true, RejectPacket)]
  }

  function SourceLines(rules: seq<FlowRule>, keepQueue: bool): seq<Line> {
    ChainHead() + AllRuleLines(rules, keepQueue) + ChainTail()
  }

  function UnknownLines(): seq<Line> {
    [Line([NfprotoIpv4], false, Queue), Line([], true, RejectPacket)]
  }

  /** nft_reply_sources: None stands for a rule without a source constraint. */
  function ReplySources(dest: Dest): seq<Option<AddrSet>> {
    match dest
    case AnyDest => [None]
    case Network(base, prefix) => [Some(Net(base, prefix))]
    case Hostname(_, resolved) => seq(|resolved|, i requires 0 <= i < |resolved| => Some(Net(resolved[i], 32)))
  }

  function ReplyMatches(ip: Addr, rule: FlowRule, from: Option<AddrSet>): seq<Match> {
    [NfprotoIpv4]
    + (if from.Some? then [Saddr(from.value)] else [])
    + [Daddr(Net(ip, 32))]
    + TransportMatches(rule.proto, rule.port, true)
    + [StateEstablishedRelated, DirectionReply]
  }

  function ReplyLine(ip: Addr, rule: FlowRule, from: Option<AddrSet>): Line {
    if rule.action.Allow? then Line(ReplyMatches(ip, rule, from), false, Accept)
    else Line(ReplyMatches(ip, rule, from), true, RejectPacket)
  }

  function ReplyLinesFrom(ip: Addr, rule: FlowRule, from: seq<Option<AddrSet>>): seq<Line> {
    if from == [] then [] else [ReplyLine(ip, rule, from[0])] + ReplyLinesFrom(ip, rule, from[1..])
  }

  function ReplyLines(ip: Addr, rules: seq<FlowRule>): seq<Line> {
    if rules == [] then []
    else ReplyLinesFrom(ip, rules[0], ReplySources(rules[0].dest)) + ReplyLines(ip, rules[1..])
  }

  function AddressReplyLines(ips: seq<Addr>, rules: seq<FlowRule>): seq<Line> {
    if ips == [] then [] else ReplyLines(ips[0], rules) + AddressReplyLines(ips[1..], rules)
  }

  function AllReplyLines(sources: SourceMap, rules: Rules): seq<Line>
    requires forall e :: e in sources ==> e.name in rules
  {
    if sources == [] then []
    else AddressReplyLines(sources[0].ips, rules[sources[0].name].ip) + AllReplyLines(sources[1..], rules)
  }

  function JumpLine(ip: Addr, name: Name, dns: bool): Line {
    Line([Saddr(Net(ip, 32))] + (if dns then [DportIn(Udp, OnePort(53))] else []), false, Jump(SourceChain(name)))
  }

  function AddressJumps(ips: seq<Addr>, name: Name, dns: bool): seq<Line> {
    if ips == [] then [] else [JumpLine(ips[0], name, dns)] + AddressJumps(ips[1..], name, dns)
  }

  function AllJumps(sources: SourceMap, dns: bool): seq<Line> {
    if sources == [] then [] else AddressJumps(sources[0].ips, sources[0].name, dns) + AllJumps(sources[1..], dns)
  }

  function ReplyAccept(ip: Addr): Line {
    Line([Daddr(Net(ip, 32)), StateEstablishedRelated, DirectionReply], false, Accept)
  }

  function AddressAccepts(ips: seq<Addr>): seq<Line> {
    if ips == [] then [] else [ReplyAccept(ips[0])] + AddressAccepts(ips[1..])
  }

  function AllAccepts(sources: SourceMap): seq<Line> {
    if sources == [] then [] else AddressAccepts(sources[0].ips) + AllAccepts(sources[1..])
  }

  function ForwardTail(): seq<Line> {
    [Line([], false, Jump(UnknownChain)), Line([StateInvalid], true, RejectPacket)]
  }

  function ForwardLines(sources: SourceMap, rules: Rules): seq<Line>
    requires forall e :: e in sources ==> e.name in rules
  {
    AllReplyLines(sources, rules) + (AllJumps(sources, true) + (AllJumps(sources, false) + (AllAccepts(sources) + ForwardTail())))
  }

  function ChainLines(c: ChainName, sources: SourceMap, rules: Rules, keepQueue: bool): seq<Line>
    requires c.SourceChain? ==> c.name in rules
  {
    if c.SourceChain? then SourceLines(rules[c.name].ip, keepQueue) else UnknownLines()
  }

  function ChainNames(sources: SourceMap): set<ChainName> {
    (set i | 0 <= i < |sources| :: SourceChain(sources[i].name)) + {UnknownChain}
  }

  /** The table render_nft writes; keepQueue := false drops the per-rule UDP/53 lines. */
  function RenderedWith(sources: SourceMap, rules: Rules, keepQueue: bool): Table
    requires forall e :: e in sources ==> e.name in rules
  {
    Table(ForwardLines(sources, rules),
          map c | c in ChainNames(sources) :: ChainLines(c, sources, rules, keepQueue))
  }

  function Rendered(sources: SourceMap, rules: Rules): Table
    requires forall e :: e in sources ==> e.name in rules
  {
    RenderedWith(sources, rules, true)
  }

  // ------------------------------------------------------------------ rendering

  method AddTransport(start: seq<Match>, proto: Proto, port: PortSpec, reply: bool) returns (parts: seq<Match>)
    ensures parts == start + TransportMatches(proto, port, reply)
  {
    parts := start;
    if proto.Tcp? || proto.Udp? {
      if port.AnyPort? {
        parts := parts + [L4Proto(proto)];
      } else if reply {
        parts := parts + [SportIn(proto, port)];
      } else {
        parts := parts + [DportIn(proto, port)];
      }
    } else if proto.Icmp? {
      parts := parts + [IpProtocol(Icmp)];
    } else {
      parts := parts + [L4Proto(proto)];
    }
  }

  /** render_match */
  method RenderMatch(rule: FlowRule) returns (parts: seq<Match>)
    ensures parts == FlowMatches(rule)
  {
    parts := [NfprotoIpv4];
    if !rule.dest.AnyDest? {
      parts := parts + DestMatches(rule.dest);
    } else {
      assert parts == parts + DestMatches(rule.dest);
    }
    parts := AddTransport(parts, rule.proto, rule.port, false);
  }

  /** render_rule */
  method RenderRule(rule: FlowRule) returns (lines: seq<Line>)
    ensures lines == RuleLines(rule, true)
  {
    var matches := RenderMatch(rule);
    if rule.action.Allow? {
      if UdpRuleIncludesDns(rule) {
        lines := [DnsQueueLine(rule)];
        if rule.port != OnePort(53) {
          lines := lines + [Line(matches, false, Accept)];
        }
      } else {
        lines := [Line(matches, false, Accept)];
      }
    } else {
      lines := [Line(matches, true, RejectPacket)];
    }
  }

  /** render_established_reply_rule */
  method RenderReplyLine(ip: Addr, rule: FlowRule, from: Option<AddrSet>) returns (line: Line)
    ensures line == ReplyLine(ip, rule, from)
  {
    var parts := [NfprotoIpv4];
    if from.Some? {
      parts := parts + [Saddr(from.value)];
    }
    parts := parts + [Daddr(Net(ip, 32))];
    parts := AddTransport(parts, rule.proto, rule.port, true);
    parts := parts + [StateEstablishedRelated, DirectionReply];
    assert parts == ReplyMatches(ip, rule, from);
    line := if rule.action.Allow? then Line(parts, false, Accept) else Line(parts, true, RejectPacket);
  }

  lemma ReplyLinesFromStep(lines: seq<Line>, ip: Addr, rule: FlowRule, from: seq<Option<AddrSet>>, i: nat)
    requires i < |from|
    ensures lines + ReplyLinesFrom(ip, rule, from[i..]) == (lines + [ReplyLine(ip, rule, from[i])]) + ReplyLinesFrom(ip, rule, from[i + 1..])
  {
    assert from[i..][1..] == from[i + 1..];
  }

  /** render_established_reply_rules */
  method RenderReplyLines(ip: Addr, rule: FlowRule) returns (lines: seq<Line>)
    ensures lines == ReplyLinesFrom(ip, rule, ReplySources(rule.dest))
  {
    var from := ReplySources(rule.dest);
    lines := [];
    for i := 0 to |from|
      invariant lines + ReplyLinesFrom(ip, rule, from[i..]) == ReplyLinesFrom(ip, rule, from)
    {
      ReplyLinesFromStep(lines, ip, rule, from, i);
      var line := RenderReplyLine(ip, rule, from[i]);
      lines := lines + [line];
    }
  }

  lemma ReplyLinesStep(lines: seq<Line>, ip: Addr, policy: seq<FlowRule>, i: nat)
    requires i < |policy|
    ensures lines + ReplyLines(ip, policy[i..])
         == (lines + ReplyLinesFrom(ip, policy[i], ReplySources(policy[i].dest))) + ReplyLines(ip, policy[i + 1..])
  {
    assert policy[i..][1..] == policy[i + 1..];
  }

  /** The lines of one address, appended in place. */
  method AddReplies(start: seq<Line>, ip: Addr, policy: seq<FlowRule>) returns (lines: seq<Line>)
    ensures lines == start + ReplyLines(ip, policy)
  {
    lines := start;
    for i := 0 to |policy|
      invariant lines + ReplyLines(ip, policy[i..]) == start + ReplyLines(ip, policy)
    {
      ReplyLinesStep(lines, ip, policy, i);
      var more := RenderReplyLines(ip, policy[i]);
      lines := lines + more;
    }
  }

  lemma AddressReplyLinesStep(lines: seq<Line>, ips: seq<Addr>, policy: seq<FlowRule>, i: nat)
    requires i < |ips|
    ensures lines + AddressReplyLines(ips[i..], policy)
         == (lines + ReplyLines(ips[i], policy)) + AddressReplyLines(ips[i + 1..], policy)
  {
    assert ips[i..][1..] == ips[i + 1..];
  }

  method AddSourceReplies(start: seq<Line>, ips: seq<Addr>, policy: seq<FlowRule>) returns (lines: seq<Line>)
    ensures lines == start + AddressReplyLines(ips, policy)
  {
    lines := start;
    for i := 0 to |ips|
      invariant lines + AddressReplyLines(ips[i..], policy) == start + AddressReplyLines(ips, policy)
    {
      AddressReplyLinesStep(lines, ips, policy, i);
      lines := AddReplies(lines, ips[i], policy);
    }
  }

  lemma AllReplyLinesStep(lines: seq<Line>, sources: SourceMap, rules: Rules, i: nat)
    requires CoversSources(sources, rules) && i < |sources|
    ensures lines + AllReplyLines(sources[i..], rules)
         == (lines + AddressReplyLines(sources[i].ips, rules[sources[i].name].ip)) + AllReplyLines(sources[i + 1..], rules)
  {
    assert sources[i..][1..] == sources[i + 1..];
  }

  method RenderReplies(sources: SourceMap, rules: Rules) returns (lines: seq<Line>)
    requires CoversSources(sources, rules)
    ensures lines == AllReplyLines(sources, rules)
  {
    lines := [];
    for i := 0 to |sources|
      invariant lines + AllReplyLines(sources[i..], rules) == AllReplyLines(sources, rules)
    {
      AllReplyLinesStep(lines, sources, rules, i);
      lines := AddSourceReplies(lines, sources[i].ips, rules[sources[i].name].ip);
    }
  }

  lemma AddressJumpsStep(lines: seq<Line>, ips: seq<Addr>, name: Name, dns: bool, i: nat)
    requires i < |ips|
    ensures lines + AddressJumps(ips[i..], name, dns) == (lines + [JumpLine(ips[i], name, dns)]) + AddressJumps(ips[i + 1..], name, dns)
  {
    assert ips[i..][1..] == ips[i + 1..];
  }

  method AddJumps(start: seq<Line>, ips: seq<Addr>, name: Name, dns: bool) returns (lines: seq<Line>)
    ensures lines == start + AddressJumps(ips, name, dns)
  {
    lines := start;
    for i := 0 to |ips|
      invariant lines + AddressJumps(ips[i..], name, dns) == start + AddressJumps(ips, name, dns)
    {
      AddressJumpsStep(lines, ips, name, dns, i);
      lines := lines + [JumpLine(ips[i], name, dns)];
    }
  }

  lemma AllJumpsStep(lines: seq<Line>, sources: SourceMap, dns: bool, i: nat)
    requires i < |sources|
    ensures lines + AllJumps(sources[i..], dns)
         == (lines + AddressJumps(sources[i].ips, sources[i].name, dns)) + AllJumps(sources[i + 1..], dns)
  {
    assert sources[i..][1..] == sources[i + 1..];
  }

  method RenderJumps(sources: SourceMap, dns: bool) returns (lines: seq<Line>)
    ensures lines == AllJumps(sources, dns)
  {
    lines := [];
    for i := 0 to |sources|
      invariant lines + AllJumps(sources[i..], dns) == AllJumps(sources, dns)
    {
      AllJumpsStep(lines, sources, dns, i);
      lines := AddJumps(lines, sources[i].ips, sources[i].name, dns);
    }
  }

  lemma AddressAcceptsStep(lines: seq<Line>, ips: seq<Addr>, i: nat)
    requires i < |ips|
    ensures lines + AddressAccepts(ips[i..]) == (lines + [ReplyAccept(ips[i])]) + AddressAccepts(ips[i + 1..])
  {
    assert ips[i..][1..] == ips[i + 1..];
  }

  method AddAccepts(start: seq<Line>, ips: seq<Addr>) returns (lines: seq<Line>)
    ensures lines == start + AddressAccepts(ips)
  {
    lines := start;
    for i := 0 to |ips|
      invariant lines + AddressAccepts(ips[i..]) == start + AddressAccepts(ips)
    {
      AddressAcceptsStep(lines, ips, i);
      lines := lines + [ReplyAccept(ips[i])];
    }
  }

  lemma AllAcceptsStep(lines: seq<Line>, sources: SourceMap, i: nat)
    requires i < |sources|
    ensures lines + AllAccepts(sources[i..]) == (lines + AddressAccepts(sources[i].ips)) + AllAccepts(sources[i + 1..])
  {
    assert sources[i..][1..] == sources[i + 1..];
  }

  method RenderAccepts(sources: SourceMap) returns (lines: seq<Line>)
    ensures lines == AllAccepts(sources)
  {
    lines := [];
    for i := 0 to |sources|
      invariant lines + AllAccepts(sources[i..]) == AllAccepts(sources)
    {
      AllAcceptsStep(lines, sources, i);
      lines := AddAccepts(lines, sources[i].ips);
    }
  }

  lemma AllRuleLinesStep(lines: seq<Line>, policy: seq<FlowRule>, i: nat)
    requires i < |policy|
    ensures lines + AllRuleLines(policy[i..], true) == (lines + RuleLines(policy[i], true)) + AllRuleLines(policy[i + 1..], true)
  {
    assert policy[i..][1..] == policy[i + 1..];
  }

  method RenderSourceChain(policy: seq<FlowRule>) returns (lines: seq<Line>)
    ensures lines == SourceLines(policy, true)
  {
    lines := ChainHead();
    for i := 0 to |policy|
      invariant lines + AllRuleLines(policy[i..], true) == ChainHead() + AllRuleLines(policy, true)
    {
      AllRuleLinesStep(lines, policy, i);
      var more := RenderRule(policy[i]);
      lines := lines + more;
    }
    lines := lines + ChainTail();
  }

  lemma ChainNamesStep(sources: SourceMap, i: nat)
    requires i < |sources|
    ensures ChainNames(sources[..i + 1]) == ChainNames(sources[..i]) + {SourceChain(sources[i].name)}
  {
  }

  method RenderChains(sources: SourceMap, rules: Rules) returns (chains: map<ChainName, seq<Line>>)
    requires CoversSources(sources, rules)
    ensures chains.Keys == ChainNames(sources)
    ensures forall c :: c in chains ==> (c.SourceChain? ==> c.name in rules) && chains[c] == ChainLines(c, sources, rules, true)
  {
    chains := map[UnknownChain := UnknownLines()];
    for i := 0 to |sources|
      invariant chains.Keys == ChainNames(sources[..i])
      invariant forall c :: c in chains ==> (c.SourceChain? ==> c.name in rules) && chains[c] == ChainLines(c, sources, rules, true)
    {
      var chain := RenderSourceChain(rules[sources[i].name].ip);
      chains := chains[SourceChain(sources[i].name) := chain];
      ChainNamesStep(sources, i);
    }
    assert sources[..|sources|] == sources;
  }

  lemma Sections(a: seq<Line>, b: seq<Line>, c: seq<Line>, d: seq<Line>, e: seq<Line>)
    ensures a + b + c + d + e == a + (b + (c + (d + e)))
  {
  }

  method RenderForward(sources: SourceMap, rules: Rules) returns (lines: seq<Line>)
    requires CoversSources(sources, rules)
    ensures lines == ForwardLines(sources, rules)
  {
    var replies := RenderReplies(sources, rules);
    var dnsJumps := RenderJumps(sources, true);
    var jumps := RenderJumps(sources, false);
    var accepts := RenderAccepts(sources);
    lines := replies + dnsJumps + jumps + accepts + ForwardTail();
    Sections(replies, dnsJumps, jumps, accepts, ForwardTail());
  }

  /** render_nft */
  method RenderNft(sources: SourceMap, rules: Rules) returns (t: Table)
    requires CoversSources(sources, rules)
    ensures t == Rendered(sources, rules)
  {
    var lines := RenderForward(sources, rules);
    var chains := RenderChains(sources, rules);
    t := Table(lines, chains);
    ghost var expected := Rendered(sources, rules);
    assert chains.Keys == expected.chains.Keys;
    assert chains == expected.chains;
  }
}
