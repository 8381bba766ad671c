/** Rules, requests and the first-match interpreter (qubes_snitch/policy.py). */
module Policy {
  import opened Wrappers
  import opened DnsNames

  type Name = string
  type Addr = a: int | 0 <= a < 0x1_0000_0000
  type RulePort = p: int | 1 <= p <= 65535 witness 1
  type Prefix = n: int | 0 <= n <= 32

  datatype Proto = Tcp | Udp | Icmp | Other(number: int)

  datatype Action = Allow | Reject

  /** A rule port after normalize_port. */
  datatype PortSpec = AnyPort | OnePort(port: RulePort) | PortRange(first: RulePort, last: RulePort)

  datatype Dest =
    | AnyDest
    | Network(base: Addr, prefix: Prefix)
    | Hostname(name: string, resolved: seq<Addr>)

  datatype FlowRule = FlowRule(ptr: string, dest: Dest, proto: Proto, port: PortSpec, action: Action) {
    /** validate_rule_file: only tcp and udp rules may name ports. */
    predicate Valid() {
      proto.Tcp? || proto.Udp? || port.AnyPort?
    }
  }

  datatype DnsRule = DnsRule(question: DnsQuestion, action: Action)

  datatype SourcePolicy = SourcePolicy(ip: seq<FlowRule>, dns: seq<DnsRule>)

  const EMPTY_POLICY := SourcePolicy([], [])

  type Rules = map<Name, SourcePolicy>

  function FlowRulesOf(rules: Rules, name: Name): seq<FlowRule> {
    if name in rules then rules[name].ip else []
  }

  ghost predicate ValidFlowRules(rules: seq<FlowRule>) {
    forall r :: r in rules ==> r.Valid()
  }

  // ------------------------------------------------------------------ matching

  /** The part of a request flow rules look at. */
  datatype Flow = Flow(dst: Addr, proto: Proto, dport: Option<nat>)

  /** request_port: a missing or zero port reads as "any". */
  datatype PortKey = AnyKey | PortKey(port: nat)

  function RequestPort(dport: Option<nat>): PortKey {
    if dport.None? || dport.value == 0 then AnyKey else PortKey(dport.value)
  }

  predicate PortMatches(dport: Option<nat>, spec: PortSpec) {
    match spec
    case AnyPort => true
    case OnePort(port) => RequestPort(dport) == PortKey(port)
    case PortRange(first, last) =>
      var key := RequestPort(dport);
      key.PortKey? && first <= key.port <= last
  }

  function BlockSize(hostBits: nat): (size: nat)
    ensures size >= 1
  {
    if hostBits == 0 then 1 else 2 * BlockSize(hostBits - 1)
  }

  predicate InNetwork(a: Addr, base: Addr, prefix: Prefix) {
    a / BlockSize(32 - prefix) == base / BlockSize(32 - prefix)
  }

  predicate FlowRuleMatches(flow: Flow, rule: FlowRule) {
    && rule.proto == flow.proto
    && (match rule.dest
        case AnyDest => true
        case Network(base, prefix) => InNetwork(flow.dst, base, prefix)
        case Hostname(_, resolved) => flow.dst in resolved)
    && PortMatches(flow.dport, rule.port)
  }

  /** First matching flow rule wins. */
  function FirstFlowAction(rules: seq<FlowRule>, flow: Flow): Option<Action> {
    if rules == [] then None
    else if FlowRuleMatches(flow, rules[0]) then Some(rules[0].action)
    else FirstFlowAction(rules[1..], flow)
  }

  predicate DnsRuleMatches(q: DnsQuestion, rule: DnsRule) {
    q.qtype == Upper(rule.question.qtype) && NameMatches(q.qname, Lower(rule.question.qname))
  }

  /** Some rule, wherever it stands, allows the flow. */
  predicate AllowMatches(rules: seq<FlowRule>, flow: Flow) {
    exists i :: 0 <= i < |rules| && rules[i].action.Allow? && FlowRuleMatches(flow, rules[i])
  }

  /** First matching DNS rule wins. */
  function FirstDnsAction(rules: seq<DnsRule>, q: DnsQuestion): Option<Action> {
    if rules == [] then None
    else if DnsRuleMatches(q, rules[0]) then Some(rules[0].action)
    else FirstDnsAction(rules[1..], q)
  }

  /** A request as the packet thread queues it; question is set when kind is "dns". */
  datatype Request = Request(source: Name, src: Addr, dst: Addr, proto: Proto, dport: Option<nat>,
                             host: Option<string>, question: Option<DnsQuestion>) {
    function AsFlow(): Flow {
      Flow(dst, proto, dport)
    }
  }

  function PolicyAction(policy: SourcePolicy, r: Request): Option<Action> {
    match r.question
    case Some(q) => FirstDnsAction(policy.dns, q)
    case None => FirstFlowAction(policy.ip, r.AsFlow())
  }

  /** matching_action: a vanished source has no rule. */
  function MatchingAction(rules: Rules, r: Request): Option<Action> {
    if r.source in rules then PolicyAction(rules[r.source], r) else None
  }

  // ------------------------------------------------------- rules from answers

  datatype Decision = DecideAllow | DecideReject | DecideAllowDns | DecideRejectDns {
    predicate ForHostname() {
      DecideAllowDns? || DecideRejectDns?
    }

    function ToAction(): Action {
      if DecideAllow? || DecideAllowDns? then Allow else Reject
    }
  }

  /** Every supported type is its own canonical name; nothing else is consulted when a
      prompted question or a destination host name is validated. */
  const SUPPORTED_TABLE: TypeTable := map t | t in SUPPORTED_QTYPES :: t

  /** validate_dest_dns_name */
  function ValidateDestName(name: string): Option<string> {
    var checked := ValidateDnsRule(DnsQuestion(name, "A"), SUPPORTED_TABLE);
    if checked.None? || StartsWith(checked.value.qname, "*.") then None else Some(checked.value.qname)
  }

  /** The trusted A-cache name in a prompt, if the host text is one. */
  function AHint(host: Option<string>): Option<string> {
    if host.Some? && StartsWith(host.value, "A ") then Some(host.value[2..]) else None
  }

  /** append_flow_rule and the validation of the file it extends: the saved rule, or None
      where the code raises. */
  function FlowRuleFor(r: Request, decision: Decision, resolved: seq<Addr>): Option<FlowRule> {
    var key := RequestPort(r.dport);
    var hint := AHint(r.host);
    if (r.proto.Tcp? || r.proto.Udp?) && key.AnyKey? then None
    else if r.proto.Other? || (r.proto.Icmp? && key.PortKey?) then None
    else if key.PortKey? && key.port > 65535 then None
    else
      var port := if key.AnyKey? then AnyPort else OnePort(key.port);
      if decision.ForHostname() then
        if hint.None? || ValidateDestName(hint.value).None? then None
        else
          Some(FlowRule(hint.value, Hostname(ValidateDestName(hint.value).value, resolved), r.proto, port, decision.ToAction()))
      else
        var ptr := if r.host.Some? && r.host.value != "" then r.host.value else "no PTR";
        Some(FlowRule(ptr, Network(r.dst, 32), r.proto, port, decision.ToAction()))
  }

  /** append_dns_rule and the validation of the file it extends. */
  function DnsRuleFor(q: DnsQuestion, decision: Decision): Option<DnsRule> {
    if decision.ForHostname() then None
    else
      var checked := ValidateDnsRule(q, SUPPORTED_TABLE);
      if checked.None? then None else Some(DnsRule(checked.value, decision.ToAction()))
  }

  /** The policy of one source after an answer, or None where the code raises. */
  function AppendAnswer(policy: SourcePolicy, r: Request, decision: Decision, resolved: seq<Addr>): Option<SourcePolicy> {
    match r.question
    case Some(q) =>
      var rule := DnsRuleFor(q, decision);
      if rule.None? then None else Some(policy.(dns := policy.dns + [rule.value]))
    case None =>
      var rule := FlowRuleFor(r, decision, resolved);
      if rule.None? then None else Some(policy.(ip := policy.ip + [rule.value]))
  }

  // ------------------------------------------------------------------- lemmas

  lemma {:induction false} FirstFlowConcat(a: seq<FlowRule>, b: seq<FlowRule>, flow: Flow)
    ensures FirstFlowAction(a + b, flow) ==
            if FirstFlowAction(a, flow).Some? then FirstFlowAction(a, flow) else FirstFlowAction(b, flow)
  {
    if a == [] {
      assert a + b == b;
    } else {
      assert (a + b)[1..] == a[1..] + b;
      FirstFlowConcat(a[1..], b, flow);
    }
  }

  lemma {:induction false} FirstDnsConcat(a: seq<DnsRule>, b: seq<DnsRule>, q: DnsQuestion)
    ensures FirstDnsAction(a + b, q) ==
            if FirstDnsAction(a, q).Some? then FirstDnsAction(a, q) else FirstDnsAction(b, q)
  {
    if a == [] {
      assert a + b == b;
    } else {
      assert (a + b)[1..] == a[1..] + b;
      FirstDnsConcat(a[1..], b, q);
    }
  }

  /** What the packet path can put into a prompt: transport ports where they exist, and
      only questions the live DNS filter supports. */
  ghost predicate Promptable(r: Request) {
    && (r.proto.Tcp? || r.proto.Udp? ==> r.dport.Some? && 1 <= r.dport.value <= 65535)
    && (r.proto.Icmp? ==> r.dport.None?)
    && !r.proto.Other?
    && (r.question.Some? ==>
          LiveNameSupported(r.question.value.qname, r.question.value.qtype) &&
          r.question.value.qtype in SUPPORTED_QTYPES)
  }

  /** question_key: the fields that identify a prompt. */
  datatype Key =
    | DnsKey(source: Name, qtype: string, qname: string)
    | NetKey(source: Name, dst: Addr, proto: Proto, port: PortKey)

  function QuestionKey(r: Request): Key {
    match r.question
    case Some(q) => DnsKey(r.source, q.qtype, q.qname)
    case None => NetKey(r.source, r.dst, r.proto, RequestPort(r.dport))
  }

  lemma SupportedTableKnows()
    ensures KnowsSupported(SUPPORTED_TABLE)
  {
  }

  lemma UpperSupported(t: string)
    requires t in SUPPORTED_QTYPES
    ensures Upper(t) == t
  {
  }

  lemma LowerNormal(s: string)
    requires NormalizeName(s) == s
    ensures Lower(s) == s
  {
  }

  /** A saved DNS answer matches exactly the question that was asked. */
  lemma DnsAnswerMatchesOnlyItsQuestion(q: DnsQuestion, decision: Decision, other: DnsQuestion)
    requires LiveNameSupported(q.qname, q.qtype) && q.qtype in SUPPORTED_QTYPES
    requires !decision.ForHostname()
    ensures DnsRuleFor(q, decision) == Some(DnsRule(q, decision.ToAction()))
    ensures DnsRuleMatches(other, DnsRule(q, decision.ToAction())) <==> other == q
  {
    SupportedTableKnows();
    PromptedQuestionSavesUnchanged(q, other.qname, SUPPORTED_TABLE);
    LiveNameIsNormal(q.qname, q.qtype);
    LowerNormal(q.qname);
    UpperSupported(q.qtype);
  }

  /** A saved flow answer covers exactly the prompts that differ from the answered one in
      nothing but the address, and only addresses of its resolved set when a host name was
      chosen. */
  lemma FlowAnswerCovers(r: Request, decision: Decision, resolved: seq<Addr>, other: Request)
    requires Promptable(r) && Promptable(other)
    requires r.question.None? && other.question.None?
    requires FlowRuleFor(r, decision, resolved).Some?
    ensures var rule := FlowRuleFor(r, decision, resolved).value;
            && rule.Valid() && rule.action == decision.ToAction()
            && (FlowRuleMatches(other.AsFlow(), rule) <==>
                && other.proto == r.proto
                && RequestPort(other.dport) == RequestPort(r.dport)
                && (if decision.ForHostname() then other.dst in resolved else other.dst == r.dst))
  {
  }

  /** An answer never changes what was already decided, and an undecided question it was
      given for is decided by it. */
  lemma AnswerDecidesItsQuestion(policy: SourcePolicy, r: Request, decision: Decision, resolved: seq<Addr>, other: Request)
    requires Promptable(r)
    requires AppendAnswer(policy, r, decision, resolved).Some?
    requires decision.ForHostname() ==> r.dst in resolved
    ensures var after := AppendAnswer(policy, r, decision, resolved).value;
            && (PolicyAction(policy, other).Some? ==> PolicyAction(after, other) == PolicyAction(policy, other))
            && (PolicyAction(policy, r).None? ==> PolicyAction(after, r) == Some(decision.ToAction()))
  {
    match r.question
    case Some(q) =>
      DnsAnswerMatchesOnlyItsQuestion(q, decision, q);
      var rule := DnsRuleFor(q, decision).value;
      FirstDnsConcat(policy.dns, [rule], q);
      if other.question.Some? {
        FirstDnsConcat(policy.dns, [rule], other.question.value);
      }
    case None =>
      var rule := FlowRuleFor(r, decision, resolved).value;
      FlowAnswerCovers(r, decision, resolved, r);
      FirstFlowConcat(policy.ip, [rule], r.AsFlow());
      FirstFlowConcat(policy.ip, [rule], other.AsFlow());
  }
}
