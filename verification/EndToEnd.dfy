/** Kernel table and daemon together: which packets get through. */
module EndToEnd {
  import opened Wrappers
  import opened Policy
  import opened PolicyMeaning
  import opened Nft
  import opened NftMeaning
  import opened Checksums
  import opened Packets
  import opened Handlers

  /** The ruling of the second stage under a fixed policy; unknown sources never pass. */
  predicate DaemonPasses(sources: SourceMap, rules: Rules, payload: seq<byte>, decode: Decoder) {
    Parsed(payload).Some? &&
    var r := Parsed(payload).value;
    var owner := Owner(sources, r.src);
    owner.Some? && PacketRuling(r, decode, SteadyReadings(rules, owner.value, r, decode)) == Pass
  }

  /** Accepted by the table, or queued by it and accepted by the daemon. */
  predicate Passes(sources: SourceMap, rules: Rules, payload: seq<byte>, ct: CtState, reply: bool, lim: Limiter, decode: Decoder)
    requires |payload| >= 20
    requires forall e :: e in sources ==> e.name in rules
  {
    var out := EvalTable(Rendered(sources, rules), KernelView(payload, ct, reply), lim);
    out.Accepted? || (out.Queued? && DaemonPasses(sources, rules, payload, decode))
  }

  /** A sound IPv4 packet of a known VM, in original direction and not invalid to
      connection tracking. */
  ghost predicate Outgoing(sources: SourceMap, payload: seq<byte>, ct: CtState) {
    && |payload| >= 20
    && Parsed(payload).Some? && Parsed(payload).value.malformed.None?
    && Owner(sources, Parsed(payload).value.src).Some?
    && !ct.CtInvalid?
  }

  /** What the policy of the sending VM says: the first rule that covers the flow allows it and,
      for UDP/53, the body is a supported question and the first DNS rule that covers it allows. */
  ghost predicate PolicyAllows(sources: SourceMap, rules: Rules, payload: seq<byte>, decode: Decoder)
    requires Parsed(payload).Some?
  {
    var r := Parsed(payload).value;
    var owner := Owner(sources, r.src);
    && owner.Some? && owner.value in rules
    && FlowDecided(rules[owner.value].ip, Flow(r.dst, r.proto, r.dport), Allow)
    && (IsDnsQuery(r) ==> exists q :: SupportedQuery(r.body, decode, q) && DnsDecided(rules[owner.value].dns, q, Allow))
  }

  /** The same in terms of the interpreter. */
  ghost predicate InterpreterAllows(sources: SourceMap, rules: Rules, payload: seq<byte>, decode: Decoder)
    requires Parsed(payload).Some?
  {
    var r := Parsed(payload).value;
    var owner := Owner(sources, r.src);
    && owner.Some? && owner.value in rules
    && FirstFlowAction(rules[owner.value].ip, Flow(r.dst, r.proto, r.dport)) == Some(Allow)
    && (IsDnsQuery(r) ==>
          exists q :: SupportedQuery(r.body, decode, q) && FirstDnsAction(rules[owner.value].dns, q) == Some(Allow))
  }

  lemma InterpreterFollowsPolicy(sources: SourceMap, rules: Rules, payload: seq<byte>, decode: Decoder)
    requires Parsed(payload).Some?
    ensures InterpreterAllows(sources, rules, payload, decode) <==> PolicyAllows(sources, rules, payload, decode)
  {
    var r := Parsed(payload).value;
    var owner := Owner(sources, r.src);
    if owner.Some? && owner.value in rules {
      FirstFlowMeaning(rules[owner.value].ip, Flow(r.dst, r.proto, r.dport), Allow);
      forall q
        ensures FirstDnsAction(rules[owner.value].dns, q) == Some(Allow) <==> DnsDecided(rules[owner.value].dns, q, Allow)
      {
        FirstDnsMeaning(rules[owner.value].dns, q, Allow);
      }
    }
  }

  /** The daemon alone lets a sound queued packet through exactly when policy allows it. */
  lemma DaemonFollowsPolicy(sources: SourceMap, rules: Rules, payload: seq<byte>, decode: Decoder)
    requires CoversSources(sources, rules)
    requires Parsed(payload).Some? && Parsed(payload).value.malformed.None?
    ensures DaemonPasses(sources, rules, payload, decode) <==> PolicyAllows(sources, rules, payload, decode)
  {
    InterpreterFollowsPolicy(sources, rules, payload, decode);
    var r := Parsed(payload).value;
    OwnerIsSource(sources, r.src);
    if Owner(sources, r.src).Some? && IsDnsQuery(r) {
      var name := Owner(sources, r.src).value;
      if ReadDnsFields(r.body, decode).Asked? {
        ReadsExactlySupportedQueries(r.body, decode, ReadDnsFields(r.body, decode).question);
      }
      forall q | SupportedQuery(r.body, decode, q)
        ensures ReadDnsFields(r.body, decode) == Asked(q)
      {
        ReadsExactlySupportedQueries(r.body, decode, q);
      }
    }
  }

  /** End to end, within the rate limits: a packet leaving a known VM gets through exactly
      when its VM's policy allows it. */
  lemma PassesIffPolicyAllows(sources: SourceMap, rules: Rules, payload: seq<byte>, ct: CtState, decode: Decoder)
    requires ValidRules(sources, rules) && Outgoing(sources, payload, ct)
    ensures Passes(sources, rules, payload, ct, false, WITHIN_RATE, decode) <==> PolicyAllows(sources, rules, payload, decode)
  {
    InterpreterFollowsPolicy(sources, rules, payload, decode);
    StagesSeeTheSameFlow(payload, ct, false);
    CompilationPreservesMeaning(sources, rules, true, KernelView(payload, ct, false));
    DaemonFollowsPolicy(sources, rules, payload, decode);
    OwnerIsSource(sources, Parsed(payload).value.src);
  }

  // ------------------------------------------------------------- over the rate

  /** A packet whose first matching rule rejects it although some allow rule matches too. */
  predicate ShadowedReject(rules: seq<FlowRule>, flow: Flow) {
    FirstFlowAction(rules, flow) == Some(Reject) && AllowMatches(rules, flow)
  }

  lemma {:induction false} OverRateSkipsRejects(rules: seq<FlowRule>, flow: Flow, i: nat)
    requires i < |rules| && rules[i].action.Allow? && FlowRuleMatches(flow, rules[i])
    ensures ChainOutcome(rules, flow, true) == Accepted
  {
    if i > 0 {
      assert rules[1..][i - 1] == rules[i];
      OverRateSkipsRejects(rules[1..], flow, i - 1);
    }
  }

  /** A limiter under which a shadowed reject is passed by the table. */
  lemma ShadowedRejectPasses(sources: SourceMap, rules: Rules, payload: seq<byte>, ct: CtState, decode: Decoder)
    requires ValidRules(sources, rules) && Outgoing(sources, payload, ct)
    requires var r := Parsed(payload).value;
             !IsDnsQuery(r) && ShadowedReject(FlowRulesOf(rules, Owner(sources, r.src).value), Flow(r.dst, r.proto, r.dport))
    ensures Passes(sources, rules, payload, ct, false, OVER_RATE, decode)
    ensures !PolicyAllows(sources, rules, payload, decode)
  {
    InterpreterFollowsPolicy(sources, rules, payload, decode);
    var r, p := Parsed(payload).value, KernelView(payload, ct, false);
    StagesSeeTheSameFlow(payload, ct, false);
    ForwardToOwnChain(sources, rules, true, p, OVER_RATE);
    var name := Owner(sources, r.src).value;
    HeadMeaning(SourceChain(name), rules[name].ip, true, p, OVER_RATE);
    RulesMeaning(SourceChain(name), rules[name].ip, true, p, OVER_RATE, false);
    var i :| 0 <= i < |rules[name].ip| && rules[name].ip[i].action.Allow? && FlowRuleMatches(p.Outbound(), rules[name].ip[i]);
    OverRateSkipsRejects(rules[name].ip, p.Outbound(), i);
  }

  lemma RulesWhenNotShadowed(c: ChainName, own: seq<FlowRule>, p: Packet, lim: Limiter)
    requires ValidFlowRules(own) && p.ipv4 && !p.ToDnsPort() && !ShadowedReject(own, p.Outbound())
    ensures EvalChain(c, AllRuleLines(own, true) + ChainTail(), p, lim) == Accepted <==>
            FirstFlowAction(own, p.Outbound()) == Some(Allow)
  {
    RulesSound(c, own, p, lim);
    match FirstFlowAction(own, p.Outbound())
    case None =>
    case Some(Allow) =>
    case Some(Reject) =>
      forall r | r in own && r.action.Allow?
        ensures !FlowRuleMatches(p.Outbound(), r)
      {
        var i :| 0 <= i < |own| && own[i] == r;
        assert !(own[i].action.Allow? && FlowRuleMatches(p.Outbound(), own[i]));
      }
  }

  /** Without a shadowed reject the table accepts exactly what policy allows, under every
      limiter; UDP/53 it always queues. */
  lemma TableWhenNotShadowed(sources: SourceMap, rules: Rules, p: Packet, lim: Limiter)
    requires ValidRules(sources, rules)
    requires p.ipv4 && !p.reply && !p.ct.CtInvalid? && Owner(sources, p.src).Some?
    requires p.ToDnsPort() || !ShadowedReject(FlowRulesOf(rules, Owner(sources, p.src).value), p.Outbound())
    ensures var out := EvalTable(Rendered(sources, rules), p, lim);
            if p.ToDnsPort() then out == Queued
            else out == Accepted <==> FirstFlowAction(FlowRulesOf(rules, Owner(sources, p.src).value), p.Outbound()) == Some(Allow)
  {
    ForwardToOwnChain(sources, rules, true, p, lim);
    var name := Owner(sources, p.src).value;
    var own := rules[name].ip;
    HeadMeaning(SourceChain(name), own, true, p, lim);
    if !p.ToDnsPort() {
      RulesWhenNotShadowed(SourceChain(name), own, p, lim);
    }
  }

  lemma AgreesWhenNotShadowed(sources: SourceMap, rules: Rules, payload: seq<byte>, ct: CtState, lim: Limiter, decode: Decoder)
    requires ValidRules(sources, rules) && Outgoing(sources, payload, ct)
    requires var r := Parsed(payload).value;
             IsDnsQuery(r) || !ShadowedReject(FlowRulesOf(rules, Owner(sources, r.src).value), Flow(r.dst, r.proto, r.dport))
    ensures Passes(sources, rules, payload, ct, false, lim, decode) <==> PolicyAllows(sources, rules, payload, decode)
  {
    InterpreterFollowsPolicy(sources, rules, payload, decode);
    StagesSeeTheSameFlow(payload, ct, false);
    TableWhenNotShadowed(sources, rules, KernelView(payload, ct, false), lim);
    DaemonFollowsPolicy(sources, rules, payload, decode);
    OwnerIsSource(sources, Parsed(payload).value.src);
  }

  /** Exactly when table and policy agree however the rate limits behave: "limit" is a match
      placed before "reject", so over the rate a reject rule is skipped. UDP/53 is immune, and
      any other packet is judged as policy says unless an allow rule stands behind the reject
      rule that decides it. */
  lemma AgreesForEveryLimiter(sources: SourceMap, rules: Rules, payload: seq<byte>, ct: CtState, decode: Decoder)
    requires ValidRules(sources, rules) && Outgoing(sources, payload, ct)
    ensures (forall lim :: Passes(sources, rules, payload, ct, false, lim, decode) <==> PolicyAllows(sources, rules, payload, decode))
            <==>
            var r := Parsed(payload).value;
            IsDnsQuery(r) || !ShadowedReject(FlowRulesOf(rules, Owner(sources, r.src).value), Flow(r.dst, r.proto, r.dport))
  {
    var r := Parsed(payload).value;
    if IsDnsQuery(r) || !ShadowedReject(FlowRulesOf(rules, Owner(sources, r.src).value), Flow(r.dst, r.proto, r.dport)) {
      forall lim
        ensures Passes(sources, rules, payload, ct, false, lim, decode) <==> PolicyAllows(sources, rules, payload, decode)
      {
        AgreesWhenNotShadowed(sources, rules, payload, ct, lim, decode);
      }
    } else {
      ShadowedRejectPasses(sources, rules, payload, ct, decode);
    }
  }

  /** The smallest such policy: reject one host, then allow all of tcp. Over the rate the
      table accepts the packet the first rule rejects. */
  lemma ShadowedRejectExample()
    ensures var host, vm := 0x0101_0101, 0x0A89_0005;
            var reject := FlowRule("no PTR", Network(host, 32), Tcp, AnyPort, Reject);
            var allow := FlowRule("no PTR", AnyDest, Tcp, AnyPort, Allow);
            var sources, rules := [SourceEntry("work", [vm])], map["work" := SourcePolicy([reject, allow], [])];
            var p := Packet(true, vm, host, Tcp, Ports(40000, 443), CtNew, false);
            && FirstFlowAction(rules["work"].ip, p.Outbound()) == Some(Reject)
            && EvalTable(Rendered(sources, rules), p, WITHIN_RATE) == Rejected
            && EvalTable(Rendered(sources, rules), p, OVER_RATE) == Accepted
  {
    var host, vm := 0x0101_0101, 0x0A89_0005;
    var reject := FlowRule("no PTR", Network(host, 32), Tcp, AnyPort, Reject);
    var allow := FlowRule("no PTR", AnyDest, Tcp, AnyPort, Allow);
    var sources, rules := [SourceEntry("work", [vm])], map["work" := SourcePolicy([reject, allow], [])];
    var p := Packet(true, vm, host, Tcp, Ports(40000, 443), CtNew, false);
    CompilationPreservesMeaning(sources, rules, true, p);
    ForwardToOwnChain(sources, rules, true, p, OVER_RATE);
    HeadMeaning(SourceChain("work"), rules["work"].ip, true, p, OVER_RATE);
    RulesMeaning(SourceChain("work"), rules["work"].ip, true, p, OVER_RATE, false);
    OverRateSkipsRejects(rules["work"].ip, p.Outbound(), 1);
    assert rules["work"].ip[0] == reject;
  }
}
