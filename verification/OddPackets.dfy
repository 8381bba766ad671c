/** Packets the other theorems set aside: malformed ones, and those connection tracking calls
    invalid. */
module OddPackets {
  import opened Wrappers
  import opened Policy
  import opened Nft
  import opened NftMeaning
  import opened Checksums
  import opened Packets
  import opened Handlers
  import opened EndToEnd

  /** A packet the parser calls malformed passes only if the table itself accepts it: the daemon
      drops it, but never sees it when an allow rule covers its header fields. */
  lemma MalformedNeedsTheTable(sources: SourceMap, rules: Rules, payload: seq<byte>, ct: CtState, reply: bool, lim: Limiter, decode: Decoder)
    requires CoversSources(sources, rules)
    requires |payload| >= 20 && Parsed(payload).Some? && Parsed(payload).value.malformed.Some?
    ensures Passes(sources, rules, payload, ct, reply, lim, decode) <==>
            EvalTable(Rendered(sources, rules), KernelView(payload, ct, reply), lim) == Accepted
  {
  }

  /** Within rate a malformed packet that leaves a known VM passes if and only if it is not headed
      for UDP/53 and the first rule that matches its header fields allows. */
  lemma MalformedPassesByHeader(sources: SourceMap, rules: Rules, payload: seq<byte>, ct: CtState, decode: Decoder)
    requires ValidRules(sources, rules) && !ct.CtInvalid?
    requires |payload| >= 20 && Parsed(payload).Some? && Parsed(payload).value.malformed.Some?
    requires Owner(sources, Parsed(payload).value.src).Some?
    ensures var p := KernelView(payload, ct, false);
            p.src == Parsed(payload).value.src &&
            (Passes(sources, rules, payload, ct, false, WITHIN_RATE, decode) <==>
             !p.ToDnsPort() && FirstFlowAction(FlowRulesOf(rules, Owner(sources, p.src).value), p.Outbound()) == Some(Allow))
  {
    var p := KernelView(payload, ct, false);
    MalformedNeedsTheTable(sources, rules, payload, ct, false, WITHIN_RATE, decode);
    CompilationPreservesMeaning(sources, rules, true, p);
  }

  /** What transport matches can see: the ports of a first or only fragment behind a whole header. */
  lemma PortsAreVisible(payload: seq<byte>, ct: CtState, reply: bool)
    requires |payload| >= 20 && ProtoOf(payload[9]) in {Tcp, Udp}
    ensures var h := payload[0] % 16 * 4;
            KernelView(payload, ct, reply).ports.Ports? <==> U16(payload, 6) % 0x2000 == 0 && 20 <= h && h + 4 <= |payload|
    ensures var p, h := KernelView(payload, ct, reply), payload[0] % 16 * 4;
            p.ports.Ports? ==> p.ports == Ports(U16(payload, h), U16(payload, h + 2))
  {
  }

  /** So a later fragment is matched by rules for any port only. */
  lemma LaterFragmentsHaveNoPort(payload: seq<byte>, ct: CtState, rule: FlowRule)
    requires |payload| >= 20 && U16(payload, 6) % 0x2000 != 0
    ensures FlowRuleMatches(KernelView(payload, ct, false).Outbound(), rule) ==> rule.port.AnyPort?
    ensures !KernelView(payload, ct, false).ToDnsPort()
  {
  }

  /** Nothing behind the head of a source chain looks at the connection state. */
  lemma {:induction false} RulesIgnoreState(c: ChainName, rules: seq<FlowRule>, p: Packet, other: CtState, lim: Limiter)
    requires ValidFlowRules(rules) && p.ipv4 && !p.ToDnsPort()
    ensures EvalChain(c, AllRuleLines(rules, true) + ChainTail(), p, lim)
         == EvalChain(c, AllRuleLines(rules, true) + ChainTail(), p.(ct := other), lim)
  {
    TailQueues(c, p, lim);
    TailQueues(c, p.(ct := other), lim);
    if rules == [] {
      assert AllRuleLines(rules, true) + ChainTail() == ChainTail();
    } else {
      assert rules[0] in rules && forall r :: r in rules[1..] ==> r in rules;
      RulesIgnoreState(c, rules[1..], p, other, lim);
      var rest := AllRuleLines(rules[1..], true) + ChainTail();
      RuleLinesMeaning(c, rules[0], true, rest, p, lim);
      RuleLinesMeaning(c, rules[0], true, rest, p.(ct := other), lim);
      assert AllRuleLines(rules, true) + ChainTail() == RuleLines(rules[0], true) + rest;
    }
  }

  /** A packet of a known VM that connection tracking calls invalid. */
  ghost predicate InvalidFromVm(sources: SourceMap, rules: Rules, p: Packet) {
    ValidRules(sources, rules) && p.ipv4 && p.ct.CtInvalid? && Owner(sources, p.src).Some?
  }

  /** It is rejected by the first line of its chain, or, when that line is over its rate, treated
      exactly like a new connection. */
  lemma InvalidIsRejectedOrNew(sources: SourceMap, rules: Rules, p: Packet, lim: Limiter)
    requires InvalidFromVm(sources, rules, p)
    ensures var name := Owner(sources, p.src).value;
            EvalTable(Rendered(sources, rules), p, lim) ==
            if lim(SourceChain(name), SourceLines(FlowRulesOf(rules, name), true)) then Rejected
            else EvalTable(Rendered(sources, rules), p.(ct := CtNew), lim)
  {
    var name := Owner(sources, p.src).value;
    ForwardToOwnChain(sources, rules, true, p, lim);
    ForwardToOwnChain(sources, rules, true, p.(ct := CtNew), lim);
    HeadMeaning(SourceChain(name), rules[name].ip, true, p, lim);
    HeadMeaning(SourceChain(name), rules[name].ip, true, p.(ct := CtNew), lim);
    if !p.ToDnsPort() {
      RulesIgnoreState(SourceChain(name), rules[name].ip, p, CtNew, lim);
    }
  }

  lemma InvalidNeedsAllow(sources: SourceMap, rules: Rules, p: Packet, lim: Limiter)
    requires InvalidFromVm(sources, rules, p) && EvalTable(Rendered(sources, rules), p, lim) == Accepted
    ensures !p.ToDnsPort() && AllowMatches(FlowRulesOf(rules, Owner(sources, p.src).value), p.Outbound())
  {
    AcceptSound(sources, rules, p, lim);
    var own := FlowRulesOf(rules, Owner(sources, p.src).value);
    var r :| r in own && r.action.Allow? && FlowRuleMatches(p.Outbound(), r);
    var i :| 0 <= i < |own| && own[i] == r;
  }

  lemma InvalidPassesOverRate(sources: SourceMap, rules: Rules, p: Packet)
    requires InvalidFromVm(sources, rules, p) && !p.ToDnsPort()
    requires AllowMatches(FlowRulesOf(rules, Owner(sources, p.src).value), p.Outbound())
    ensures EvalTable(Rendered(sources, rules), p, OVER_RATE) == Accepted
  {
    var name := Owner(sources, p.src).value;
    ForwardToOwnChain(sources, rules, true, p, OVER_RATE);
    var own := rules[name].ip;
    HeadMeaning(SourceChain(name), own, true, p, OVER_RATE);
    RulesMeaning(SourceChain(name), own, true, p, OVER_RATE, false);
    var i :| 0 <= i < |own| && own[i].action.Allow? && FlowRuleMatches(p.Outbound(), own[i]);
    OverRateSkipsRejects(own, p.Outbound(), i);
  }

  /** Exactly when the table accepts it under no limiter. */
  lemma InvalidStaysOut(sources: SourceMap, rules: Rules, p: Packet)
    requires InvalidFromVm(sources, rules, p)
    ensures (forall lim :: EvalTable(Rendered(sources, rules), p, lim) != Accepted) <==>
            p.ToDnsPort() || !AllowMatches(FlowRulesOf(rules, Owner(sources, p.src).value), p.Outbound())
  {
    forall lim | EvalTable(Rendered(sources, rules), p, lim) == Accepted {
      InvalidNeedsAllow(sources, rules, p, lim);
    }
    if !p.ToDnsPort() && AllowMatches(FlowRulesOf(rules, Owner(sources, p.src).value), p.Outbound()) {
      InvalidPassesOverRate(sources, rules, p);
    }
  }
}
