/** What the rendered table means: it agrees with the first-match interpreter while the
    rate limits hold, is sound whatever they do, and exactly when it agrees over the rate. */
module NftMeaning {
  import opened Wrappers
  import opened Policy
  import opened Nft

  // --------------------------------------------------------- lines as conditions

  ghost predicate AllHold(ms: seq<Match>, p: Packet) {
    forall m :: m in ms ==> Holds(m, p)
  }

  lemma AllHoldConcat(a: seq<Match>, b: seq<Match>, p: Packet)
    ensures AllHold(a + b, p) <==> AllHold(a, p) && AllHold(b, p)
  {
  }

  lemma SingleAddress(a: Addr, b: Addr)
    ensures InSet(a, Net(b, 32)) <==> a == b
  {
  }

  lemma TransportMeaning(rule: FlowRule, reply: bool, p: Packet)
    requires rule.Valid() && p.ipv4
    ensures var flow := if reply then p.Mirrored() else p.Outbound();
            AllHold(TransportMatches(rule.proto, rule.port, reply), p) <==>
            rule.proto == p.proto && PortMatches(flow.dport, rule.port)
  {
    var ms := TransportMatches(rule.proto, rule.port, reply);
    assert |ms| == 1 && ms[0] in ms;
    assert AllHold(ms, p) <==> Holds(ms[0], p);
  }

  /** render_match and flow_rule_matches describe the same packets. */
  lemma FlowMatchesMeaning(rule: FlowRule, p: Packet)
    requires rule.Valid()
    ensures AllHold(FlowMatches(rule), p) <==> p.ipv4 && FlowRuleMatches(p.Outbound(), rule)
  {
    var dest := DestMatches(rule.dest);
    var transport := TransportMatches(rule.proto, rule.port, false);
    AllHoldConcat([NfprotoIpv4] + dest, transport, p);
    AllHoldConcat([NfprotoIpv4], dest, p);
    assert NfprotoIpv4 in [NfprotoIpv4];
    if p.ipv4 {
      TransportMeaning(rule, false, p);
      assert !rule.dest.AnyDest? ==> dest[0] in dest;
    }
  }

  /** The extra line of an allow rule holds exactly of UDP/53 to the rule's destinations. */
  lemma DnsQueueLineMeaning(rule: FlowRule, p: Packet)
    ensures AllHold(DnsQueueLine(rule).matches, p) <==>
            && p.ipv4 && p.proto == Udp && p.ports.Ports? && p.ports.dport == 53
            && FlowRuleMatches(Flow(p.dst, Udp, Some(53)), FlowRule(rule.ptr, rule.dest, Udp, AnyPort, rule.action))
  {
    var dest, port := DestMatches(rule.dest), [DportIn(Udp, OnePort(53))];
    AllHoldConcat([NfprotoIpv4] + dest, port, p);
    AllHoldConcat([NfprotoIpv4], dest, p);
    assert NfprotoIpv4 in [NfprotoIpv4] && port[0] in port;
    assert !rule.dest.AnyDest? ==> dest[0] in dest;
  }

  predicate ReplyFrom(from: Option<AddrSet>, a: Addr) {
    from.None? || InSet(a, from.value)
  }

  predicate IsReplyTo(p: Packet, ip: Addr) {
    p.ipv4 && p.dst == ip && p.Established() && p.reply
  }

  lemma ReplyMatchesMeaning(ip: Addr, rule: FlowRule, from: Option<AddrSet>, p: Packet)
    requires rule.Valid()
    ensures AllHold(ReplyMatches(ip, rule, from), p) <==>
            && IsReplyTo(p, ip) && ReplyFrom(from, p.src)
            && rule.proto == p.proto && PortMatches(p.Mirrored().dport, rule.port)
  {
    var src := if from.Some? then [Saddr(from.value)] else [];
    var dst := [Daddr(Net(ip, 32))];
    var transport := TransportMatches(rule.proto, rule.port, true);
    var ct := [StateEstablishedRelated, DirectionReply];
    AllHoldConcat([NfprotoIpv4] + src + dst + transport, ct, p);
    AllHoldConcat([NfprotoIpv4] + src + dst, transport, p);
    AllHoldConcat([NfprotoIpv4] + src, dst, p);
    AllHoldConcat([NfprotoIpv4], src, p);
    assert NfprotoIpv4 in [NfprotoIpv4] && ct[0] in ct && ct[1] in ct && dst[0] in dst;
    SingleAddress(p.dst, ip);
    if p.ipv4 {
      TransportMeaning(rule, true, p);
      assert from.Some? ==> src[0] in src;
    }
  }

  // ------------------------------------------------------------- inside a chain

  /** Evaluation of a chain on the packets that reach its rules. */
  function ChainOutcome(rules: seq<FlowRule>, flow: Flow, limited: bool): Outcome {
    if rules == [] then Queued
    else if FlowRuleMatches(flow, rules[0]) && rules[0].action.Allow? then Accepted
    else if FlowRuleMatches(flow, rules[0]) && !limited then Rejected
    else ChainOutcome(rules[1..], flow, limited)
  }

  lemma SkipFirst(c: ChainName, line: Line, rest: seq<Line>, p: Packet, lim: Limiter)
    requires !AllHold(line.matches, p)
    ensures EvalChain(c, [line] + rest, p, lim) == EvalChain(c, rest, p, lim)
  {
  }

  function MainLine(rule: FlowRule): Line {
    Line(FlowMatches(rule), rule.action.Reject?, if rule.action.Allow? then Accept else RejectPacket)
  }

  /** The main line decides what the rule matches. */
  lemma MainLineMeaning(c: ChainName, rule: FlowRule, rest: seq<Line>, p: Packet, lim: Limiter)
    requires rule.Valid() && p.ipv4
    ensures EvalChain(c, [MainLine(rule)] + rest, p, lim) ==
            if !FlowRuleMatches(p.Outbound(), rule) then EvalChain(c, rest, p, lim)
            else if rule.action.Allow? then Accepted
            else if lim(c, [MainLine(rule)] + rest) then Rejected
            else EvalChain(c, rest, p, lim)
  {
    FlowMatchesMeaning(rule, p);
    OneLine(c, MainLine(rule), rest, p, lim);
  }

  lemma SkipDnsQueue(c: ChainName, rule: FlowRule, rest: seq<Line>, p: Packet, lim: Limiter)
    requires !p.ToDnsPort()
    ensures EvalChain(c, [DnsQueueLine(rule)] + rest, p, lim) == EvalChain(c, rest, p, lim)
  {
    var queue := DnsQueueLine(rule);
    assert DportIn(Udp, OnePort(53)) in queue.matches && !Holds(DportIn(Udp, OnePort(53)), p);
    SkipFirst(c, queue, rest, p, lim);
  }

  /** The line of an allow rule, unless the rule is for UDP/53 alone. */
  function AllowTail(rule: FlowRule, rest: seq<Line>): seq<Line> {
    if UdpRuleIncludesDns(rule) && rule.port == OnePort(53) then rest else [MainLine(rule)] + rest
  }

  lemma RuleLinesForm(rule: FlowRule, keepQueue: bool, rest: seq<Line>)
    ensures RuleLines(rule, keepQueue) + rest ==
            if rule.action.Reject? then [MainLine(rule)] + rest
            else if UdpRuleIncludesDns(rule) && keepQueue then [DnsQueueLine(rule)] + AllowTail(rule, rest)
            else AllowTail(rule, rest)
  {
  }

  lemma AllowTailMeaning(c: ChainName, rule: FlowRule, rest: seq<Line>, p: Packet, lim: Limiter)
    requires rule.Valid() && rule.action.Allow? && p.ipv4 && !p.ToDnsPort()
    ensures EvalChain(c, AllowTail(rule, rest), p, lim) ==
            if FlowRuleMatches(p.Outbound(), rule) then Accepted else EvalChain(c, rest, p, lim)
  {
    MainLineMeaning(c, rule, rest, p, lim);
  }

  /** The lines of one rule: what follows is reached unless the rule decides. */
  lemma RuleLinesMeaning(c: ChainName, rule: FlowRule, keepQueue: bool, rest: seq<Line>, p: Packet, lim: Limiter)
    requires rule.Valid() && p.ipv4 && !p.ToDnsPort()
    ensures var lines := RuleLines(rule, keepQueue) + rest;
            EvalChain(c, lines, p, lim) ==
            if !FlowRuleMatches(p.Outbound(), rule) then EvalChain(c, rest, p, lim)
            else if rule.action.Allow? then Accepted
            else if lim(c, lines) then Rejected
            else EvalChain(c, rest, p, lim)
  {
    RuleLinesForm(rule, keepQueue, rest);
    if rule.action.Reject? {
      MainLineMeaning(c, rule, rest, p, lim);
    } else {
      AllowTailMeaning(c, rule, rest, p, lim);
      SkipDnsQueue(c, rule, AllowTail(rule, rest), p, lim);
    }
  }

  lemma OneLine(c: ChainName, line: Line, rest: seq<Line>, p: Packet, lim: Limiter)
    ensures var lines := [line] + rest;
            EvalChain(c, lines, p, lim) ==
            if AllHold(line.matches, p) && (line.limited ==> lim(c, lines)) && !line.verdict.Jump? then
              (if line.verdict.Accept? then Accepted else if line.verdict.Queue? then Queued else Rejected)
            else EvalChain(c, rest, p, lim)
  {
  }

  lemma TailQueues(c: ChainName, p: Packet, lim: Limiter)
    ensures EvalChain(c, ChainTail(), p, lim) == Queued
  {
  }

  /** The limiter is the same for every line: always within rate, or never. */
  lemma {:induction false} RulesMeaning(c: ChainName, rules: seq<FlowRule>, keepQueue: bool, p: Packet, lim: Limiter, within: bool)
    requires ValidFlowRules(rules) && p.ipv4 && !p.ToDnsPort()
    requires forall lines :: lim(c, lines) == within
    ensures EvalChain(c, AllRuleLines(rules, keepQueue) + ChainTail(), p, lim) == ChainOutcome(rules, p.Outbound(), !within)
  {
    TailQueues(c, p, lim);
    if rules == [] {
      assert AllRuleLines(rules, keepQueue) + ChainTail() == ChainTail();
    } else {
      assert rules[0] in rules && forall r :: r in rules[1..] ==> r in rules;
      RulesMeaning(c, rules[1..], keepQueue, p, lim, within);
      var rest := AllRuleLines(rules[1..], keepQueue) + ChainTail();
      RuleLinesMeaning(c, rules[0], keepQueue, rest, p, lim);
      assert AllRuleLines(rules, keepQueue) + ChainTail() == RuleLines(rules[0], keepQueue) + rest;
    }
  }

  /** Whatever the limiter does, a source chain accepts only what an allow rule matches,
      rejects only what a reject rule matches and otherwise queues. */
  lemma {:induction false} RulesSound(c: ChainName, rules: seq<FlowRule>, p: Packet, lim: Limiter)
    requires ValidFlowRules(rules) && p.ipv4 && !p.ToDnsPort()
    ensures var out := EvalChain(c, AllRuleLines(rules, true) + ChainTail(), p, lim);
            && (out == Accepted || out == Rejected || out == Queued)
            && (out == Accepted ==> exists r :: r in rules && r.action.Allow? && FlowRuleMatches(p.Outbound(), r))
            && (FirstFlowAction(rules, p.Outbound()) == Some(Allow) ==> out == Accepted)
            && (FirstFlowAction(rules, p.Outbound()) == None ==> out == Queued)
  {
    TailQueues(c, p, lim);
    if rules == [] {
      assert AllRuleLines(rules, true) + ChainTail() == ChainTail();
    } else {
      assert rules[0] in rules && forall r :: r in rules[1..] ==> r in rules;
      RulesSound(c, rules[1..], p, lim);
      var rest := AllRuleLines(rules[1..], true) + ChainTail();
      RuleLinesMeaning(c, rules[0], true, rest, p, lim);
      assert AllRuleLines(rules, true) + ChainTail() == RuleLines(rules[0], true) + rest;
    }
  }

  /** The two lines every source chain starts with. */
  lemma HeadMeaning(c: ChainName, rules: seq<FlowRule>, keepQueue: bool, p: Packet, lim: Limiter)
    ensures var whole := SourceLines(rules, keepQueue);
            EvalChain(c, whole, p, lim) ==
            if p.ct.CtInvalid? && lim(c, whole) then Rejected
            else if p.ToDnsPort() then Queued
            else EvalChain(c, AllRuleLines(rules, keepQueue) + ChainTail(), p, lim)
  {
    var rest := AllRuleLines(rules, keepQueue) + ChainTail();
    var invalid, dns := ChainHead()[0], ChainHead()[1];
    assert SourceLines(rules, keepQueue) == [invalid] + ([dns] + rest);
    assert StateInvalid in invalid.matches && DportIn(Udp, OnePort(53)) in dns.matches;
    assert AllHold(invalid.matches, p) <==> p.ct.CtInvalid?;
    assert AllHold(dns.matches, p) <==> p.ToDnsPort();
    OneLine(c, invalid, [dns] + rest, p, lim);
    OneLine(c, dns, rest, p, lim);
  }

  /** A source chain never returns to the forward chain, for any packet and limiter. */
  lemma {:induction false} QueueBeforeEnd(c: ChainName, lines: seq<Line>, p: Packet, lim: Limiter)
    ensures EvalChain(c, lines + ChainTail(), p, lim) != FellThrough
  {
    TailQueues(c, p, lim);
    if lines == [] {
      assert lines + ChainTail() == ChainTail();
    } else {
      assert lines + ChainTail() == [lines[0]] + (lines[1..] + ChainTail());
      OneLine(c, lines[0], lines[1..] + ChainTail(), p, lim);
      QueueBeforeEnd(c, lines[1..], p, lim);
    }
  }

  lemma SourceChainNeverReturns(c: ChainName, rules: seq<FlowRule>, keepQueue: bool, p: Packet, lim: Limiter)
    ensures EvalChain(c, SourceLines(rules, keepQueue), p, lim) != FellThrough
  {
    QueueBeforeEnd(c, ChainHead() + AllRuleLines(rules, keepQueue), p, lim);
  }

  // -------------------------------------------------------- inside the base chain

  lemma ForwardOneLine(t: Table, line: Line, rest: seq<Line>, p: Packet, lim: Limiter)
    ensures var lines := [line] + rest;
            EvalForward(t, lines, p, lim) ==
            if !(AllHold(line.matches, p) && (line.limited ==> lim(ForwardChain, lines))) then EvalForward(t, rest, p, lim)
            else match line.verdict
                 case Accept => Accepted
                 case RejectPacket => Rejected
                 case Queue => Queued
                 case Jump(target) =>
                   var inner := if target in t.chains then EvalChain(target, t.chains[target], p, lim) else FellThrough;
                   if inner.FellThrough? then EvalForward(t, rest, p, lim) else inner
  {
  }

  lemma JumpLineMeaning(ip: Addr, name: Name, dns: bool, p: Packet)
    ensures AllHold(JumpLine(ip, name, dns).matches, p) <==> p.ipv4 && p.src == ip && (dns ==> p.ToDnsPort())
  {
    var src := Saddr(Net(ip, 32));
    var port := DportIn(Udp, OnePort(53));
    SingleAddress(p.src, ip);
    assert src in JumpLine(ip, name, dns).matches;
    assert dns ==> port in JumpLine(ip, name, dns).matches;
  }

  /** In the jump lines the first source that lists the packet's address decides. */
  lemma {:induction false} AddressJumpsMeaning(t: Table, ips: seq<Addr>, name: Name, dns: bool, rest: seq<Line>, p: Packet, lim: Limiter)
    requires SourceChain(name) in t.chains
    requires EvalChain(SourceChain(name), t.chains[SourceChain(name)], p, lim) != FellThrough
    ensures EvalForward(t, AddressJumps(ips, name, dns) + rest, p, lim) ==
            if p.ipv4 && p.src in ips && (dns ==> p.ToDnsPort()) then EvalChain(SourceChain(name), t.chains[SourceChain(name)], p, lim)
            else EvalForward(t, rest, p, lim)
  {
    if ips == [] {
      assert AddressJumps(ips, name, dns) + rest == rest;
    } else {
      var more := AddressJumps(ips[1..], name, dns) + rest;
      assert AddressJumps(ips, name, dns) + rest == [JumpLine(ips[0], name, dns)] + more;
      ForwardOneLine(t, JumpLine(ips[0], name, dns), more, p, lim);
      JumpLineMeaning(ips[0], name, dns, p);
      AddressJumpsMeaning(t, ips[1..], name, dns, rest, p, lim);
    }
  }

  ghost predicate Decides(t: Table, name: Name, p: Packet, lim: Limiter) {
    SourceChain(name) in t.chains && EvalChain(SourceChain(name), t.chains[SourceChain(name)], p, lim) != FellThrough
  }

  /** Every named source has a chain that decides every packet. */
  ghost predicate DecidingChains(t: Table, sources: SourceMap, p: Packet, lim: Limiter) {
    forall e :: e in sources ==> Decides(t, e.name, p, lim)
  }

  lemma AllJumpsForm(sources: SourceMap, dns: bool, rest: seq<Line>)
    requires sources != []
    ensures AllJumps(sources, dns) + rest == AddressJumps(sources[0].ips, sources[0].name, dns) + (AllJumps(sources[1..], dns) + rest)
  {
  }

  lemma OthersDecide(t: Table, sources: SourceMap, p: Packet, lim: Limiter)
    requires DecidingChains(t, sources, p, lim) && sources != []
    ensures Decides(t, sources[0].name, p, lim) && DecidingChains(t, sources[1..], p, lim)
  {
    assert sources[0] in sources && forall e :: e in sources[1..] ==> e in sources;
  }

  lemma {:induction false} JumpsMeaning(t: Table, sources: SourceMap, dns: bool, rest: seq<Line>, p: Packet, lim: Limiter)
    requires DecidingChains(t, sources, p, lim)
    ensures Owner(sources, p.src).Some? ==> Decides(t, Owner(sources, p.src).value, p, lim)
    ensures EvalForward(t, AllJumps(sources, dns) + rest, p, lim) ==
            if p.ipv4 && Owner(sources, p.src).Some? && (dns ==> p.ToDnsPort()) then
              var c := SourceChain(Owner(sources, p.src).value);
              EvalChain(c, t.chains[c], p, lim)
            else EvalForward(t, rest, p, lim)
  {
    if sources == [] {
      assert AllJumps(sources, dns) + rest == rest;
    } else {
      OthersDecide(t, sources, p, lim);
      JumpsMeaning(t, sources[1..], dns, rest, p, lim);
      AllJumpsForm(sources, dns, rest);
      AddressJumpsMeaning(t, sources[0].ips, sources[0].name, dns, AllJumps(sources[1..], dns) + rest, p, lim);
    }
  }

  lemma {:induction false} AddressAcceptsMeaning(t: Table, ips: seq<Addr>, rest: seq<Line>, p: Packet, lim: Limiter)
    ensures EvalForward(t, AddressAccepts(ips) + rest, p, lim) ==
            if p.ipv4 && p.dst in ips && p.Established() && p.reply then Accepted else EvalForward(t, rest, p, lim)
  {
    if ips == [] {
      assert AddressAccepts(ips) + rest == rest;
    } else {
      var more := AddressAccepts(ips[1..]) + rest;
      var line := ReplyAccept(ips[0]);
      assert AddressAccepts(ips) + rest == [line] + more;
      assert line.matches[0] in line.matches && line.matches[1] in line.matches && line.matches[2] in line.matches;
      SingleAddress(p.dst, ips[0]);
      assert AllHold(line.matches, p) <==> p.ipv4 && p.dst == ips[0] && p.Established() && p.reply;
      ForwardOneLine(t, line, more, p, lim);
      AddressAcceptsMeaning(t, ips[1..], rest, p, lim);
    }
  }

  lemma {:induction false} AcceptsMeaning(t: Table, sources: SourceMap, rest: seq<Line>, p: Packet, lim: Limiter)
    ensures EvalForward(t, AllAccepts(sources) + rest, p, lim) ==
            if p.ipv4 && Owner(sources, p.dst).Some? && p.Established() && p.reply then Accepted
            else EvalForward(t, rest, p, lim)
  {
    if sources == [] {
      assert AllAccepts(sources) + rest == rest;
    } else {
      AcceptsMeaning(t, sources[1..], rest, p, lim);
      var more := AllAccepts(sources[1..]) + rest;
      assert AllAccepts(sources) + rest == AddressAccepts(sources[0].ips) + more;
      AddressAcceptsMeaning(t, sources[0].ips, more, p, lim);
    }
  }

  /** Lines that only look at replies say nothing about other packets. */
  ghost predicate OnlyReplies(lines: seq<Line>) {
    forall l :: l in lines ==> DirectionReply in l.matches && NfprotoIpv4 in l.matches && StateEstablishedRelated in l.matches
  }

  lemma {:induction false} SkipReplyLines(t: Table, lines: seq<Line>, rest: seq<Line>, p: Packet, lim: Limiter)
    requires OnlyReplies(lines) && !(p.ipv4 && p.reply && p.Established())
    ensures EvalForward(t, lines + rest, p, lim) == EvalForward(t, rest, p, lim)
  {
    if lines == [] {
      assert lines + rest == rest;
    } else {
      assert lines + rest == [lines[0]] + (lines[1..] + rest);
      assert lines[0] in lines;
      assert !AllHold(lines[0].matches, p);
      ForwardOneLine(t, lines[0], lines[1..] + rest, p, lim);
      SkipReplyLines(t, lines[1..], rest, p, lim);
    }
  }

  lemma {:induction false} ReplyLinesFromShape(ip: Addr, rule: FlowRule, from: seq<Option<AddrSet>>)
    ensures OnlyReplies(ReplyLinesFrom(ip, rule, from))
  {
    if from != [] {
      ReplyLinesFromShape(ip, rule, from[1..]);
      var ms := ReplyMatches(ip, rule, from[0]);
      assert ms[|ms| - 1] == DirectionReply && ms[|ms| - 2] == StateEstablishedRelated && ms[0] == NfprotoIpv4;
    }
  }

  lemma {:induction false} ReplyLinesShape(ip: Addr, rules: seq<FlowRule>)
    ensures OnlyReplies(ReplyLines(ip, rules))
  {
    if rules != [] {
      ReplyLinesFromShape(ip, rules[0], ReplySources(rules[0].dest));
      ReplyLinesShape(ip, rules[1..]);
    }
  }

  lemma {:induction false} AddressReplyLinesShape(ips: seq<Addr>, rules: seq<FlowRule>)
    ensures OnlyReplies(AddressReplyLines(ips, rules))
  {
    if ips != [] {
      ReplyLinesShape(ips[0], rules);
      AddressReplyLinesShape(ips[1..], rules);
    }
  }

  lemma {:induction false} AllReplyLinesShape(sources: SourceMap, rules: Rules)
    requires CoversSources(sources, rules)
    ensures OnlyReplies(AllReplyLines(sources, rules))
  {
    if sources != [] {
      AddressReplyLinesShape(sources[0].ips, rules[sources[0].name].ip);
      AllReplyLinesShape(sources[1..], rules);
    }
  }

  // ------------------------------------------------------------ the whole table

  lemma {:induction false} OwnerIsSource(sources: SourceMap, ip: Addr)
    ensures Owner(sources, ip).Some? ==>
            exists i :: 0 <= i < |sources| && sources[i].name == Owner(sources, ip).value && ip in sources[i].ips
    ensures Owner(sources, ip).None? ==> forall i :: 0 <= i < |sources| ==> ip !in sources[i].ips
  {
    if sources != [] && ip !in sources[0].ips {
      OwnerIsSource(sources[1..], ip);
      if Owner(sources, ip).Some? {
        var i :| 0 <= i < |sources[1..]| && sources[1..][i].name == Owner(sources, ip).value && ip in sources[1..][i].ips;
        assert sources[i + 1] == sources[1..][i];
      }
      if Owner(sources, ip).None? {
        forall i | 0 <= i < |sources| ensures ip !in sources[i].ips {
          assert i > 0 ==> sources[i] == sources[1..][i - 1];
        }
      }
    }
  }

  lemma ChainsDecide(sources: SourceMap, rules: Rules, keepQueue: bool, p: Packet, lim: Limiter)
    requires CoversSources(sources, rules)
    ensures DecidingChains(RenderedWith(sources, rules, keepQueue), sources, p, lim)
    ensures forall e :: e in sources ==>
              var c := SourceChain(e.name);
              c in RenderedWith(sources, rules, keepQueue).chains &&
              RenderedWith(sources, rules, keepQueue).chains[c] == SourceLines(rules[e.name].ip, keepQueue)
  {
    forall e | e in sources
      ensures var c := SourceChain(e.name);
              c in RenderedWith(sources, rules, keepQueue).chains &&
              RenderedWith(sources, rules, keepQueue).chains[c] == SourceLines(rules[e.name].ip, keepQueue) &&
              EvalChain(c, SourceLines(rules[e.name].ip, keepQueue), p, lim) != FellThrough
    {
      var i :| 0 <= i < |sources| && sources[i] == e;
      assert SourceChain(sources[i].name) in ChainNames(sources);
      SourceChainNeverReturns(SourceChain(e.name), rules[e.name].ip, keepQueue, p, lim);
    }
  }

  /** A packet that is no reply and whose address has an owner is decided by the owner's
      chain alone, whatever the limiter does. */
  lemma ForwardToOwnChain(sources: SourceMap, rules: Rules, keepQueue: bool, p: Packet, lim: Limiter)
    requires CoversSources(sources, rules)
    requires p.ipv4 && !(p.reply && p.Established()) && Owner(sources, p.src).Some?
    ensures var name := Owner(sources, p.src).value;
            name in rules &&
            EvalTable(RenderedWith(sources, rules, keepQueue), p, lim) ==
            EvalChain(SourceChain(name), SourceLines(rules[name].ip, keepQueue), p, lim)
  {
    var t := RenderedWith(sources, rules, keepQueue);
    ChainsDecide(sources, rules, keepQueue, p, lim);
    OwnerIsSource(sources, p.src);
    AllReplyLinesShape(sources, rules);
    var rest := AllJumps(sources, false) + (AllAccepts(sources) + ForwardTail());
    SkipReplyLines(t, AllReplyLines(sources, rules), AllJumps(sources, true) + rest, p, lim);
    JumpsMeaning(t, sources, true, rest, p, lim);
    JumpsMeaning(t, sources, false, AllAccepts(sources) + ForwardTail(), p, lim);
  }

  function OfAction(a: Option<Action>): Outcome {
    match a
    case Some(Allow) => Accepted
    case Some(Reject) => Rejected
    case None => Queued
  }

  lemma {:induction false} WithinRateIsFirstMatch(rules: seq<FlowRule>, flow: Flow)
    ensures ChainOutcome(rules, flow, false) == OfAction(FirstFlowAction(rules, flow))
  {
    if rules != [] {
      WithinRateIsFirstMatch(rules[1..], flow);
    }
  }

  ghost predicate ValidRules(sources: SourceMap, rules: Rules) {
    CoversSources(sources, rules) && forall n :: n in rules ==> ValidFlowRules(rules[n].ip)
  }

  /** Compilation preserves meaning: within rate the table does to every valid packet that
      leaves a known VM, other than UDP/53, exactly what the first-match interpreter says,
      and UDP/53 is always handed to the daemon. The per-rule UDP/53 lines change nothing. */
  lemma CompilationPreservesMeaning(sources: SourceMap, rules: Rules, keepQueue: bool, p: Packet)
    requires ValidRules(sources, rules)
    requires p.ipv4 && !p.reply && !p.ct.CtInvalid? && Owner(sources, p.src).Some?
    ensures EvalTable(RenderedWith(sources, rules, keepQueue), p, WITHIN_RATE) ==
            if p.ToDnsPort() then Queued
            else OfAction(FirstFlowAction(FlowRulesOf(rules, Owner(sources, p.src).value), p.Outbound()))
  {
    ForwardToOwnChain(sources, rules, keepQueue, p, WITHIN_RATE);
    var name := Owner(sources, p.src).value;
    HeadMeaning(SourceChain(name), rules[name].ip, keepQueue, p, WITHIN_RATE);
    if !p.ToDnsPort() {
      RulesMeaning(SourceChain(name), rules[name].ip, keepQueue, p, WITHIN_RATE, true);
      WithinRateIsFirstMatch(rules[name].ip, p.Outbound());
    }
  }

  // --------------------------------------------------------------- reply traffic

  lemma {:induction false} ReplyLinesFromMeaning(t: Table, ip: Addr, rule: FlowRule, from: seq<Option<AddrSet>>, rest: seq<Line>, p: Packet)
    requires rule.Valid()
    ensures EvalForward(t, ReplyLinesFrom(ip, rule, from) + rest, p, WITHIN_RATE) ==
            if && IsReplyTo(p, ip)
               && (exists f :: f in from && ReplyFrom(f, p.src))
               && rule.proto == p.proto && PortMatches(p.Mirrored().dport, rule.port)
            then OfAction(Some(rule.action)) else EvalForward(t, rest, p, WITHIN_RATE)
  {
    if from == [] {
      assert ReplyLinesFrom(ip, rule, from) + rest == rest;
    } else {
      var more := ReplyLinesFrom(ip, rule, from[1..]) + rest;
      assert ReplyLinesFrom(ip, rule, from) + rest == [ReplyLine(ip, rule, from[0])] + more;
      ForwardOneLine(t, ReplyLine(ip, rule, from[0]), more, p, WITHIN_RATE);
      ReplyMatchesMeaning(ip, rule, from[0], p);
      ReplyLinesFromMeaning(t, ip, rule, from[1..], rest, p);
      assert forall f :: f in from <==> f == from[0] || f in from[1..];
    }
  }

  lemma ReplySourcesMeaning(rule: FlowRule, p: Packet)
    ensures (exists f :: f in ReplySources(rule.dest) && ReplyFrom(f, p.src)) &&
            rule.proto == p.proto && PortMatches(p.Mirrored().dport, rule.port)
            <==> FlowRuleMatches(p.Mirrored(), rule)
  {
    var from := ReplySources(rule.dest);
    match rule.dest
    case AnyDest => assert from[0] in from;
    case Network(base, prefix) => assert from[0] in from;
    case Hostname(_, resolved) =>
      forall i | 0 <= i < |resolved| ensures from[i] in from && (ReplyFrom(from[i], p.src) <==> p.src == resolved[i]) {
        SingleAddress(p.src, resolved[i]);
      }
      if p.src in resolved {
        var i :| 0 <= i < |resolved| && resolved[i] == p.src;
        assert from[i] in from && ReplyFrom(from[i], p.src);
      }
  }

  lemma ReplyRuleMeaning(t: Table, ip: Addr, rule: FlowRule, rest: seq<Line>, p: Packet)
    requires rule.Valid()
    ensures EvalForward(t, ReplyLinesFrom(ip, rule, ReplySources(rule.dest)) + rest, p, WITHIN_RATE) ==
            if IsReplyTo(p, ip) && FlowRuleMatches(p.Mirrored(), rule) then OfAction(Some(rule.action))
            else EvalForward(t, rest, p, WITHIN_RATE)
  {
    ReplyLinesFromMeaning(t, ip, rule, ReplySources(rule.dest), rest, p);
    ReplySourcesMeaning(rule, p);
  }

  lemma {:induction false} ReplyLinesMeaning(t: Table, ip: Addr, rules: seq<FlowRule>, rest: seq<Line>, p: Packet)
    requires ValidFlowRules(rules)
    ensures EvalForward(t, ReplyLines(ip, rules) + rest, p, WITHIN_RATE) ==
            if IsReplyTo(p, ip) && FirstFlowAction(rules, p.Mirrored()).Some? then OfAction(FirstFlowAction(rules, p.Mirrored()))
            else EvalForward(t, rest, p, WITHIN_RATE)
  {
    if rules == [] {
      assert ReplyLines(ip, rules) + rest == rest;
    } else {
      assert rules[0] in rules && forall r :: r in rules[1..] ==> r in rules;
      var more := ReplyLines(ip, rules[1..]) + rest;
      assert ReplyLines(ip, rules) + rest == ReplyLinesFrom(ip, rules[0], ReplySources(rules[0].dest)) + more;
      ReplyRuleMeaning(t, ip, rules[0], more, p);
      ReplyLinesMeaning(t, ip, rules[1..], rest, p);
    }
  }

  lemma {:induction false} AddressReplyLinesMeaning(t: Table, ips: seq<Addr>, rules: seq<FlowRule>, rest: seq<Line>, p: Packet)
    requires ValidFlowRules(rules)
    ensures EvalForward(t, AddressReplyLines(ips, rules) + rest, p, WITHIN_RATE) ==
            if p.dst in ips && IsReplyTo(p, p.dst) && FirstFlowAction(rules, p.Mirrored()).Some? then OfAction(FirstFlowAction(rules, p.Mirrored()))
            else EvalForward(t, rest, p, WITHIN_RATE)
  {
    if ips == [] {
      assert AddressReplyLines(ips, rules) + rest == rest;
    } else {
      var more := AddressReplyLines(ips[1..], rules) + rest;
      assert AddressReplyLines(ips, rules) + rest == ReplyLines(ips[0], rules) + more;
      ReplyLinesMeaning(t, ips[0], rules, more, p);
      AddressReplyLinesMeaning(t, ips[1..], rules, rest, p);
    }
  }

  /** The mirrored policy of every source that lists the destination. */
  function ReplyAction(sources: SourceMap, rules: Rules, p: Packet): Option<Action>
    requires forall e :: e in sources ==> e.name in rules
  {
    if sources == [] then None
    else
      var own := FirstFlowAction(rules[sources[0].name].ip, p.Mirrored());
      if p.dst in sources[0].ips && own.Some? then own else ReplyAction(sources[1..], rules, p)
  }

  lemma {:induction false} AllReplyLinesMeaning(t: Table, sources: SourceMap, rules: Rules, rest: seq<Line>, p: Packet)
    requires ValidRules(sources, rules)
    ensures EvalForward(t, AllReplyLines(sources, rules) + rest, p, WITHIN_RATE) ==
            if IsReplyTo(p, p.dst) && ReplyAction(sources, rules, p).Some? then OfAction(ReplyAction(sources, rules, p))
            else EvalForward(t, rest, p, WITHIN_RATE)
  {
    if sources == [] {
      assert AllReplyLines(sources, rules) + rest == rest;
    } else {
      assert sources[0] in sources;
      var more := AllReplyLines(sources[1..], rules) + rest;
      assert AllReplyLines(sources, rules) + rest == AddressReplyLines(sources[0].ips, rules[sources[0].name].ip) + more;
      AddressReplyLinesMeaning(t, sources[0].ips, rules[sources[0].name].ip, more, p);
      AllReplyLinesMeaning(t, sources[1..], rules, rest, p);
    }
  }

  /** With one owner per address only the owner's rules count, wherever it is listed. */
  lemma {:induction false} ReplyActionIsOwners(sources: SourceMap, rules: Rules, p: Packet, name: Name)
    requires CoversSources(sources, rules)
    requires name in rules
    requires forall e :: e in sources && p.dst in e.ips ==> e.name == name
    ensures ReplyAction(sources, rules, p) ==
            if Owner(sources, p.dst).Some? then FirstFlowAction(rules[name].ip, p.Mirrored()) else None
  {
    if sources != [] {
      assert sources[0] in sources;
      ReplyActionIsOwners(sources[1..], rules, p, name);
    }
  }

  /** What policy says of a reply to a known VM: the action of the flow it answers. Where there is
      no rule, a reply from another known VM is judged as traffic of that VM and any other passes. */
  function ReplyVerdict(sources: SourceMap, rules: Rules, p: Packet): Outcome
    requires Owner(sources, p.dst).Some?
  {
    var own := FirstFlowAction(FlowRulesOf(rules, Owner(sources, p.dst).value), p.Mirrored());
    if own.Some? then OfAction(own)
    else if Owner(sources, p.src).None? then Accepted
    else if p.ToDnsPort() then Queued
    else OfAction(FirstFlowAction(FlowRulesOf(rules, Owner(sources, p.src).value), p.Outbound()))
  }

  /** Within rate, replies to a known VM get that verdict, whatever other sources' rules say and in
      whatever order they are listed. */
  lemma RepliesMirrorPolicy(sources: SourceMap, rules: Rules, p: Packet)
    requires ValidRules(sources, rules) && OneOwner(sources)
    requires p.ipv4 && p.reply && p.Established() && Owner(sources, p.dst).Some?
    ensures EvalTable(Rendered(sources, rules), p, WITHIN_RATE) == ReplyVerdict(sources, rules, p)
  {
    var t := Rendered(sources, rules);
    var name := Owner(sources, p.dst).value;
    OwnerIsSource(sources, p.dst);
    OwnerIsSource(sources, p.src);
    ChainsDecide(sources, rules, true, p, WITHIN_RATE);
    var afterDns := AllJumps(sources, false) + (AllAccepts(sources) + ForwardTail());
    AllReplyLinesMeaning(t, sources, rules, AllJumps(sources, true) + afterDns, p);
    ReplyActionIsOwners(sources, rules, p, name);
    JumpsMeaning(t, sources, true, afterDns, p, WITHIN_RATE);
    JumpsMeaning(t, sources, false, AllAccepts(sources) + ForwardTail(), p, WITHIN_RATE);
    AcceptsMeaning(t, sources, ForwardTail(), p, WITHIN_RATE);
    if Owner(sources, p.src).Some? {
      var peer := Owner(sources, p.src).value;
      HeadMeaning(SourceChain(peer), rules[peer].ip, true, p, WITHIN_RATE);
      if !p.ToDnsPort() {
        RulesMeaning(SourceChain(peer), rules[peer].ip, true, p, WITHIN_RATE, true);
        WithinRateIsFirstMatch(rules[peer].ip, p.Outbound());
      }
    }
  }

  // --------------------------------------------------------- for every limiter

  lemma UnknownNeverAccepts(t: Table, p: Packet, lim: Limiter)
    requires UnknownChain in t.chains && t.chains[UnknownChain] == UnknownLines()
    ensures EvalForward(t, ForwardTail(), p, lim) != Accepted
  {
    var queue, reject := UnknownLines()[0], UnknownLines()[1];
    assert UnknownLines() == [queue] + ([reject] + []);
    OneLine(UnknownChain, queue, [reject] + [], p, lim);
    OneLine(UnknownChain, reject, [], p, lim);
    var jump, invalid := ForwardTail()[0], ForwardTail()[1];
    assert ForwardTail() == [jump] + ([invalid] + []);
    ForwardOneLine(t, jump, [invalid] + [], p, lim);
    ForwardOneLine(t, invalid, [], p, lim);
  }

  ghost predicate AllowedByOwnRule(sources: SourceMap, rules: Rules, p: Packet) {
    && p.ipv4 && !p.ToDnsPort() && Owner(sources, p.src).Some? && Owner(sources, p.src).value in rules
    && exists r :: r in rules[Owner(sources, p.src).value].ip && r.action.Allow? && FlowRuleMatches(p.Outbound(), r)
  }

  lemma OwnChainSound(sources: SourceMap, rules: Rules, p: Packet, lim: Limiter)
    requires ValidRules(sources, rules)
    requires p.ipv4 && Owner(sources, p.src).Some? && Owner(sources, p.src).value in rules
    requires EvalChain(SourceChain(Owner(sources, p.src).value), SourceLines(rules[Owner(sources, p.src).value].ip, true), p, lim) == Accepted
    ensures AllowedByOwnRule(sources, rules, p)
  {
    var name := Owner(sources, p.src).value;
    HeadMeaning(SourceChain(name), rules[name].ip, true, p, lim);
    RulesSound(SourceChain(name), rules[name].ip, p, lim);
  }

  /** A packet nobody is known to have sent, and that is no reply to a known VM, is handed to the
      daemon under every limiter. */
  lemma UnknownSenderIsQueued(sources: SourceMap, rules: Rules, p: Packet, lim: Limiter)
    requires ValidRules(sources, rules) && p.ipv4 && Owner(sources, p.src).None?
    requires !(p.reply && (p.ct.CtEstablished? || p.ct.CtRelated?) && Owner(sources, p.dst).Some?)
    ensures EvalTable(Rendered(sources, rules), p, lim) == Queued
  {
    var t := Rendered(sources, rules);
    ChainsDecide(sources, rules, true, p, lim);
    AllReplyLinesShape(sources, rules);
    var afterDns := AllJumps(sources, false) + (AllAccepts(sources) + ForwardTail());
    if p.reply && p.Established() {
      SkipForeignReplies(t, sources, rules, AllJumps(sources, true) + afterDns, p, lim);
    } else {
      SkipReplyLines(t, AllReplyLines(sources, rules), AllJumps(sources, true) + afterDns, p, lim);
    }
    JumpsMeaning(t, sources, true, afterDns, p, lim);
    JumpsMeaning(t, sources, false, AllAccepts(sources) + ForwardTail(), p, lim);
    AcceptsMeaning(t, sources, ForwardTail(), p, lim);
    assert UnknownChain in ChainNames(sources);
    UnknownChainQueues(t, p, lim);
  }

  lemma UnknownChainQueues(t: Table, p: Packet, lim: Limiter)
    requires p.ipv4 && UnknownChain in t.chains && t.chains[UnknownChain] == UnknownLines()
    ensures EvalForward(t, ForwardTail(), p, lim) == Queued
  {
    var queue, rest := Line([NfprotoIpv4], false, Queue), [Line([], true, RejectPacket)];
    assert UnknownLines() == [queue] + rest;
    assert AllHold(queue.matches, p) <==> Holds(queue.matches[0], p);
    OneLine(UnknownChain, queue, rest, p, lim);
    var jump, last := Line([], false, Jump(UnknownChain)), [Line([StateInvalid], true, RejectPacket)];
    assert ForwardTail() == [jump] + last;
    ForwardOneLine(t, jump, last, p, lim);
  }

  /** Accept soundness for every limiter: the table lets a packet through by itself only as
      a tracked reply to a known VM or by an allow rule of the VM that sent it, and never a
      UDP/53 query, an unknown sender's packet or anything that is not IPv4. */
  lemma AcceptSound(sources: SourceMap, rules: Rules, p: Packet, lim: Limiter)
    requires ValidRules(sources, rules)
    requires EvalTable(Rendered(sources, rules), p, lim) == Accepted
    ensures p.ipv4
    ensures || (p.reply && (p.ct.CtEstablished? || p.ct.CtRelated?) && Owner(sources, p.dst).Some?)
            || AllowedByOwnRule(sources, rules, p)
  {
    var t := Rendered(sources, rules);
    ChainsDecide(sources, rules, true, p, lim);
    OwnerIsSource(sources, p.src);
    AllReplyLinesShape(sources, rules);
    var afterDns := AllJumps(sources, false) + (AllAccepts(sources) + ForwardTail());
    var afterReplies := AllJumps(sources, true) + afterDns;
    JumpsMeaning(t, sources, true, afterDns, p, lim);
    JumpsMeaning(t, sources, false, AllAccepts(sources) + ForwardTail(), p, lim);
    AcceptsMeaning(t, sources, ForwardTail(), p, lim);
    assert UnknownChain in ChainNames(sources);
    UnknownNeverAccepts(t, p, lim);
    if p.ipv4 && p.reply && p.Established() && Owner(sources, p.dst).Some? {
    } else {
      if p.ipv4 && p.reply && p.Established() {
        SkipForeignReplies(t, sources, rules, afterReplies, p, lim);
      } else {
        SkipReplyLines(t, AllReplyLines(sources, rules), afterReplies, p, lim);
      }
      if p.ipv4 && Owner(sources, p.src).Some? {
        OwnChainSound(sources, rules, p, lim);
      }
    }
  }

  lemma {:induction false} SkipReplyLinesTo(t: Table, ip: Addr, rule: FlowRule, from: seq<Option<AddrSet>>, rest: seq<Line>, p: Packet, lim: Limiter)
    requires rule.Valid() && p.dst != ip
    ensures EvalForward(t, ReplyLinesFrom(ip, rule, from) + rest, p, lim) == EvalForward(t, rest, p, lim)
  {
    if from == [] {
      assert ReplyLinesFrom(ip, rule, from) + rest == rest;
    } else {
      var more := ReplyLinesFrom(ip, rule, from[1..]) + rest;
      assert ReplyLinesFrom(ip, rule, from) + rest == [ReplyLine(ip, rule, from[0])] + more;
      ForwardOneLine(t, ReplyLine(ip, rule, from[0]), more, p, lim);
      ReplyMatchesMeaning(ip, rule, from[0], p);
      SkipReplyLinesTo(t, ip, rule, from[1..], rest, p, lim);
    }
  }

  lemma {:induction false} SkipRepliesTo(t: Table, ip: Addr, rules: seq<FlowRule>, rest: seq<Line>, p: Packet, lim: Limiter)
    requires ValidFlowRules(rules) && p.dst != ip
    ensures EvalForward(t, ReplyLines(ip, rules) + rest, p, lim) == EvalForward(t, rest, p, lim)
  {
    if rules == [] {
      assert ReplyLines(ip, rules) + rest == rest;
    } else {
      assert rules[0] in rules && forall r :: r in rules[1..] ==> r in rules;
      var from := ReplySources(rules[0].dest);
      var more := ReplyLines(ip, rules[1..]) + rest;
      assert ReplyLines(ip, rules) + rest == ReplyLinesFrom(ip, rules[0], from) + more;
      SkipReplyLinesTo(t, ip, rules[0], from, more, p, lim);
      SkipRepliesTo(t, ip, rules[1..], rest, p, lim);
    }
  }

  lemma {:induction false} SkipAddressReplies(t: Table, ips: seq<Addr>, rules: seq<FlowRule>, rest: seq<Line>, p: Packet, lim: Limiter)
    requires ValidFlowRules(rules) && p.dst !in ips
    ensures EvalForward(t, AddressReplyLines(ips, rules) + rest, p, lim) == EvalForward(t, rest, p, lim)
  {
    if ips == [] {
      assert AddressReplyLines(ips, rules) + rest == rest;
    } else {
      var more := AddressReplyLines(ips[1..], rules) + rest;
      assert AddressReplyLines(ips, rules) + rest == ReplyLines(ips[0], rules) + more;
      SkipRepliesTo(t, ips[0], rules, more, p, lim);
      SkipAddressReplies(t, ips[1..], rules, rest, p, lim);
    }
  }

  lemma {:induction false} SkipForeignReplies(t: Table, sources: SourceMap, rules: Rules, rest: seq<Line>, p: Packet, lim: Limiter)
    requires ValidRules(sources, rules) && Owner(sources, p.dst).None?
    ensures EvalForward(t, AllReplyLines(sources, rules) + rest, p, lim) == EvalForward(t, rest, p, lim)
  {
    if sources == [] {
      assert AllReplyLines(sources, rules) + rest == rest;
    } else {
      assert sources[0] in sources;
      var more := AllReplyLines(sources[1..], rules) + rest;
      assert AllReplyLines(sources, rules) + rest == AddressReplyLines(sources[0].ips, rules[sources[0].name].ip) + more;
      SkipAddressReplies(t, sources[0].ips, rules[sources[0].name].ip, more, p, lim);
      SkipForeignReplies(t, sources[1..], rules, rest, p, lim);
    }
  }
}
