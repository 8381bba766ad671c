/** Replies when the rate limits do not hold: the mirrored reject lines are limited like all
    others, and behind them stand the sender's own chain and the general reply accepts. */
module ReplyLimits {
  import opened Wrappers
  import opened Policy
  import opened PolicyMeaning
  import opened Nft
  import opened NftMeaning
  import opened Checksums
  import opened Packets
  import opened Handlers
  import opened EndToEnd

  // ------------------------------------------------------------- the reply lines

  /** What lines mirroring these rules may make of a reply that otherwise ends in rest. */
  predicate MayGive(rules: seq<FlowRule>, flow: Flow, out: Outcome, rest: Outcome) {
    match FirstFlowAction(rules, flow)
    case Some(Allow) => out == Accepted
    case None => out == rest
    case Some(Reject) => out == Rejected || out == rest || (out == Accepted && AllowMatches(rules, flow))
  }

  /** And what they make of it when every limited line is over its rate. */
  predicate GivesOverRate(rules: seq<FlowRule>, flow: Flow, out: Outcome, rest: Outcome) {
    out == if AllowMatches(rules, flow) then Accepted else rest
  }

  ghost predicate AlwaysOver(lim: Limiter) {
    forall c, lines :: !lim(c, lines)
  }

  lemma {:induction false} ReplyLinesFromLimited(t: Table, ip: Addr, rule: FlowRule, from: seq<Option<AddrSet>>,
                                                 rest: seq<Line>, p: Packet, lim: Limiter)
    requires rule.Valid()
    ensures var out, after := EvalForward(t, ReplyLinesFrom(ip, rule, from) + rest, p, lim), EvalForward(t, rest, p, lim);
            if && IsReplyTo(p, ip)
               && (exists f :: f in from && ReplyFrom(f, p.src))
               && rule.proto == p.proto && PortMatches(p.Mirrored().dport, rule.port)
            then if rule.action.Allow? then out == Accepted else out == after || (out == Rejected && !AlwaysOver(lim))
            else out == after
  {
    if from == [] {
      assert ReplyLinesFrom(ip, rule, from) + rest == rest;
    } else {
      var more := ReplyLinesFrom(ip, rule, from[1..]) + rest;
      assert ReplyLinesFrom(ip, rule, from) + rest == [ReplyLine(ip, rule, from[0])] + more;
      ForwardOneLine(t, ReplyLine(ip, rule, from[0]), more, p, lim);
      ReplyMatchesMeaning(ip, rule, from[0], p);
      ReplyLinesFromLimited(t, ip, rule, from[1..], rest, p, lim);
      assert forall f :: f in from <==> f == from[0] || f in from[1..];
    }
  }

  lemma AllowMatchesCons(rules: seq<FlowRule>, flow: Flow)
    requires rules != []
    ensures AllowMatches(rules, flow) <==>
            (rules[0].action.Allow? && FlowRuleMatches(flow, rules[0])) || AllowMatches(rules[1..], flow)
  {
    assert forall i :: 1 <= i < |rules| ==> rules[i] == rules[1..][i - 1];
  }

  lemma {:induction false} FirstAllowMatches(rules: seq<FlowRule>, flow: Flow)
    ensures FirstFlowAction(rules, flow) == Some(Allow) ==> AllowMatches(rules, flow)
  {
    if rules != [] {
      FirstAllowMatches(rules[1..], flow);
      AllowMatchesCons(rules, flow);
    }
  }

  lemma RuleLimited(t: Table, ip: Addr, rule: FlowRule, rest: seq<Line>, p: Packet, lim: Limiter)
    requires rule.Valid()
    ensures var lines := ReplyLinesFrom(ip, rule, ReplySources(rule.dest));
            var out, after := EvalForward(t, lines + rest, p, lim), EvalForward(t, rest, p, lim);
            if IsReplyTo(p, ip) && FlowRuleMatches(p.Mirrored(), rule) then
              if rule.action.Allow? then out == Accepted else out == after || (out == Rejected && !AlwaysOver(lim))
            else out == after
  {
    ReplyLinesFromLimited(t, ip, rule, ReplySources(rule.dest), rest, p, lim);
    ReplySourcesMeaning(rule, p);
  }

  lemma RuleBeforeOthers(rules: seq<FlowRule>, flow: Flow, out: Outcome, others: Outcome, rest: Outcome, over: bool)
    requires rules != []
    requires MayGive(rules[1..], flow, others, rest) && (over ==> GivesOverRate(rules[1..], flow, others, rest))
    requires if FlowRuleMatches(flow, rules[0]) then
               if rules[0].action.Allow? then out == Accepted else out == others || (out == Rejected && !over)
             else out == others
    ensures MayGive(rules, flow, out, rest) && (over ==> GivesOverRate(rules, flow, out, rest))
  {
    AllowMatchesCons(rules, flow);
    FirstAllowMatches(rules[1..], flow);
  }

  lemma {:induction false} ReplyLinesLimited(t: Table, ip: Addr, rules: seq<FlowRule>, rest: seq<Line>, p: Packet, lim: Limiter)
    requires ValidFlowRules(rules)
    ensures var out, after := EvalForward(t, ReplyLines(ip, rules) + rest, p, lim), EvalForward(t, rest, p, lim);
            if IsReplyTo(p, ip) then
              MayGive(rules, p.Mirrored(), out, after) && (AlwaysOver(lim) ==> GivesOverRate(rules, p.Mirrored(), out, after))
            else out == after
  {
    if rules == [] {
      assert ReplyLines(ip, rules) + rest == rest;
    } else {
      assert rules[0] in rules && forall r :: r in rules[1..] ==> r in rules;
      var more := ReplyLines(ip, rules[1..]) + rest;
      assert ReplyLines(ip, rules) + rest == ReplyLinesFrom(ip, rules[0], ReplySources(rules[0].dest)) + more;
      RuleLimited(t, ip, rules[0], more, p, lim);
      ReplyLinesLimited(t, ip, rules[1..], rest, p, lim);
      if IsReplyTo(p, ip) {
        RuleBeforeOthers(rules, p.Mirrored(), EvalForward(t, ReplyLines(ip, rules) + rest, p, lim), EvalForward(t, more, p, lim),
                         EvalForward(t, rest, p, lim), AlwaysOver(lim));
      }
    }
  }

  lemma {:induction false} AddressRepliesLimited(t: Table, ips: seq<Addr>, rules: seq<FlowRule>, rest: seq<Line>, p: Packet, lim: Limiter)
    requires ValidFlowRules(rules)
    ensures var out, after := EvalForward(t, AddressReplyLines(ips, rules) + rest, p, lim), EvalForward(t, rest, p, lim);
            if p.dst in ips && IsReplyTo(p, p.dst) then
              MayGive(rules, p.Mirrored(), out, after) && (AlwaysOver(lim) ==> GivesOverRate(rules, p.Mirrored(), out, after))
            else out == after
  {
    if ips == [] {
      assert AddressReplyLines(ips, rules) + rest == rest;
    } else {
      var more := AddressReplyLines(ips[1..], rules) + rest;
      assert AddressReplyLines(ips, rules) + rest == ReplyLines(ips[0], rules) + more;
      ReplyLinesLimited(t, ips[0], rules, more, p, lim);
      AddressRepliesLimited(t, ips[1..], rules, rest, p, lim);
    }
  }

  lemma {:induction false} AllRepliesLimited(t: Table, sources: SourceMap, rules: Rules, rest: seq<Line>, p: Packet, lim: Limiter, name: Name)
    requires ValidRules(sources, rules) && name in rules && IsReplyTo(p, p.dst)
    requires forall e :: e in sources && p.dst in e.ips ==> e.name == name
    ensures var out, after := EvalForward(t, AllReplyLines(sources, rules) + rest, p, lim), EvalForward(t, rest, p, lim);
            var own := rules[name].ip;
            if Owner(sources, p.dst).Some? then
              MayGive(own, p.Mirrored(), out, after) && (AlwaysOver(lim) ==> GivesOverRate(own, p.Mirrored(), out, after))
            else out == after
  {
    if sources == [] {
      assert AllReplyLines(sources, rules) + rest == rest;
    } else {
      assert sources[0] in sources;
      var more := AllReplyLines(sources[1..], rules) + rest;
      assert AllReplyLines(sources, rules) + rest == AddressReplyLines(sources[0].ips, rules[sources[0].name].ip) + more;
      AddressRepliesLimited(t, sources[0].ips, rules[sources[0].name].ip, more, p, lim);
      AllRepliesLimited(t, sources[1..], rules, rest, p, lim, name);
    }
  }

  // --------------------------------------------------------------- the whole table

  /** A tracked reply to a known VM. */
  ghost predicate TrackedReply(sources: SourceMap, rules: Rules, p: Packet) {
    && ValidRules(sources, rules) && OneOwner(sources)
    && p.ipv4 && p.reply && p.Established() && Owner(sources, p.dst).Some?
  }

  function OwnRules(sources: SourceMap, rules: Rules, ip: Addr): seq<FlowRule>
    requires Owner(sources, ip).Some?
  {
    FlowRulesOf(rules, Owner(sources, ip).value)
  }

  /** Where a reply ends that no mirrored line decides: in its sender's chain, or accepted. */
  function BehindMirror(sources: SourceMap, rules: Rules, p: Packet, lim: Limiter): Outcome {
    if Owner(sources, p.src).None? then Accepted
    else if p.ToDnsPort() then Queued
    else
      var peer := Owner(sources, p.src).value;
      EvalChain(SourceChain(peer), AllRuleLines(FlowRulesOf(rules, peer), true) + ChainTail(), p, lim)
  }

  lemma BehindMirrorMeaning(sources: SourceMap, rules: Rules, p: Packet, lim: Limiter)
    requires TrackedReply(sources, rules, p)
    ensures EvalForward(Rendered(sources, rules),
                        AllJumps(sources, true) + (AllJumps(sources, false) + (AllAccepts(sources) + ForwardTail())), p, lim)
         == BehindMirror(sources, rules, p, lim)
  {
    var t := Rendered(sources, rules);
    ChainsDecide(sources, rules, true, p, lim);
    OwnerIsSource(sources, p.src);
    JumpsMeaning(t, sources, true, AllJumps(sources, false) + (AllAccepts(sources) + ForwardTail()), p, lim);
    JumpsMeaning(t, sources, false, AllAccepts(sources) + ForwardTail(), p, lim);
    AcceptsMeaning(t, sources, ForwardTail(), p, lim);
    if Owner(sources, p.src).Some? {
      var peer := Owner(sources, p.src).value;
      HeadMeaning(SourceChain(peer), rules[peer].ip, true, p, lim);
    }
  }

  /** Every reply under every limiter: decided by the mirrored lines or by what stands behind them,
      and over the rate the mirrored reject lines count for nothing. */
  lemma RepliesLimited(sources: SourceMap, rules: Rules, p: Packet, lim: Limiter)
    requires TrackedReply(sources, rules, p)
    ensures var out, own := EvalTable(Rendered(sources, rules), p, lim), OwnRules(sources, rules, p.dst);
            var behind := BehindMirror(sources, rules, p, lim);
            MayGive(own, p.Mirrored(), out, behind) && (AlwaysOver(lim) ==> GivesOverRate(own, p.Mirrored(), out, behind))
  {
    OwnerIsSource(sources, p.dst);
    BehindMirrorMeaning(sources, rules, p, lim);
    AllRepliesLimited(Rendered(sources, rules), sources, rules,
                      AllJumps(sources, true) + (AllJumps(sources, false) + (AllAccepts(sources) + ForwardTail())),
                      p, lim, Owner(sources, p.dst).value);
  }

  lemma {:induction false} OverRateOutcome(rules: seq<FlowRule>, flow: Flow)
    ensures ChainOutcome(rules, flow, true) == if AllowMatches(rules, flow) then Accepted else Queued
  {
    if rules != [] {
      OverRateOutcome(rules[1..], flow);
      AllowMatchesCons(rules, flow);
    }
  }

  /** The sender's chain: always what first match says unless that is a reject, never an accept
      without an allow rule, and over the rate an accept with one. */
  lemma BehindMirrorCases(sources: SourceMap, rules: Rules, p: Packet, lim: Limiter)
    requires TrackedReply(sources, rules, p) && Owner(sources, p.src).Some? && !p.ToDnsPort()
    ensures var behind, peer := BehindMirror(sources, rules, p, lim), OwnRules(sources, rules, p.src);
            && (behind == Accepted || behind == Rejected || behind == Queued)
            && (behind == Accepted ==> AllowMatches(peer, p.Outbound()))
            && (FirstFlowAction(peer, p.Outbound()) != Some(Reject) ==> behind == OfAction(FirstFlowAction(peer, p.Outbound())))
            && (AlwaysOver(lim) ==> behind == if AllowMatches(peer, p.Outbound()) then Accepted else Queued)
  {
    OwnerIsSource(sources, p.src);
    var peer := Owner(sources, p.src).value;
    RulesSound(SourceChain(peer), rules[peer].ip, p, lim);
    if AlwaysOver(lim) {
      RulesMeaning(SourceChain(peer), rules[peer].ip, true, p, lim, false);
      OverRateOutcome(rules[peer].ip, p.Outbound());
    }
  }

  /** The rejects a reply's verdict may rest on: the receiver's, mirrored, or the sender's own. */
  predicate RestsOnReject(sources: SourceMap, rules: Rules, p: Packet)
    requires Owner(sources, p.dst).Some?
  {
    match FirstFlowAction(OwnRules(sources, rules, p.dst), p.Mirrored())
    case Some(action) => action == Reject
    case None =>
      Owner(sources, p.src).Some? && !p.ToDnsPort() &&
      FirstFlowAction(OwnRules(sources, rules, p.src), p.Outbound()) == Some(Reject)
  }

  /** Exactly when the table gives a reply the policy's verdict under every limiter: when that
      verdict does not rest on a reject rule. From an address nobody owns this is: unless the
      receiver's policy rejects the flow the reply answers. */
  lemma RepliesAgreeForEveryLimiter(sources: SourceMap, rules: Rules, p: Packet)
    requires TrackedReply(sources, rules, p)
    ensures (forall lim :: EvalTable(Rendered(sources, rules), p, lim) == ReplyVerdict(sources, rules, p))
            <==> !RestsOnReject(sources, rules, p)
    ensures Owner(sources, p.src).None? ==>
              (RestsOnReject(sources, rules, p) <==>
               FirstFlowAction(OwnRules(sources, rules, p.dst), p.Mirrored()) == Some(Reject))
  {
    if RestsOnReject(sources, rules, p) {
      RepliesLimited(sources, rules, p, OVER_RATE);
      if Owner(sources, p.src).Some? && !p.ToDnsPort() {
        BehindMirrorCases(sources, rules, p, OVER_RATE);
      }
      assert EvalTable(Rendered(sources, rules), p, OVER_RATE) != Rejected;
    } else {
      forall lim ensures EvalTable(Rendered(sources, rules), p, lim) == ReplyVerdict(sources, rules, p) {
        RepliesLimited(sources, rules, p, lim);
        if Owner(sources, p.src).Some? && !p.ToDnsPort() {
          BehindMirrorCases(sources, rules, p, lim);
        }
      }
    }
  }

  /** Over the rate every tracked reply to a known VM from an address nobody owns is accepted,
      whatever the rules say. */
  lemma UnownedRepliesPassOverRate(sources: SourceMap, rules: Rules, p: Packet)
    requires TrackedReply(sources, rules, p) && Owner(sources, p.src).None?
    ensures EvalTable(Rendered(sources, rules), p, OVER_RATE) == Accepted
  {
    RepliesLimited(sources, rules, p, OVER_RATE);
  }

  /** Exactly when a reply the receiver's policy rejects is accepted by the table under no limiter. */
  lemma RejectedReplyStaysOut(sources: SourceMap, rules: Rules, p: Packet)
    requires TrackedReply(sources, rules, p)
    requires FirstFlowAction(OwnRules(sources, rules, p.dst), p.Mirrored()) == Some(Reject)
    ensures (forall lim :: EvalTable(Rendered(sources, rules), p, lim) != Accepted)
            <==>
            && !AllowMatches(OwnRules(sources, rules, p.dst), p.Mirrored())
            && Owner(sources, p.src).Some?
            && (p.ToDnsPort() || !AllowMatches(OwnRules(sources, rules, p.src), p.Outbound()))
  {
    RepliesLimited(sources, rules, p, OVER_RATE);
    if Owner(sources, p.src).Some? && !p.ToDnsPort() {
      BehindMirrorCases(sources, rules, p, OVER_RATE);
    }
    if && !AllowMatches(OwnRules(sources, rules, p.dst), p.Mirrored())
       && Owner(sources, p.src).Some?
       && (p.ToDnsPort() || !AllowMatches(OwnRules(sources, rules, p.src), p.Outbound()))
    {
      forall lim ensures EvalTable(Rendered(sources, rules), p, lim) != Accepted {
        RepliesLimited(sources, rules, p, lim);
        if !p.ToDnsPort() {
          BehindMirrorCases(sources, rules, p, lim);
        }
      }
    }
  }

  /** One reject rule and nothing else: the reply it covers is rejected within rate and accepted
      over it. */
  lemma RejectedReplyExample()
    ensures var host, vm := 0x0101_0101, 0x0A89_0005;
            var reject := FlowRule("no PTR", Network(host, 32), Tcp, AnyPort, Reject);
            var sources, rules := [SourceEntry("work", [vm])], map["work" := SourcePolicy([reject], [])];
            var p := Packet(true, host, vm, Tcp, Ports(443, 40000), CtEstablished, true);
            && TrackedReply(sources, rules, p)
            && EvalTable(Rendered(sources, rules), p, WITHIN_RATE) == Rejected
            && EvalTable(Rendered(sources, rules), p, OVER_RATE) == Accepted
  {
    var host, vm := 0x0101_0101, 0x0A89_0005;
    var reject := FlowRule("no PTR", Network(host, 32), Tcp, AnyPort, Reject);
    var sources, rules := [SourceEntry("work", [vm])], map["work" := SourcePolicy([reject], [])];
    var p := Packet(true, host, vm, Tcp, Ports(443, 40000), CtEstablished, true);
    RepliesMirrorPolicy(sources, rules, p);
    UnownedRepliesPassOverRate(sources, rules, p);
  }

  // ------------------------------------------------------- table and daemon together

  /** A sound reply to a known VM, tracked by connection tracking. */
  ghost predicate Incoming(sources: SourceMap, payload: seq<byte>, ct: CtState) {
    && |payload| >= 20
    && Parsed(payload).Some? && Parsed(payload).value.malformed.None?
    && Owner(sources, Parsed(payload).value.dst).Some?
    && (ct.CtEstablished? || ct.CtRelated?)
  }

  function AnsweredFlow(r: ParsedPacket): Flow {
    Flow(r.src, r.proto, r.sport)
  }

  /** What the policies say of a reply: the receiver allows the flow it answers, or has no rule for
      it and the sender is no VM or may send it by its own policy. */
  ghost predicate ReplyAllowed(sources: SourceMap, rules: Rules, payload: seq<byte>, decode: Decoder)
    requires Parsed(payload).Some? && Owner(sources, Parsed(payload).value.dst).Some?
  {
    var r := Parsed(payload).value;
    var own := OwnRules(sources, rules, r.dst);
    || FlowDecided(own, AnsweredFlow(r), Allow)
    || (FlowOpen(own, AnsweredFlow(r)) && (Owner(sources, r.src).None? || PolicyAllows(sources, rules, payload, decode)))
  }

  lemma OwnRulesDecide(sources: SourceMap, rules: Rules, r: ParsedPacket)
    requires Owner(sources, r.dst).Some?
    ensures var own := OwnRules(sources, rules, r.dst);
            && (FlowDecided(own, AnsweredFlow(r), Allow) <==> FirstFlowAction(own, AnsweredFlow(r)) == Some(Allow))
            && (FlowOpen(own, AnsweredFlow(r)) <==> FirstFlowAction(own, AnsweredFlow(r)).None?)
  {
    FirstFlowMeaning(OwnRules(sources, rules, r.dst), AnsweredFlow(r), Allow);
    FirstFlowOpen(OwnRules(sources, rules, r.dst), AnsweredFlow(r));
  }

  /** Within rate, table and daemon pass a reply exactly when the policies say so. */
  lemma RepliesPassIffAllowed(sources: SourceMap, rules: Rules, payload: seq<byte>, ct: CtState, decode: Decoder)
    requires ValidRules(sources, rules) && OneOwner(sources) && Incoming(sources, payload, ct)
    ensures Passes(sources, rules, payload, ct, true, WITHIN_RATE, decode) <==> ReplyAllowed(sources, rules, payload, decode)
  {
    InterpreterFollowsPolicy(sources, rules, payload, decode);
    OwnRulesDecide(sources, rules, Parsed(payload).value);
    StagesSeeTheSameFlow(payload, ct, true);
    RepliesMirrorPolicy(sources, rules, KernelView(payload, ct, true));
    DaemonFollowsPolicy(sources, rules, payload, decode);
    OwnerIsSource(sources, Parsed(payload).value.src);
  }

  /** The condition under which no limiter changes whether a reply passes. */
  ghost predicate ReplyIsSettled(sources: SourceMap, rules: Rules, payload: seq<byte>, decode: Decoder)
    requires Parsed(payload).Some? && Owner(sources, Parsed(payload).value.dst).Some?
  {
    var r := Parsed(payload).value;
    var own, peer := OwnRules(sources, rules, r.dst), Owner(sources, r.src);
    var sent := Flow(r.dst, r.proto, r.dport);
    match FirstFlowAction(own, AnsweredFlow(r))
    case Some(Allow) => true
    case None => peer.None? || IsDnsQuery(r) || !ShadowedReject(FlowRulesOf(rules, peer.value), sent)
    case Some(Reject) =>
      && !AllowMatches(own, AnsweredFlow(r)) && peer.Some?
      && if IsDnsQuery(r) then !PolicyAllows(sources, rules, payload, decode) else !AllowMatches(FlowRulesOf(rules, peer.value), sent)
  }

  lemma UnsettledReplyPasses(sources: SourceMap, rules: Rules, payload: seq<byte>, ct: CtState, decode: Decoder)
    requires ValidRules(sources, rules) && OneOwner(sources) && Incoming(sources, payload, ct)
    requires !ReplyIsSettled(sources, rules, payload, decode)
    ensures Passes(sources, rules, payload, ct, true, OVER_RATE, decode) && !ReplyAllowed(sources, rules, payload, decode)
  {
    InterpreterFollowsPolicy(sources, rules, payload, decode);
    OwnRulesDecide(sources, rules, Parsed(payload).value);
    var p := KernelView(payload, ct, true);
    StagesSeeTheSameFlow(payload, ct, true);
    RepliesLimited(sources, rules, p, OVER_RATE);
    DaemonFollowsPolicy(sources, rules, payload, decode);
    OwnerIsSource(sources, p.src);
    if Owner(sources, p.src).Some? && !p.ToDnsPort() {
      BehindMirrorCases(sources, rules, p, OVER_RATE);
    }
  }

  lemma SettledReplyAgrees(sources: SourceMap, rules: Rules, payload: seq<byte>, ct: CtState, lim: Limiter, decode: Decoder)
    requires ValidRules(sources, rules) && OneOwner(sources) && Incoming(sources, payload, ct)
    requires ReplyIsSettled(sources, rules, payload, decode)
    ensures Passes(sources, rules, payload, ct, true, lim, decode) <==> ReplyAllowed(sources, rules, payload, decode)
  {
    InterpreterFollowsPolicy(sources, rules, payload, decode);
    OwnRulesDecide(sources, rules, Parsed(payload).value);
    var p := KernelView(payload, ct, true);
    StagesSeeTheSameFlow(payload, ct, true);
    RepliesLimited(sources, rules, p, lim);
    DaemonFollowsPolicy(sources, rules, payload, decode);
    OwnerIsSource(sources, p.src);
    if Owner(sources, p.src).Some? && !p.ToDnsPort() {
      BehindMirrorCases(sources, rules, p, lim);
      FirstAllowMatches(OwnRules(sources, rules, p.src), p.Outbound());
    }
  }

  /** Exactly when table and daemon pass a reply as the policies say, however the rate limits
      behave. A reply whose flow the receiver rejects stays out only if no allow rule of the receiver
      covers it too and its sender is a VM that may not send it either. */
  lemma RepliesPassForEveryLimiter(sources: SourceMap, rules: Rules, payload: seq<byte>, ct: CtState, decode: Decoder)
    requires ValidRules(sources, rules) && OneOwner(sources) && Incoming(sources, payload, ct)
    ensures (forall lim :: Passes(sources, rules, payload, ct, true, lim, decode) <==> ReplyAllowed(sources, rules, payload, decode))
            <==> ReplyIsSettled(sources, rules, payload, decode)
  {
    if ReplyIsSettled(sources, rules, payload, decode) {
      forall lim
        ensures Passes(sources, rules, payload, ct, true, lim, decode) <==> ReplyAllowed(sources, rules, payload, decode)
      {
        SettledReplyAgrees(sources, rules, payload, ct, lim, decode);
      }
    } else {
      UnsettledReplyPasses(sources, rules, payload, ct, decode);
    }
  }
}
