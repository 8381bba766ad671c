/** The daemon's mutable state and its operations, each proved to be the step of the same
    name in Runtime (qubes_snitch/policy_runtime.py, sources_runtime.py,
    packet_handlers.py, queue.py). */
module Daemons {
  import opened Wrappers
  import opened Policy
  import opened Nft
  import opened Checksums
  import opened Packets
  import opened Handlers
  import opened Runtime
  import opened PromptQueues

  lemma {:induction false} WithoutSourcesTwice(pending: seq<Entry>, a: set<Name>, b: set<Name>)
    ensures WithoutSources(WithoutSources(pending, a), b) == WithoutSources(pending, a + b)
  {
    if pending != [] {
      WithoutSourcesTwice(pending[1..], a, b);
      var rest := WithoutSources(pending[1..], a);
      assert ([pending[0]] + rest)[1..] == rest;
      assert [] + rest == rest;
    }
  }

  lemma {:induction false} WithoutNoSources(pending: seq<Entry>)
    ensures WithoutSources(pending, {}) == pending
  {
    if pending != [] {
      WithoutNoSources(pending[1..]);
    }
  }

  lemma DropNamesTwice(c: Core, a: set<Name>, b: set<Name>)
    ensures DropNames(DropNames(c, a), b) == DropNames(c, a + b)
    ensures DropNames(c, {}) == c
  {
    WithoutSourcesTwice(c.queue.pending, a, b);
    WithoutNoSources(c.queue.pending);
    assert c.rules - a - b == c.rules - (a + b);
    assert c.files - a - b == c.files - (a + b);
    assert c.rules - {} == c.rules && c.files - {} == c.files;
  }

  lemma EnsureNamesStep(c: Core, names: set<Name>, n: Name)
    ensures EnsureEntry(EnsureNames(c, names), n) == EnsureNames(c, names + {n})
  {
    var before, after := EnsureEntry(EnsureNames(c, names), n).rules, EnsureNames(c, names + {n}).rules;
    assert before.Keys == after.Keys;
    assert before == after;
  }

  lemma EnsureNoNames(c: Core)
    ensures EnsureNames(c, {}) == c
  {
  }

  lemma NamesStep(sources: SourceMap, i: nat)
    requires i < |sources|
    ensures SourceNames(sources[..i + 1]) == SourceNames(sources[..i]) + {sources[i].name}
    ensures sources[..|sources|] == sources && sources[..0] == []
  {
  }

  lemma {:induction false} IpsAt(sources: SourceMap, i: nat)
    requires DistinctNames(sources) && i < |sources|
    ensures IpsOf(sources, sources[i].name) == Some(sources[i].ips)
  {
    if i > 0 {
      assert forall j, k :: 0 <= j < k < |sources[1..]| ==> sources[1..][j] == sources[j + 1] && sources[1..][k] == sources[k + 1];
      IpsAt(sources[1..], i - 1);
    }
  }

  /** A packet's own source is current: attribution and the prompt check read one dict. */
  lemma OwnerIsCurrent(sources: SourceMap, r: Request)
    requires DistinctNames(sources) && Owner(sources, r.src) == Some(r.source)
    ensures SourceCurrent(sources, r) && r.source in SourceNames(sources)
  {
  }

  /** The question a packet leaves open under a policy, if any. */
  function OpenQuestion(rules: Rules, name: Name, r: ParsedPacket, decode: Decoder, hint: Option<string>): Option<Request> {
    var flow := MatchingAction(rules, FlowRequest(name, r));
    if r.malformed.Some? then None
    else if flow.None? then Some(if IsDnsQuery(r) then FlowRequest(name, r) else FlowRequest(name, r).(host := hint))
    else if IsDnsQuery(r) && flow == Some(Allow) then
      match ReadDnsFields(r.body, decode)
      case Asked(q) => if MatchingAction(rules, NameRequest(name, r, q)).None? then Some(NameRequest(name, r, q)) else None
      case Problem(_) => None
    else None
  }

  /** What handling a packet does to the shared state: at most one new prompt. */
  function AfterPacket(c: Core, question: Option<Request>, size: nat): Core {
    match question
    case Some(r) => PromptCore(c, r, size)
    case None => c
  }

  /** A packet from an address nobody owns: one refresh, and the daemon stops if that did not help. */
  function AfterUnknown(c: Core, src: Addr, latest: SourceMap, relabelled: bool, load: LoadOutcome): Core {
    var refreshed := Refresh(c, latest, relabelled, load);
    if !refreshed.failed && Owner(refreshed.sources, src).None? then refreshed.(failed := true) else refreshed
  }

  /** What a prompt attempt does after a policy read that returned seen. */
  function AfterPrompt(c: Core, r: Request, seen: Option<Action>, size: nat): Core {
    if seen.None? then PromptCore(c, r, size) else c
  }

  function AfterFields(c: Core, name: Name, r: ParsedPacket, fields: DnsFields, nameSeen: Option<Action>, size: nat): Core {
    match fields
    case Problem(_) => c
    case Asked(q) => AfterPrompt(c, NameRequest(name, r, q), nameSeen, size)
  }

  function AfterDomain(c: Core, name: Name, r: ParsedPacket, decode: Decoder, nameSeen: Option<Action>, size: nat): Core {
    AfterFields(c, name, r, ReadDnsFields(r.body, decode), nameSeen, size)
  }

  /** The readings of the question: the earlier one, and the recheck in the state given. */
  function FieldsReadings(c: Core, name: Name, r: ParsedPacket, fields: DnsFields, nameSeen: Option<Action>): Readings {
    var again := match fields
                 case Problem(_) => None
                 case Asked(q) => PromptAction(c, NameRequest(name, r, q));
    Readings(None, None, nameSeen, again)
  }

  function NameReadings(c: Core, name: Name, r: ParsedPacket, decode: Decoder, nameSeen: Option<Action>): Readings {
    FieldsReadings(c, name, r, ReadDnsFields(r.body, decode), nameSeen)
  }

  /** The transport readings: the earlier one, and the recheck when a prompt is attempted. */
  function TransportReadings(c: Core, name: Name, r: ParsedPacket, decode: Decoder, flowSeen: Option<Action>,
                             nameSeen: Option<Action>, size: nat): Readings {
    var flow := FlowRequest(name, r);
    NameReadings(AfterPrompt(c, flow, flowSeen, size), name, r, decode, nameSeen)
    .(flow := flowSeen, flowAgain := PromptAction(c, flow))
  }

  function AfterTransport(c: Core, name: Name, r: ParsedPacket, decode: Decoder, flowSeen: Option<Action>,
                          nameSeen: Option<Action>, size: nat): Core {
    var flow := FlowRequest(name, r);
    var asked := AfterPrompt(c, flow, flowSeen, size);
    if flowSeen == Some(Allow) || (flowSeen.None? && PromptAction(c, flow) == Some(Allow))
    then AfterDomain(asked, name, r, decode, nameSeen, size) else asked
  }

  /** What handling an attributed packet comes to, whatever was read before. */
  function LaterRuling(c: Core, name: Name, r: ParsedPacket, decode: Decoder, hint: Option<string>,
                       flowSeen: Option<Action>, nameSeen: Option<Action>, size: nat): Ruling {
    if r.malformed.Some? then Drop
    else if IsDnsQuery(r) then
      TransportRuling(ReadDnsFields(r.body, decode), TransportReadings(c, name, r, decode, flowSeen, nameSeen, size))
    else FlowRuling(Readings(flowSeen, PromptAction(c, FlowRequest(name, r).(host := hint)), None, None))
  }

  function AfterAttributed(c: Core, name: Name, r: ParsedPacket, decode: Decoder, hint: Option<string>,
                           flowSeen: Option<Action>, nameSeen: Option<Action>, size: nat): Core {
    if r.malformed.Some? then c
    else if IsDnsQuery(r) then AfterTransport(c, name, r, decode, flowSeen, nameSeen, size)
    else AfterPrompt(c, FlowRequest(name, r).(host := hint), flowSeen, size)
  }

  /** With readings of the same state, that is the verdict of the policy and at most one prompt. */
  lemma SteadyHandling(c: Core, name: Name, r: ParsedPacket, decode: Decoder, hint: Option<string>, size: nat)
    requires DistinctNames(c.sources) && Owner(c.sources, r.src) == Some(name) && name in c.rules
    ensures var flow, asked := MatchingAction(c.rules, FlowRequest(name, r)), NameAction(c.rules, name, r, decode);
            && LaterRuling(c, name, r, decode, hint, flow, asked, size) == PacketRuling(r, decode, SteadyReadings(c.rules, name, r, decode))
            && AfterAttributed(c, name, r, decode, hint, flow, asked, size) == AfterPacket(c, OpenQuestion(c.rules, name, r, decode, hint), size)
  {
    OwnerIsCurrent(c.sources, FlowRequest(name, r));
    OwnerIsCurrent(c.sources, FlowRequest(name, r).(host := hint));
    assert FlowRequest(name, r).(host := hint).AsFlow() == FlowRequest(name, r).AsFlow();
    if ReadDnsFields(r.body, decode).Asked? {
      OwnerIsCurrent(c.sources, NameRequest(name, r, ReadDnsFields(r.body, decode).question));
    }
  }

  class Daemon {
    var sources: SourceMap
    var rules: Rules
    var files: Rules
    var table: Table
    var failed: bool
    const queue: PromptQueue
    const size: nat

    ghost predicate Valid()
      reads this, queue
    {
      queue.Valid() && DistinctNames(sources)
    }

    ghost function State(): Core
      requires Valid()
      reads this, queue
    {
      Core(sources, rules, files, queue.State(), table, failed)
    }

    /** Every known source has rules; true in every state a packet or an answer can find. */
    ghost predicate Ready()
      reads this, queue
    {
      Valid() && !failed && SourceNames(sources) <= rules.Keys
    }

    /** load_policy_without_sources and refresh_sources_required. */
    constructor (files: Rules, sources: SourceMap, dns: Resolver, load: LoadOutcome, size: nat)
      requires DistinctNames(sources)
      ensures Valid() && fresh(queue)
      ensures State() == Startup(files, sources, dns, load)
    {
      var kept := map n | n in files && !Numbered(n) :: files[n];
      this.sources := sources;
      this.files := kept;
      this.rules := map n | n in kept :: ResolvePolicy(kept[n], dns);
      this.table := STATIC_TABLE;
      this.failed := false;
      this.size := size;
      this.queue := new PromptQueue();
      new;
      CleanupDisposableRuleEntries();
      EnsureAllKnownRuleEntries();
      LoadTable(load);
    }

    /** ensure_rule_entry */
    method EnsureRuleEntry(name: Name)
      requires Valid()
      modifies this`rules
      ensures Valid() && State() == EnsureEntry(old(State()), name)
    {
      if name in rules {
        return;
      }
      if name in files {
        rules := rules[name := files[name]];
      } else {
        rules := rules[name := EMPTY_POLICY];
      }
    }

    /** What both cleanups do to one name. */
    method DropName(name: Name)
      requires Valid()
      modifies this`rules, this`files, queue
      ensures Valid() && State() == DropNames(old(State()), {name})
    {
      rules := rules - {name};
      queue.RemovePendingForSource(name);
      files := files - {name};
    }

    /** cleanup_reused_numbered_dispvm_entries */
    method CleanupReusedNumberedEntries(before: SourceMap)
      requires Valid() && DistinctNames(before)
      modifies this`rules, this`files, queue
      ensures Valid() && State() == DropNames(old(State()), ReusedNames(before, sources))
    {
      ghost var start := State();
      ghost var dropped: set<Name> := {};
      DropNamesTwice(start, {}, {});
      for i := 0 to |before|
        invariant Valid() && sources == start.sources
        invariant forall n :: n in dropped <==> n in SourceNames(before[..i]) && n in ReusedNames(before, sources)
        invariant State() == DropNames(start, dropped)
      {
        var name := before[i].name;
        NamesStep(before, i);
        IpsAt(before, i);
        assert name in SourceNames(before);
        if Numbered(name) && IpsOf(sources, name).Some? && IpsOf(sources, name) != Some(before[i].ips) {
          DropName(name);
          DropNamesTwice(start, dropped, {name});
          dropped := dropped + {name};
        }
      }
      assert before[..|before|] == before;
      assert dropped == ReusedNames(before, sources);
    }

    /** cleanup_disposable_rule_entries */
    method CleanupDisposableRuleEntries()
      requires Valid()
      modifies this`rules, this`files, queue
      ensures Valid() && State() == DropNames(old(State()), VanishedNames(old(State())))
    {
      ghost var start := State();
      ghost var dropped: set<Name> := {};
      var todo := rules.Keys;
      DropNamesTwice(start, {}, {});
      while todo != {}
        invariant Valid() && sources == start.sources && todo <= start.rules.Keys
        invariant forall n :: n in dropped <==> n in VanishedNames(start) && n !in todo
        invariant State() == DropNames(start, dropped)
        decreases todo
      {
        var name :| name in todo;
        todo := todo - {name};
        if name !in SourceNames(sources) && Numbered(name) {
          DropName(name);
          DropNamesTwice(start, dropped, {name});
          dropped := dropped + {name};
        }
      }
      assert dropped == VanishedNames(start);
    }

    /** ensure_all_known_rule_entries */
    method EnsureAllKnownRuleEntries()
      requires Valid()
      modifies this`rules
      ensures Valid() && State() == EnsureAll(old(State()))
    {
      ghost var start := State();
      EnsureNoNames(start);
      assert SourceNames(sources[..0]) == {};
      for i := 0 to |sources|
        invariant Valid() && sources == start.sources
        invariant State() == EnsureNames(start, SourceNames(sources[..i]))
      {
        NamesStep(sources, i);
        EnsureNamesStep(start, SourceNames(sources[..i]), sources[i].name);
        EnsureRuleEntry(sources[i].name);
      }
      assert sources[..|sources|] == sources;
    }

    /** load_nft; load is the outcome of the nft commands. */
    method LoadTable(load: LoadOutcome)
      requires Valid()
      modifies this`table, this`failed
      ensures Valid() && State() == LoadNft(old(State()), load)
    {
      if exists e | e in sources :: e.name !in rules {
        failed := true;
        return;
      }
      var rendered := RenderNft(sources, rules);
      match load
      case Loaded =>
        table := rendered;
      case CheckFailed =>
        failed := true;
      case LoadFailed =>
        table := FailClosed();
        failed := true;
      case FallbackFailed(left) =>
        table := left;
        failed := true;
    }

    /** The locked part of refresh_sources_and_nft. */
    method RefreshSources(latest: SourceMap, relabelled: bool, load: LoadOutcome) returns (changed: bool)
      requires Valid() && DistinctNames(latest)
      modifies this, queue
      ensures Valid() && State() == Refresh(old(State()), latest, relabelled, load)
      ensures changed == (relabelled || !SameSources(latest, old(sources)))
    {
      if SameSources(latest, sources) && !relabelled {
        return false;
      }
      var before := sources;
      sources := latest;
      CleanupReusedNumberedEntries(before);
      CleanupDisposableRuleEntries();
      EnsureAllKnownRuleEntries();
      LoadTable(load);
      return true;
    }

    /** append_rule */
    method AppendRuleFor(r: Request, decision: Decision, resolved: seq<Addr>, writeOk: bool)
      requires Valid()
      modifies this`files, this`rules, this`failed
      ensures Valid() && State() == AppendRule(old(State()), r, decision, resolved, writeOk)
    {
      if Numbered(r.source) && r.source !in SourceNames(sources) {
        failed := true;
        return;
      }
      var data := if r.source in files then files[r.source] else EMPTY_POLICY;
      var memory := if r.source in rules then rules[r.source] else EMPTY_POLICY;
      var nextData := AppendAnswer(data, r, decision, []);
      var nextMemory := AppendAnswer(memory, r, decision, resolved);
      if nextData.None? || nextMemory.None? || !writeOk {
        failed := true;
        return;
      }
      files := files[r.source := nextData.value];
      rules := rules[r.source := nextMemory.value];
    }

    /** save_pending_decision with the CLI thread's save_rule and reload_nft. */
    method SavePendingDecision(claim: Entry, decision: Decision, resolved: Option<seq<Addr>>, writeOk: bool, load: LoadOutcome)
      requires Valid() && !failed
      modifies this, queue
      ensures Valid() && State() == Save(old(State()), claim, decision, resolved, writeOk, load)
    {
      var r := claim.request;
      if !Prepared(r, decision, resolved) {
        failed := true;
        return;
      }
      var addrs := Resolved(decision, resolved);
      var claimed := queue.ClaimPending(claim.key, claim.id, r, decision, addrs);
      if !claimed {
        return;
      }
      if SourceCurrent(sources, r) {
        AppendRuleFor(r, decision, addrs, writeOk);
      }
      if !failed {
        LoadTable(load);
      }
    }

    /** queue_prompt */
    method QueuePrompt(r: Request) returns (action: Option<Action>)
      requires Valid()
      modifies this`rules, queue
      ensures Valid() && State() == PromptCore(old(State()), r, size)
      ensures action == PromptAction(old(State()), r)
    {
      if !SourceCurrent(sources, r) {
        return None;
      }
      EnsureRuleEntry(r.source);
      action := MatchingAction(rules, r);
      if action.Some? {
        return action;
      }
      var _ := queue.QueueQuestion(r, size);
      return None;
    }

    /** handle_dns_domain behind add_dns_query_fields. */
    method DecideDomain(name: Name, r: ParsedPacket, fields: DnsFields, nameSeen: Option<Action>) returns (ruling: Ruling)
      requires Valid()
      modifies this`rules, queue
      ensures ruling == DomainRuling(fields, FieldsReadings(old(State()), name, r, fields, nameSeen))
      ensures Valid() && State() == AfterFields(old(State()), name, r, fields, nameSeen, size)
    {
      if fields.Problem? {
        return if fields.problem.Unsupported() then DropAndRefuse else Drop;
      }
      if nameSeen == Some(Allow) {
        return Pass;
      }
      if nameSeen == Some(Reject) {
        return DropAndRefuse;
      }
      var again := QueuePrompt(NameRequest(name, r, fields.question));
      if again == Some(Allow) {
        return Pass;
      }
      if again == Some(Reject) {
        return DropAndRefuse;
      }
      return Drop;
    }

    /** handle_dns_domain. nameSeen is what matching_action returned for the question in its
        own lock section; other threads may have changed the policy since. */
    method HandleDnsDomain(name: Name, r: ParsedPacket, decode: Decoder, nameSeen: Option<Action>) returns (ruling: Ruling)
      requires Valid()
      modifies this`rules, queue
      ensures ruling == DomainRuling(ReadDnsFields(r.body, decode), NameReadings(old(State()), name, r, decode, nameSeen))
      ensures Valid() && State() == AfterDomain(old(State()), name, r, decode, nameSeen, size)
    {
      ruling := DecideDomain(name, r, ReadDnsFields(r.body, decode), nameSeen);
    }

    /** handle_dns_transport, with both policy reads made earlier as arguments. */
    method HandleDnsTransport(name: Name, r: ParsedPacket, decode: Decoder, flowSeen: Option<Action>, nameSeen: Option<Action>)
      returns (ruling: Ruling)
      requires Valid()
      modifies this`rules, queue
      ensures ruling == TransportRuling(ReadDnsFields(r.body, decode),
                                        TransportReadings(old(State()), name, r, decode, flowSeen, nameSeen, size))
      ensures Valid() && State() == AfterTransport(old(State()), name, r, decode, flowSeen, nameSeen, size)
    {
      if flowSeen == Some(Reject) {
        return Drop;
      }
      if flowSeen == None {
        var again := QueuePrompt(FlowRequest(name, r));
        if again == Some(Allow) {
          ruling := HandleDnsDomain(name, r, decode, nameSeen);
          return;
        }
        return Drop;
      }
      ruling := HandleDnsDomain(name, r, decode, nameSeen);
    }

    /** handle_flow_packet; hint is a fresh cached A name of the destination. */
    method HandleFlowPacket(name: Name, r: ParsedPacket, hint: Option<string>, flowSeen: Option<Action>) returns (ruling: Ruling)
      requires Valid()
      modifies this`rules, queue
      ensures ruling == FlowRuling(Readings(flowSeen, PromptAction(old(State()), FlowRequest(name, r).(host := hint)), None, None))
      ensures Valid() && State() == AfterPrompt(old(State()), FlowRequest(name, r).(host := hint), flowSeen, size)
    {
      if flowSeen.Some? {
        return if flowSeen.value == Allow then Pass else Drop;
      }
      var again := QueuePrompt(FlowRequest(name, r).(host := hint));
      return if again == Some(Allow) then Pass else Drop;
    }

    /** handle_packet once the source is known: the policy readings were made earlier, in lock
        sections of their own, and the state may have moved on since. */
    method HandleAttributed(name: Name, r: ParsedPacket, decode: Decoder, hint: Option<string>,
                            flowSeen: Option<Action>, nameSeen: Option<Action>) returns (ruling: Ruling)
      requires Valid()
      modifies this`rules, queue
      ensures ruling == LaterRuling(old(State()), name, r, decode, hint, flowSeen, nameSeen, size)
      ensures Valid() && State() == AfterAttributed(old(State()), name, r, decode, hint, flowSeen, nameSeen, size)
    {
      if r.malformed.Some? {
        return Drop;
      }
      if IsDnsQuery(r) {
        ruling := HandleDnsTransport(name, r, decode, flowSeen, nameSeen);
      } else {
        ruling := HandleFlowPacket(name, r, hint, flowSeen);
      }
    }

    /** The core for a packet whose address nobody owns. */
    method HandleUnknownSource(src: Addr, latest: SourceMap, relabelled: bool, load: LoadOutcome)
      requires Valid() && DistinctNames(latest)
      modifies this, queue
      ensures Valid() && State() == AfterUnknown(old(State()), src, latest, relabelled, load)
    {
      var _ := RefreshSources(latest, relabelled, load);
      if !failed && Owner(sources, src).None? {
        failed := true;
      }
    }

    /** handle_packet for a known source, when nothing else happens between its lock sections. */
    method HandleKnownSource(name: Name, r: ParsedPacket, decode: Decoder, hint: Option<string>) returns (ruling: Ruling)
      requires Ready() && Owner(sources, r.src) == Some(name)
      modifies this`rules, queue
      ensures ruling == PacketRuling(r, decode, SteadyReadings(old(rules), name, r, decode))
      ensures Valid() && State() == AfterPacket(old(State()), OpenQuestion(old(rules), name, r, decode, hint), size)
    {
      OwnerIsCurrent(sources, FlowRequest(name, r));
      EnsureRuleEntry(name);
      SteadyHandling(State(), name, r, decode, hint, size);
      ruling := HandleAttributed(name, r, decode, hint, MatchingAction(rules, FlowRequest(name, r)), NameAction(rules, name, r, decode));
    }

    /** handle_packet: the verdict on a queued packet and the prompt it may leave behind. An
        unknown source forces one refresh; it passes nothing, and if it is still unknown the
        daemon stops. */
    method HandlePacket(payload: seq<byte>, decode: Decoder, hint: Option<string>,
                        latest: SourceMap, relabelled: bool, load: LoadOutcome) returns (ruling: Ruling)
      requires Ready() && DistinctNames(latest)
      modifies this, queue
      ensures Valid()
      ensures var c, p := old(State()), Parsed(payload);
              if p.None? then ruling == Drop && State() == c
              else if Owner(c.sources, p.value.src).None? then
                ruling == Drop && State() == AfterUnknown(c, p.value.src, latest, relabelled, load)
              else
                var name := Owner(c.sources, p.value.src).value;
                && ruling == PacketRuling(p.value, decode, SteadyReadings(c.rules, name, p.value, decode))
                && State() == AfterPacket(c, OpenQuestion(c.rules, name, p.value, decode, hint), size)
    {
      var parsed := ParsePacket(payload);
      if parsed.None? {
        return Drop;
      }
      var r := parsed.value;
      var owner := Owner(sources, r.src);
      if owner.None? {
        HandleUnknownSource(r.src, latest, relabelled, load);
        return Drop;
      }
      ruling := HandleKnownSource(owner.value, r, decode, hint);
    }
  }
}
