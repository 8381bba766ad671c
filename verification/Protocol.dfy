/** Packet thread, CLI thread and source watcher stepping over the shared state, one
    lock-protected block at a time, with a history of what happened to every prompt. */
module Protocol {
  import opened Wrappers
  import opened Policy
  import opened Nft
  import opened Runtime

  // --------------------------------------------------------------------- events

  datatype Event =
    | PacketAttribute(src: Addr)
    | PacketPrompt(request: Request)
    | CliTake
    | CliEnrich(host: Option<string>)
    | CliDiscard
    | CliHangUp
    | CliAnswer(decision: Decision, resolved: Option<seq<Addr>>, writeOk: bool, load: LoadOutcome)
    | Publish(sources: SourceMap, relabelled: bool, load: LoadOutcome)
    | Fatal

  /** The handlers only queue what the parser and the DNS filter let through. */
  ghost predicate ValidEvent(e: Event) {
    e.PacketPrompt? ==> Promptable(e.request)
  }

  datatype Fate = Waiting | Claimed | Swept | Discarded | CleanedUp

  /** A prompt as it was raised, with the epoch its source name was in. */
  datatype Raise = Raise(request: Request, epoch: nat)

  datatype Saved = SavedFlow(flow: FlowRule) | SavedDns(dns: DnsRule)

  datatype Answer = Answer(id: nat, source: Name, epoch: nat, saved: Saved)

  /** epochs counts how often a name's published address list changed, disappearing and
      reappearing included. */
  datatype History = History(epochs: map<Name, nat>, raised: map<nat, Raise>, fates: map<nat, Fate>, log: seq<Answer>)

  /** cli is the prompt the CLI thread is showing, outside any lock. */
  datatype State = State(core: Core, cli: Option<Entry>, hist: History)

  // ---------------------------------------------------------------------- steps

  /** enrich_request only improves the host text of flow prompts. */
  function WithHost(claim: Entry, host: Option<string>): Entry {
    if host.None? || claim.request.question.Some? then claim else claim.(request := claim.request.(host := host))
  }

  function StepCore(c: Core, cli: Option<Entry>, e: Event, size: nat): Core {
    if c.failed then c
    else match e
      case PacketAttribute(src) => Attribute(c, src)
      case PacketPrompt(r) => PromptCore(c, r, size)
      case CliTake => c
      case CliEnrich(_) =>
        if cli.Some? && !SourceCurrent(c.sources, cli.value.request) then c.(queue := Discard(c.queue, cli.value.key, cli.value.id)) else c
      case CliDiscard =>
        if cli.Some? then c.(queue := Discard(c.queue, cli.value.key, cli.value.id)) else c
      case CliHangUp => c
      case CliAnswer(decision, resolved, writeOk, load) =>
        if cli.Some? then Save(c, cli.value, decision, resolved, writeOk, load) else c
      case Publish(sources, relabelled, load) => Refresh(c, sources, relabelled, load)
      case Fatal => c.(failed := true)
  }

  function StepCli(c: Core, cli: Option<Entry>, e: Event): Option<Entry> {
    if c.failed then cli
    else match e
      case CliTake => if cli.None? && c.queue.pending != [] then Some(c.queue.pending[0]) else cli
      case CliEnrich(host) =>
        if cli.Some? && SourceCurrent(c.sources, cli.value.request) then Some(WithHost(cli.value, host)) else None
      case CliDiscard => None
      case CliHangUp => None
      case CliAnswer(_, _, _, _) => None
      case _ => cli
  }

  function EpochOf(epochs: map<Name, nat>, name: Name): nat {
    if name in epochs then epochs[name] else 0
  }

  function NextEpochs(epochs: map<Name, nat>, before: SourceMap, after: SourceMap): map<Name, nat> {
    map n | n in epochs.Keys + SourceNames(before) + SourceNames(after) ::
      EpochOf(epochs, n) + (if IpsOf(before, n) == IpsOf(after, n) then 0 else 1)
  }

  /** Why a prompt left the queue. */
  function Cause(e: Event, cli: Option<Entry>, id: nat): Fate {
    match e
    case CliAnswer(_, _, _, _) => if cli.Some? && cli.value.id == id then Claimed else Swept
    case Publish(_, _, _) => CleanedUp
    case _ => Discarded
  }

  function NextFates(fates: map<nat, Fate>, before: QueueState, after: QueueState, e: Event, cli: Option<Entry>): map<nat, Fate> {
    map id | id in fates.Keys + (if before.next < after.next then {before.next} else {}) ::
      if id in fates then
        (if HasId(before.pending, id) && !HasId(after.pending, id) then Cause(e, cli, id) else fates[id])
      else Waiting
  }

  function NextRaised(h: History, before: QueueState, after: QueueState, e: Event): map<nat, Raise> {
    if e.PacketPrompt? && after.next > before.next
    then h.raised[before.next := Raise(e.request, EpochOf(h.epochs, e.request.source))]
    else h.raised
  }

  /** The rule a policy grew by. */
  function Growth(before: SourcePolicy, after: SourcePolicy): Option<Saved> {
    if |after.ip| > |before.ip| then Some(SavedFlow(after.ip[|after.ip| - 1]))
    else if |after.dns| > |before.dns| then Some(SavedDns(after.dns[|after.dns| - 1]))
    else None
  }

  function PolicyOf(rules: Rules, name: Name): SourcePolicy {
    if name in rules then rules[name] else EMPTY_POLICY
  }

  function NextLog(h: History, before: Core, after: Core, e: Event, cli: Option<Entry>): seq<Answer> {
    if e.CliAnswer? && cli.Some? && cli.value.id in h.raised then
      var source := cli.value.request.source;
      var growth := Growth(PolicyOf(before.rules, source), PolicyOf(after.rules, source));
      if growth.Some? then h.log + [Answer(cli.value.id, source, h.raised[cli.value.id].epoch, growth.value)] else h.log
    else h.log
  }

  function StepHistory(h: History, before: Core, after: Core, e: Event, cli: Option<Entry>): History {
    History(NextEpochs(h.epochs, before.sources, after.sources),
            NextRaised(h, before.queue, after.queue, e),
            NextFates(h.fates, before.queue, after.queue, e, cli),
            NextLog(h, before, after, e, cli))
  }

  function Step(s: State, e: Event, size: nat): State {
    var after := StepCore(s.core, s.cli, e, size);
    State(after, StepCli(s.core, s.cli, e), StepHistory(s.hist, s.core, after, e, s.cli))
  }

  function Run(s: State, events: seq<Event>, size: nat): State
    decreases |events|
  {
    if events == [] then s else Run(Step(s, events[0], size), events[1..], size)
  }

  function Start(files: Rules, sources: SourceMap, dns: Resolver, load: LoadOutcome): State {
    State(Startup(files, sources, dns, load), None, History(map[], map[], map[], []))
  }

  /** Rule files as loaded and validated: no resolved addresses in them. */
  ghost predicate ValidFiles(files: Rules) {
    forall n :: n in files ==> ValidFlowRules(files[n].ip) && StripPolicy(files[n]) == files[n]
  }

  // ----------------------------------------------------------------- invariants

  ghost predicate Ordered(pending: seq<Entry>) {
    forall i, j :: 0 <= i < j < |pending| ==> pending[i].id < pending[j].id && pending[i].key != pending[j].key
  }

  ghost predicate EntryOk(e: Entry, next: nat) {
    e.key == QuestionKey(e.request) && Promptable(e.request) && 1 <= e.id < next
  }

  /** Pending prompts are distinct questions, numbered in queue order, within the bound. */
  ghost predicate QueueInv(q: QueueState, size: nat) {
    && |q.pending| <= size && q.next >= 1
    && Ordered(q.pending)
    && forall e :: e in q.pending ==> EntryOk(e, q.next)
  }

  /** The files hold exactly the rules in memory, minus resolved addresses. */
  ghost predicate FilesInv(c: Core) {
    && c.files.Keys <= c.rules.Keys
    && forall n :: n in c.rules ==> ValidFlowRules(c.rules[n].ip) && StripPolicy(c.rules[n]) == FileOf(c.files, n)
  }

  ghost predicate UndecidedInv(c: Core) {
    forall e :: e in c.queue.pending ==> e.request.source in c.rules && MatchingAction(c.rules, e.request).None?
  }

  ghost predicate NumberedInv(c: Core) {
    forall n :: n in c.rules && Numbered(n) ==> n in SourceNames(c.sources)
  }

  /** Every known source has rules and the loaded table is the rendering of both. */
  ghost predicate TableInv(c: Core) {
    !c.failed ==> CoversSources(c.sources, c.rules) && c.table == Rendered(c.sources, c.rules)
  }

  ghost predicate KnownInv(c: Core) {
    !c.failed ==> SourceNames(c.sources) <= c.rules.Keys
  }

  ghost predicate PolicyInv(c: Core, size: nat) {
    && QueueInv(c.queue, size) && FilesInv(c) && UndecidedInv(c) && NumberedInv(c) && KnownInv(c)
  }

  // ------------------------------------------------- what leaves the queue, and how

  lemma {:induction false} WithoutSourcesMembers(pending: seq<Entry>, names: set<Name>)
    ensures forall e :: e in WithoutSources(pending, names) <==> e in pending && e.key.source !in names
    ensures |WithoutSources(pending, names)| <= |pending|
    ensures Ordered(pending) ==> Ordered(WithoutSources(pending, names))
  {
    if pending != [] {
      WithoutSourcesMembers(pending[1..], names);
      OrderedTail(pending, WithoutSources(pending[1..], names));
      assert forall e :: e in pending <==> e == pending[0] || e in pending[1..];
    }
  }

  lemma {:induction false} WithoutSiblingsMembers(pending: seq<Entry>, r: Request, resolved: seq<Addr>)
    ensures forall e :: e in WithoutSiblings(pending, r, resolved) <==> e in pending && !Sibling(e.request, r, resolved)
    ensures |WithoutSiblings(pending, r, resolved)| <= |pending|
    ensures Ordered(pending) ==> Ordered(WithoutSiblings(pending, r, resolved))
  {
    if pending != [] {
      WithoutSiblingsMembers(pending[1..], r, resolved);
      OrderedTail(pending, WithoutSiblings(pending[1..], r, resolved));
      assert forall e :: e in pending <==> e == pending[0] || e in pending[1..];
    }
  }

  lemma {:induction false} WithoutKeyMembers(pending: seq<Entry>, key: Key)
    requires Ordered(pending)
    ensures forall e :: e in WithoutKey(pending, key) <==> e in pending && e.key != key
    ensures |WithoutKey(pending, key)| <= |pending|
    ensures Ordered(WithoutKey(pending, key))
  {
    if pending != [] {
      assert forall e :: e in pending <==> e == pending[0] || e in pending[1..];
      WithoutKeyMembers(pending[1..], key);
      OrderedTail(pending, WithoutKey(pending[1..], key));
    }
  }

  /** A shrunken, ordered tail may follow the old head. */
  lemma OrderedTail(pending: seq<Entry>, tail: seq<Entry>)
    requires pending != []
    requires forall e :: e in tail ==> e in pending[1..]
    ensures Ordered(pending) ==> Ordered(pending[1..])
    ensures Ordered(pending) && Ordered(tail) ==> Ordered([pending[0]] + tail)
  {
    if Ordered(pending) && Ordered(tail) {
      var all := [pending[0]] + tail;
      forall i, j | 0 <= i < j < |all|
        ensures all[i].id < all[j].id && all[i].key != all[j].key
      {
        assert all[j] == tail[j - 1] && tail[j - 1] in pending[1..];
        if i == 0 {
          var k :| 0 <= k < |pending[1..]| && pending[1..][k] == all[j];
          assert pending[k + 1] == all[j];
        } else {
          assert all[i] == tail[i - 1];
        }
      }
    }
  }

  lemma HasIdMeans(pending: seq<Entry>, id: nat)
    ensures HasId(pending, id) <==> exists e :: e in pending && e.id == id
  {
  }

  lemma IsPendingMeans(pending: seq<Entry>, key: Key, id: nat)
    ensures IsPending(pending, key, id) <==> exists e :: e in pending && e.key == key && e.id == id
  {
  }

  lemma SameIdSameEntry(pending: seq<Entry>, a: Entry, b: Entry)
    requires Ordered(pending) && a in pending && b in pending && (a.id == b.id || a.key == b.key)
    ensures a == b
  {
  }

  /** What any step may do to queue, sources and rules; the history lemmas need no more. */
  ghost predicate Moves(before: Core, after: Core, e: Event) {
    && before.queue.next <= after.queue.next <= before.queue.next + 1
    && (after.queue.next > before.queue.next ==> e.PacketPrompt? && HasId(after.queue.pending, before.queue.next))
    && (forall x :: x in after.queue.pending && x !in before.queue.pending ==>
          && e.PacketPrompt? && after.queue.next > before.queue.next
          && x == Entry(QuestionKey(e.request), e.request, before.queue.next))
    && (!e.Publish? ==> after.sources == before.sources)
    && (forall x :: x in after.queue.pending && Numbered(x.request.source) ==>
          IpsOf(after.sources, x.request.source) == IpsOf(before.sources, x.request.source))
    && (!e.CliAnswer? && !e.Publish? ==> after.rules == before.rules)
  }

  // ----------------------------------------------------------- core steps one by one

  lemma EnsureEntryInert(c: Core, name: Name)
    requires name in c.rules
    ensures EnsureEntry(c, name) == c
  {
  }

  lemma {:induction false} IpsOfListed(sources: SourceMap, name: Name)
    ensures IpsOf(sources, name).Some? <==> name in SourceNames(sources)
    ensures name in SourceNames(sources) ==> exists e :: e in sources && e.name == name
  {
    if name in SourceNames(sources) {
      var i :| 0 <= i < |sources| && sources[i].name == name;
      assert sources[i] in sources;
    }
    if sources != [] {
      IpsOfListed(sources[1..], name);
      if name in SourceNames(sources[1..]) {
        var i :| 0 <= i < |sources[1..]| && sources[1..][i].name == name;
        assert sources[i + 1].name == name;
      }
      if name in SourceNames(sources) && sources[0].name != name {
        var i :| 0 <= i < |sources| && sources[i].name == name;
        assert sources[1..][i - 1].name == name;
      }
    }
  }

  lemma {:induction false} OwnerListed(sources: SourceMap, ip: Addr)
    ensures Owner(sources, ip).Some? ==> Owner(sources, ip).value in SourceNames(sources)
  {
    if sources != [] {
      OwnerListed(sources[1..], ip);
      if Owner(sources[1..], ip).Some? {
        var i :| 0 <= i < |sources[1..]| && sources[1..][i].name == Owner(sources[1..], ip).value;
        assert sources[i + 1].name == sources[1..][i].name;
      }
    }
  }

  /** On the packet path ensure_rule_entry finds every source it is asked about. */
  lemma AttributeIsInert(c: Core, src: Addr)
    requires KnownInv(c) && !c.failed && Owner(c.sources, src).Some?
    ensures Attribute(c, src) == c
  {
    OwnerListed(c.sources, src);
  }

  /** So a prompt only ever appends to the queue. */
  lemma PromptEffect(c: Core, r: Request, size: nat)
    requires KnownInv(c) && !c.failed
    ensures SourceCurrent(c.sources, r) ==> r.source in c.rules
    ensures var q' := PromptCore(c, r, size).queue;
            && PromptCore(c, r, size) == c.(queue := q')
            && (q' == c.queue ||
                (&& q' == QueueState(c.queue.pending + [Entry(QuestionKey(r), r, c.queue.next)], c.queue.next + 1)
                 && !HasKey(c.queue.pending, QuestionKey(r)) && |c.queue.pending| < size
                 && r.source in c.rules && MatchingAction(c.rules, r).None? && SourceCurrent(c.sources, r)))
  {
    if SourceCurrent(c.sources, r) {
      IpsOfListed(c.sources, r.source);
      EnsureEntryInert(c, r.source);
    }
  }

  lemma PromptKeepsInv(c: Core, r: Request, size: nat)
    requires PolicyInv(c, size) && !c.failed && Promptable(r)
    ensures PolicyInv(PromptCore(c, r, size), size)
    ensures Moves(c, PromptCore(c, r, size), PacketPrompt(r))
  {
    PromptEffect(c, r, size);
    PendingNumbered(c, size);
    var q, q' := c.queue, PromptCore(c, r, size).queue;
    if q' != q {
      var e := Entry(QuestionKey(r), r, q.next);
      assert q'.pending[|q.pending|] == e;
      assert forall x :: x in q'.pending <==> x in q.pending || x == e;
      forall i | 0 <= i < |q.pending|
        ensures q.pending[i].id < e.id && q.pending[i].key != e.key
      {
        assert q.pending[i] in q.pending;
      }
    }
  }

  lemma PendingNumbered(c: Core, size: nat)
    requires PolicyInv(c, size)
    ensures forall x :: x in c.queue.pending ==> x.key.source == x.request.source && x.request.source in c.rules
    ensures forall x :: x in c.queue.pending && Numbered(x.request.source) ==> x.request.source in SourceNames(c.sources)
  {
  }

  lemma DiscardKeepsInv(c: Core, key: Key, id: nat, size: nat, e: Event)
    requires PolicyInv(c, size) && !e.Publish?
    ensures PolicyInv(c.(queue := Discard(c.queue, key, id)), size)
    ensures Moves(c, c.(queue := Discard(c.queue, key, id)), e)
  {
    WithoutKeyMembers(c.queue.pending, key);
  }

  /** Dropping names takes rules, file and prompts together. */
  lemma DropKeepsInv(c: Core, names: set<Name>, size: nat)
    requires QueueInv(c.queue, size) && FilesInv(c) && UndecidedInv(c)
    ensures var d := DropNames(c, names);
            QueueInv(d.queue, size) && FilesInv(d) && UndecidedInv(d)
  {
    WithoutSourcesMembers(c.queue.pending, names);
    var d := DropNames(c, names);
    forall e | e in d.queue.pending
      ensures e.request.source in d.rules && MatchingAction(d.rules, e.request).None?
    {
      assert EntryOk(e, c.queue.next);
    }
  }

  lemma EnsureAllKeepsInv(c: Core, size: nat)
    requires QueueInv(c.queue, size) && FilesInv(c) && UndecidedInv(c)
    ensures var d := EnsureAll(c);
            && QueueInv(d.queue, size) && FilesInv(d) && UndecidedInv(d)
            && d == c.(rules := d.rules)
            && d.rules.Keys == c.rules.Keys + SourceNames(c.sources)
            && (forall n :: n in c.rules ==> d.rules[n] == c.rules[n])
            && (forall n :: n in d.rules && n !in c.rules ==> d.rules[n] == EMPTY_POLICY)
  {
  }

  lemma AllCovered(c: Core)
    requires SourceNames(c.sources) <= c.rules.Keys
    ensures Covered(c) && CoversSources(c.sources, c.rules)
  {
  }

  lemma CoveredKnows(c: Core)
    requires Covered(c)
    ensures SourceNames(c.sources) <= c.rules.Keys
  {
  }

  /** The names both cleanups drop: numbered names whose published addresses changed. */
  predicate Stale(c: Core, sources: SourceMap, n: Name) {
    Numbered(n) && IpsOf(sources, n) != IpsOf(c.sources, n)
  }

  lemma CleanedRules(c: Core, sources: SourceMap, n: Name)
    requires NumberedInv(c)
    ensures n in Cleaned(c, sources).rules <==> n in c.rules && !Stale(c, sources, n)
    ensures n in Cleaned(c, sources).rules ==> Cleaned(c, sources).rules[n] == c.rules[n]
  {
    IpsOfListed(sources, n);
    IpsOfListed(c.sources, n);
    var reused := DropNames(c.(sources := sources), ReusedNames(c.sources, sources));
    assert n in ReusedNames(c.sources, sources) <==>
           n in SourceNames(c.sources) && Numbered(n) && IpsOf(sources, n).Some? && IpsOf(sources, n) != IpsOf(c.sources, n);
    assert n in VanishedNames(reused) <==> n in reused.rules && n !in SourceNames(sources) && Numbered(n);
  }

  lemma CleanedQueue(c: Core, sources: SourceMap, x: Entry, size: nat)
    requires PolicyInv(c, size)
    ensures x in Cleaned(c, sources).queue.pending <==> x in c.queue.pending && !Stale(c, sources, x.request.source)
  {
    var reused := DropNames(c.(sources := sources), ReusedNames(c.sources, sources));
    WithoutSourcesMembers(c.queue.pending, ReusedNames(c.sources, sources));
    WithoutSourcesMembers(reused.queue.pending, VanishedNames(reused));
    if x in c.queue.pending {
      PendingNumbered(c, size);
      CleanedRules(c, sources, x.request.source);
    }
  }

  /** A refresh drops exactly the stale names, with their files and prompts. */
  lemma CleanedKeepsInv(c: Core, sources: SourceMap, size: nat)
    requires PolicyInv(c, size)
    ensures var d := Cleaned(c, sources);
            && QueueInv(d.queue, size) && FilesInv(d) && UndecidedInv(d)
            && (forall n :: n in d.rules && Numbered(n) ==> n in SourceNames(sources))
            && d.sources == sources && d.failed == c.failed && d.queue.next == c.queue.next
  {
    var published := c.(sources := sources);
    var reused := DropNames(published, ReusedNames(c.sources, sources));
    DropKeepsInv(published, ReusedNames(c.sources, sources), size);
    DropKeepsInv(reused, VanishedNames(reused), size);
  }

  lemma LoadFrame(c: Core, load: LoadOutcome)
    ensures var t := LoadNft(c, load);
            && t == c.(table := t.table, failed := t.failed)
            && (Covered(c) && load.Loaded? ==> t.failed == c.failed && t.table == Rendered(c.sources, c.rules))
            && (!(Covered(c) && load.Loaded?) ==> t.failed)
  {
  }

  lemma RefreshEffect(c: Core, sources: SourceMap, relabelled: bool, load: LoadOutcome, size: nat)
    requires PolicyInv(c, size)
    ensures var t := Refresh(c, sources, relabelled, load);
            || t == c
            || (t == EnsureAll(Cleaned(c, sources)).(table := t.table, failed := t.failed)
                && (!t.failed ==> !c.failed && Covered(t) && t.table == Rendered(t.sources, t.rules)))
  {
  }

  lemma RefreshKeepsInv(c: Core, sources: SourceMap, relabelled: bool, load: LoadOutcome, size: nat)
    requires PolicyInv(c, size)
    ensures PolicyInv(Refresh(c, sources, relabelled, load), size)
    ensures Moves(c, Refresh(c, sources, relabelled, load), Publish(sources, relabelled, load))
  {
    RefreshEffect(c, sources, relabelled, load, size);
    var t := Refresh(c, sources, relabelled, load);
    if t != c {
      CleanedKeepsInv(c, sources, size);
      EnsureAllKeepsInv(Cleaned(c, sources), size);
      forall x | x in t.queue.pending
        ensures x in c.queue.pending && !Stale(c, sources, x.request.source)
      {
        CleanedQueue(c, sources, x, size);
      }
    }
  }

  // ------------------------------------------------------------------ the answer step

  /** The file and the memory copy grow by the same rule, resolved addresses aside. */
  lemma AnswerGrowsBoth(memory: SourcePolicy, r: Request, decision: Decision, resolved: seq<Addr>)
    ensures var file := AppendAnswer(StripPolicy(memory), r, decision, []);
            var grown := AppendAnswer(memory, r, decision, resolved);
            && (file.Some? <==> grown.Some?)
            && (grown.Some? ==> file.value == StripPolicy(grown.value))
  {
  }

  /** An answer leaves every prompt that is still pending undecided. */
  lemma AnswerLeavesOthersUndecided(policy: SourcePolicy, r: Request, decision: Decision, resolved: seq<Addr>, other: Request)
    requires Promptable(r) && Promptable(other)
    requires AppendAnswer(policy, r, decision, resolved).Some?
    requires QuestionKey(other) != QuestionKey(r) && other.source == r.source
    requires decision.ForHostname() ==> !Sibling(other, r, resolved)
    requires PolicyAction(policy, other).None?
    ensures PolicyAction(AppendAnswer(policy, r, decision, resolved).value, other).None?
  {
    match r.question
    case Some(q) =>
      if other.question.Some? {
        DnsAnswerMatchesOnlyItsQuestion(q, decision, other.question.value);
        FirstDnsConcat(policy.dns, [DnsRuleFor(q, decision).value], other.question.value);
      }
    case None =>
      if other.question.None? {
        FlowAnswerCovers(r, decision, resolved, other);
        FirstFlowConcat(policy.ip, [FlowRuleFor(r, decision, resolved).value], other.AsFlow());
      }
  }

  lemma AnswerKeepsRulesValid(policy: SourcePolicy, r: Request, decision: Decision, resolved: seq<Addr>)
    requires ValidFlowRules(policy.ip) && AppendAnswer(policy, r, decision, resolved).Some?
    ensures ValidFlowRules(AppendAnswer(policy, r, decision, resolved).value.ip)
  {
  }

  lemma ClaimMembers(q: QueueState, claim: Entry, decision: Decision, resolved: seq<Addr>, size: nat)
    requires QueueInv(q, size)
    ensures var q' := Claim(q, claim.key, claim.request, decision, resolved);
            && QueueInv(q', size) && q'.next == q.next
            && forall e :: e in q'.pending <==>
                 && e in q.pending && e.key != claim.key
                 && (decision.ForHostname() ==> !Sibling(e.request, claim.request, resolved))
  {
    WithoutKeyMembers(q.pending, claim.key);
    WithoutSiblingsMembers(WithoutKey(q.pending, claim.key), claim.request, resolved);
  }

  /** What the CLI shows is the prompt that was raised, up to the host text. */
  ghost predicate ClaimOk(claim: Entry) {
    claim.key == QuestionKey(claim.request) && Promptable(claim.request)
  }

  /** append_rule: nothing, or one more rule for the source in memory and on file. */
  lemma AppendEffect(c: Core, r: Request, decision: Decision, resolved: seq<Addr>, writeOk: bool)
    requires r.source in c.rules && !c.failed
    ensures var d := AppendRule(c, r, decision, resolved, writeOk);
            || d == c.(failed := true)
            || (&& AppendAnswer(c.rules[r.source], r, decision, resolved).Some?
                && AppendAnswer(FileOf(c.files, r.source), r, decision, []).Some?
                && d == c.(files := c.files[r.source := AppendAnswer(FileOf(c.files, r.source), r, decision, []).value],
                           rules := c.rules[r.source := AppendAnswer(c.rules[r.source], r, decision, resolved).value]))
  {
  }

  lemma AppendKeepsInv(c: Core, claim: Entry, decision: Decision, resolved: seq<Addr>, writeOk: bool, size: nat)
    requires PolicyInv(c, size)
    requires !c.failed && ClaimOk(claim) && claim.request.source in c.rules
    requires forall e :: e in c.queue.pending ==>
               e.key != claim.key && (decision.ForHostname() ==> !Sibling(e.request, claim.request, resolved))
    ensures PolicyInv(AppendRule(c, claim.request, decision, resolved, writeOk), size)
  {
    var r := claim.request;
    var memory := c.rules[r.source];
    AppendEffect(c, r, decision, resolved, writeOk);
    var d := AppendRule(c, r, decision, resolved, writeOk);
    if d != c.(failed := true) {
      AnswerGrowsBoth(memory, r, decision, resolved);
      AnswerKeepsRulesValid(memory, r, decision, resolved);
      forall e | e in d.queue.pending
        ensures MatchingAction(d.rules, e.request).None?
      {
        if e.request.source == r.source {
          AnswerLeavesOthersUndecided(memory, r, decision, resolved, e.request);
        }
      }
    }
  }

  /** Claiming and appending together, before the table is reloaded. */
  lemma SettleEffect(c: Core, claim: Entry, decision: Decision, resolved: seq<Addr>, writeOk: bool, size: nat)
    requires PolicyInv(c, size) && !c.failed && ClaimOk(claim)
    ensures var d := Settle(c, claim, decision, resolved, writeOk);
            && PolicyInv(d, size) && d.sources == c.sources
            && d.queue == Claim(c.queue, claim.key, claim.request, decision, resolved)
            && (d.rules == c.rules ||
                (&& claim.request.source in c.rules && SourceCurrent(c.sources, claim.request)
                 && AppendAnswer(c.rules[claim.request.source], claim.request, decision, resolved).Some?
                 && d.rules == c.rules[claim.request.source := AppendAnswer(c.rules[claim.request.source], claim.request, decision, resolved).value]))
  {
    var r := claim.request;
    var claimed := c.(queue := Claim(c.queue, claim.key, r, decision, resolved));
    ClaimMembers(c.queue, claim, decision, resolved, size);
    if SourceCurrent(c.sources, r) {
      IpsOfListed(c.sources, r.source);
      AppendKeepsInv(claimed, claim, decision, resolved, writeOk, size);
      AppendEffect(claimed, r, decision, resolved, writeOk);
    }
  }

  /** save_pending_decision as a whole: nothing but a failure, or Settle and a reload. */
  lemma SaveEffect(c: Core, claim: Entry, decision: Decision, resolved: Option<seq<Addr>>, writeOk: bool, load: LoadOutcome)
    requires !c.failed
    ensures var t := Save(c, claim, decision, resolved, writeOk, load);
            var d := Settle(c, claim, decision, Resolved(decision, resolved), writeOk);
            || t == c || t == c.(failed := true)
            || (&& IsPending(c.queue.pending, claim.key, claim.id) && Prepared(claim.request, decision, resolved)
                && t == d.(table := t.table, failed := t.failed)
                && (!t.failed ==> Covered(t) && t.table == Rendered(t.sources, t.rules)))
  {
  }

  /** One rule for the answer appended to the source's rules. */
  ghost predicate RuleAppended(before: Rules, after: Rules, r: Request, decision: Decision, addrs: seq<Addr>) {
    && r.source in before && AppendAnswer(before[r.source], r, decision, addrs).Some?
    && after == before[r.source := AppendAnswer(before[r.source], r, decision, addrs).value]
  }

  /** The prompt shown was claimed, and perhaps its rule appended. */
  ghost predicate AnswerTaken(c: Core, t: Core, claim: Entry, decision: Decision, resolved: Option<seq<Addr>>) {
    && IsPending(c.queue.pending, claim.key, claim.id) && Prepared(claim.request, decision, resolved)
    && t.queue == Claim(c.queue, claim.key, claim.request, decision, Resolved(decision, resolved))
    && (t.rules == c.rules ||
        (SourceCurrent(c.sources, claim.request) && RuleAppended(c.rules, t.rules, claim.request, decision, Resolved(decision, resolved))))
  }

  lemma SaveCases(c: Core, claim: Entry, decision: Decision, resolved: Option<seq<Addr>>, writeOk: bool, load: LoadOutcome, size: nat)
    requires PolicyInv(c, size) && !c.failed && ClaimOk(claim)
    ensures var t := Save(c, claim, decision, resolved, writeOk, load);
            && t.sources == c.sources
            && ((t.queue == c.queue && t.rules == c.rules && t.files == c.files)
                || AnswerTaken(c, t, claim, decision, resolved))
  {
    SaveEffect(c, claim, decision, resolved, writeOk, load);
    SettleEffect(c, claim, decision, Resolved(decision, resolved), writeOk, size);
  }

  lemma SettleMoves(c: Core, claim: Entry, decision: Decision, resolved: seq<Addr>, writeOk: bool, size: nat, e: Event)
    requires PolicyInv(c, size) && !c.failed && ClaimOk(claim) && e.CliAnswer?
    ensures Moves(c, Settle(c, claim, decision, resolved, writeOk), e)
  {
    SettleEffect(c, claim, decision, resolved, writeOk, size);
    ClaimMembers(c.queue, claim, decision, resolved, size);
  }

  lemma SaveKeepsInv(c: Core, claim: Entry, decision: Decision, resolved: Option<seq<Addr>>, writeOk: bool, load: LoadOutcome, size: nat, e: Event)
    requires PolicyInv(c, size) && !c.failed && ClaimOk(claim) && e.CliAnswer?
    ensures PolicyInv(Save(c, claim, decision, resolved, writeOk, load), size)
    ensures Moves(c, Save(c, claim, decision, resolved, writeOk, load), e)
  {
    var t := Save(c, claim, decision, resolved, writeOk, load);
    SaveEffect(c, claim, decision, resolved, writeOk, load);
    if t != c && t != c.(failed := true) {
      SettleEffect(c, claim, decision, Resolved(decision, resolved), writeOk, size);
      SettleMoves(c, claim, decision, Resolved(decision, resolved), writeOk, size, e);
      if !t.failed {
        CoveredKnows(t);
      }
    }
  }

  lemma StepKeepsPolicyInv(c: Core, cli: Option<Entry>, e: Event, size: nat)
    requires PolicyInv(c, size) && ValidEvent(e) && (cli.Some? ==> ClaimOk(cli.value))
    ensures PolicyInv(StepCore(c, cli, e, size), size)
    ensures Moves(c, StepCore(c, cli, e, size), e)
  {
    PendingNumbered(c, size);
    if !c.failed {
      match e
      case PacketAttribute(src) =>
        if Owner(c.sources, src).Some? {
          AttributeIsInert(c, src);
        }
      case PacketPrompt(r) => PromptKeepsInv(c, r, size);
      case CliEnrich(_) =>
        if cli.Some? {
          DiscardKeepsInv(c, cli.value.key, cli.value.id, size, e);
        }
      case CliDiscard =>
        if cli.Some? {
          DiscardKeepsInv(c, cli.value.key, cli.value.id, size, e);
        }
      case CliAnswer(decision, resolved, writeOk, load) =>
        if cli.Some? {
          SaveKeepsInv(c, cli.value, decision, resolved, writeOk, load, size, e);
        }
      case Publish(sources, relabelled, load) => RefreshKeepsInv(c, sources, relabelled, load, size);
      case _ =>
    }
  }

  /** The loaded table follows every change of sources or rules. */
  lemma StepKeepsTableInv(c: Core, cli: Option<Entry>, e: Event, size: nat)
    requires PolicyInv(c, size) && TableInv(c)
    ensures TableInv(StepCore(c, cli, e, size))
  {
    if !c.failed {
      match e
      case PacketAttribute(src) =>
        if Owner(c.sources, src).Some? {
          AttributeIsInert(c, src);
        }
      case PacketPrompt(r) => PromptEffect(c, r, size);
      case CliAnswer(decision, resolved, writeOk, load) =>
        if cli.Some? {
          SaveEffect(c, cli.value, decision, resolved, writeOk, load);
        }
      case Publish(sources, relabelled, load) => RefreshEffect(c, sources, relabelled, load, size);
      case _ =>
    }
  }

  ghost predicate AnswerOutcome(c: Core, t: Core, claim: Entry, e: Event)
    requires e.CliAnswer?
  {
    && t.sources == c.sources
    && ((t.queue == c.queue && t.rules == c.rules && t.files == c.files) || AnswerTaken(c, t, claim, e.decision, e.resolved))
  }

  lemma AnswerCases(c: Core, cli: Option<Entry>, e: Event, size: nat)
    requires PolicyInv(c, size) && e.CliAnswer? && cli.Some? && ClaimOk(cli.value)
    ensures AnswerOutcome(c, StepCore(c, cli, e, size), cli.value, e)
  {
    if !c.failed {
      SaveCases(c, cli.value, e.decision, e.resolved, e.writeOk, e.load, size);
    }
  }

  // ------------------------------------------------------- invariants of the history

  /** Every id ever issued is on record, and pending numbered prompts were raised in the
      current epoch of their name. */
  ghost predicate RaisedInv(h: History, q: QueueState) {
    && (forall id :: id in h.raised <==> 1 <= id < q.next)
    && (forall id :: id in h.raised ==> h.raised[id].epoch <= EpochOf(h.epochs, h.raised[id].request.source))
    && (forall e :: e in q.pending ==> e.id in h.raised && h.raised[e.id].request == e.request)
    && (forall e :: e in q.pending && Numbered(e.request.source) ==> h.raised[e.id].epoch == EpochOf(h.epochs, e.request.source))
  }

  ghost predicate SameButHost(a: Request, b: Request) {
    a.(host := b.host) == b
  }

  /** The prompt on the CLI is one that was raised under its id. */
  ghost predicate CliInv(h: History, cli: Option<Entry>) {
    cli.Some? ==>
      && ClaimOk(cli.value) && cli.value.id in h.raised
      && SameButHost(h.raised[cli.value.id].request, cli.value.request)
  }

  /** An id waits exactly as long as it is pending. */
  ghost predicate FateInv(fates: map<nat, Fate>, q: QueueState) {
    && (forall id :: id in fates <==> 1 <= id < q.next)
    && (forall id :: id in fates ==> (fates[id] == Waiting <==> HasId(q.pending, id)))
  }

  ghost predicate AnswerOk(h: History, a: Answer) {
    && a.id in h.raised && a.source == h.raised[a.id].request.source
    && a.epoch == h.raised[a.id].epoch
    && a.id in h.fates && h.fates[a.id] == Claimed
  }

  /** At most one rule per id, and only for claimed ids. */
  ghost predicate LogInv(h: History) {
    && (forall a :: a in h.log ==> AnswerOk(h, a))
    && (forall i, j :: 0 <= i < j < |h.log| ==> h.log[i].id != h.log[j].id)
  }

  function Extend(p: SourcePolicy, saved: Saved): SourcePolicy {
    match saved
    case SavedFlow(flow) => p.(ip := p.ip + [flow])
    case SavedDns(dns) => p.(dns := p.dns + [dns])
  }

  /** The policy made of the answers given to prompts raised in one epoch of a name. */
  function PolicyFrom(log: seq<Answer>, name: Name, epoch: nat): SourcePolicy {
    if log == [] then EMPTY_POLICY
    else
      var last, before := log[|log| - 1], PolicyFrom(log[..|log| - 1], name, epoch);
      if last.source == name && last.epoch == epoch then Extend(before, last.saved) else before
  }

  /** The rules of a numbered name are exactly the answers of its current epoch. */
  ghost predicate FreshInv(h: History, rules: Rules) {
    forall n: Name :: Numbered(n) ==> PolicyOf(rules, n) == PolicyFrom(h.log, n, EpochOf(h.epochs, n))
  }

  ghost predicate HistInv(s: State) {
    && RaisedInv(s.hist, s.core.queue) && CliInv(s.hist, s.cli) && FateInv(s.hist.fates, s.core.queue)
    && LogInv(s.hist) && FreshInv(s.hist, s.core.rules)
  }

  ghost predicate Inv(s: State, size: nat) {
    PolicyInv(s.core, size) && TableInv(s.core) && HistInv(s)
  }

  lemma EpochStep(epochs: map<Name, nat>, before: SourceMap, after: SourceMap, n: Name)
    ensures EpochOf(NextEpochs(epochs, before, after), n) ==
            EpochOf(epochs, n) + (if IpsOf(before, n) == IpsOf(after, n) then 0 else 1)
  {
    IpsOfListed(before, n);
    IpsOfListed(after, n);
  }

  lemma {:induction false} NoAnswersYet(log: seq<Answer>, n: Name, epoch: nat)
    requires forall a :: a in log && a.source == n ==> a.epoch < epoch
    ensures PolicyFrom(log, n, epoch) == EMPTY_POLICY
  {
    if log != [] {
      assert log[|log| - 1] in log;
      NoAnswersYet(log[..|log| - 1], n, epoch);
    }
  }

  // ------------------------------------------------- the history across one step

  lemma FatesFollow(fates: map<nat, Fate>, before: Core, after: Core, e: Event, cli: Option<Entry>)
    requires FateInv(fates, before.queue) && Moves(before, after, e) && before.queue.next >= 1
    ensures FateInv(NextFates(fates, before.queue, after.queue, e, cli), after.queue)
  {
    var next := NextFates(fates, before.queue, after.queue, e, cli);
    forall id | id in next
      ensures next[id] == Waiting <==> HasId(after.queue.pending, id)
    {
      HasIdMeans(before.queue.pending, id);
      HasIdMeans(after.queue.pending, id);
    }
  }

  /** Once a prompt has met its fate it keeps it. */
  lemma FateIsFinal(fates: map<nat, Fate>, before: Core, after: Core, e: Event, cli: Option<Entry>, id: nat)
    requires FateInv(fates, before.queue) && id in fates && fates[id] != Waiting
    ensures var next := NextFates(fates, before.queue, after.queue, e, cli);
            id in next && next[id] == fates[id]
  {
  }

  lemma RaisedFollow(h: History, before: Core, after: Core, e: Event, cli: Option<Entry>)
    requires RaisedInv(h, before.queue) && Moves(before, after, e)
    requires before.queue.next >= 1
    ensures RaisedInv(StepHistory(h, before, after, e, cli), after.queue)
  {
    var raised := NextRaised(h, before.queue, after.queue, e);
    var epochs := NextEpochs(h.epochs, before.sources, after.sources);
    forall x | x in after.queue.pending
      ensures x.id in raised && raised[x.id].request == x.request
      ensures Numbered(x.request.source) ==> raised[x.id].epoch == EpochOf(epochs, x.request.source)
    {
      EpochStep(h.epochs, before.sources, after.sources, x.request.source);
    }
    forall id | id in raised
      ensures raised[id].epoch <= EpochOf(epochs, raised[id].request.source)
    {
      EpochStep(h.epochs, before.sources, after.sources, raised[id].request.source);
    }
  }

  lemma CliFollow(h: History, c: Core, cli: Option<Entry>, after: Core, e: Event, size: nat)
    requires CliInv(h, cli) && RaisedInv(h, c.queue) && QueueInv(c.queue, size)
    ensures CliInv(StepHistory(h, c, after, e, cli), StepCli(c, cli, e))
  {
    if e.CliTake? && c.queue.pending != [] {
      assert c.queue.pending[0] in c.queue.pending;
    }
  }

  // -------------------------------------------------------- the log across one step

  lemma GrowthOfAnswer(p: SourcePolicy, r: Request, decision: Decision, resolved: seq<Addr>)
    requires AppendAnswer(p, r, decision, resolved).Some?
    ensures var after := AppendAnswer(p, r, decision, resolved).value;
            Growth(p, after).Some? && after == Extend(p, Growth(p, after).value)
  {
  }

  /** A step that is recorded in the log: an answer to the prompt shown, still pending,
      claimed by this step, whose rule was appended to its source. */
  ghost predicate Appended(s: State, t: State, saved: Saved) {
    && s.cli.Some? && s.cli.value.id in s.hist.raised
    && var claim, source := s.cli.value, s.cli.value.request.source;
       && source in s.core.rules
       && IsPending(s.core.queue.pending, claim.key, claim.id)
       && claim.id in s.hist.fates && s.hist.fates[claim.id] == Waiting
       && claim.id in t.hist.fates && t.hist.fates[claim.id] == Claimed
       && t.hist.log == s.hist.log + [Answer(claim.id, source, s.hist.raised[claim.id].epoch, saved)]
       && t.core.rules == s.core.rules[source := Extend(s.core.rules[source], saved)]
  }

  lemma ClaimedFate(q: QueueState, claim: Entry, decision: Decision, resolved: seq<Addr>, size: nat)
    requires QueueInv(q, size) && IsPending(q.pending, claim.key, claim.id)
    ensures HasId(q.pending, claim.id)
    ensures !HasId(Claim(q, claim.key, claim.request, decision, resolved).pending, claim.id)
  {
    var q' := Claim(q, claim.key, claim.request, decision, resolved);
    ClaimMembers(q, claim, decision, resolved, size);
    IsPendingMeans(q.pending, claim.key, claim.id);
    HasIdMeans(q.pending, claim.id);
    HasIdMeans(q'.pending, claim.id);
    forall x | x in q'.pending
      ensures x.id != claim.id
    {
      var y :| y in q.pending && y.key == claim.key && y.id == claim.id;
      if x.id == claim.id {
        SameIdSameEntry(q.pending, x, y);
      }
    }
  }

  lemma TakenIsClaimed(s: State, t: State, e: Event, size: nat)
    requires QueueInv(s.core.queue, size) && HistInv(s) && e.CliAnswer? && s.cli.Some?
    requires AnswerTaken(s.core, t.core, s.cli.value, e.decision, e.resolved)
    requires t.hist == StepHistory(s.hist, s.core, t.core, e, s.cli)
    ensures s.cli.value.id in s.hist.fates && s.hist.fates[s.cli.value.id] == Waiting
    ensures s.cli.value.id in t.hist.fates && t.hist.fates[s.cli.value.id] == Claimed
  {
    ClaimedFate(s.core.queue, s.cli.value, e.decision, Resolved(e.decision, e.resolved), size);
  }

  /** The answer that takes the prompt shown is logged with the rule it appended. */
  lemma TakenIsLogged(s: State, t: State, e: Event, size: nat)
    requires QueueInv(s.core.queue, size) && HistInv(s) && e.CliAnswer? && s.cli.Some?
    requires AnswerTaken(s.core, t.core, s.cli.value, e.decision, e.resolved) && t.core.rules != s.core.rules
    requires t.hist == StepHistory(s.hist, s.core, t.core, e, s.cli)
    ensures exists saved :: Appended(s, t, saved)
  {
    var claim, addrs := s.cli.value, Resolved(e.decision, e.resolved);
    var source := claim.request.source;
    GrowthOfAnswer(s.core.rules[source], claim.request, e.decision, addrs);
    TakenIsClaimed(s, t, e, size);
    assert Appended(s, t, Growth(s.core.rules[source], t.core.rules[source]).value);
  }

  lemma SameRulesSameLog(h: History, before: Core, after: Core, e: Event, cli: Option<Entry>)
    requires !e.CliAnswer? || after.rules == before.rules
    ensures NextLog(h, before, after, e, cli) == h.log
  {
  }

  /** Outside a refresh the rules change only by an answer that is logged. */
  ghost predicate Logged(s: State, t: State, e: Event) {
    || (t.hist.log == s.hist.log && (!e.Publish? ==> t.core.rules == s.core.rules))
    || (!e.Publish? && exists saved :: Appended(s, t, saved))
  }

  lemma AnswerIsLogged(s: State, t: State, e: Event, size: nat)
    requires QueueInv(s.core.queue, size) && HistInv(s) && e.CliAnswer? && s.cli.Some?
    requires AnswerOutcome(s.core, t.core, s.cli.value, e)
    requires t.hist == StepHistory(s.hist, s.core, t.core, e, s.cli)
    ensures Logged(s, t, e)
  {
    if t.core.rules != s.core.rules {
      TakenIsLogged(s, t, e, size);
    } else {
      SameRulesSameLog(s.hist, s.core, t.core, e, s.cli);
    }
  }

  lemma OthersAreLogged(s: State, t: State, e: Event)
    requires Moves(s.core, t.core, e) && (e.CliAnswer? ==> t.core.rules == s.core.rules)
    requires t.hist == StepHistory(s.hist, s.core, t.core, e, s.cli)
    ensures Logged(s, t, e)
  {
    SameRulesSameLog(s.hist, s.core, t.core, e, s.cli);
  }

  lemma LogCases(s: State, e: Event, size: nat)
    requires PolicyInv(s.core, size) && HistInv(s) && ValidEvent(e)
    ensures Logged(s, Step(s, e, size), e)
  {
    if e.CliAnswer? && s.cli.Some? {
      AnswerCases(s.core, s.cli, e, size);
      AnswerIsLogged(s, Step(s, e, size), e, size);
    } else {
      StepKeepsPolicyInv(s.core, s.cli, e, size);
      OthersAreLogged(s, Step(s, e, size), e);
    }
  }

  lemma LogFollow(s: State, t: State)
    requires LogInv(s.hist)
    requires forall id :: id in s.hist.raised ==> id in t.hist.raised && t.hist.raised[id] == s.hist.raised[id]
    requires forall id :: id in s.hist.fates && s.hist.fates[id] != Waiting ==> id in t.hist.fates && t.hist.fates[id] == s.hist.fates[id]
    requires CliInv(s.hist, s.cli)
    requires t.hist.log == s.hist.log || exists saved :: Appended(s, t, saved)
    ensures LogInv(t.hist)
  {
    forall i, j | 0 <= i < j < |t.hist.log|
      ensures t.hist.log[i].id != t.hist.log[j].id
    {
      assert s.hist.log[i] in s.hist.log;
    }
  }

  /** A published map drops the rules of a numbered name exactly when its addresses changed. */
  ghost predicate RulesKept(before: Core, after: Core, n: Name) {
    && (!Stale(before, after.sources, n) ==> PolicyOf(after.rules, n) == PolicyOf(before.rules, n))
    && (Stale(before, after.sources, n) ==> PolicyOf(after.rules, n) == EMPTY_POLICY)
  }

  lemma StaleRulesAreDropped(c: Core, sources: SourceMap, relabelled: bool, load: LoadOutcome, size: nat, n: Name)
    requires PolicyInv(c, size)
    ensures RulesKept(c, Refresh(c, sources, relabelled, load), n)
  {
    RefreshEffect(c, sources, relabelled, load, size);
    CleanedKeepsInv(c, sources, size);
    EnsureAllKeepsInv(Cleaned(c, sources), size);
    CleanedRules(c, sources, n);
  }

  /** What a step may do to the rules of a numbered name: keep them, drop them when its
      addresses changed, or append the answer that was logged. */
  ghost predicate RulesFollowLog(s: State, t: State, n: Name) {
    || (&& t.hist.log == s.hist.log
        && RulesKept(s.core, t.core, n))
    || (t.core.sources == s.core.sources && exists saved :: Appended(s, t, saved))
  }

  lemma PublishedRules(c: Core, cli: Option<Entry>, e: Event, size: nat, n: Name)
    requires PolicyInv(c, size) && e.Publish?
    ensures RulesKept(c, StepCore(c, cli, e, size), n)
  {
    if !c.failed {
      StaleRulesAreDropped(c, e.sources, e.relabelled, e.load, size, n);
    }
  }

  lemma PublishFollowsLog(s: State, t: State, e: Event, n: Name)
    requires e.Publish? && RulesKept(s.core, t.core, n)
    requires t.hist == StepHistory(s.hist, s.core, t.core, e, s.cli)
    ensures RulesFollowLog(s, t, n)
  {
    SameRulesSameLog(s.hist, s.core, t.core, e, s.cli);
  }

  lemma OthersFollowLog(s: State, e: Event, size: nat, n: Name)
    requires PolicyInv(s.core, size) && HistInv(s) && ValidEvent(e) && !e.Publish?
    ensures RulesFollowLog(s, Step(s, e, size), n)
  {
    LogCases(s, e, size);
    StepKeepsPolicyInv(s.core, s.cli, e, size);
  }

  lemma FreshByLog(s: State, t: State, n: Name)
    requires HistInv(s) && Numbered(n) && RulesFollowLog(s, t, n)
    requires t.hist.epochs == NextEpochs(s.hist.epochs, s.core.sources, t.core.sources)
    ensures PolicyOf(t.core.rules, n) == PolicyFrom(t.hist.log, n, EpochOf(t.hist.epochs, n))
  {
    EpochStep(s.hist.epochs, s.core.sources, t.core.sources, n);
    if IpsOf(t.core.sources, n) != IpsOf(s.core.sources, n) {
      NoAnswersYet(s.hist.log, n, EpochOf(s.hist.epochs, n) + 1);
    }
  }

  lemma FreshFollow(s: State, e: Event, size: nat)
    requires PolicyInv(s.core, size) && HistInv(s) && ValidEvent(e)
    ensures FreshInv(Step(s, e, size).hist, Step(s, e, size).core.rules)
  {
    forall n: Name | Numbered(n)
      ensures PolicyOf(Step(s, e, size).core.rules, n)
           == PolicyFrom(Step(s, e, size).hist.log, n, EpochOf(Step(s, e, size).hist.epochs, n))
    {
      if e.Publish? {
        PublishedRules(s.core, s.cli, e, size, n);
        PublishFollowsLog(s, Step(s, e, size), e, n);
      } else {
        OthersFollowLog(s, e, size, n);
      }
      FreshByLog(s, Step(s, e, size), n);
    }
  }

  lemma StepKeepsRecords(s: State, e: Event, size: nat)
    requires PolicyInv(s.core, size) && HistInv(s) && ValidEvent(e)
    ensures var t := Step(s, e, size);
            RaisedInv(t.hist, t.core.queue) && CliInv(t.hist, t.cli) && FateInv(t.hist.fates, t.core.queue)
  {
    var t := Step(s, e, size);
    StepKeepsPolicyInv(s.core, s.cli, e, size);
    RaisedFollow(s.hist, s.core, t.core, e, s.cli);
    CliFollow(s.hist, s.core, s.cli, t.core, e, size);
    FatesFollow(s.hist.fates, s.core, t.core, e, s.cli);
  }

  lemma StepKeepsLog(s: State, e: Event, size: nat)
    requires PolicyInv(s.core, size) && HistInv(s) && ValidEvent(e)
    ensures LogInv(Step(s, e, size).hist)
  {
    LogCases(s, e, size);
    LogFollow(s, Step(s, e, size));
  }

  lemma StepKeepsHistInv(s: State, e: Event, size: nat)
    requires PolicyInv(s.core, size) && HistInv(s) && ValidEvent(e)
    ensures HistInv(Step(s, e, size))
  {
    StepKeepsRecords(s, e, size);
    StepKeepsLog(s, e, size);
    FreshFollow(s, e, size);
  }

  lemma StepKeepsInv(s: State, e: Event, size: nat)
    requires Inv(s, size) && ValidEvent(e)
    ensures Inv(Step(s, e, size), size)
  {
    StepKeepsPolicyInv(s.core, s.cli, e, size);
    StepKeepsTableInv(s.core, s.cli, e, size);
    StepKeepsHistInv(s, e, size);
  }

  lemma ResolveStrips(p: SourcePolicy, dns: Resolver)
    requires StripPolicy(p) == p && ValidFlowRules(p.ip)
    ensures StripPolicy(ResolvePolicy(p, dns)) == p && ValidFlowRules(ResolvePolicy(p, dns).ip)
  {
    var q := ResolvePolicy(p, dns);
    forall i | 0 <= i < |p.ip|
      ensures StripRules(q.ip)[i] == p.ip[i] && q.ip[i].Valid()
    {
      assert p.ip[i] in p.ip && StripRules(p.ip)[i] == p.ip[i];
    }
  }

  lemma LoadedHasInv(files: Rules, sources: SourceMap, dns: Resolver, size: nat)
    requires ValidFiles(files)
    ensures var c := LoadedPolicy(files, sources, dns);
            && QueueInv(c.queue, size) && FilesInv(c) && UndecidedInv(c)
            && (forall n :: n in c.rules ==> !Numbered(n))
  {
    var c := LoadedPolicy(files, sources, dns);
    forall n | n in c.rules
      ensures ValidFlowRules(c.rules[n].ip) && StripPolicy(c.rules[n]) == FileOf(c.files, n)
    {
      ResolveStrips(files[n], dns);
    }
  }

  lemma StartHasInv(files: Rules, sources: SourceMap, dns: Resolver, load: LoadOutcome, size: nat)
    requires ValidFiles(files)
    ensures Inv(Start(files, sources, dns, load), size)
    ensures !Startup(files, sources, dns, load).failed <==> load.Loaded?
  {
    var loaded := LoadedPolicy(files, sources, dns);
    var dropped := DropNames(loaded, VanishedNames(loaded));
    LoadedHasInv(files, sources, dns, size);
    DropKeepsInv(loaded, VanishedNames(loaded), size);
    EnsureAllKeepsInv(dropped, size);
    AllCovered(EnsureAll(dropped));
    LoadFrame(EnsureAll(dropped), load);
    NumberedStartEmpty(dropped);
  }

  lemma NumberedStartEmpty(c: Core)
    requires forall n :: n in c.rules ==> !Numbered(n)
    ensures var d := EnsureAll(c);
            forall n :: n in d.rules && Numbered(n) ==> n in SourceNames(c.sources)
  {
  }

  lemma {:induction false} RunKeepsInv(s: State, events: seq<Event>, size: nat)
    requires Inv(s, size) && forall e :: e in events ==> ValidEvent(e)
    ensures Inv(Run(s, events, size), size)
    decreases |events|
  {
    if events != [] {
      StepKeepsInv(s, events[0], size);
      RunKeepsInv(Step(s, events[0], size), events[1..], size);
    }
  }
}
