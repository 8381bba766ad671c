/** What holds after every run of the three threads, from every startup. */
module Guarantees {
  import opened Wrappers
  import opened DnsNames
  import opened Policy
  import opened PolicyMeaning
  import opened Nft
  import opened NftMeaning
  import opened Packets
  import opened Handlers
  import opened EndToEnd
  import opened ReplyLimits
  import opened Runtime
  import opened StateMeaning
  import opened Protocol
  import opened Checksums

  ghost predicate ValidRun(files: Rules, events: seq<Event>) {
    ValidFiles(files) && forall e :: e in events ==> ValidEvent(e)
  }

  function After(files: Rules, sources: SourceMap, dns: Resolver, load: LoadOutcome, events: seq<Event>, size: nat): State {
    Run(Start(files, sources, dns, load), events, size)
  }

  lemma ReachableInv(files: Rules, sources: SourceMap, dns: Resolver, load: LoadOutcome, events: seq<Event>, size: nat)
    requires ValidRun(files, events)
    ensures Inv(After(files, sources, dns, load, events, size), size)
  {
    StartHasInv(files, sources, dns, load, size);
    RunKeepsInv(Start(files, sources, dns, load), events, size);
  }

  // -------------------------------------------------------------- open questions

  /** In every reachable state each pending question is one current rules leave open, is
      listed once, in the order of its id, and the queue is within its bound. */
  lemma PendingQuestionsAreOpen(files: Rules, sources: SourceMap, dns: Resolver, load: LoadOutcome, events: seq<Event>, size: nat)
    requires ValidRun(files, events)
    ensures var c := After(files, sources, dns, load, events, size).core;
            && |c.queue.pending| <= size
            && (forall i, j :: 0 <= i < j < |c.queue.pending| ==>
                  c.queue.pending[i].id < c.queue.pending[j].id &&
                  !SameQuestion(c.queue.pending[i].request, c.queue.pending[j].request))
            && (forall e :: e in c.queue.pending ==> MatchingAction(c.rules, e.request).None?)
  {
    ReachableInv(files, sources, dns, load, events, size);
    var c := After(files, sources, dns, load, events, size).core;
    forall i, j | 0 <= i < j < |c.queue.pending|
      ensures !SameQuestion(c.queue.pending[i].request, c.queue.pending[j].request)
    {
      QuestionKeyMeaning(c.queue.pending[i].request, c.queue.pending[j].request);
      assert EntryOk(c.queue.pending[i], c.queue.next) && EntryOk(c.queue.pending[j], c.queue.next);
    }
  }

  /** An answer whose rule is saved becomes the action in force for its question. */
  lemma SavedAnswerIsInForce(s: State, e: Event, size: nat)
    requires Inv(s, size) && ValidEvent(e) && e.CliAnswer? && s.cli.Some?
    requires Step(s, e, size).core.rules != s.core.rules
    ensures MatchingAction(Step(s, e, size).core.rules, s.cli.value.request) == Some(e.decision.ToAction())
  {
    var r := s.cli.value.request;
    AnswerCases(s.core, s.cli, e, size);
    AnswerDecidesItsQuestion(s.core.rules[r.source], r, e.decision, Resolved(e.decision, e.resolved), r);
    ClaimedWasOpen(s, size);
  }

  /** A prompt's rule can always be built, except for a host name decision on a DNS question. */
  lemma AnswerHasRule(policy: SourcePolicy, r: Request, decision: Decision, resolved: Option<seq<Addr>>)
    requires Promptable(r) && Prepared(r, decision, resolved)
    ensures var after := AppendAnswer(policy, r, decision, Resolved(decision, resolved));
            && (after.Some? <==> (r.question.Some? ==> !decision.ForHostname()))
            && (after.Some? ==> after.value != policy)
  {
    if r.question.Some? {
      PromptedQuestionSavesUnchanged(r.question.value, r.question.value.qname, SUPPORTED_TABLE);
    }
    var after := AppendAnswer(policy, r, decision, Resolved(decision, resolved));
    assert after.Some? ==> |after.value.ip| + |after.value.dns| == |policy.ip| + |policy.dns| + 1;
  }

  lemma AppendsIff(c: Core, r: Request, decision: Decision, resolved: Option<seq<Addr>>, writeOk: bool)
    requires FilesInv(c) && !c.failed && r.source in c.rules && r.source in SourceNames(c.sources)
    requires Promptable(r) && Prepared(r, decision, resolved)
    ensures AppendRule(c, r, decision, Resolved(decision, resolved), writeOk).rules != c.rules <==>
            writeOk && (r.question.Some? ==> !decision.ForHostname())
  {
    AnswerGrowsBoth(c.rules[r.source], r, decision, Resolved(decision, resolved));
    AnswerHasRule(c.rules[r.source], r, decision, resolved);
  }

  lemma SavesIff(c: Core, claim: Entry, decision: Decision, resolved: Option<seq<Addr>>, writeOk: bool, load: LoadOutcome, size: nat)
    requires PolicyInv(c, size) && !c.failed && ClaimOk(claim)
    ensures var r := claim.request;
            Save(c, claim, decision, resolved, writeOk, load).rules != c.rules <==>
            && Prepared(r, decision, resolved) && IsPending(c.queue.pending, claim.key, claim.id)
            && SourceCurrent(c.sources, r) && writeOk && (r.question.Some? ==> !decision.ForHostname())
  {
    var r, addrs := claim.request, Resolved(decision, resolved);
    if Prepared(r, decision, resolved) && IsPending(c.queue.pending, claim.key, claim.id) {
      LoadFrame(Settle(c, claim, decision, addrs, writeOk), load);
      if SourceCurrent(c.sources, r) {
        IpsOfListed(c.sources, r.source);
        AppendsIff(c.(queue := Claim(c.queue, claim.key, r, decision, addrs)), r, decision, resolved, writeOk);
      }
    }
  }

  /** The prompt shown is still pending. */
  ghost predicate StillPending(s: State)
    requires s.cli.Some?
  {
    exists x :: x in s.core.queue.pending && x.id == s.cli.value.id
  }

  lemma ShownIsPending(s: State, size: nat)
    requires Inv(s, size) && s.cli.Some?
    ensures IsPending(s.core.queue.pending, s.cli.value.key, s.cli.value.id) <==> StillPending(s)
  {
    IsPendingMeans(s.core.queue.pending, s.cli.value.key, s.cli.value.id);
    forall x | x in s.core.queue.pending && x.id == s.cli.value.id
      ensures x.key == s.cli.value.key
    {
      assert s.hist.raised[x.id].request == x.request;
    }
  }

  /** The conditions of a save: the prompt shown is pending, the map in force lists its address
      under its name, the file can be written, and a host name decision is one on a flow whose host
      text names a host that resolved to several addresses, the prompt's among them. */
  ghost predicate Savable(s: State, e: Event)
    requires e.CliAnswer? && s.cli.Some?
  {
    var r := s.cli.value.request;
    && StillPending(s) && ListedAt(s.core.sources, r.source, r.src) && e.writeOk
    && (e.decision.DecideAllowDns? || e.decision.DecideRejectDns? ==>
          && r.question.None? && NamesHost(r.host)
          && e.resolved.Some? && |e.resolved.value| >= 2 && r.dst in e.resolved.value)
  }

  /** Exactly when an answer is saved; in every other case the rules stay as they were. A source map
      that is no dict could only keep more answers from being saved. */
  lemma AnswerSavesIff(s: State, e: Event, size: nat)
    requires Inv(s, size) && ValidEvent(e) && e.CliAnswer? && s.cli.Some? && !s.core.failed
    ensures Step(s, e, size).core.rules != s.core.rules ==> Savable(s, e)
    ensures DistinctNames(s.core.sources) && Savable(s, e) ==> Step(s, e, size).core.rules != s.core.rules
  {
    SavesIff(s.core, s.cli.value, e.decision, e.resolved, e.writeOk, e.load, size);
    ShownIsPending(s, size);
    SourceCurrentMeaning(s.core.sources, s.cli.value.request);
    NamesHostMeaning(s.cli.value.request.host);
  }

  /** A prompt is queued only for an address the map in force lists under its name, for a question no
      rule decides and no pending prompt asks, while there is room; and then it is. */
  lemma PromptQueuesIff(s: State, r: Request, size: nat)
    requires Inv(s, size) && Promptable(r) && !s.core.failed
    ensures var q, q' := s.core.queue, Step(s, PacketPrompt(r), size).core.queue;
            && (q' != q ==> q' == QueueState(q.pending + [Entry(QuestionKey(r), r, q.next)], q.next + 1)
                            && Promptworthy(s.core, r, size))
            && (DistinctNames(s.core.sources) && Promptworthy(s.core, r, size) ==> q' != q)
  {
    PromptEffect(s.core, r, size);
    SourceCurrentMeaning(s.core.sources, r);
    KeyFindsAsked(s.core.queue.pending, r);
    IpsOfListed(s.core.sources, r.source);
  }

  ghost predicate Promptworthy(c: Core, r: Request, size: nat) {
    && ListedAt(c.sources, r.source, r.src) && MatchingAction(c.rules, r).None?
    && !AskedAlready(c.queue.pending, r) && |c.queue.pending| < size
  }

  lemma DiscardMembers(s: State, size: nat)
    requires Inv(s, size) && s.cli.Some?
    ensures var claim, q := s.cli.value, s.core.queue;
            forall x :: x in Discard(q, claim.key, claim.id).pending <==> x in q.pending && x.id != claim.id
  {
    var claim, q := s.cli.value, s.core.queue;
    ShownIsPending(s, size);
    WithoutKeyMembers(q.pending, claim.key);
    IsPendingMeans(q.pending, claim.key, claim.id);
    forall x | x in q.pending && IsPending(q.pending, claim.key, claim.id)
      ensures x.key == claim.key <==> x.id == claim.id
    {
      var y :| y in q.pending && y.key == claim.key && y.id == claim.id;
      if x.key == claim.key || x.id == claim.id {
        SameIdSameEntry(q.pending, x, y);
      }
    }
  }

  /** Discarding takes the prompt shown out of the queue, and nothing else happens. */
  lemma DiscardRemovesShown(s: State, e: Event, size: nat)
    requires Inv(s, size) && e.CliDiscard? && s.cli.Some? && !s.core.failed
    ensures var t := Step(s, e, size);
            && t.cli.None? && t.core == s.core.(queue := t.core.queue) && t.core.queue.next == s.core.queue.next
            && forall x :: x in t.core.queue.pending <==> x in s.core.queue.pending && x.id != s.cli.value.id
  {
    DiscardMembers(s, size);
  }

  /** The prompt with the host text found for it; a DNS question keeps its own. */
  function ShownWith(shown: Entry, host: Option<string>): Entry {
    if shown.request.question.None? && host.Some? then shown.(request := shown.request.(host := host)) else shown
  }

  /** Before a prompt is shown its address must still be listed under its name; otherwise it is discarded. */
  lemma OnlyListedIsShown(s: State, e: Event, size: nat)
    requires Inv(s, size) && e.CliEnrich? && s.cli.Some? && !s.core.failed
    ensures var t, shown := Step(s, e, size), s.cli.value;
            && (t.cli.Some? ==> ListedAt(s.core.sources, shown.request.source, shown.request.src)
                                && t.cli.value == ShownWith(shown, e.host) && t.core == s.core)
            && (t.cli.None? ==> !StillPending(t.(cli := s.cli)))
            && (DistinctNames(s.core.sources) && ListedAt(s.core.sources, shown.request.source, shown.request.src) ==> t.cli.Some?)
  {
    SourceCurrentMeaning(s.core.sources, s.cli.value.request);
    DiscardMembers(s, size);
  }

  /** A connection is for one prompt: it ends with the answer, the discard or a hang-up, which leaves the
      prompt pending; no other thread takes the prompt off the screen. */
  lemma OnePromptPerConnection(s: State, e: Event, size: nat)
    requires !s.core.failed
    ensures e.CliAnswer? || e.CliDiscard? || e.CliHangUp? ==> Step(s, e, size).cli.None?
    ensures e.CliHangUp? ==> Step(s, e, size).core == s.core
    ensures e.PacketAttribute? || e.PacketPrompt? || e.Publish? || e.Fatal? ==> Step(s, e, size).cli == s.cli
  {
  }

  /** What is wrong with a host name decision: no host text to go by, or a resolution that does not fit. */
  ghost predicate BadHostDecision(r: Request, decision: Decision, resolved: Option<seq<Addr>>) {
    && (decision.DecideAllowDns? || decision.DecideRejectDns?)
    && !(NamesHost(r.host) && resolved.Some? && |resolved.value| >= 2 && r.dst in resolved.value)
  }

  /** What stops the daemon: an unknown sender, a bad host name decision, a rule that cannot be built or
      written, a table that cannot be loaded, and anything fatal elsewhere. */
  ghost predicate Stops(s: State, e: Event) {
    match e
    case PacketAttribute(src) => !exists x :: x in s.core.sources && src in x.ips
    case PacketPrompt(_) => false
    case CliTake => false
    case CliEnrich(_) => false
    case CliDiscard => false
    case CliHangUp => false
    case CliAnswer(decision, resolved, writeOk, load) =>
      s.cli.Some? &&
      (BadHostDecision(s.cli.value.request, decision, resolved) ||
       (StillPending(s) && (!load.Loaded? || (StillListed(s) && (!writeOk || HostForQuestion(s, decision))))))
    case Publish(sources, relabelled, load) => (relabelled || !SameSources(sources, s.core.sources)) && !load.Loaded?
    case Fatal => true
  }

  ghost predicate StillListed(s: State)
    requires s.cli.Some?
  {
    ListedAt(s.core.sources, s.cli.value.request.source, s.cli.value.request.src)
  }

  ghost predicate HostForQuestion(s: State, decision: Decision)
    requires s.cli.Some?
  {
    s.cli.value.request.question.Some? && (decision.DecideAllowDns? || decision.DecideRejectDns?)
  }

  lemma AttributionStopsIff(c: Core, src: Addr)
    requires KnownInv(c) && !c.failed
    ensures Attribute(c, src).failed <==> !exists x :: x in c.sources && src in x.ips
  {
    OwnedIsListed(c.sources, src);
    if Owner(c.sources, src).Some? {
      AttributeIsInert(c, src);
    }
  }

  lemma RefreshStopsIff(c: Core, sources: SourceMap, relabelled: bool, load: LoadOutcome, size: nat)
    requires PolicyInv(c, size) && !c.failed
    ensures Refresh(c, sources, relabelled, load).failed <==> (relabelled || !SameSources(sources, c.sources)) && !load.Loaded?
  {
    CleanedKeepsInv(c, sources, size);
    EnsureAllKeepsInv(Cleaned(c, sources), size);
    AllCovered(EnsureAll(Cleaned(c, sources)));
    LoadFrame(EnsureAll(Cleaned(c, sources)), load);
  }

  lemma AppendStopsIff(c: Core, r: Request, decision: Decision, resolved: Option<seq<Addr>>, writeOk: bool)
    requires FilesInv(c) && !c.failed && r.source in c.rules && r.source in SourceNames(c.sources)
    requires Promptable(r) && Prepared(r, decision, resolved)
    ensures AppendRule(c, r, decision, Resolved(decision, resolved), writeOk).failed <==>
            !writeOk || (r.question.Some? && decision.ForHostname())
  {
    AnswerGrowsBoth(c.rules[r.source], r, decision, Resolved(decision, resolved));
    AnswerHasRule(c.rules[r.source], r, decision, resolved);
  }

  lemma SettleStopsIff(c: Core, claim: Entry, decision: Decision, resolved: Option<seq<Addr>>, writeOk: bool, size: nat)
    requires PolicyInv(c, size) && !c.failed && ClaimOk(claim) && Prepared(claim.request, decision, resolved)
    ensures var d := Settle(c, claim, decision, Resolved(decision, resolved), writeOk);
            && (d.failed <==> SourceCurrent(c.sources, claim.request) && (!writeOk || (claim.request.question.Some? && decision.ForHostname())))
            && (!d.failed ==> Covered(d))
  {
    var r, addrs := claim.request, Resolved(decision, resolved);
    SettleEffect(c, claim, decision, addrs, writeOk, size);
    if SourceCurrent(c.sources, r) {
      IpsOfListed(c.sources, r.source);
      AppendStopsIff(c.(queue := Claim(c.queue, claim.key, r, decision, addrs)), r, decision, resolved, writeOk);
    }
    AllCovered(Settle(c, claim, decision, addrs, writeOk));
  }

  lemma SaveStopsIff(c: Core, claim: Entry, decision: Decision, resolved: Option<seq<Addr>>, writeOk: bool, load: LoadOutcome, size: nat)
    requires PolicyInv(c, size) && !c.failed && ClaimOk(claim)
    ensures Save(c, claim, decision, resolved, writeOk, load).failed <==>
            || !Prepared(claim.request, decision, resolved)
            || (&& IsPending(c.queue.pending, claim.key, claim.id)
                && (!load.Loaded? || (SourceCurrent(c.sources, claim.request)
                                      && (!writeOk || (claim.request.question.Some? && decision.ForHostname())))))
  {
    if Prepared(claim.request, decision, resolved) && IsPending(c.queue.pending, claim.key, claim.id) {
      SettleStopsIff(c, claim, decision, resolved, writeOk, size);
      LoadFrame(Settle(c, claim, decision, Resolved(decision, resolved), writeOk), load);
    }
  }

  lemma AnswerStopsIff(s: State, e: Event, size: nat)
    requires Inv(s, size) && e.CliAnswer? && s.cli.Some? && !s.core.failed && DistinctNames(s.core.sources)
    ensures StepCore(s.core, s.cli, e, size).failed <==> Stops(s, e)
  {
    SaveStopsIff(s.core, s.cli.value, e.decision, e.resolved, e.writeOk, e.load, size);
    ShownIsPending(s, size);
    SourceCurrentMeaning(s.core.sources, s.cli.value.request);
    NamesHostMeaning(s.cli.value.request.host);
  }

  /** Exactly when a step stops the daemon. */
  lemma StopsIff(s: State, e: Event, size: nat)
    requires Inv(s, size) && ValidEvent(e) && !s.core.failed && DistinctNames(s.core.sources)
    ensures Step(s, e, size).core.failed <==> Stops(s, e)
  {
    match e
    case PacketAttribute(src) => AttributionStopsIff(s.core, src);
    case PacketPrompt(r) => PromptEffect(s.core, r, size);
    case CliAnswer(_, _, _, _) =>
      if s.cli.Some? {
        AnswerStopsIff(s, e, size);
      }
    case Publish(sources, relabelled, load) => RefreshStopsIff(s.core, sources, relabelled, load, size);
    case _ =>
  }

  /** The CLI is shown the oldest prompt. */
  lemma OldestIsShown(s: State, e: Event, size: nat)
    requires Inv(s, size) && e.CliTake? && s.cli.None? && !s.core.failed
    ensures var t := Step(s, e, size);
            && t.core == s.core && (t.cli.None? <==> s.core.queue.pending == [])
            && (t.cli.Some? ==> t.cli.value in s.core.queue.pending
                                && forall x :: x in s.core.queue.pending ==> t.cli.value.id <= x.id)
  {
    var pending := s.core.queue.pending;
    forall x | x in pending
      ensures pending[0].id <= x.id
    {
      var i :| 0 <= i < |pending| && pending[i] == x;
    }
  }

  lemma ClaimedWasOpen(s: State, size: nat)
    requires Inv(s, size) && s.cli.Some? && IsPending(s.core.queue.pending, s.cli.value.key, s.cli.value.id)
    ensures MatchingAction(s.core.rules, s.cli.value.request).None?
  {
  }

  /** The action for a request is kept, unless its source is numbered and its addresses changed. */
  ghost predicate KeepsDecision(before: Core, after: Core, r: Request) {
    !Numbered(r.source) || IpsOf(after.sources, r.source) == IpsOf(before.sources, r.source) ==>
      MatchingAction(after.rules, r) == MatchingAction(before.rules, r)
  }

  lemma RefreshKeepsDecisions(c: Core, sources: SourceMap, relabelled: bool, load: LoadOutcome, size: nat, r: Request)
    requires PolicyInv(c, size) && MatchingAction(c.rules, r).Some?
    ensures KeepsDecision(c, Refresh(c, sources, relabelled, load), r)
  {
    RefreshEffect(c, sources, relabelled, load, size);
    CleanedKeepsInv(c, sources, size);
    EnsureAllKeepsInv(Cleaned(c, sources), size);
    CleanedRules(c, sources, r.source);
  }

  lemma AnswerKeepsDecisions(c: Core, t: Core, claim: Entry, e: Event, r: Request)
    requires e.CliAnswer? && AnswerOutcome(c, t, claim, e) && MatchingAction(c.rules, r).Some?
    requires Promptable(claim.request)
    ensures MatchingAction(t.rules, r) == MatchingAction(c.rules, r)
  {
    if t.rules != c.rules && claim.request.source == r.source {
      AnswerDecidesItsQuestion(c.rules[r.source], claim.request, e.decision, Resolved(e.decision, e.resolved), r);
    }
  }

  lemma OthersKeepRules(s: State, e: Event, size: nat)
    requires Inv(s, size) && ValidEvent(e) && !e.Publish? && !(e.CliAnswer? && s.cli.Some?)
    ensures Step(s, e, size).core.rules == s.core.rules
  {
    StepKeepsPolicyInv(s.core, s.cli, e, size);
  }

  lemma StepKeepsDecisions(s: State, e: Event, size: nat, r: Request)
    requires Inv(s, size) && ValidEvent(e)
    requires MatchingAction(s.core.rules, r).Some?
    ensures var t := Step(s, e, size);
            && EpochOf(s.hist.epochs, r.source) <= EpochOf(t.hist.epochs, r.source)
            && (!Numbered(r.source) || EpochOf(t.hist.epochs, r.source) == EpochOf(s.hist.epochs, r.source) ==>
                  MatchingAction(t.core.rules, r) == MatchingAction(s.core.rules, r))
  {
    if e.Publish? {
      PublishKeepsDecisions(s.core, s.cli, e, size, r);
    } else {
      OthersKeepDecisions(s, e, size, r);
    }
    EpochStep(s.hist.epochs, s.core.sources, Step(s, e, size).core.sources, r.source);
  }

  lemma PublishKeepsDecisions(c: Core, cli: Option<Entry>, e: Event, size: nat, r: Request)
    requires PolicyInv(c, size) && e.Publish? && MatchingAction(c.rules, r).Some?
    ensures KeepsDecision(c, StepCore(c, cli, e, size), r)
  {
    if !c.failed {
      RefreshKeepsDecisions(c, e.sources, e.relabelled, e.load, size, r);
    }
  }

  lemma OthersKeepDecisions(s: State, e: Event, size: nat, r: Request)
    requires Inv(s, size) && ValidEvent(e) && !e.Publish? && MatchingAction(s.core.rules, r).Some?
    ensures MatchingAction(Step(s, e, size).core.rules, r) == MatchingAction(s.core.rules, r)
  {
    if e.CliAnswer? && s.cli.Some? {
      AnswerCases(s.core, s.cli, e, size);
      AnswerKeepsDecisions(s.core, Step(s, e, size).core, s.cli.value, e, r);
    } else {
      OthersKeepRules(s, e, size);
    }
  }

  /** A decided request keeps its action for ever, whatever is answered later; only a
      numbered name loses its rules, and only when its published addresses change. */
  lemma {:induction false} DecisionsLast(s: State, events: seq<Event>, size: nat, r: Request)
    requires Inv(s, size) && forall e :: e in events ==> ValidEvent(e)
    requires MatchingAction(s.core.rules, r).Some?
    ensures var t := Run(s, events, size);
            && EpochOf(s.hist.epochs, r.source) <= EpochOf(t.hist.epochs, r.source)
            && (!Numbered(r.source) || EpochOf(t.hist.epochs, r.source) == EpochOf(s.hist.epochs, r.source) ==>
                  MatchingAction(t.core.rules, r) == MatchingAction(s.core.rules, r))
    decreases |events|
  {
    if events != [] {
      var s' := Step(s, events[0], size);
      StepKeepsDecisions(s, events[0], size, r);
      StepKeepsInv(s, events[0], size);
      EpochsGrow(s', events[1..], size, r.source);
      if MatchingAction(s'.core.rules, r).Some? {
        DecisionsLast(s', events[1..], size, r);
      }
    }
  }

  lemma {:induction false} EpochsGrow(s: State, events: seq<Event>, size: nat, n: Name)
    ensures EpochOf(s.hist.epochs, n) <= EpochOf(Run(s, events, size).hist.epochs, n)
    decreases |events|
  {
    if events != [] {
      var s' := Step(s, events[0], size);
      EpochStep(s.hist.epochs, s.core.sources, s'.core.sources, n);
      EpochsGrow(s', events[1..], size, n);
    }
  }

  // ---------------------------------------------------------- reused DispVM names

  /** Over every run the rules of a numbered DispVM name, in memory and on file, are exactly
      the answers to prompts raised since its published address list last changed. */
  lemma NumberedRulesAreFresh(files: Rules, sources: SourceMap, dns: Resolver, load: LoadOutcome, events: seq<Event>, size: nat, n: Name)
    requires ValidRun(files, events) && Numbered(n)
    ensures var s := After(files, sources, dns, load, events, size);
            var epoch := EpochOf(s.hist.epochs, n);
            && PolicyOf(s.core.rules, n) == PolicyFrom(s.hist.log, n, epoch)
            && FileOf(s.core.files, n) == StripPolicy(PolicyFrom(s.hist.log, n, epoch))
            && (forall a :: a in s.hist.log && a.source == n && a.epoch == epoch ==>
                  && a.id in s.hist.raised && s.hist.raised[a.id].request.source == n
                  && s.hist.raised[a.id].epoch == epoch)
  {
    ReachableInv(files, sources, dns, load, events, size);
  }

  /** An answer to a prompt that was raised before the addresses of its numbered name changed
      saves nothing, however late it arrives. */
  lemma LateAnswersAreIgnored(s: State, e: Event, size: nat)
    requires Inv(s, size) && ValidEvent(e) && e.CliAnswer? && s.cli.Some?
    requires var r := s.cli.value.request;
             Numbered(r.source) && s.hist.raised[s.cli.value.id].epoch != EpochOf(s.hist.epochs, r.source)
    ensures var t := Step(s, e, size);
            t.core.rules == s.core.rules && t.core.files == s.core.files && t.core.queue == s.core.queue
  {
    var claim := s.cli.value;
    assert !IsPending(s.core.queue.pending, claim.key, claim.id) by {
      IsPendingMeans(s.core.queue.pending, claim.key, claim.id);
    }
    AnswerCases(s.core, s.cli, e, size);
  }

  // ------------------------------------------------------------- prompt accounting

  /** Every id ever issued has exactly one fate, waits exactly while it is pending, and at
      most one rule was saved for it, only if it was claimed. */
  lemma PromptsAreAccountedFor(files: Rules, sources: SourceMap, dns: Resolver, load: LoadOutcome, events: seq<Event>, size: nat)
    requires ValidRun(files, events)
    ensures var s := After(files, sources, dns, load, events, size);
            && (forall id :: id in s.hist.fates <==> 1 <= id < s.core.queue.next)
            && (forall id :: id in s.hist.fates ==> (s.hist.fates[id] == Waiting <==> HasId(s.core.queue.pending, id)))
            && (forall i, j :: 0 <= i < j < |s.hist.log| ==> s.hist.log[i].id != s.hist.log[j].id)
            && (forall a :: a in s.hist.log ==> a.id in s.hist.fates && s.hist.fates[a.id] == Claimed)
  {
    ReachableInv(files, sources, dns, load, events, size);
  }

  /** A prompt that was claimed, swept, discarded or cleaned up stays so. */
  lemma {:induction false} FatesAreFinal(s: State, events: seq<Event>, size: nat, id: nat)
    requires Inv(s, size) && forall e :: e in events ==> ValidEvent(e)
    requires id in s.hist.fates && s.hist.fates[id] != Waiting
    ensures var t := Run(s, events, size);
            id in t.hist.fates && t.hist.fates[id] == s.hist.fates[id]
    decreases |events|
  {
    if events != [] {
      var t := Step(s, events[0], size);
      FateIsFinal(s.hist.fates, s.core, t.core, events[0], s.cli, id);
      StepKeepsInv(s, events[0], size);
      FatesAreFinal(t, events[1..], size, id);
    }
  }

  // ---------------------------------------------------------------- files and reload

  lemma ResolveUndoesStrip(p: SourcePolicy, dns: Resolver)
    requires forall r :: r in p.ip && r.dest.Hostname? ==> r.dest.resolved == dns(r.dest.name)
    ensures ResolvePolicy(StripPolicy(p), dns) == p
  {
  }

  /** The files always hold the policy in memory, after failed writes too: a restart with the
      same name resolution brings back every rule except those of numbered names, which it
      deletes. */
  lemma RestartReproducesPolicy(files: Rules, sources: SourceMap, dns: Resolver, load: LoadOutcome, events: seq<Event>, size: nat,
                                sources2: SourceMap, dns2: Resolver, load2: LoadOutcome, n: Name)
    requires ValidRun(files, events)
    requires var c := After(files, sources, dns, load, events, size).core;
             forall r :: r in PolicyOf(c.rules, n).ip && r.dest.Hostname? ==> r.dest.resolved == dns2(r.dest.name)
    ensures var c := After(files, sources, dns, load, events, size).core;
            PolicyOf(Startup(c.files, sources2, dns2, load2).rules, n) == if Numbered(n) then EMPTY_POLICY else PolicyOf(c.rules, n)
  {
    ReachableInv(files, sources, dns, load, events, size);
    var c := After(files, sources, dns, load, events, size).core;
    StartupRules(c.files, sources2, dns2, load2, n);
    ResolveUndoesStrip(PolicyOf(c.rules, n), dns2);
    if n in c.rules && n !in c.files {
      assert StripPolicy(c.rules[n]) == EMPTY_POLICY;
      assert c.rules[n].ip == [];
    }
  }

  lemma StartupRules(files: Rules, sources: SourceMap, dns: Resolver, load: LoadOutcome, n: Name)
    ensures PolicyOf(Startup(files, sources, dns, load).rules, n) ==
            if n in files && !Numbered(n) then ResolvePolicy(files[n], dns) else EMPTY_POLICY
  {
  }

  // ------------------------------------------------------------ enforcement at all times

  /** Whenever the policy lock is free and nothing fatal has happened, the loaded table is
      the rendering of the current sources and rules and every known source has rules. */
  lemma TableIsInStep(files: Rules, sources: SourceMap, dns: Resolver, load: LoadOutcome, events: seq<Event>, size: nat)
    requires ValidRun(files, events)
    requires !After(files, sources, dns, load, events, size).core.failed
    ensures var c := After(files, sources, dns, load, events, size).core;
            && (forall e :: e in c.sources ==> e.name in c.rules)
            && c.table == Rendered(c.sources, c.rules)
            && (forall src :: Owner(c.sources, src).Some? ==> Attribute(c, src) == c)
  {
    ReachableInv(files, sources, dns, load, events, size);
    var c := After(files, sources, dns, load, events, size).core;
    forall src | Owner(c.sources, src).Some?
      ensures Attribute(c, src) == c
    {
      AttributeIsInert(c, src);
    }
  }

  /** So at every moment of every run, within rate, the loaded table and the daemon together pass a
      packet leaving a known VM exactly when the policy in force allows it. */
  lemma EveryStateEnforcesItsPolicy(files: Rules, sources: SourceMap, dns: Resolver, load: LoadOutcome, events: seq<Event>, size: nat,
                                    payload: seq<byte>, ct: CtState, decode: Decoder)
    requires ValidRun(files, events)
    requires !After(files, sources, dns, load, events, size).core.failed
    requires Outgoing(After(files, sources, dns, load, events, size).core.sources, payload, ct)
    ensures var c := After(files, sources, dns, load, events, size).core;
            var out := EvalTable(c.table, KernelView(payload, ct, false), WITHIN_RATE);
            out.Accepted? || (out.Queued? && DaemonPasses(c.sources, c.rules, payload, decode))
            <==> PolicyAllows(c.sources, c.rules, payload, decode)
  {
    ReachableInv(files, sources, dns, load, events, size);
    var c := After(files, sources, dns, load, events, size).core;
    PassesIffPolicyAllows(c.sources, c.rules, payload, ct, decode);
  }

  /** Every published map gives an address to one source, as the maps of accepted texts do. */
  ghost predicate SingleOwners(sources: SourceMap, events: seq<Event>) {
    OneOwner(sources) && forall e :: e in events && e.Publish? ==> OneOwner(e.sources)
  }

  lemma SourcesArePublished(c: Core, cli: Option<Entry>, e: Event, size: nat)
    requires PolicyInv(c, size) && ValidEvent(e) && (cli.Some? ==> ClaimOk(cli.value))
    ensures var t := StepCore(c, cli, e, size); t.sources == c.sources || (e.Publish? && t.sources == e.sources)
  {
    if e.Publish? && !c.failed {
      RefreshSources(c, e.sources, e.relabelled, e.load);
    } else {
      StepKeepsPolicyInv(c, cli, e, size);
    }
  }

  lemma RefreshSources(c: Core, sources: SourceMap, relabelled: bool, load: LoadOutcome)
    ensures var t := Refresh(c, sources, relabelled, load); t.sources == c.sources || t.sources == sources
  {
    LoadFrame(EnsureAll(Cleaned(c, sources)), load);
  }

  lemma {:induction false} RunKeepsSingleOwners(s: State, events: seq<Event>, size: nat)
    requires Inv(s, size) && (forall e :: e in events ==> ValidEvent(e)) && SingleOwners(s.core.sources, events)
    ensures OneOwner(Run(s, events, size).core.sources)
    decreases |events|
  {
    if events != [] {
      SourcesArePublished(s.core, s.cli, events[0], size);
      StepKeepsInv(s, events[0], size);
      RunKeepsSingleOwners(Step(s, events[0], size), events[1..], size);
    }
  }

  lemma StartupSources(files: Rules, sources: SourceMap, dns: Resolver, load: LoadOutcome)
    ensures Startup(files, sources, dns, load).sources == sources
  {
  }

  /** The loaded table passes a reply, or queues it and the daemon passes it. */
  predicate TableAndDaemonPass(c: Core, payload: seq<byte>, ct: CtState, lim: Limiter, decode: Decoder)
    requires |payload| >= 20
  {
    var out := EvalTable(c.table, KernelView(payload, ct, true), lim);
    out.Accepted? || (out.Queued? && DaemonPasses(c.sources, c.rules, payload, decode))
  }

  lemma LoadedPasses(c: Core, payload: seq<byte>, ct: CtState, decode: Decoder)
    requires |payload| >= 20 && TableInv(c) && !c.failed
    ensures forall lim :: TableAndDaemonPass(c, payload, ct, lim, decode) <==>
                          Passes(c.sources, c.rules, payload, ct, true, lim, decode)
  {
  }

  /** And the replies: in every state of every run the loaded table and the daemon together
      pass a sound reply within rate exactly when the policies in force say so, and for every
      limiter exactly when the reply is settled. */
  lemma EveryStateAnswersReplies(files: Rules, sources: SourceMap, dns: Resolver, load: LoadOutcome, events: seq<Event>, size: nat,
                                 payload: seq<byte>, ct: CtState, decode: Decoder)
    requires ValidRun(files, events) && SingleOwners(sources, events)
    requires !After(files, sources, dns, load, events, size).core.failed
    requires Incoming(After(files, sources, dns, load, events, size).core.sources, payload, ct)
    ensures var c := After(files, sources, dns, load, events, size).core;
            && (TableAndDaemonPass(c, payload, ct, WITHIN_RATE, decode) <==> ReplyAllowed(c.sources, c.rules, payload, decode))
            && ((forall lim :: TableAndDaemonPass(c, payload, ct, lim, decode) <==> ReplyAllowed(c.sources, c.rules, payload, decode))
                <==> ReplyIsSettled(c.sources, c.rules, payload, decode))
  {
    ReachableInv(files, sources, dns, load, events, size);
    StartHasInv(files, sources, dns, load, size);
    StartupSources(files, sources, dns, load);
    RunKeepsSingleOwners(Start(files, sources, dns, load), events, size);
    var c := After(files, sources, dns, load, events, size).core;
    LoadedPasses(c, payload, ct, decode);
    RepliesPassIffAllowed(c.sources, c.rules, payload, ct, decode);
    RepliesPassForEveryLimiter(c.sources, c.rules, payload, ct, decode);
  }

  /** The fail-closed table passes nothing by itself, whatever the limiter does. */
  lemma FailClosedNeverAccepts(p: Packet, lim: Limiter)
    ensures EvalTable(FailClosed(), p, lim) != Accepted
  {
    var t := FailClosed();
    var a, b, c := t.forward[0], t.forward[1], t.forward[2];
    assert t.forward == [a] + ([b] + ([c] + []));
    ForwardOneLine(t, a, [b] + ([c] + []), p, lim);
    ForwardOneLine(t, b, [c] + [], p, lim);
    ForwardOneLine(t, c, [], p, lim);
  }

  lemma StaticTableRejects(p: Packet, lim: Limiter)
    ensures EvalTable(STATIC_TABLE, p, lim) == if p.ipv4 then Rejected else Dropped
  {
    var line := Line([NfprotoIpv4], false, RejectPacket);
    assert STATIC_TABLE.forward == [line] + [];
    ForwardOneLine(STATIC_TABLE, line, [], p, lim);
    assert AllHold(line.matches, p) <==> Holds(line.matches[0], p);
  }

  lemma {:induction false} FailedStays(s: State, events: seq<Event>, size: nat)
    requires s.core.failed
    ensures Run(s, events, size).core == s.core
    decreases |events|
  {
    if events != [] {
      FailedStays(Step(s, events[0], size), events[1..], size);
    }
  }

  /** A daemon whose first load failed never passes a packet by its table, whatever happens then: a
      refused check leaves the static table, which queues nothing either, and a failed load the
      fail-closed one. */
  lemma FailedStartupPassesNothing(files: Rules, sources: SourceMap, dns: Resolver, load: LoadOutcome, events: seq<Event>, size: nat,
                                   p: Packet, lim: Limiter)
    requires ValidFiles(files) && (load.CheckFailed? || load.LoadFailed?)
    ensures var out := EvalTable(After(files, sources, dns, load, events, size).core.table, p, lim);
            out != Accepted && (load.CheckFailed? ==> out == if p.ipv4 then Rejected else Dropped)
  {
    StartHasInv(files, sources, dns, load, size);
    FailedStays(Start(files, sources, dns, load), events, size);
    FailedStartupTable(files, sources, dns, load);
    StaticTableRejects(p, lim);
    FailClosedNeverAccepts(p, lim);
  }

  lemma FailedStartupTable(files: Rules, sources: SourceMap, dns: Resolver, load: LoadOutcome)
    requires load.CheckFailed? || load.LoadFailed?
    ensures Startup(files, sources, dns, load).table == STATIC_TABLE || Startup(files, sources, dns, load).table == FailClosed()
    ensures load.CheckFailed? ==> Startup(files, sources, dns, load).table == STATIC_TABLE
  {
  }
}
