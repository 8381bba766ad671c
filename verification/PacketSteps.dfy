/** The packet handlers as events of the protocol: what a packet leaves behind. */
module PacketSteps {
  import opened Wrappers
  import opened Policy
  import opened PolicyMeaning
  import opened Nft
  import opened Checksums
  import opened Packets
  import opened Handlers
  import opened Runtime
  import opened StateMeaning
  import opened Protocol
  import opened Guarantees
  import opened Daemons

  lemma OpenQuestionIsPromptable(rules: Rules, name: Name, payload: seq<byte>, decode: Decoder, hint: Option<string>)
    requires Parsed(payload).Some? && OpenQuestion(rules, name, Parsed(payload).value, decode, hint).Some?
    ensures var r, q := Parsed(payload).value, OpenQuestion(rules, name, Parsed(payload).value, decode, hint).value;
            Promptable(q) && q.source == name && q.src == r.src && MatchingAction(rules, q).None?
  {
  }

  /** Handling a packet of a known VM, read and prompted in one state, is at most one prompt event,
      and a valid one. */
  lemma HandledPacketsAreSteps(s: State, payload: seq<byte>, decode: Decoder, hint: Option<string>, size: nat)
    requires Inv(s, size) && !s.core.failed
    requires Parsed(payload).Some? && Owner(s.core.sources, Parsed(payload).value.src).Some?
    ensures var r := Parsed(payload).value;
            var q := OpenQuestion(s.core.rules, Owner(s.core.sources, r.src).value, r, decode, hint);
            && Step(s, PacketAttribute(r.src), size).core == s.core
            && AfterPacket(s.core, q, size) == (if q.Some? then Step(s, PacketPrompt(q.value), size).core else s.core)
            && (q.Some? ==> ValidEvent(PacketPrompt(q.value)))
  {
    var r := Parsed(payload).value;
    var name := Owner(s.core.sources, r.src).value;
    AttributeIsInert(s.core, r.src);
    if OpenQuestion(s.core.rules, name, r, decode, hint).Some? {
      OpenQuestionIsPromptable(s.core.rules, name, payload, decode, hint);
    }
  }

  /** Lock section by lock section: in any state and for any earlier readings each prompt attempt is
      nothing or one valid prompt event. */
  lemma LockSectionsAreSteps(s: State, payload: seq<byte>, name: Name, decode: Decoder, hint: Option<string>,
                             flowSeen: Option<Action>, nameSeen: Option<Action>, size: nat)
    requires Inv(s, size) && !s.core.failed
    requires Parsed(payload).Some? && Parsed(payload).value.malformed.None?
    ensures var r := Parsed(payload).value;
            && IsPromptStep(s, FlowRequest(name, r), flowSeen, AfterPrompt(s.core, FlowRequest(name, r), flowSeen, size), size)
            && IsPromptStep(s, FlowRequest(name, r).(host := hint), flowSeen,
                            AfterPrompt(s.core, FlowRequest(name, r).(host := hint), flowSeen, size), size)
            && match ReadDnsFields(r.body, decode)
               case Problem(_) => AfterDomain(s.core, name, r, decode, nameSeen, size) == s.core
               case Asked(q) => IsPromptStep(s, NameRequest(name, r, q), nameSeen, AfterDomain(s.core, name, r, decode, nameSeen, size), size)
  {
    QueuedRequestsArePromptable(payload, name, decode);
  }

  ghost predicate IsPromptStep(s: State, q: Request, seen: Option<Action>, after: Core, size: nat) {
    && ValidEvent(PacketPrompt(q))
    && after == if seen.None? then Step(s, PacketPrompt(q), size).core else s.core
  }

  /** A packet that policy leaves open is asked about: its question is pending afterwards, unless
      the queue is full. */
  lemma UndecidedPacketsAreAsked(s: State, payload: seq<byte>, decode: Decoder, hint: Option<string>, size: nat)
    requires Inv(s, size) && !s.core.failed && DistinctNames(s.core.sources)
    requires Parsed(payload).Some? && Owner(s.core.sources, Parsed(payload).value.src).Some?
    ensures var r := Parsed(payload).value;
            var q := OpenQuestion(s.core.rules, Owner(s.core.sources, r.src).value, r, decode, hint);
            var after := AfterPacket(s.core, q, size).queue.pending;
            if q.None? then after == s.core.queue.pending
            else AskedAlready(after, q.value) || |after| == size
  {
    var r := Parsed(payload).value;
    var name := Owner(s.core.sources, r.src).value;
    var q := OpenQuestion(s.core.rules, name, r, decode, hint);
    if q.Some? {
      OpenQuestionIsPromptable(s.core.rules, name, payload, decode, hint);
      OwnerIsCurrent(s.core.sources, q.value);
      PromptEffect(s.core, q.value, size);
      EnsureEntryInert(s.core, name);
      KeyFindsAsked(s.core.queue.pending, q.value);
      var before := s.core.queue;
      var asked := Entry(QuestionKey(q.value), q.value, before.next);
      assert (before.pending + [asked])[|before.pending|] == asked && SameQuestion(q.value, q.value);
    }
  }

  /** A packet from an address nobody owns makes the daemon read the map again and go on only if that map
      lists the address; then the map is in force, with the table for it. */
  lemma UnknownSourceRefreshes(c: Core, src: Addr, latest: SourceMap, relabelled: bool, load: LoadOutcome, size: nat)
    requires PolicyInv(c, size) && TableInv(c) && !c.failed && DistinctNames(latest) && DistinctNames(c.sources)
    requires Owner(c.sources, src).None?
    ensures var t := AfterUnknown(c, src, latest, relabelled, load);
            && (!t.failed ==> t.table == Rendered(t.sources, t.rules) && t.sources == latest
                              && exists e :: e in latest && src in e.ips)
            && (load.Loaded? && (exists e :: e in latest && src in e.ips) ==> !t.failed)
  {
    var r := Refresh(c, latest, relabelled, load);
    RefreshKeepsInv(c, latest, relabelled, load, size);
    SameSourcesSameOwners(c.sources, latest, src);
    if r != c {
      RefreshEffect(c, latest, relabelled, load, size);
      CleanedKeepsInv(c, latest, size);
      EnsureAllKeepsInv(Cleaned(c, latest), size);
      AllCovered(EnsureAll(Cleaned(c, latest)));
      LoadFrame(EnsureAll(Cleaned(c, latest)), load);
    }
    OwnedIsListed(latest, src);
  }

  /** Maps that count as equal list the same addresses. */
  lemma SameSourcesSameOwners(a: SourceMap, b: SourceMap, ip: Addr)
    requires DistinctNames(a) && DistinctNames(b)
    ensures SameSources(b, a) && Owner(a, ip).None? ==> Owner(b, ip).None?
  {
    OwnedIsListed(a, ip);
    OwnedIsListed(b, ip);
    if SameSources(b, a) && Owner(b, ip).Some? {
      var e :| e in b && ip in e.ips;
      IpsOfMeaning(b, e.name);
      IpsOfMeaning(a, e.name);
      assert e.name in SourceNames(b);
      assert SourceEntry(e.name, e.ips) in a;
    }
  }

  // ------------------------------------------------- other threads between the readings

  /** The recheck inside queue_prompt reads the policy, or nothing for a source that has moved. */
  lemma RecheckReadsPolicy(c: Core, r: Request, size: nat)
    requires PolicyInv(c, size)
    ensures PromptAction(c, r).Some? ==> PromptAction(c, r) == MatchingAction(c.rules, r)
  {
  }

  /** The moments a packet is judged at: flow and name are read, each again when its prompt is
      attempted, then the verdict is set. */
  datatype Moments = Moments(flow: State, flowAgain: State, name: State, nameAgain: State, verdict: State)

  ghost predicate AllValid(events: seq<Event>) {
    forall e :: e in events ==> ValidEvent(e)
  }

  /** What happens from one moment to the next: any events of any thread, the packet's own prompts
      among them. */
  datatype Meanwhile = Meanwhile(toFlowAgain: seq<Event>, toName: seq<Event>, toNameAgain: seq<Event>, toVerdict: seq<Event>) {
    ghost predicate Valid() {
      AllValid(toFlowAgain) && AllValid(toName) && AllValid(toNameAgain) && AllValid(toVerdict)
    }
  }

  predicate InOrder(m: Moments, w: Meanwhile, size: nat) {
    && m.flowAgain == Run(m.flow, w.toFlowAgain, size) && m.name == Run(m.flowAgain, w.toName, size)
    && m.nameAgain == Run(m.name, w.toNameAgain, size) && m.verdict == Run(m.nameAgain, w.toVerdict, size)
  }

  function ReadingsAt(m: Moments, name: Name, r: ParsedPacket, decode: Decoder): Readings {
    Readings(MatchingAction(m.flow.core.rules, FlowRequest(name, r)), PromptAction(m.flowAgain.core, FlowRequest(name, r)),
             NameAction(m.name.core.rules, name, r, decode), NameReadings(m.nameAgain.core, name, r, decode, None).nameAgain)
  }

  /** No refresh changed the addresses of a numbered name from one state to the other. */
  predicate SameEpoch(s: State, t: State, name: Name) {
    !Numbered(name) || EpochOf(t.hist.epochs, name) == EpochOf(s.hist.epochs, name)
  }

  /** What one reading or its recheck allowed is still allowed at the verdict. */
  lemma AllowedStays(s: State, a: seq<Event>, t: State, b: seq<Event>, u: State, size: nat, q: Request)
    requires Inv(s, size) && AllValid(a) && AllValid(b)
    requires t == Run(s, a, size) && u == Run(t, b, size) && SameEpoch(s, u, q.source)
    requires MatchingAction(s.core.rules, q) == Some(Allow)
             || (MatchingAction(s.core.rules, q).None? && PromptAction(t.core, q) == Some(Allow))
    ensures MatchingAction(u.core.rules, q) == Some(Allow)
  {
    RunKeepsInv(s, a, size);
    EpochsGrow(s, a, size, q.source);
    EpochsGrow(t, b, size, q.source);
    RecheckReadsPolicy(t.core, q, size);
    if MatchingAction(s.core.rules, q).Some? {
      DecisionsLast(s, a, size, q);
    }
    DecisionsLast(t, b, size, q);
  }

  lemma {:induction false} RunTwice(s: State, a: seq<Event>, b: seq<Event>, size: nat)
    ensures Run(Run(s, a, size), b, size) == Run(s, a + b, size)
    decreases |a|
  {
    if a == [] {
      assert a + b == b;
    } else {
      assert (a + b)[1..] == a[1..] + b;
      RunTwice(Step(s, a[0], size), a[1..], b, size);
    }
  }

  /** From the first recheck to the verdict is one run. */
  lemma RestIsOneRun(m: Moments, w: Meanwhile, size: nat)
    requires w.Valid() && InOrder(m, w, size)
    ensures AllValid(w.toName + (w.toNameAgain + w.toVerdict))
    ensures m.verdict == Run(m.flowAgain, w.toName + (w.toNameAgain + w.toVerdict), size)
  {
    RunTwice(m.name, w.toNameAgain, w.toVerdict, size);
    RunTwice(m.flowAgain, w.toName, w.toNameAgain + w.toVerdict, size);
  }

  /** An epoch that has not moved over the whole handling has not moved since the name was read. */
  lemma NameIsReadInEpoch(m: Moments, w: Meanwhile, size: nat, name: Name)
    requires Inv(m.flow, size) && w.Valid() && InOrder(m, w, size) && SameEpoch(m.flow, m.verdict, name)
    ensures Inv(m.name, size) && SameEpoch(m.name, m.verdict, name)
  {
    RunKeepsInv(m.flow, w.toFlowAgain, size);
    RunKeepsInv(m.flowAgain, w.toName, size);
    EpochsGrow(m.flow, w.toFlowAgain, size, name);
    EpochsGrow(m.flowAgain, w.toName, size, name);
    EpochsGrow(m.name, w.toNameAgain, size, name);
    EpochsGrow(m.nameAgain, w.toVerdict, size, name);
  }

  lemma PassedFlowIsAllowed(m: Moments, w: Meanwhile, size: nat, name: Name, r: ParsedPacket, decode: Decoder)
    requires Inv(m.flow, size) && w.Valid() && InOrder(m, w, size) && SameEpoch(m.flow, m.verdict, name)
    requires PacketRuling(r, decode, ReadingsAt(m, name, r, decode)) == Pass
    ensures r.malformed.None? && MatchingAction(m.verdict.core.rules, FlowRequest(name, r)) == Some(Allow)
  {
    PassNeedsAllow(r, decode, ReadingsAt(m, name, r, decode));
    RestIsOneRun(m, w, size);
    AllowedStays(m.flow, w.toFlowAgain, m.flowAgain, w.toName + (w.toNameAgain + w.toVerdict), m.verdict, size, FlowRequest(name, r));
  }

  /** A packet whose handling began in a reachable state and that passes, whatever other threads did
      between its readings, is allowed by the policy in force at its verdict, its question too,
      unless a refresh meanwhile changed the addresses of its numbered name. */
  lemma PassedIsAllowedAtVerdict(m: Moments, w: Meanwhile, size: nat, name: Name, r: ParsedPacket, decode: Decoder)
    requires Inv(m.flow, size) && w.Valid() && InOrder(m, w, size) && SameEpoch(m.flow, m.verdict, name)
    requires PacketRuling(r, decode, ReadingsAt(m, name, r, decode)) == Pass
    ensures r.malformed.None?
    ensures MatchingAction(m.verdict.core.rules, FlowRequest(name, r)) == Some(Allow)
    ensures IsDnsQuery(r) ==>
              exists q :: SupportedQuery(r.body, decode, q) && MatchingAction(m.verdict.core.rules, NameRequest(name, r, q)) == Some(Allow)
  {
    PassedFlowIsAllowed(m, w, size, name, r, decode);
    if IsDnsQuery(r) {
      PassNeedsAllow(r, decode, ReadingsAt(m, name, r, decode));
      var q := ReadDnsFields(r.body, decode).question;
      ReadsExactlySupportedQueries(r.body, decode, q);
      NameIsReadInEpoch(m, w, size, name);
      AllowedStays(m.name, w.toNameAgain, m.nameAgain, w.toVerdict, m.verdict, size, NameRequest(name, r, q));
    }
  }
}
