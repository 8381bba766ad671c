/** Numbered DispVM names against the VMs behind them: dom0 gives a name again to a later VM
    (templates/dom0/usr/local/lib/qubes-snitch/sources.py). */
module Incarnations {
  import opened Wrappers
  import opened Policy
  import opened Nft
  import opened Runtime
  import opened Protocol
  import opened Guarantees

  // ------------------------------------------------------------------- addresses

  /** A larger dispid makes no IPv4 address, and its row is not printed. */
  type DispId = d: nat | d <= 65024

  /** A DispVM as it was started; the serial number tells its starts apart. */
  datatype Vm = Vm(serial: nat, ip: Option<Addr>, dispid: DispId)

  /** ip_from_id under 10.138. */
  function DispAddr(dispid: DispId): Addr {
    0x0A8A_0000 + if dispid < 255 then dispid else (dispid - 1) / 254 * 256 + (dispid - 1) % 254 + 1
  }

  /** An address set in dom0 goes before the one made from the dispid. */
  function AddrOf(vm: Vm): Addr {
    match vm.ip
    case Some(ip) => ip
    case None => DispAddr(vm.dispid)
  }

  /** So a VM without an address of its own has the address of another only with its dispid. */
  lemma DispAddrIsInjective(a: DispId, b: DispId)
    ensures DispAddr(a) == DispAddr(b) <==> a == b
  {
    if 255 <= a && 255 <= b && DispAddr(a) == DispAddr(b) {
      assert (a - 1) / 254 * 256 + (a - 1) % 254 == (b - 1) / 254 * 256 + (b - 1) % 254;
    }
  }

  /** Two VMs have one address: both have it set in dom0, one has the other's set, or both have one dispid. */
  predicate ShareAddress(v: Vm, w: Vm) {
    match (v.ip, w.ip)
    case (Some(a), Some(b)) => a == b
    case (Some(a), None) => a == DispAddr(w.dispid)
    case (None, Some(b)) => DispAddr(v.dispid) == b
    case (None, None) => v.dispid == w.dispid
  }

  lemma ShareAddressMeaning(v: Vm, w: Vm)
    ensures AddrOf(v) == AddrOf(w) <==> ShareAddress(v, w)
  {
    DispAddrIsInjective(v.dispid, w.dispid);
  }

  // ------------------------------------------------------------------ watched runs

  type World = map<Name, Vm>

  /** dom0's listing of a numbered name: the one address of its VM. */
  ghost predicate Shows(sources: SourceMap, world: World, n: Name) {
    IpsOf(sources, n) == if n in world then Some([AddrOf(world[n])]) else None
  }

  /** A run beside the VMs: world is what dom0 ran when the map in force was read, asked the VM
      that was listed under the name of a prompt when it was raised. */
  datatype Watched = Watched(state: State, world: World, asked: map<nat, Vm>)

  /** An event; with a refresh, what dom0 ran when its map was read. */
  datatype Sight = Sight(event: Event, world: World)

  ghost predicate TruthfulFor(x: Sight, n: Name) {
    ValidEvent(x.event) && (x.event.Publish? ==> Shows(x.event.sources, x.world, n))
  }

  function NextAsked(w: Watched, e: Event, next: nat): map<nat, Vm> {
    if e.PacketPrompt? && next > w.state.core.queue.next && e.request.source in w.world
    then w.asked[w.state.core.queue.next := w.world[e.request.source]] else w.asked
  }

  function Watch(w: Watched, x: Sight, size: nat): Watched {
    var t := Step(w.state, x.event, size);
    Watched(t, if x.event.Publish? && !w.state.core.failed then x.world else w.world, NextAsked(w, x.event, t.core.queue.next))
  }

  function WatchAll(w: Watched, xs: seq<Sight>, size: nat): Watched
    decreases |xs|
  {
    if xs == [] then w else WatchAll(Watch(w, xs[0], size), xs[1..], size)
  }

  /** A refresh that finds another VM under the name, with the address of the former one. */
  predicate ReusedUnseen(w: Watched, x: Sight, n: Name) {
    && x.event.Publish? && n in w.world && n in x.world
    && w.world[n] != x.world[n] && ShareAddress(w.world[n], x.world[n])
  }

  ghost predicate EveryReuseIsSeen(w: Watched, xs: seq<Sight>, size: nat, n: Name)
    decreases |xs|
  {
    xs == [] || (!ReusedUnseen(w, xs[0], n) && EveryReuseIsSeen(Watch(w, xs[0], size), xs[1..], size, n))
  }

  // --------------------------------------------------------------------- invariant

  /** The prompt was raised while the VM listed now was listed. */
  ghost predicate AskedForCurrent(w: Watched, n: Name, id: nat) {
    n in w.world && id in w.asked && w.asked[id] == w.world[n]
  }

  ghost predicate PromptsAreCurrent(w: Watched, n: Name) {
    var h := w.state.hist;
    forall id :: id in h.raised && h.raised[id].request.source == n && h.raised[id].epoch == EpochOf(h.epochs, n) ==>
                   AskedForCurrent(w, n, id)
  }

  /** Every rule in force for the name answers a prompt raised for the VM listed now. */
  ghost predicate RulesAreCurrent(w: Watched, n: Name) {
    var h := w.state.hist;
    forall a :: a in h.log && a.source == n && a.epoch == EpochOf(h.epochs, n) ==> AskedForCurrent(w, n, a.id)
  }

  ghost predicate WatchInv(w: Watched, size: nat, n: Name) {
    Inv(w.state, size) && Shows(w.state.core.sources, w.world, n)
  }

  lemma RefreshedIps(c: Core, sources: SourceMap, relabelled: bool, load: LoadOutcome, n: Name)
    ensures IpsOf(Refresh(c, sources, relabelled, load).sources, n) == IpsOf(sources, n)
  {
    if SameSources(sources, c.sources) && !relabelled {
      IpsOfListed(c.sources, n);
      IpsOfListed(sources, n);
    } else {
      LoadFrame(EnsureAll(Cleaned(c, sources)), load);
    }
  }

  lemma PublishedIps(c: Core, cli: Option<Entry>, e: Event, size: nat, n: Name)
    requires e.Publish? && !c.failed
    ensures IpsOf(StepCore(c, cli, e, size).sources, n) == IpsOf(e.sources, n)
  {
    RefreshedIps(c, e.sources, e.relabelled, e.load, n);
  }

  lemma WatchKeepsInv(w: Watched, x: Sight, size: nat, n: Name)
    requires WatchInv(w, size, n) && TruthfulFor(x, n)
    ensures WatchInv(Watch(w, x, size), size, n)
  {
    StepKeepsInv(w.state, x.event, size);
    if x.event.Publish? && !w.state.core.failed {
      PublishedIps(w.state.core, w.state.cli, x.event, size, n);
    } else {
      OthersKeepSources(w.state, x.event, size);
    }
  }

  lemma OthersKeepSources(s: State, e: Event, size: nat)
    requires Inv(s, size) && ValidEvent(e) && (!e.Publish? || s.core.failed)
    ensures Step(s, e, size).core.sources == s.core.sources
  {
    StepKeepsPolicyInv(s.core, s.cli, e, size);
  }

  /** While the listing of a name stands, so does its VM, unless it was replaced unseen. */
  lemma SameListingSameVm(w: Watched, x: Sight, t: Watched, n: Name)
    requires Shows(w.state.core.sources, w.world, n) && Shows(t.state.core.sources, t.world, n)
    requires IpsOf(w.state.core.sources, n) == IpsOf(t.state.core.sources, n)
    requires t.world == w.world || (x.event.Publish? && t.world == x.world && !ReusedUnseen(w, x, n))
    ensures n in w.world <==> n in t.world
    ensures n in w.world ==> w.world[n] == t.world[n]
  {
    if n in w.world && n in t.world {
      ShareAddressMeaning(w.world[n], t.world[n]);
      assert [AddrOf(w.world[n])][0] == [AddrOf(t.world[n])][0];
    }
  }

  lemma NewPromptIsListed(c: Core, cli: Option<Entry>, e: Event, size: nat)
    requires KnownInv(c) && e.PacketPrompt? && StepCore(c, cli, e, size).queue.next > c.queue.next
    ensures IpsOf(c.sources, e.request.source).Some?
  {
    PromptEffect(c, e.request, size);
  }

  /** A prompt raised before and still of the current epoch stays one of the VM listed. */
  lemma OldPromptStaysCurrent(w: Watched, x: Sight, t: Watched, n: Name, id: nat)
    requires RaisedInv(w.state.hist, w.state.core.queue) && PromptsAreCurrent(w, n)
    requires Shows(w.state.core.sources, w.world, n) && Shows(t.state.core.sources, t.world, n)
    requires t.world == w.world || (x.event.Publish? && t.world == x.world && !ReusedUnseen(w, x, n))
    requires t.state.hist.epochs == NextEpochs(w.state.hist.epochs, w.state.core.sources, t.state.core.sources)
    requires id in w.state.hist.raised && w.state.hist.raised[id].request.source == n
    requires w.state.hist.raised[id].epoch == EpochOf(t.state.hist.epochs, n)
    requires id in w.asked ==> id in t.asked && t.asked[id] == w.asked[id]
    ensures AskedForCurrent(t, n, id)
  {
    EpochStep(w.state.hist.epochs, w.state.core.sources, t.state.core.sources, n);
    SameListingSameVm(w, x, t, n);
  }

  lemma PromptsFollow(w: Watched, x: Sight, t: Watched, n: Name)
    requires RaisedInv(w.state.hist, w.state.core.queue) && PromptsAreCurrent(w, n)
    requires Shows(w.state.core.sources, w.world, n) && Shows(t.state.core.sources, t.world, n)
    requires t.world == w.world || (x.event.Publish? && t.world == x.world && !ReusedUnseen(w, x, n))
    requires t.state.hist == StepHistory(w.state.hist, w.state.core, t.state.core, x.event, w.state.cli)
    requires t.asked == NextAsked(w, x.event, t.state.core.queue.next)
    requires x.event.PacketPrompt? && t.state.core.queue.next > w.state.core.queue.next ==>
               IpsOf(w.state.core.sources, x.event.request.source).Some?
    ensures PromptsAreCurrent(t, n)
  {
    forall id | id in t.state.hist.raised && t.state.hist.raised[id].request.source == n
                && t.state.hist.raised[id].epoch == EpochOf(t.state.hist.epochs, n)
      ensures AskedForCurrent(t, n, id)
    {
      if id in w.state.hist.raised {
        OldPromptStaysCurrent(w, x, t, n, id);
      }
    }
  }

  lemma WatchKeepsPrompts(w: Watched, x: Sight, size: nat, n: Name)
    requires WatchInv(w, size, n) && TruthfulFor(x, n) && PromptsAreCurrent(w, n) && !ReusedUnseen(w, x, n)
    ensures PromptsAreCurrent(Watch(w, x, size), n)
  {
    WatchKeepsInv(w, x, size, n);
    var t := Watch(w, x, size);
    if x.event.PacketPrompt? && t.state.core.queue.next > w.state.core.queue.next {
      NewPromptIsListed(w.state.core, w.state.cli, x.event, size);
    }
    PromptsFollow(w, x, t, n);
  }

  // ------------------------------------------------------------- what a reuse keeps

  predicate Answers(a: Answer, n: Name, epoch: nat) {
    a.source == n && a.epoch == epoch
  }

  lemma {:induction false} EmptyPolicyMeansNoAnswers(log: seq<Answer>, n: Name, epoch: nat)
    ensures PolicyFrom(log, n, epoch) == EMPTY_POLICY <==> forall a :: a in log ==> !Answers(a, n, epoch)
  {
    if log != [] {
      var last, before := log[|log| - 1], log[..|log| - 1];
      EmptyPolicyMeansNoAnswers(before, n, epoch);
      assert last in log && forall a :: a in log <==> a in before || a == last;
      var p := PolicyFrom(before, n, epoch);
      assert |Extend(p, last.saved).ip| + |Extend(p, last.saved).dns| == |p.ip| + |p.dns| + 1;
    }
  }

  /** The answers given for the old VM are in force for the new one, if there are any. */
  lemma UnseenReuseKeepsAnswers(w: Watched, t: Watched, n: Name)
    requires HistInv(w.state) && RulesAreCurrent(w, n) && Numbered(n)
    requires n in w.world && n in t.world && w.world[n] != t.world[n] && t.asked == w.asked
    requires t.state.hist.log == w.state.hist.log && EpochOf(t.state.hist.epochs, n) == EpochOf(w.state.hist.epochs, n)
    ensures RulesAreCurrent(t, n) <==> PolicyOf(w.state.core.rules, n) == EMPTY_POLICY
  {
    var epoch := EpochOf(w.state.hist.epochs, n);
    EmptyPolicyMeansNoAnswers(w.state.hist.log, n, epoch);
    forall a | a in w.state.hist.log && Answers(a, n, epoch)
      ensures !AskedForCurrent(t, n, a.id)
    {
      assert AskedForCurrent(w, n, a.id);
    }
  }

  /** A new address list starts with no rules, so all of them are of the new VM. */
  lemma NewListingIsCurrent(w: Watched, t: Watched, n: Name)
    requires HistInv(w.state)
    requires t.state.hist.log == w.state.hist.log && EpochOf(t.state.hist.epochs, n) > EpochOf(w.state.hist.epochs, n)
    ensures RulesAreCurrent(t, n)
  {
  }

  lemma PublishLogsNothing(s: State, e: Event, size: nat)
    requires e.Publish?
    ensures Step(s, e, size).hist.log == s.hist.log
  {
  }

  /** After a refresh that finds another VM under a name, its rules are those of that VM exactly
      when the address is another, too, or no rule was in force. */
  lemma ReuseIsCleanIff(w: Watched, x: Sight, size: nat, n: Name)
    requires WatchInv(w, size, n) && TruthfulFor(x, n) && RulesAreCurrent(w, n) && Numbered(n)
    requires x.event.Publish? && !w.state.core.failed && n in w.world && n in x.world && w.world[n] != x.world[n]
    ensures RulesAreCurrent(Watch(w, x, size), n) <==>
            !ShareAddress(w.world[n], x.world[n]) || PolicyOf(w.state.core.rules, n) == EMPTY_POLICY
  {
    var t := Watch(w, x, size);
    ShareAddressMeaning(w.world[n], x.world[n]);
    PublishLogsNothing(w.state, x.event, size);
    PublishedIps(w.state.core, w.state.cli, x.event, size, n);
    EpochStep(w.state.hist.epochs, w.state.core.sources, t.state.core.sources, n);
    ListingsDiffer(w, t, n);
    if AddrOf(w.world[n]) != AddrOf(x.world[n]) {
      NewListingIsCurrent(w, t, n);
    } else {
      UnseenReuseKeepsAnswers(w, t, n);
    }
  }

  lemma ListingsDiffer(w: Watched, t: Watched, n: Name)
    requires Shows(w.state.core.sources, w.world, n) && Shows(t.state.core.sources, t.world, n)
    requires n in w.world && n in t.world
    ensures IpsOf(w.state.core.sources, n) == IpsOf(t.state.core.sources, n) <==> AddrOf(w.world[n]) == AddrOf(t.world[n])
  {
    assert [AddrOf(w.world[n])] == [AddrOf(t.world[n])] <==> [AddrOf(w.world[n])][0] == [AddrOf(t.world[n])][0];
  }

  // ----------------------------------------------------------------- over whole runs

  lemma {:induction false} WatchAllKeepsPrompts(w: Watched, xs: seq<Sight>, size: nat, n: Name)
    requires WatchInv(w, size, n) && PromptsAreCurrent(w, n) && forall x :: x in xs ==> TruthfulFor(x, n)
    requires EveryReuseIsSeen(w, xs, size, n)
    ensures WatchInv(WatchAll(w, xs, size), size, n) && PromptsAreCurrent(WatchAll(w, xs, size), n)
    decreases |xs|
  {
    if xs != [] {
      WatchKeepsInv(w, xs[0], size, n);
      WatchKeepsPrompts(w, xs[0], size, n);
      WatchAllKeepsPrompts(Watch(w, xs[0], size), xs[1..], size, n);
    }
  }

  function WatchStart(files: Rules, sources: SourceMap, dns: Resolver, load: LoadOutcome, world: World): Watched {
    Watched(Start(files, sources, dns, load), world, map[])
  }

  /** Over every run in which no refresh finds another VM under the name with the old address,
      the rules of a numbered name, in memory and on file, are exactly the answers of its current
      epoch, and each answers a prompt raised while the VM listed now was listed. */
  lemma RulesBelongToTheVm(files: Rules, sources: SourceMap, dns: Resolver, load: LoadOutcome, world: World,
                           xs: seq<Sight>, size: nat, n: Name)
    requires ValidFiles(files) && Numbered(n) && Shows(sources, world, n)
    requires forall x :: x in xs ==> TruthfulFor(x, n)
    requires EveryReuseIsSeen(WatchStart(files, sources, dns, load, world), xs, size, n)
    ensures var w := WatchAll(WatchStart(files, sources, dns, load, world), xs, size);
            var s, epoch := w.state, EpochOf(w.state.hist.epochs, n);
            && PolicyOf(s.core.rules, n) == PolicyFrom(s.hist.log, n, epoch)
            && FileOf(s.core.files, n) == StripPolicy(PolicyFrom(s.hist.log, n, epoch))
            && RulesAreCurrent(w, n)
  {
    var start := WatchStart(files, sources, dns, load, world);
    StartHasInv(files, sources, dns, load, size);
    StartupSources(files, sources, dns, load);
    WatchAllKeepsPrompts(start, xs, size, n);
    LoggedForCurrent(WatchAll(start, xs, size), size, n);
  }

  lemma LoggedForCurrent(w: Watched, size: nat, n: Name)
    requires Inv(w.state, size) && PromptsAreCurrent(w, n) && Numbered(n)
    ensures RulesAreCurrent(w, n)
    ensures var s, epoch := w.state, EpochOf(w.state.hist.epochs, n);
            && PolicyOf(s.core.rules, n) == PolicyFrom(s.hist.log, n, epoch)
            && FileOf(s.core.files, n) == StripPolicy(PolicyFrom(s.hist.log, n, epoch))
  {
  }
}
