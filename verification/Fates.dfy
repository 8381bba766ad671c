/** Why a prompt left the queue: what its recorded fate says about it. */
module Fates {
  import opened Wrappers
  import opened Policy
  import opened Nft
  import opened Runtime
  import opened Protocol
  import opened Guarantees

  /** The step in which a waiting prompt met its fate, and what made it so: an answer claims the
      prompt shown and sweeps only flow prompts its resolved set covers, a refresh cleans up only
      numbered names whose addresses changed, and only the prompt shown is discarded. */
  ghost predicate Explained(s: State, e: Event, t: State, id: nat) {
    && id in s.hist.fates && s.hist.fates[id] == Waiting
    && id in s.hist.raised && id in t.hist.fates
    && var asked := s.hist.raised[id].request;
       match t.hist.fates[id]
       case Waiting => false
       case Claimed => e.CliAnswer? && Shown(s, id)
       case Swept => e.CliAnswer? && s.cli.Some? && SweptWith(s, e, t, asked, s.cli.value)
       case Discarded =>
         && Shown(s, id)
         && (e.CliDiscard? || (e.CliEnrich? && !SourceCurrent(s.core.sources, s.cli.value.request)))
       case CleanedUp =>
         && e.Publish? && Numbered(asked.source)
         && IpsOf(t.core.sources, asked.source) != IpsOf(s.core.sources, asked.source)
  }

  predicate Shown(s: State, id: nat) {
    s.cli.Some? && s.cli.value.id == id
  }

  /** Swept together with the claimed prompt; once the rule is saved, it answers the swept prompt too. */
  ghost predicate SweptWith(s: State, e: Event, t: State, asked: Request, claim: Entry)
    requires e.CliAnswer?
  {
    && e.decision.ForHostname() && Sibling(asked, claim.request, Resolved(e.decision, e.resolved))
    && claim.id in t.hist.fates && t.hist.fates[claim.id] == Claimed
    && (t.core.rules != s.core.rules ==> MatchingAction(t.core.rules, asked) == Some(e.decision.ToAction()))
  }

  lemma HostnameAnswerCoversSibling(policy: SourcePolicy, r: Request, decision: Decision, resolved: seq<Addr>, other: Request)
    requires Promptable(r) && Promptable(other) && decision.ForHostname() && Sibling(other, r, resolved)
    requires AppendAnswer(policy, r, decision, resolved).Some? && PolicyAction(policy, other).None?
    ensures PolicyAction(AppendAnswer(policy, r, decision, resolved).value, other) == Some(decision.ToAction())
  {
    FlowAnswerCovers(r, decision, resolved, other);
    FirstFlowConcat(policy.ip, [FlowRuleFor(r, decision, resolved).value], other.AsFlow());
  }

  /** The entry of a waiting id, as it was raised. */
  lemma WaitingEntry(s: State, size: nat, id: nat) returns (x: Entry)
    requires Inv(s, size) && id in s.hist.fates && s.hist.fates[id] == Waiting
    ensures x in s.core.queue.pending && x.id == id && EntryOk(x, s.core.queue.next)
    ensures id in s.hist.raised && s.hist.raised[id].request == x.request
    ensures MatchingAction(s.core.rules, x.request).None?
  {
    HasIdMeans(s.core.queue.pending, id);
    x :| x in s.core.queue.pending && x.id == id;
  }

  /** A prompt that a claim removes is the claimed one or a sibling of it. */
  lemma RemovedByClaim(q: QueueState, claim: Entry, decision: Decision, addrs: seq<Addr>, size: nat, x: Entry)
    requires QueueInv(q, size) && IsPending(q.pending, claim.key, claim.id)
    requires x in q.pending && x !in Claim(q, claim.key, claim.request, decision, addrs).pending && x.id != claim.id
    ensures decision.ForHostname() && Sibling(x.request, claim.request, addrs)
  {
    ClaimMembers(q, claim, decision, addrs, size);
    IsPendingMeans(q.pending, claim.key, claim.id);
    var y :| y in q.pending && y.key == claim.key && y.id == claim.id;
    if x.key == claim.key {
      SameIdSameEntry(q.pending, x, y);
    }
  }

  lemma SweepIsExplained(s: State, t: State, e: Event, size: nat, x: Entry)
    requires PolicyInv(s.core, size) && HistInv(s) && e.CliAnswer? && s.cli.Some?
    requires AnswerTaken(s.core, t.core, s.cli.value, e.decision, e.resolved)
    requires t.hist == StepHistory(s.hist, s.core, t.core, e, s.cli)
    requires x in s.core.queue.pending && x !in t.core.queue.pending && x.id != s.cli.value.id
    ensures SweptWith(s, e, t, x.request, s.cli.value)
  {
    var claim, addrs := s.cli.value, Resolved(e.decision, e.resolved);
    RemovedByClaim(s.core.queue, claim, e.decision, addrs, size, x);
    TakenIsClaimed(s, t, e, size);
    if t.core.rules != s.core.rules {
      HostnameAnswerCoversSibling(s.core.rules[claim.request.source], claim.request, e.decision, addrs, x.request);
    }
  }

  lemma CleanupIsExplained(c: Core, sources: SourceMap, relabelled: bool, load: LoadOutcome, size: nat, x: Entry)
    requires PolicyInv(c, size)
    requires x in c.queue.pending && x !in Refresh(c, sources, relabelled, load).queue.pending
    ensures Numbered(x.request.source)
    ensures IpsOf(Refresh(c, sources, relabelled, load).sources, x.request.source) != IpsOf(c.sources, x.request.source)
  {
    RefreshEffect(c, sources, relabelled, load, size);
    CleanedKeepsInv(c, sources, size);
    CleanedQueue(c, sources, x, size);
  }

  lemma DiscardIsExplained(s: State, e: Event, size: nat, x: Entry)
    requires Inv(s, size) && ValidEvent(e) && !e.CliAnswer? && !e.Publish?
    requires x in s.core.queue.pending && x !in Step(s, e, size).core.queue.pending
    ensures Shown(s, x.id)
    ensures e.CliDiscard? || (e.CliEnrich? && !SourceCurrent(s.core.sources, s.cli.value.request))
  {
    if e.PacketPrompt? {
      PromptEffect(s.core, e.request, size);
    } else if (e.CliDiscard? || e.CliEnrich?) && s.cli.Some? {
      var claim, q := s.cli.value, s.core.queue;
      WithoutKeyMembers(q.pending, claim.key);
      IsPendingMeans(q.pending, claim.key, claim.id);
      var y :| y in q.pending && y.key == claim.key && y.id == claim.id;
      SameIdSameEntry(q.pending, x, y);
    }
  }

  /** One step of any thread: whatever a prompt's fate becomes, it is explained. */
  lemma StepExplainsFates(s: State, e: Event, size: nat, id: nat)
    requires Inv(s, size) && ValidEvent(e)
    requires id in s.hist.fates && s.hist.fates[id] == Waiting
    requires id in Step(s, e, size).hist.fates && Step(s, e, size).hist.fates[id] != Waiting
    ensures Explained(s, e, Step(s, e, size), id)
  {
    var t := Step(s, e, size);
    var x := WaitingEntry(s, size, id);
    HasIdMeans(t.core.queue.pending, id);
    if e.CliAnswer? {
      if id != s.cli.value.id {
        AnswerCases(s.core, s.cli, e, size);
        SweepIsExplained(s, t, e, size, x);
      }
    } else if e.Publish? {
      CleanupIsExplained(s.core, e.sources, e.relabelled, e.load, size, x);
    } else {
      DiscardIsExplained(s, e, size, x);
    }
  }

  // ----------------------------------------------------------------- over whole runs

  lemma {:induction false} RunSnoc(s: State, past: seq<Event>, last: Event, size: nat)
    ensures Run(s, past + [last], size) == Step(Run(s, past, size), last, size)
    decreases |past|
  {
    if past == [] {
      assert past + [last] == [last];
      RunOne(s, last, size);
    } else {
      assert (past + [last])[1..] == past[1..] + [last];
      RunSnoc(Step(s, past[0], size), past[1..], last, size);
    }
  }

  lemma RunOne(s: State, e: Event, size: nat)
    ensures Run(s, [e], size) == Step(s, e, size)
  {
    assert Run(Step(s, e, size), [], size) == Step(s, e, size);
  }

  /** Step k of the run settled the prompt, with the fate it still has at the end. */
  ghost predicate SettledAt(s: State, events: seq<Event>, size: nat, id: nat, k: nat)
    requires k < |events|
  {
    var t, end := Run(s, events[..k + 1], size), Run(s, events, size);
    && Explained(Run(s, events[..k], size), events[k], t, id)
    && id in end.hist.fates && t.hist.fates[id] == end.hist.fates[id]
  }

  lemma StepKeepsFate(s: State, e: Event, size: nat, id: nat)
    requires Inv(s, size) && id in s.hist.fates && s.hist.fates[id] != Waiting
    ensures var t := Step(s, e, size); id in t.hist.fates && t.hist.fates[id] == s.hist.fates[id]
  {
    FateIsFinal(s.hist.fates, s.core, StepCore(s.core, s.cli, e, size), e, s.cli, id);
  }

  lemma NewIdsWait(s: State, e: Event, size: nat, id: nat)
    requires id !in s.hist.fates && id in Step(s, e, size).hist.fates
    ensures Step(s, e, size).hist.fates[id] == Waiting
  {
  }

  lemma SettledStays(s: State, past: seq<Event>, last: Event, before: State, end: State, size: nat, id: nat, k: nat)
    requires k < |past| && SettledAt(s, past, size, id, k)
    requires before == Run(s, past, size) && end == Run(s, past + [last], size)
    requires id in end.hist.fates && end.hist.fates[id] == before.hist.fates[id]
    ensures SettledAt(s, past + [last], size, id, k)
  {
    var events := past + [last];
    assert events[..k + 1] == past[..k + 1] && events[..k] == past[..k];
  }

  lemma StepSettles(s: State, e: Event, size: nat, id: nat)
    requires Inv(s, size) && ValidEvent(e)
    requires id in s.hist.fates ==> s.hist.fates[id] == Waiting
    requires var t := Step(s, e, size); id in t.hist.fates && t.hist.fates[id] != Waiting
    ensures Explained(s, e, Step(s, e, size), id)
  {
    if id !in s.hist.fates {
      NewIdsWait(s, e, size, id);
    }
    StepExplainsFates(s, e, size, id);
  }

  lemma SettledNow(s: State, past: seq<Event>, last: Event, before: State, t: State, size: nat, id: nat)
    requires before == Run(s, past, size) && t == Run(s, past + [last], size) && Explained(before, last, t, id)
    ensures SettledAt(s, past + [last], size, id, |past|)
  {
    var events := past + [last];
    assert events[..|past|] == past && events[..|past| + 1] == events;
  }

  /** Over any run every settled prompt has a step that settled it, for the reason its fate names. */
  lemma {:induction false} EveryFateIsExplained(s: State, events: seq<Event>, size: nat, id: nat) returns (k: nat)
    requires Inv(s, size) && forall e :: e in events ==> ValidEvent(e)
    requires id in s.hist.fates ==> s.hist.fates[id] == Waiting
    requires id in Run(s, events, size).hist.fates && Run(s, events, size).hist.fates[id] != Waiting
    ensures k < |events| && SettledAt(s, events, size, id, k)
    decreases |events|
  {
    var past, last := events[..|events| - 1], events[|events| - 1];
    var before := Run(s, past, size);
    assert events == past + [last];
    RunSnoc(s, past, last, size);
    RunKeepsInv(s, past, size);
    if id in before.hist.fates && before.hist.fates[id] != Waiting {
      k := EveryFateIsExplained(s, past, size, id);
      StepKeepsFate(before, last, size, id);
      SettledStays(s, past, last, before, Run(s, events, size), size, id, k);
    } else {
      k := |past|;
      StepSettles(before, last, size, id);
      SettledNow(s, past, last, before, Run(s, events, size), size, id);
    }
  }
}
