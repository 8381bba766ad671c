/** The pending prompt queue as the daemon keeps it: an ordered dict of questions and a
    separate dict of prompt ids (qubes_snitch/queue.py). */
module PromptQueues {
  import opened Wrappers
  import opened Policy
  import opened PolicyMeaning
  import opened Runtime
  import opened StateMeaning

  datatype QueueOutcome = Queued | Duplicate | Full

  /** PENDING_QUESTIONS in insertion order. */
  type Questions = seq<(Key, Request)>

  predicate Listed(questions: Questions, key: Key) {
    exists i :: 0 <= i < |questions| && questions[i].0 == key
  }

  /** Both dicts have the same keys, each once. */
  ghost predicate DictsAgree(questions: Questions, ids: map<Key, nat>) {
    if questions == [] then ids == map[]
    else questions[0].0 in ids && DictsAgree(questions[1..], ids - {questions[0].0})
  }

  /** Every key is that of its question. */
  ghost predicate Keyed(questions: Questions) {
    questions == [] || (questions[0].0 == QuestionKey(questions[0].1) && Keyed(questions[1..]))
  }

  lemma {:induction false} KeyedAt(questions: Questions, i: nat)
    requires Keyed(questions) && i < |questions|
    ensures questions[i].0 == QuestionKey(questions[i].1)
  {
    if i > 0 {
      KeyedAt(questions[1..], i - 1);
    }
  }

  lemma {:induction false} AddedKeyed(questions: Questions, r: Request)
    requires Keyed(questions)
    ensures Keyed(questions + [(QuestionKey(r), r)])
  {
    var all := questions + [(QuestionKey(r), r)];
    if questions == [] {
      assert all[1..] == [];
    } else {
      AddedKeyed(questions[1..], r);
      assert all[1..] == questions[1..] + [(QuestionKey(r), r)];
    }
  }

  /** Both dicts read together. */
  ghost function Entries(questions: Questions, ids: map<Key, nat>): (entries: seq<Entry>)
    requires DictsAgree(questions, ids)
    ensures |entries| == |questions|
  {
    if questions == [] then []
    else
      var (key, request) := questions[0];
      [Entry(key, request, ids[key])] + Entries(questions[1..], ids - {key})
  }

  lemma ListedCons(questions: Questions, key: Key)
    requires questions != []
    ensures Listed(questions, key) <==> questions[0].0 == key || Listed(questions[1..], key)
  {
    if Listed(questions[1..], key) {
      var i :| 0 <= i < |questions[1..]| && questions[1..][i].0 == key;
      assert questions[i + 1].0 == key;
    }
    if Listed(questions, key) && questions[0].0 != key {
      var i :| 0 <= i < |questions| && questions[i].0 == key;
      assert questions[1..][i - 1].0 == key;
    }
  }

  lemma {:induction false} SharedKeys(questions: Questions, ids: map<Key, nat>, key: Key)
    requires DictsAgree(questions, ids)
    ensures key in ids <==> Listed(questions, key)
  {
    if questions != [] {
      ListedCons(questions, key);
      SharedKeys(questions[1..], ids - {questions[0].0}, key);
    }
  }

  lemma {:induction false} EntryAt(questions: Questions, ids: map<Key, nat>, i: nat)
    requires DictsAgree(questions, ids) && i < |questions|
    ensures questions[i].0 in ids && Entries(questions, ids)[i] == Entry(questions[i].0, questions[i].1, ids[questions[i].0])
    ensures forall j :: 0 <= j < i ==> Entries(questions, ids)[j].key != questions[i].0
  {
    if i > 0 {
      EntryAt(questions[1..], ids - {questions[0].0}, i - 1);
    }
  }

  lemma EntriesMatch(questions: Questions, ids: map<Key, nat>)
    requires DictsAgree(questions, ids)
    ensures forall i :: 0 <= i < |questions| ==>
              Entries(questions, ids)[i].key == questions[i].0 && Entries(questions, ids)[i].request == questions[i].1
  {
    forall i | 0 <= i < |questions| {
      EntryAt(questions, ids, i);
    }
  }

  /** The prompt under a key is the one issued under its id. */
  lemma PendingUnderKey(questions: Questions, ids: map<Key, nat>, k: nat, id: nat)
    requires DictsAgree(questions, ids) && k < |questions|
    ensures questions[k].0 in ids
    ensures IsPending(Entries(questions, ids), questions[k].0, id) <==> ids[questions[k].0] == id
  {
    var entries, key := Entries(questions, ids), questions[k].0;
    EntryAt(questions, ids, k);
    if IsPending(entries, key, id) {
      var j :| 0 <= j < |entries| && entries[j].key == key && entries[j].id == id;
      EntryAt(questions, ids, j);
    }
  }

  lemma KeysMatch(questions: Questions, ids: map<Key, nat>, key: Key)
    requires DictsAgree(questions, ids)
    ensures key in ids <==> Listed(questions, key)
    ensures HasKey(Entries(questions, ids), key) <==> Listed(questions, key)
  {
    SharedKeys(questions, ids, key);
    forall i | 0 <= i < |questions| {
      EntryAt(questions, ids, i);
    }
  }

  /** The key dict finds exactly the pending questions that ask the same. */
  lemma KeyFindsQuestion(questions: Questions, ids: map<Key, nat>, r: Request)
    requires DictsAgree(questions, ids) && Keyed(questions)
    ensures HasKey(Entries(questions, ids), QuestionKey(r)) <==> AskedAlready(Entries(questions, ids), r)
  {
    forall i | 0 <= i < |questions|
      ensures Entries(questions, ids)[i].key == QuestionKey(Entries(questions, ids)[i].request)
    {
      EntryAt(questions, ids, i);
      KeyedAt(questions, i);
    }
    KeyFindsAsked(Entries(questions, ids), r);
  }

  lemma {:induction false} AddedAgrees(questions: Questions, ids: map<Key, nat>, key: Key, r: Request, id: nat)
    requires DictsAgree(questions, ids) && key !in ids
    ensures DictsAgree(questions + [(key, r)], ids[key := id])
    ensures Entries(questions + [(key, r)], ids[key := id]) == Entries(questions, ids) + [Entry(key, r, id)]
  {
    var all, more := questions + [(key, r)], ids[key := id];
    if questions == [] {
      assert all[1..] == [] && more - {key} == map[];
    } else {
      var first := questions[0].0;
      AddedAgrees(questions[1..], ids - {first}, key, r, id);
      assert all[1..] == questions[1..] + [(key, r)] && more - {first} == (ids - {first})[key := id];
    }
  }

  function Removed(questions: Questions, k: nat): Questions
    requires k < |questions|
  {
    questions[..k] + questions[k + 1..]
  }

  /** The entries without the one at this position. */
  function DropAt(entries: seq<Entry>, at: nat): (rest: seq<Entry>)
    requires at < |entries|
    ensures |rest| == |entries| - 1
  {
    if at == 0 then entries[1..] else [entries[0]] + DropAt(entries[1..], at - 1)
  }

  lemma {:induction false} DropAtIsSlices(entries: seq<Entry>, at: nat)
    requires at < |entries|
    ensures DropAt(entries, at) == entries[..at] + entries[at + 1..]
  {
    if at > 0 {
      DropAtIsSlices(entries[1..], at - 1);
      assert entries[..at] == [entries[0]] + entries[1..][..at - 1];
      assert entries[1..][at..] == entries[at + 1..];
    }
  }

  lemma RemovedTail(questions: Questions, k: nat)
    requires 0 < k < |questions|
    ensures Removed(questions, k) != [] && Removed(questions, k)[0] == questions[0]
    ensures Removed(questions, k)[1..] == Removed(questions[1..], k - 1)
  {
  }

  lemma {:induction false} RemovedKeyed(questions: Questions, k: nat)
    requires Keyed(questions) && k < |questions|
    ensures Keyed(Removed(questions, k))
  {
    if k == 0 {
      assert Removed(questions, k) == questions[1..];
    } else {
      RemovedKeyed(questions[1..], k - 1);
      RemovedTail(questions, k);
    }
  }

  lemma {:induction false} RemovedAgrees(questions: Questions, ids: map<Key, nat>, k: nat)
    requires DictsAgree(questions, ids) && k < |questions|
    ensures DictsAgree(Removed(questions, k), ids - {questions[k].0})
    ensures Entries(Removed(questions, k), ids - {questions[k].0}) == DropAt(Entries(questions, ids), k)
  {
    var key := questions[k].0;
    if k == 0 {
      assert Removed(questions, k) == questions[1..];
    } else {
      var first := questions[0].0;
      EntryAt(questions, ids, k);
      assert Entries(questions, ids)[0].key == first;
      RemovedAgrees(questions[1..], ids - {first}, k - 1);
      RemovedTail(questions, k);
      assert ids - {key} - {first} == ids - {first} - {key};
    }
  }

  lemma {:induction false} WithoutKeyIsRemoval(entries: seq<Entry>, k: nat)
    requires k < |entries|
    requires forall i :: 0 <= i < k ==> entries[i].key != entries[k].key
    ensures WithoutKey(entries, entries[k].key) == DropAt(entries, k)
  {
    if k > 0 {
      assert entries[1..][k - 1] == entries[k];
      WithoutKeyIsRemoval(entries[1..], k - 1);
    }
  }

  lemma {:induction false} WithoutSourcesAppend(a: seq<Entry>, e: Entry, names: set<Name>)
    ensures WithoutSources(a + [e], names) == WithoutSources(a, names) + (if e.key.source in names then [] else [e])
  {
    if a == [] {
      assert a + [e] == [e];
    } else {
      assert (a + [e])[1..] == a[1..] + [e] && (a + [e])[0] == a[0];
      WithoutSourcesAppend(a[1..], e, names);
      var head := if a[0].key.source in names then [] else [a[0]];
      var tail := if e.key.source in names then [] else [e];
      assert head + (WithoutSources(a[1..], names) + tail) == head + WithoutSources(a[1..], names) + tail;
    }
  }

  lemma {:induction false} WithoutSiblingsAppend(a: seq<Entry>, e: Entry, r: Request, resolved: seq<Addr>)
    ensures WithoutSiblings(a + [e], r, resolved) == WithoutSiblings(a, r, resolved) + (if Sibling(e.request, r, resolved) then [] else [e])
  {
    if a == [] {
      assert a + [e] == [e];
    } else {
      assert (a + [e])[1..] == a[1..] + [e] && (a + [e])[0] == a[0];
      WithoutSiblingsAppend(a[1..], e, r, resolved);
      var head := if Sibling(a[0].request, r, resolved) then [] else [a[0]];
      var tail := if Sibling(e.request, r, resolved) then [] else [e];
      assert head + (WithoutSiblings(a[1..], r, resolved) + tail) == head + WithoutSiblings(a[1..], r, resolved) + tail;
    }
  }

  /** How many of the first i entries a clean-up keeps. */
  ghost function KeptCount(drops: seq<bool>, i: nat): (n: nat)
    requires i <= |drops|
    ensures n <= i
  {
    if i == 0 then 0 else KeptCount(drops, i - 1) + if drops[i - 1] then 0 else 1
  }

  /** The queue after i rounds of a clean-up that drops the flagged entries. */
  ghost function Left(all: seq<Entry>, drops: seq<bool>, i: nat): (left: seq<Entry>)
    requires i <= |all| == |drops|
    ensures |left| == |all| - i + KeptCount(drops, i)
  {
    if i == 0 then all
    else
      var before, at := Left(all, drops, i - 1), KeptCount(drops, i - 1);
      if drops[i - 1] then DropAt(before, at) else before
  }

  lemma DropRound(done: seq<Entry>, tail: seq<Entry>)
    requires tail != []
    ensures DropAt(done + tail, |done|) == done + tail[1..]
  {
    DropAtIsSlices(done + tail, |done|);
  }

  lemma KeepRound(done: seq<Entry>, tail: seq<Entry>)
    requires tail != []
    ensures done + tail == done + [tail[0]] + tail[1..]
  {
  }

  lemma NextOf(all: seq<Entry>, i: nat)
    requires i < |all|
    ensures all[i..] != [] && all[i..][0] == all[i] && all[i..][1..] == all[i + 1..]
    ensures all[..i + 1] == all[..i] + [all[i]]
  {
  }

  /** One round on the parts: all[i] is deleted or joins the front part. */
  lemma CleanupRound(done: seq<Entry>, all: seq<Entry>, i: nat, before: seq<Entry>, drop: bool)
    requires i < |all| && before == done + all[i..]
    ensures (if drop then DropAt(before, |done|) else before)
         == (if drop then done else done + [all[i]]) + all[i + 1..]
    ensures all[..i + 1] == all[..i] + [all[i]]
  {
    NextOf(all, i);
    DropRound(done, all[i..]);
    KeepRound(done, all[i..]);
  }

  lemma SourcesRound(all: seq<Entry>, i: nat, names: set<Name>, before: seq<Entry>, drop: bool)
    requires i < |all| && before == WithoutSources(all[..i], names) + all[i..] && drop == (all[i].key.source in names)
    ensures var front := WithoutSources(all[..i], names);
            && (if drop then DropAt(before, |front|) else before) == WithoutSources(all[..i + 1], names) + all[i + 1..]
            && |WithoutSources(all[..i + 1], names)| == |front| + if drop then 0 else 1
  {
    CleanupRound(WithoutSources(all[..i], names), all, i, before, drop);
    WithoutSourcesAppend(all[..i], all[i], names);
    if drop {
      assert WithoutSources(all[..i], names) + [] == WithoutSources(all[..i], names);
    }
  }

  lemma {:induction false} LeftIsWithoutSources(all: seq<Entry>, drops: seq<bool>, i: nat, names: set<Name>)
    requires i <= |all| == |drops| && forall j :: 0 <= j < |all| ==> drops[j] == (all[j].key.source in names)
    ensures Left(all, drops, i) == WithoutSources(all[..i], names) + all[i..]
    ensures KeptCount(drops, i) == |WithoutSources(all[..i], names)|
  {
    if i == 0 {
      assert all[..0] == [] && all[0..] == all;
    } else {
      LeftIsWithoutSources(all, drops, i - 1, names);
      SourcesRound(all, i - 1, names, Left(all, drops, i - 1), drops[i - 1]);
    }
  }

  lemma SiblingsRound(all: seq<Entry>, i: nat, r: Request, resolved: seq<Addr>, before: seq<Entry>, drop: bool)
    requires i < |all| && before == WithoutSiblings(all[..i], r, resolved) + all[i..] && drop == Sibling(all[i].request, r, resolved)
    ensures var front := WithoutSiblings(all[..i], r, resolved);
            && (if drop then DropAt(before, |front|) else before) == WithoutSiblings(all[..i + 1], r, resolved) + all[i + 1..]
            && |WithoutSiblings(all[..i + 1], r, resolved)| == |front| + if drop then 0 else 1
  {
    CleanupRound(WithoutSiblings(all[..i], r, resolved), all, i, before, drop);
    WithoutSiblingsAppend(all[..i], all[i], r, resolved);
    if drop {
      assert WithoutSiblings(all[..i], r, resolved) + [] == WithoutSiblings(all[..i], r, resolved);
    }
  }

  lemma {:induction false} LeftIsWithoutSiblings(all: seq<Entry>, drops: seq<bool>, i: nat, r: Request, resolved: seq<Addr>)
    requires i <= |all| == |drops| && forall j :: 0 <= j < |all| ==> drops[j] == Sibling(all[j].request, r, resolved)
    ensures Left(all, drops, i) == WithoutSiblings(all[..i], r, resolved) + all[i..]
    ensures KeptCount(drops, i) == |WithoutSiblings(all[..i], r, resolved)|
  {
    if i == 0 {
      assert all[..0] == [] && all[0..] == all;
    } else {
      LeftIsWithoutSiblings(all, drops, i - 1, r, resolved);
      SiblingsRound(all, i - 1, r, resolved, Left(all, drops, i - 1), drops[i - 1]);
    }
  }

  lemma SourceFlags(all: seq<Entry>, names: set<Name>) returns (drops: seq<bool>)
    ensures |drops| == |all| && forall j :: 0 <= j < |all| ==> drops[j] == (all[j].key.source in names)
    ensures Left(all, drops, |all|) == WithoutSources(all, names)
  {
    drops := seq(|all|, j requires 0 <= j < |all| => all[j].key.source in names);
    LeftIsWithoutSources(all, drops, |all|, names);
    assert all[..|all|] == all && all[|all|..] == [];
  }

  lemma SiblingFlags(all: seq<Entry>, r: Request, resolved: seq<Addr>) returns (drops: seq<bool>)
    ensures |drops| == |all| && forall j :: 0 <= j < |all| ==> drops[j] == Sibling(all[j].request, r, resolved)
    ensures Left(all, drops, |all|) == WithoutSiblings(all, r, resolved)
  {
    drops := seq(|all|, j requires 0 <= j < |all| => Sibling(all[j].request, r, resolved));
    LeftIsWithoutSiblings(all, drops, |all|, r, resolved);
    assert all[..|all|] == all && all[|all|..] == [];
  }

  class PromptQueue {
    var questions: Questions
    var ids: map<Key, nat>
    var next: nat

    /** The two dicts share their keys, which are those of the questions. */
    ghost predicate Valid()
      reads this
    {
      DictsAgree(questions, ids) && Keyed(questions)
    }

    ghost function Pending(): seq<Entry>
      requires Valid()
      reads this
    {
      Entries(questions, ids)
    }

    ghost function State(): QueueState
      requires Valid()
      reads this
    {
      QueueState(Pending(), next)
    }

    constructor ()
      ensures Valid() && State() == QueueState([], 1)
    {
      questions, ids, next := [], map[], 1;
    }

    method Find(key: Key) returns (k: int)
      requires Valid()
      ensures -1 <= k < |questions|
      ensures k < 0 <==> !HasKey(Pending(), key)
      ensures k < 0 <==> key !in ids
      ensures k >= 0 ==> questions[k].0 == key && Pending()[k] == Entry(key, questions[k].1, ids[key])
      ensures k >= 0 ==> forall j :: 0 <= j < k ==> Pending()[j].key != key
    {
      KeysMatch(questions, ids, key);
      for i := 0 to |questions|
        invariant forall j :: 0 <= j < i ==> questions[j].0 != key
      {
        if questions[i].0 == key {
          EntryAt(questions, ids, i);
          return i;
        }
      }
      return -1;
    }

    /** queue_question */
    method QueueQuestion(r: Request, size: nat) returns (outcome: QueueOutcome)
      requires Valid()
      modifies this
      ensures Valid() && State() == Enqueue(old(State()), r, size)
      ensures outcome == if AskedAlready(old(Pending()), r) then Duplicate
                         else if |old(Pending())| >= size then Full else Queued
      ensures Pending() == if outcome == Queued then old(Pending()) + [Entry(QuestionKey(r), r, old(next))] else old(Pending())
    {
      var key := QuestionKey(r);
      KeyFindsQuestion(questions, ids, r);
      var k := Find(key);
      if k >= 0 {
        return Duplicate;
      }
      if |questions| >= size {
        return Full;
      }
      AddedAgrees(questions, ids, key, r, next);
      AddedKeyed(questions, r);
      questions := questions + [(key, r)];
      ids := ids[key := next];
      next := next + 1;
      return Queued;
    }

    /** next_pending_request; None where the original waits. */
    method NextPending() returns (front: Option<(Entry, nat)>)
      requires Valid()
      ensures front.None? <==> Pending() == []
      ensures front.Some? ==> front.value == (Pending()[0], |Pending()| - 1)
    {
      if questions == [] {
        return None;
      }
      var (key, request) := questions[0];
      return Some((Entry(key, request, ids[key]), |questions| - 1));
    }

    /** del PENDING_QUESTIONS[key] and PENDING_PROMPT_IDS.pop(key). */
    method DeleteAt(k: nat)
      requires Valid() && k < |questions|
      modifies this
      ensures Valid() && next == old(next)
      ensures Pending() == DropAt(old(Pending()), k)
    {
      EntryAt(questions, ids, k);
      RemovedAgrees(questions, ids, k);
      RemovedKeyed(questions, k);
      var key := questions[k].0;
      questions := Removed(questions, k);
      ids := ids - {key};
    }

    /** One entry of a clean-up: deleted, or passed over. */
    method DeleteIf(drop: bool, at: nat) returns (passed: nat)
      requires Valid() && at < |questions|
      modifies this
      ensures Valid() && next == old(next)
      ensures Pending() == if drop then DropAt(old(Pending()), at) else old(Pending())
      ensures passed == if drop then at else at + 1
    {
      passed := if drop then at else at + 1;
      if drop {
        DeleteAt(at);
      }
    }

    /** remove_pending_for_source */
    method RemovePendingForSource(source: Name)
      requires Valid()
      modifies this
      ensures Valid() && next == old(next)
      ensures Pending() == WithoutSources(old(Pending()), {source})
    {
      ghost var all := Pending();
      EntriesMatch(questions, ids);
      ghost var drops := SourceFlags(all, {source});
      var listed, kept := questions, 0;
      for i := 0 to |listed|
        invariant Valid() && next == old(next) && |listed| == |all|
        invariant forall j :: 0 <= j < |listed| ==> listed[j].0 == all[j].key
        invariant kept == KeptCount(drops, i) && Pending() == Left(all, drops, i)
      {
        kept := DeleteIf(listed[i].0.source == source, kept);
      }
    }

    /** discard_pending_decision */
    method DiscardPendingDecision(key: Key, id: nat)
      requires Valid()
      modifies this
      ensures Valid() && State() == Discard(old(State()), key, id)
    {
      var k := Find(key);
      if k >= 0 {
        PendingUnderKey(questions, ids, k, id);
      }
      if k >= 0 && ids[key] == id {
        WithoutKeyIsRemoval(Pending(), k);
        DeleteAt(k);
      }
    }

    /** remove_pending_hostname_set */
    method RemovePendingHostnameSet(r: Request, resolved: seq<Addr>)
      requires Valid()
      modifies this
      ensures Valid() && next == old(next)
      ensures Pending() == WithoutSiblings(old(Pending()), r, resolved)
    {
      ghost var all := Pending();
      EntriesMatch(questions, ids);
      ghost var drops := SiblingFlags(all, r, resolved);
      var listed, kept := questions, 0;
      for i := 0 to |listed|
        invariant Valid() && next == old(next) && |listed| == |all|
        invariant forall j :: 0 <= j < |listed| ==> listed[j].1 == all[j].request
        invariant kept == KeptCount(drops, i) && Pending() == Left(all, drops, i)
      {
        kept := DeleteIf(Sibling(listed[i].1, r, resolved), kept);
      }
    }

    /** The queue part of save_pending_decision: the prompt is claimed only under the id it
        was issued with. */
    method ClaimPending(key: Key, id: nat, r: Request, decision: Decision, resolved: seq<Addr>) returns (claimed: bool)
      requires Valid()
      modifies this
      ensures Valid()
      ensures claimed == IsPending(old(Pending()), key, id)
      ensures State() == if claimed then Claim(old(State()), key, r, decision, resolved) else old(State())
    {
      var k := Find(key);
      if k >= 0 {
        PendingUnderKey(questions, ids, k, id);
      }
      if k < 0 || ids[key] != id {
        return false;
      }
      WithoutKeyIsRemoval(Pending(), k);
      DeleteAt(k);
      if decision.ForHostname() {
        RemovePendingHostnameSet(r, resolved);
      }
      return true;
    }
  }
}
