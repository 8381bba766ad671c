/** Whole runs of the DNS hint cache: what any interleaving of stores, evictions and source
    cleanups keeps. The calls hold DNS_CACHE_LOCK, so each is one step. */
module DnsCacheRuns {
  import opened Wrappers
  import opened Policy
  import opened DnsCaches

  datatype Op = Put(s: Store) | Drop(source: Name)

  /** The calls so far, latest last. */
  datatype Log = Start | Then(past: Log, op: Op)

  ghost predicate StepOf(before: Cache, op: Op, after: Cache, lim: CacheLimits) {
    match op
    case Put(s) => exists a, b, c :: Stored(before, s, a, b, c, after, lim)
    case Drop(source) => after == WithoutSource(before, source)
  }

  /** The log of calls leads from the empty cache to this one. */
  ghost predicate Reaches(log: Log, cache: Cache, lim: CacheLimits) {
    match log
    case Start => cache == EMPTY_CACHE
    case Then(past, op) => exists before :: Reaches(past, before, lim) && StepOf(before, op, cache, lim)
  }

  // ----------------------------------------------------- agreement with the log

  /** The most recent store for this source that contained the address, since the source was last cleaned. */
  function LastStore(log: Log, key: HintKey): Option<Store> {
    match log
    case Start => None
    case Then(past, Put(s)) => if s.source == key.0 && key.1 in s.labels then Some(s) else LastStore(past, key)
    case Then(past, Drop(source)) => if source == key.0 then None else LastStore(past, key)
  }

  ghost predicate Agrees(hints: map<HintKey, Hint>, log: Log) {
    forall k :: k in hints ==>
                  var last := LastStore(log, k);
                  last.Some? && last.value.source == k.0 && k.1 in last.value.labels && hints[k] == last.value.HintFor(k.1)
  }

  lemma HintPassShrinks(h0: map<HintKey, Hint>, r0: map<RecordKey, Record>, h1: map<HintKey, Hint>,
                        r1: map<RecordKey, Record>, candidates: set<HintKey>, limit: nat)
    requires HintsEvicted(h0, r0, h1, r1, candidates, limit)
    ensures SubMap(h1, h0) && r1.Keys == r0.Keys
  {
  }

  lemma RecordPassShrinks(r0: map<RecordKey, Record>, r1: map<RecordKey, Record>, candidates: set<RecordKey>, limit: nat)
    requires RecordsEvicted(r0, r1, candidates, limit)
    ensures SubMap(r1, r0)
  {
  }

  /** Evictions only remove hints, and the hint passes keep every name. */
  lemma EvictionShrinks(before: Cache, source: Name, a: Cache, b: Cache, c: Cache, after: Cache, lim: CacheLimits)
    requires Evicted(before, source, a, b, c, after, lim)
    ensures SubMap(after.hints, before.hints) && SubMap(after.hints, a.hints)
    ensures b.records.Keys == a.records.Keys == before.records.Keys
  {
    HintPassShrinks(before.hints, before.records, a.hints, a.records, HintsOf(before.hints, source), lim.perSource);
    HintPassShrinks(a.hints, a.records, b.hints, b.records, a.hints.Keys, lim.total);
  }

  lemma StoreAgrees(log: Log, c: Cache, s: Store, hints: map<HintKey, Hint>)
    requires Agrees(c.hints, log) && SubMap(hints, Written(c, s).hints)
    ensures Agrees(hints, Then(log, Put(s)))
  {
  }

  lemma DropAgrees(log: Log, c: Cache, source: Name)
    requires Agrees(c.hints, log)
    ensures Agrees(WithoutSource(c, source).hints, Then(log, Drop(source)))
  {
  }

  /** Every hint is the answer of the most recent store for it; none survives a source cleanup. */
  lemma {:induction false} HintsAgreeWithLog(log: Log, cache: Cache, lim: CacheLimits)
    requires Reaches(log, cache, lim)
    ensures Agrees(cache.hints, log)
  {
    match log
    case Start =>
    case Then(past, op) =>
      var before :| Reaches(past, before, lim) && StepOf(before, op, cache, lim);
      HintsAgreeWithLog(past, before, lim);
      match op {
        case Put(s) =>
          StoreOnlyShrinks(before, s, cache, lim);
          StoreAgrees(past, before, s, cache.hints);
        case Drop(source) =>
          DropAgrees(past, before, source);
      }
  }

  lemma StoreOnlyShrinks(before: Cache, s: Store, after: Cache, lim: CacheLimits)
    requires StepOf(before, Put(s), after, lim)
    ensures SubMap(after.hints, Written(before, s).hints)
  {
    var a, b, c :| Stored(before, s, a, b, c, after, lim);
    EvictionShrinks(Written(before, s), s.source, a, b, c, after, lim);
  }

  /** What a fresh label means: it is the answer of the most recent store for the source and
      address, and that store's time is not over. Without one, that store was evicted, is over, or
      never was. */
  lemma FreshLabelIsTheLatestAnswer(log: Log, cache: Cache, lim: CacheLimits, key: HintKey, now: real)
    requires Reaches(log, cache, lim)
    ensures var last := LastStore(log, key);
            match FreshLabel(cache.hints, key, now)
            case Some(text) => last.Some? && key.1 in last.value.labels && text == last.value.labels[key.1] && now < last.value.expiresAt
            case None => last.None? || key !in cache.hints || last.value.expiresAt <= now
  {
    HintsAgreeWithLog(log, cache, lim);
  }

  // ------------------------------------------------------------------ the bounds

  ghost predicate HintsBounded(hints: map<HintKey, Hint>, lim: CacheLimits) {
    |hints.Keys| <= lim.total && forall source :: |HintsOf(hints, source)| <= lim.perSource
  }

  ghost predicate RecordsBounded(records: map<RecordKey, Record>, lim: CacheLimits) {
    |records.Keys| <= lim.total && forall source :: |RecordsOf(records, source)| <= lim.perSource
  }

  /** Both maps are within the total, and within the per-source cap for every source. */
  ghost predicate InCaps(c: Cache, lim: CacheLimits) {
    HintsBounded(c.hints, lim) && RecordsBounded(c.records, lim)
  }

  lemma {:induction false} SubsetCount<T>(small: set<T>, big: set<T>)
    requires small <= big
    ensures |small| <= |big|
  {
    if small != {} {
      var x :| x in small;
      SubsetCount(small - {x}, big - {x});
    }
  }

  /** The source's pass brings the source within its limit; other sources were within it before. */
  lemma SourcePassBoundsHints(h0: map<HintKey, Hint>, r0: map<RecordKey, Record>, h1: map<HintKey, Hint>,
                              r1: map<RecordKey, Record>, source: Name, limit: nat)
    requires HintsEvicted(h0, r0, h1, r1, HintsOf(h0, source), limit)
    requires forall x :: x != source ==> |HintsOf(h0, x)| <= limit
    ensures forall x :: |HintsOf(h1, x)| <= limit
  {
    HintPassShrinks(h0, r0, h1, r1, HintsOf(h0, source), limit);
    forall x ensures |HintsOf(h1, x)| <= limit {
      if x == source {
        assert HintsOf(h1, source) == HintsOf(h0, source) * h1.Keys;
      } else {
        SubsetCount(HintsOf(h1, x), HintsOf(h0, x));
      }
    }
  }

  lemma GlobalPassBoundsHints(h0: map<HintKey, Hint>, r0: map<RecordKey, Record>, h1: map<HintKey, Hint>,
                              r1: map<RecordKey, Record>, lim: CacheLimits)
    requires HintsEvicted(h0, r0, h1, r1, h0.Keys, lim.total)
    requires forall x :: |HintsOf(h0, x)| <= lim.perSource
    ensures HintsBounded(h1, lim)
  {
    HintPassShrinks(h0, r0, h1, r1, h0.Keys, lim.total);
    assert h0.Keys * h1.Keys == h1.Keys;
    forall x ensures |HintsOf(h1, x)| <= lim.perSource {
      SubsetCount(HintsOf(h1, x), HintsOf(h0, x));
    }
  }

  lemma SourcePassBoundsRecords(r0: map<RecordKey, Record>, r1: map<RecordKey, Record>, source: Name, limit: nat)
    requires RecordsEvicted(r0, r1, RecordsOf(r0, source), limit)
    requires forall x :: x != source ==> |RecordsOf(r0, x)| <= limit
    ensures forall x :: |RecordsOf(r1, x)| <= limit
  {
    RecordPassShrinks(r0, r1, RecordsOf(r0, source), limit);
    forall x ensures |RecordsOf(r1, x)| <= limit {
      if x == source {
        assert RecordsOf(r1, source) == RecordsOf(r0, source) * r1.Keys;
      } else {
        SubsetCount(RecordsOf(r1, x), RecordsOf(r0, x));
      }
    }
  }

  lemma GlobalPassBoundsRecords(r0: map<RecordKey, Record>, r1: map<RecordKey, Record>, lim: CacheLimits)
    requires RecordsEvicted(r0, r1, r0.Keys, lim.total)
    requires forall x :: |RecordsOf(r0, x)| <= lim.perSource
    ensures RecordsBounded(r1, lim)
  {
    RecordPassShrinks(r0, r1, r0.Keys, lim.total);
    assert r0.Keys * r1.Keys == r1.Keys;
    forall x ensures |RecordsOf(r1, x)| <= lim.perSource {
      SubsetCount(RecordsOf(r1, x), RecordsOf(r0, x));
    }
  }

  /** A store adds entries for its own source only. */
  lemma WrittenForOtherSources(c: Cache, s: Store, lim: CacheLimits)
    requires InCaps(c, lim)
    ensures forall x :: x != s.source ==> |HintsOf(Written(c, s).hints, x)| <= lim.perSource
    ensures forall x :: x != s.source ==> |RecordsOf(Written(c, s).records, x)| <= lim.perSource
  {
    var w := Written(c, s);
    forall x | x != s.source
      ensures |HintsOf(w.hints, x)| <= lim.perSource && |RecordsOf(w.records, x)| <= lim.perSource
    {
      SubsetCount(HintsOf(w.hints, x), HintsOf(c.hints, x));
      SubsetCount(RecordsOf(w.records, x), RecordsOf(c.records, x));
    }
  }

  lemma PassesBoundHints(h0: map<HintKey, Hint>, r0: map<RecordKey, Record>, h1: map<HintKey, Hint>,
                         r1: map<RecordKey, Record>, h2: map<HintKey, Hint>, r2: map<RecordKey, Record>,
                         source: Name, lim: CacheLimits)
    requires HintsEvicted(h0, r0, h1, r1, HintsOf(h0, source), lim.perSource)
    requires HintsEvicted(h1, r1, h2, r2, h1.Keys, lim.total)
    requires forall x :: x != source ==> |HintsOf(h0, x)| <= lim.perSource
    ensures HintsBounded(h2, lim) && r2.Keys == r0.Keys
  {
    SourcePassBoundsHints(h0, r0, h1, r1, source, lim.perSource);
    GlobalPassBoundsHints(h1, r1, h2, r2, lim);
    HintPassShrinks(h0, r0, h1, r1, HintsOf(h0, source), lim.perSource);
    HintPassShrinks(h1, r1, h2, r2, h1.Keys, lim.total);
  }

  lemma PassesBoundRecords(r0: map<RecordKey, Record>, r1: map<RecordKey, Record>, r2: map<RecordKey, Record>,
                           source: Name, lim: CacheLimits)
    requires RecordsEvicted(r0, r1, RecordsOf(r0, source), lim.perSource)
    requires RecordsEvicted(r1, r2, r1.Keys, lim.total)
    requires forall x :: x != source ==> |RecordsOf(r0, x)| <= lim.perSource
    ensures RecordsBounded(r2, lim)
  {
    SourcePassBoundsRecords(r0, r1, source, lim.perSource);
    GlobalPassBoundsRecords(r1, r2, lim);
  }

  lemma SameNamesSameCount(r0: map<RecordKey, Record>, r1: map<RecordKey, Record>, source: Name, limit: nat)
    requires r1.Keys == r0.Keys
    requires forall x :: x != source ==> |RecordsOf(r0, x)| <= limit
    ensures forall x :: x != source ==> |RecordsOf(r1, x)| <= limit
  {
    forall x | x != source ensures |RecordsOf(r1, x)| <= limit {
      assert RecordsOf(r1, x) == RecordsOf(r0, x);
    }
  }

  lemma EvictionBounds(w: Cache, source: Name, a: Cache, b: Cache, c: Cache, after: Cache, lim: CacheLimits)
    requires Evicted(w, source, a, b, c, after, lim)
    requires forall x :: x != source ==> |HintsOf(w.hints, x)| <= lim.perSource
    requires forall x :: x != source ==> |RecordsOf(w.records, x)| <= lim.perSource
    ensures InCaps(after, lim)
  {
    PassesBoundHints(w.hints, w.records, a.hints, a.records, b.hints, b.records, source, lim);
    SameNamesSameCount(w.records, b.records, source, lim.perSource);
    PassesBoundRecords(b.records, c.records, after.records, source, lim);
  }

  lemma DropBounds(c: Cache, source: Name, lim: CacheLimits)
    requires InCaps(c, lim)
    ensures InCaps(WithoutSource(c, source), lim)
  {
    var d := WithoutSource(c, source);
    SubsetCount(d.hints.Keys, c.hints.Keys);
    SubsetCount(d.records.Keys, c.records.Keys);
    forall x ensures |HintsOf(d.hints, x)| <= lim.perSource && |RecordsOf(d.records, x)| <= lim.perSource {
      SubsetCount(HintsOf(d.hints, x), HintsOf(c.hints, x));
      SubsetCount(RecordsOf(d.records, x), RecordsOf(c.records, x));
    }
  }

  /** Both maps respect the per-source cap for every source, and the total. */
  lemma {:induction false} CachesStayInCaps(log: Log, cache: Cache, lim: CacheLimits)
    requires Reaches(log, cache, lim)
    ensures InCaps(cache, lim)
  {
    match log
    case Start =>
      assert forall source :: HintsOf(cache.hints, source) == {} && RecordsOf(cache.records, source) == {};
    case Then(past, op) =>
      var before :| Reaches(past, before, lim) && StepOf(before, op, cache, lim);
      CachesStayInCaps(past, before, lim);
      match op {
        case Put(s) =>
          var a, b, c :| Stored(before, s, a, b, c, cache, lim);
          WrittenForOtherSources(before, s, lim);
          EvictionBounds(Written(before, s), s.source, a, b, c, cache, lim);
        case Drop(source) =>
          DropBounds(before, source, lim);
      }
  }

  /** Over a whole store, no hint is evicted while an earlier-expiring one of its source stays. */
  lemma VictimsExpireFirst(c0: Cache, s: Store, a: Cache, b: Cache, c: Cache, after: Cache, lim: CacheLimits,
                           victim: HintKey, kept: HintKey)
    requires Stored(c0, s, a, b, c, after, lim)
    requires victim in Written(c0, s).hints && victim !in after.hints
    requires kept in after.hints && kept.0 == victim.0
    ensures Written(c0, s).hints[victim].expiresAt <= after.hints[kept].expiresAt
  {
    var w := Written(c0, s);
    EvictionShrinks(w, s.source, a, b, c, after, lim);
    if victim !in a.hints {
      assert victim in w.hints.Keys - a.hints.Keys && kept in HintsOf(w.hints, s.source) * a.hints.Keys;
      assert HintExpiry(w.hints)[victim] <= HintExpiry(w.hints)[kept];
    } else {
      assert victim in a.hints.Keys - b.hints.Keys && kept in a.hints.Keys * b.hints.Keys;
      assert HintExpiry(a.hints)[victim] <= HintExpiry(a.hints)[kept];
    }
  }

  lemma PruningKeepsExpiry(h0: map<HintKey, Hint>, r0: map<RecordKey, Record>, h1: map<HintKey, Hint>,
                           r1: map<RecordKey, Record>, candidates: set<HintKey>, limit: nat)
    requires HintsEvicted(h0, r0, h1, r1, candidates, limit)
    ensures RecordExpiry(r1) == RecordExpiry(r0)
  {
  }

  lemma NameVictimsExpireFirst(r0: map<RecordKey, Record>, r1: map<RecordKey, Record>, r2: map<RecordKey, Record>,
                               source: Name, lim: CacheLimits, victim: RecordKey, kept: RecordKey)
    requires RecordsEvicted(r0, r1, RecordsOf(r0, source), lim.perSource) && RecordsEvicted(r1, r2, r1.Keys, lim.total)
    requires victim in r0 && victim !in r2 && kept in r2 && kept.source == victim.source
    ensures kept in r0 && r2[kept] == r0[kept] && r0[victim].expiresAt <= r0[kept].expiresAt
  {
    RecordPassShrinks(r0, r1, RecordsOf(r0, source), lim.perSource);
    RecordPassShrinks(r1, r2, r1.Keys, lim.total);
    if victim !in r1 {
      assert victim in r0.Keys - r1.Keys && kept in RecordsOf(r0, source) * r1.Keys;
      assert RecordExpiry(r0)[victim] <= RecordExpiry(r0)[kept];
    } else {
      assert victim in r1.Keys - r2.Keys && kept in r1.Keys * r2.Keys;
      assert RecordExpiry(r1)[victim] <= RecordExpiry(r1)[kept];
    }
  }

  /** The same for the records of names. */
  lemma EvictedNamesExpireFirst(c0: Cache, s: Store, a: Cache, b: Cache, c: Cache, after: Cache, lim: CacheLimits,
                                victim: RecordKey, kept: RecordKey)
    requires Stored(c0, s, a, b, c, after, lim)
    requires victim in Written(c0, s).records && victim !in after.records
    requires kept in after.records && kept.source == victim.source
    ensures Written(c0, s).records[victim].expiresAt <= after.records[kept].expiresAt
  {
    var w := Written(c0, s);
    EvictionShrinks(w, s.source, a, b, c, after, lim);
    PruningKeepsExpiry(w.hints, w.records, a.hints, a.records, HintsOf(w.hints, s.source), lim.perSource);
    PruningKeepsExpiry(a.hints, a.records, b.hints, b.records, a.hints.Keys, lim.total);
    NameVictimsExpireFirst(b.records, c.records, after.records, s.source, lim, victim, kept);
    assert RecordExpiry(w.records)[victim] == RecordExpiry(b.records)[victim];
  }

  // --------------------------------------------------------- hints and their names

  function OwnerKey(k: HintKey, h: Hint): RecordKey {
    RecordKey(k.0, h.qtype, h.qname)
  }

  /** The name's record lists the address with this label and expiry. */
  predicate BackedHint(records: map<RecordKey, Record>, k: HintKey, h: Hint) {
    var owner := OwnerKey(k, h);
    owner in records && k.1 in records[owner].labels
    && records[owner].labels[k.1] == h.text && records[owner].expiresAt == h.expiresAt
  }

  ghost predicate Backed(hints: map<HintKey, Hint>, records: map<RecordKey, Record>) {
    forall k :: k in hints ==> BackedHint(records, k, hints[k])
  }

  lemma WrittenIsBacked(c: Cache, s: Store)
    requires Backed(c.hints, c.records)
    ensures Backed(Written(c, s).hints, Written(c, s).records)
  {
    var w := Written(c, s);
    forall k | k in w.hints ensures BackedHint(w.records, k, w.hints[k]) {
      if !(k.0 == s.source && k.1 in s.labels) {
        assert k in c.hints && k !in OldHints(c, s.Key());
        assert OwnerKey(k, c.hints[k]) != s.Key();
      }
    }
  }

  /** Pruning keeps exactly the labels that still have a hint, so backed hints stay backed. */
  lemma PassKeepsBacking(h0: map<HintKey, Hint>, r0: map<RecordKey, Record>, h1: map<HintKey, Hint>,
                         r1: map<RecordKey, Record>, candidates: set<HintKey>, limit: nat)
    requires HintsEvicted(h0, r0, h1, r1, candidates, limit) && Backed(h0, r0)
    ensures Backed(h1, r1)
  {
  }

  /** The hint a record's label stands for is there: same source, address, name, type and text. */
  predicate LiveLabel(hints: map<HintKey, Hint>, k: RecordKey, ip: Addr, text: string) {
    (k.source, ip) in hints
    && var h := hints[(k.source, ip)]; k.qname == h.qname && k.qtype == h.qtype && text == h.text
  }

  /** A pass that cut hints leaves in the records exactly the labels whose hint is still there. */
  lemma CutPrunes(h0: map<HintKey, Hint>, r0: map<RecordKey, Record>, h1: map<HintKey, Hint>,
                  r1: map<RecordKey, Record>, candidates: set<HintKey>, limit: nat, k: RecordKey, ip: Addr)
    requires HintsEvicted(h0, r0, h1, r1, candidates, limit) && |candidates| > limit && k in r1
    ensures k in r0 && (ip in r1[k].labels <==> ip in r0[k].labels && LiveLabel(h1, k, ip, r0[k].labels[ip]))
    ensures ip in r1[k].labels ==> r1[k].labels[ip] == r0[k].labels[ip]
  {
  }

  /** Over a store that evicted hints, every record kept lists exactly those of its labels whose hint is
      still there. */
  lemma EvictionLeavesLiveLabels(before: Cache, s: Store, a: Cache, b: Cache, c: Cache, after: Cache, lim: CacheLimits,
                                 k: RecordKey, ip: Addr)
    requires Stored(before, s, a, b, c, after, lim) && k in after.records
    requires |HintsOf(Written(before, s).hints, s.source)| > lim.perSource || |a.hints.Keys| > lim.total
    ensures var w := Written(before, s);
            k in w.records && (ip in after.records[k].labels <==>
                               ip in w.records[k].labels && LiveLabel(after.hints, k, ip, w.records[k].labels[ip]))
  {
    var w := Written(before, s);
    RecordPassShrinks(b.records, c.records, RecordsOf(b.records, s.source), lim.perSource);
    RecordPassShrinks(c.records, after.records, c.records.Keys, lim.total);
    HintPassShrinks(a.hints, a.records, b.hints, b.records, a.hints.Keys, lim.total);
    HintPassShrinks(w.hints, w.records, a.hints, a.records, HintsOf(w.hints, s.source), lim.perSource);
    if |HintsOf(w.hints, s.source)| > lim.perSource {
      CutPrunes(w.hints, w.records, a.hints, a.records, HintsOf(w.hints, s.source), lim.perSource, k, ip);
    }
    if |a.hints.Keys| > lim.total {
      CutPrunes(a.hints, a.records, b.hints, b.records, a.hints.Keys, lim.total, k, ip);
    }
  }

  /** The qname passes of this store evict nothing: both counts are within their limits. */
  ghost predicate NoNameEvicted(c: Cache, s: Store, lim: CacheLimits) {
    var names := c.records.Keys + {s.Key()};
    |names| <= lim.total && |set k | k in names && k.source == s.source| <= lim.perSource
  }

  lemma SmallNamesKept(r0: map<RecordKey, Record>, r1: map<RecordKey, Record>, r2: map<RecordKey, Record>,
                       names: set<RecordKey>, source: Name, lim: CacheLimits)
    requires RecordsEvicted(r0, r1, RecordsOf(r0, source), lim.perSource) && RecordsEvicted(r1, r2, r1.Keys, lim.total)
    requires r0.Keys == names && |names| <= lim.total && |set k | k in names && k.source == source| <= lim.perSource
    ensures r2 == r0
  {
  }

  lemma EvictionKeepsBacking(w: Cache, source: Name, a: Cache, b: Cache, c: Cache, after: Cache, lim: CacheLimits)
    requires Evicted(w, source, a, b, c, after, lim) && Backed(w.hints, w.records)
    requires |w.records.Keys| <= lim.total && |set k | k in w.records.Keys && k.source == source| <= lim.perSource
    ensures Backed(after.hints, after.records)
  {
    PassKeepsBacking(w.hints, w.records, a.hints, a.records, HintsOf(w.hints, source), lim.perSource);
    PassKeepsBacking(a.hints, a.records, b.hints, b.records, a.hints.Keys, lim.total);
    EvictionShrinks(w, source, a, b, c, after, lim);
    SmallNamesKept(b.records, c.records, after.records, w.records.Keys, source, lim);
  }

  lemma WrittenNames(c: Cache, s: Store, lim: CacheLimits)
    requires NoNameEvicted(c, s, lim)
    ensures var names := Written(c, s).records.Keys;
            |names| <= lim.total && |set k | k in names && k.source == s.source| <= lim.perSource
  {
    assert Written(c, s).records.Keys == c.records.Keys + {s.Key()};
  }

  lemma StoreKeepsBacking(before: Cache, s: Store, after: Cache, lim: CacheLimits)
    requires StepOf(before, Put(s), after, lim) && NoNameEvicted(before, s, lim)
    requires Backed(before.hints, before.records)
    ensures Backed(after.hints, after.records)
  {
    var a, b, c :| Stored(before, s, a, b, c, after, lim);
    WrittenIsBacked(before, s);
    WrittenNames(before, s, lim);
    EvictionKeepsBacking(Written(before, s), s.source, a, b, c, after, lim);
  }

  lemma DropKeepsBacking(before: Cache, source: Name)
    requires Backed(before.hints, before.records)
    ensures Backed(WithoutSource(before, source).hints, WithoutSource(before, source).records)
  {
  }

  /** A run in which no store had to evict a name. */
  ghost predicate ReachesKeepingNames(log: Log, cache: Cache, lim: CacheLimits) {
    match log
    case Start => cache == EMPTY_CACHE
    case Then(past, op) =>
      exists before :: ReachesKeepingNames(past, before, lim) && StepOf(before, op, cache, lim)
                       && (op.Put? ==> NoNameEvicted(before, op.s, lim))
  }

  /** While no name has been evicted, every hint is listed by its name's record, with the same
      label and expiry. */
  lemma {:induction false} EveryHintIsBacked(log: Log, cache: Cache, lim: CacheLimits)
    requires ReachesKeepingNames(log, cache, lim)
    ensures Backed(cache.hints, cache.records)
  {
    match log
    case Start =>
    case Then(past, op) =>
      var before :| ReachesKeepingNames(past, before, lim) && StepOf(before, op, cache, lim)
                    && (op.Put? ==> NoNameEvicted(before, op.s, lim));
      EveryHintIsBacked(past, before, lim);
      match op {
        case Put(s) => StoreKeepsBacking(before, s, cache, lim);
        case Drop(source) => DropKeepsBacking(before, source);
      }
  }

  // ------------------------------------------------------------------- refreshes

  /** What a store does to hints of other names before it evicts: none is deleted, and one is
      replaced if and only if its address is in the new answer for its source. */
  lemma StoreAndOtherNames(c: Cache, s: Store, k: HintKey)
    requires k in c.hints && !NamedBy(k, c.hints[k], s)
    ensures var w := Written(c, s).hints;
            k in w && (w[k] == c.hints[k] <==> !(k.0 == s.source && k.1 in s.labels))
  {
  }

  predicate NamedBy(k: HintKey, h: Hint, s: Store) {
    k.0 == s.source && h.qname == s.qname && h.qtype == s.qtype
  }

  /** Hints of the refreshed name that its new answer does not contain. */
  function StaleHints(hints: map<HintKey, Hint>, s: Store): set<HintKey> {
    set k | k in hints && NamedBy(k, hints[k], s) && k.1 !in s.labels
  }

  /** The name's record lists this hint, so a refresh will find it. */
  predicate InRecord(c: Cache, k: HintKey, s: Store) {
    k in c.hints && s.Key() in c.records && k.1 in c.records[s.Key()].labels
    && c.records[s.Key()].labels[k.1] == c.hints[k].text
  }

  /** A refresh forgets exactly the listed addresses: those outside the answer stay stale if and
      only if the name's record did not list them. */
  lemma RefreshForgetsListed(c: Cache, s: Store)
    ensures StaleHints(Written(c, s).hints, s) == set k | k in StaleHints(c.hints, s) && !InRecord(c, k, s)
  {
  }

  /** While no name has been evicted, a refresh leaves no address outside its answer with the name. */
  lemma RefreshLeavesNoStaleHint(log: Log, before: Cache, s: Store, after: Cache, lim: CacheLimits)
    requires ReachesKeepingNames(log, before, lim) && StepOf(before, Put(s), after, lim)
    ensures StaleHints(after.hints, s) == {}
  {
    EveryHintIsBacked(log, before, lim);
    StoreOnlyShrinks(before, s, after, lim);
    RefreshForgetsListed(before, s);
    forall k | k in StaleHints(before.hints, s) ensures InRecord(before, k, s) {
      assert BackedHint(before.records, k, before.hints[k]);
    }
    assert StaleHints(after.hints, s) <= StaleHints(Written(before, s).hints, s) == {};
  }

  // ------------------------------------ a refresh after the name itself was evicted

  /** The cache of one VM with one hint, and a record for one name only. */
  function OneName(s: Store, key: HintKey, h: Hint): Cache {
    Cache(map[key := h], map[s.Key() := Record(s.labels, s.expiresAt)])
  }

  lemma OneNameCut(first: Store, second: Store, key: HintKey, h: Hint)
    requires first.source == second.source && first.Key() != second.Key() && first.expiresAt <= second.expiresAt
    ensures var records := OneName(first, key, h).records[second.Key() := Record(second.labels, second.expiresAt)];
            RecordsEvicted(records, OneName(second, key, h).records, RecordsOf(records, second.source), 1)
  {
    var records := OneName(first, key, h).records[second.Key() := Record(second.labels, second.expiresAt)];
    var after := OneName(second, key, h).records;
    var names := RecordsOf(records, second.source);
    assert names == {first.Key(), second.Key()} == records.Keys;
    assert names * after.Keys == {second.Key()};
    assert RecordsCut(records, after, names, 1);
  }

  /** With room for one name, a store of an empty answer pushes out the only other name; the hint
      stays. */
  lemma NameReplaced(first: Store, second: Store, key: HintKey, h: Hint, lim: CacheLimits)
    requires first.source == second.source == key.0 && first.Key() != second.Key() && first.expiresAt <= second.expiresAt
    requires second.labels == map[] && lim.perSource == 1 <= lim.total
    ensures StepOf(OneName(first, key, h), Put(second), OneName(second, key, h), lim)
  {
    var before, after := OneName(first, key, h), OneName(second, key, h);
    var w := Written(before, second);
    assert OldHints(before, second.Key()) == {} && NewHints(second, second.labels.Keys) == map[];
    assert w == Cache(before.hints, before.records[second.Key() := Record(second.labels, second.expiresAt)]);
    assert HintsOf(w.hints, second.source) == {key} == w.hints.Keys;
    OneNameCut(first, second, key, h);
    assert after.records.Keys == {second.Key()};
    assert Stored(before, second, w, w, after, after, lim);
  }

  lemma FirstName(s: Store, ip: Addr, lim: CacheLimits)
    requires s.labels.Keys == {ip} && 1 <= lim.perSource <= lim.total
    ensures StepOf(EMPTY_CACHE, Put(s), OneName(s, (s.source, ip), s.HintFor(ip)), lim)
  {
    var key := (s.source, ip);
    var first := OneName(s, key, s.HintFor(ip));
    assert NewHints(s, s.labels.Keys) == map[key := s.HintFor(ip)];
    assert OldHints(EMPTY_CACHE, s.Key()) == {};
    assert Written(EMPTY_CACHE, s) == first;
    assert HintsOf(first.hints, s.source) == {key} == first.hints.Keys;
    assert RecordsOf(first.records, s.source) == {s.Key()} == first.records.Keys;
    assert Stored(EMPTY_CACHE, s, first, first, first, first, lim);
  }

  lemma TwoStores(first: Store, second: Store, c0: Cache, c1: Cache, c2: Cache, lim: CacheLimits)
    requires c0 == EMPTY_CACHE && StepOf(c0, Put(first), c1, lim) && StepOf(c1, Put(second), c2, lim)
    ensures Reaches(Then(Then(Start, Put(first)), Put(second)), c2, lim)
  {
    assert Reaches(Start, c0, lim);
    assert Reaches(Then(Start, Put(first)), c1, lim);
  }

  lemma NothingEvicted(w: Cache, source: Name, lim: CacheLimits)
    requires |w.hints.Keys| <= lim.total && |w.records.Keys| <= lim.total
    requires |HintsOf(w.hints, source)| <= lim.perSource && |RecordsOf(w.records, source)| <= lim.perSource
    ensures Evicted(w, source, w, w, w, w, lim)
  {
  }

  /** Both names' records, and the hint the second store wrote. */
  function BothNames(first: Store, second: Store, ip: Addr): Cache
    requires ip in first.labels && ip in second.labels
  {
    Cache(map[(first.source, ip) := second.HintFor(ip)],
          OneName(first, (first.source, ip), first.HintFor(ip)).records[second.Key() := Record(second.labels, second.expiresAt)])
  }

  lemma SecondWritten(first: Store, second: Store, ip: Addr)
    requires first.source == second.source && first.qname != second.qname
    requires first.labels.Keys == second.labels.Keys == {ip}
    ensures Written(OneName(first, (first.source, ip), first.HintFor(ip)), second) == BothNames(first, second, ip)
  {
    var before := OneName(first, (first.source, ip), first.HintFor(ip));
    assert OldHints(before, second.Key()) == {};
    assert NewHints(second, second.labels.Keys) == map[(first.source, ip) := second.HintFor(ip)];
  }

  lemma BothNamesCounts(first: Store, second: Store, ip: Addr)
    requires first.source == second.source && ip in first.labels && ip in second.labels
    ensures var c := BothNames(first, second, ip);
            && |c.hints.Keys| == |HintsOf(c.hints, second.source)| == 1
            && |c.records.Keys| <= 2 && |RecordsOf(c.records, second.source)| <= 2
  {
    var c := BothNames(first, second, ip);
    assert HintsOf(c.hints, second.source) == {(first.source, ip)} == c.hints.Keys;
    assert RecordsOf(c.records, second.source) == {first.Key(), second.Key()} == c.records.Keys;
  }

  lemma UnevictedStore(before: Cache, s: Store, after: Cache, lim: CacheLimits)
    requires Written(before, s) == after && Evicted(after, s.source, after, after, after, after, lim)
    ensures StepOf(before, Put(s), after, lim)
  {
    assert Stored(before, s, after, after, after, after, lim);
  }

  lemma SecondName(first: Store, second: Store, ip: Addr, lim: CacheLimits)
    requires first.source == second.source && first.qname != second.qname
    requires first.labels.Keys == second.labels.Keys == {ip} && 2 <= lim.perSource <= lim.total
    ensures StepOf(OneName(first, (first.source, ip), first.HintFor(ip)), Put(second), BothNames(first, second, ip), lim)
  {
    var after := BothNames(first, second, ip);
    SecondWritten(first, second, ip);
    BothNamesCounts(first, second, ip);
    NothingEvicted(after, second.source, lim);
    UnevictedStore(OneName(first, (first.source, ip), first.HintFor(ip)), second, after, lim);
  }

  /** Two names, one shared address, nothing evicted: the second store takes the label over. */
  lemma SharedAddressIsRelabelled(first: Store, second: Store, ip: Addr, lim: CacheLimits) returns (before: Cache, after: Cache)
    requires first.source == second.source && first.qname != second.qname
    requires first.labels.Keys == second.labels.Keys == {ip} && 2 <= lim.perSource <= lim.total
    ensures Reaches(Then(Then(Start, Put(first)), Put(second)), after, lim) && StepOf(before, Put(second), after, lim)
    ensures var key := (first.source, ip);
            && key in before.hints && before.hints[key] == first.HintFor(ip) && !NamedBy(key, before.hints[key], second)
            && key in after.hints && after.hints[key] == second.HintFor(ip) != first.HintFor(ip)
  {
    var key := (first.source, ip);
    before := OneName(first, key, first.HintFor(ip));
    after := BothNames(first, second, ip);
    FirstName(first, ip, lim);
    SecondName(first, second, ip, lim);
    TwoStores(first, second, EMPTY_CACHE, before, after, lim);
  }

  lemma HintIsStale(s: Store, key: HintKey, h: Hint)
    requires NamedBy(key, h, s) && key.1 !in s.labels
    ensures key in StaleHints(OneName(s, key, h).hints, s)
  {
  }

  /** The record of a name can be evicted while its hint stays; a later refresh of that name to an
      empty answer then leaves the old address with the name. */
  lemma EvictedNameLeavesStaleHint(name: Store, ip: Addr, other: Store, refresh: Store, lim: CacheLimits)
    returns (log: Log, before: Cache, after: Cache)
    requires name.labels.Keys == {ip} && other.labels == refresh.labels == map[]
    requires name.source == other.source && name.Key() == refresh.Key() != other.Key()
    requires name.expiresAt <= other.expiresAt <= refresh.expiresAt && lim.perSource == 1 <= lim.total
    ensures Reaches(log, before, lim) && StepOf(before, Put(refresh), after, lim)
    ensures (name.source, ip) in StaleHints(after.hints, refresh)
  {
    var key, h := (name.source, ip), name.HintFor(ip);
    before, after := OneName(other, key, h), OneName(refresh, key, h);
    log := Then(Then(Start, Put(name)), Put(other));
    FirstName(name, ip, lim);
    NameReplaced(name, other, key, h, lim);
    NameReplaced(other, refresh, key, h, lim);
    TwoStores(name, other, EMPTY_CACHE, OneName(name, key, h), before, lim);
    HintIsStale(refresh, key, h);
  }
}
