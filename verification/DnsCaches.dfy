/** The bounded two-map cache of DNS display hints (qubes_snitch/dns_cache_runtime.py). */
module DnsCaches {
  import opened Wrappers
  import opened Policy

  /** A response cache entry: the name an address was last resolved from. */
  datatype Hint = Hint(text: string, qname: string, qtype: string, expiresAt: real)

  /** A qname cache entry: the addresses one name resolved to. */
  datatype Record = Record(labels: map<Addr, string>, expiresAt: real)

  type HintKey = (Name, Addr)

  datatype RecordKey = RecordKey(source: Name, qtype: string, qname: string)

  datatype Cache = Cache(hints: map<HintKey, Hint>, records: map<RecordKey, Record>)

  const EMPTY_CACHE := Cache(map[], map[])

  /** One call of store_dns_labels; expiresAt is fixed before the lock is taken. */
  datatype Store = Store(source: Name, qname: string, qtype: string, labels: map<Addr, string>, expiresAt: real) {
    function Key(): RecordKey {
      RecordKey(source, qtype, qname)
    }

    function HintFor(ip: Addr): Hint
      requires ip in labels
    {
      Hint(labels[ip], qname, qtype, expiresAt)
    }
  }

  // ------------------------------------------------------------- eviction order

  /** The two-part sort key (expired first, then by expiry), compared lexicographically. */
  predicate SortsBefore(a: real, b: real, now: real) {
    (a <= now && b > now) || ((a > now <==> b > now) && a <= b)
  }

  /** The two-part key never differs from plain expiry. */
  lemma SortKeyIsExpiry(a: real, b: real, now: real)
    ensures SortsBefore(a, b, now) <==> a <= b
  {
  }

  ghost predicate SortedKeys<K>(keys: seq<K>, expiry: map<K, real>) {
    && (forall i :: 0 <= i < |keys| ==> keys[i] in expiry)
    && (forall i, j :: 0 <= i < j < |keys| ==> keys[i] != keys[j] && expiry[keys[i]] <= expiry[keys[j]])
  }

  function Elements<K>(keys: seq<K>): set<K> {
    set k | k in keys
  }

  lemma InsertKeepsSorted<K>(keys: seq<K>, at: nat, k: K, expiry: map<K, real>)
    requires SortedKeys(keys, expiry) && at <= |keys| && k in expiry && k !in keys
    requires forall i :: 0 <= i < at ==> expiry[keys[i]] <= expiry[k]
    requires forall i :: at <= i < |keys| ==> expiry[k] <= expiry[keys[i]]
    ensures SortedKeys(keys[..at] + [k] + keys[at..], expiry)
    ensures Elements(keys[..at] + [k] + keys[at..]) == Elements(keys) + {k}
  {
  }

  /** The insertion point of k: everything from it on expires no earlier. */
  method SlotFor<K>(keys: seq<K>, k: K, expiry: map<K, real>, now: real) returns (at: nat)
    requires k in expiry && forall i :: 0 <= i < |keys| ==> keys[i] in expiry
    requires SortedKeys(keys, expiry)
    ensures at <= |keys|
    ensures forall i :: 0 <= i < at ==> expiry[keys[i]] <= expiry[k]
    ensures forall i :: at <= i < |keys| ==> expiry[k] <= expiry[keys[i]]
  {
    at := |keys|;
    while at > 0 && !SortsBefore(expiry[keys[at - 1]], expiry[k], now)
      invariant 0 <= at <= |keys|
      invariant forall i :: at <= i < |keys| ==> expiry[k] <= expiry[keys[i]]
    {
      SortKeyIsExpiry(expiry[keys[at - 1]], expiry[k], now);
      at := at - 1;
    }
    if at > 0 {
      SortKeyIsExpiry(expiry[keys[at - 1]], expiry[k], now);
    }
  }

  /** keys.sort(...): an insertion sort on the two-part key. */
  method SortByExpiry<K>(candidates: set<K>, expiry: map<K, real>, now: real) returns (keys: seq<K>)
    requires candidates <= expiry.Keys
    ensures SortedKeys(keys, expiry) && Elements(keys) == candidates && |keys| == |candidates|
  {
    keys := [];
    var todo := candidates;
    while todo != {}
      invariant todo <= candidates && SortedKeys(keys, expiry)
      invariant Elements(keys) == candidates - todo
      decreases todo
    {
      var k :| k in todo;
      var at := SlotFor(keys, k, expiry, now);
      assert k !in Elements(keys);
      InsertKeepsSorted(keys, at, k, expiry);
      keys := keys[..at] + [k] + keys[at..];
      todo := todo - {k};
    }
    ElementsCount(keys);
  }

  /** What an eviction over the limit does: it cuts the candidates to the limit, and no victim
      expires later than a surviving candidate. */
  ghost predicate SoonestCut<K>(before: set<K>, after: set<K>, candidates: set<K>, limit: nat, expiry: map<K, real>) {
    && after <= before && before <= expiry.Keys
    && before - after <= candidates
    && |candidates * after| == limit
    && forall v, k :: v in before - after && k in candidates * after ==> expiry[v] <= expiry[k]
  }

  lemma {:induction false} ElementsCount<K>(keys: seq<K>)
    requires forall i, j :: 0 <= i < j < |keys| ==> keys[i] != keys[j]
    ensures |Elements(keys)| == |keys|
  {
    if keys != [] {
      var last := keys[|keys| - 1];
      ElementsCount(keys[..|keys| - 1]);
      assert Elements(keys) == Elements(keys[..|keys| - 1]) + {last};
    }
  }

  ghost predicate NoneLater<K>(victims: set<K>, kept: set<K>, expiry: map<K, real>) {
    forall v, k :: v in victims && k in kept ==> v in expiry && k in expiry && expiry[v] <= expiry[k]
  }

  lemma SplitKeys<K>(keys: seq<K>, n: nat, expiry: map<K, real>)
    requires SortedKeys(keys, expiry) && n <= |keys|
    ensures Elements(keys) == Elements(keys[..n]) + Elements(keys[n..])
    ensures Elements(keys[..n]) !! Elements(keys[n..])
    ensures NoneLater(Elements(keys[..n]), Elements(keys[n..]), expiry)
  {
  }

  lemma RestCount<K>(keys: seq<K>, n: nat, expiry: map<K, real>)
    requires SortedKeys(keys, expiry) && n <= |keys|
    ensures |Elements(keys[n..])| == |keys| - n
  {
    var rest := keys[n..];
    assert forall i :: 0 <= i < |rest| ==> rest[i] == keys[i + n];
    ElementsCount(rest);
  }

  lemma CutIsSoonest<K>(before: set<K>, victims: set<K>, kept: set<K>, limit: nat, expiry: map<K, real>)
    requires victims + kept <= before <= expiry.Keys && victims !! kept && |kept| == limit
    requires NoneLater(victims, kept, expiry)
    ensures SoonestCut(before, before - victims, victims + kept, limit, expiry)
  {
    assert before - (before - victims) == victims;
    assert (victims + kept) * (before - victims) == kept;
  }

  lemma FirstAreSoonest<K>(before: set<K>, candidates: set<K>, limit: nat, expiry: map<K, real>, keys: seq<K>)
    requires candidates <= before <= expiry.Keys && |candidates| > limit
    requires SortedKeys(keys, expiry) && Elements(keys) == candidates && |keys| == |candidates|
    ensures SoonestCut(before, before - Elements(keys[..|candidates| - limit]), candidates, limit, expiry)
  {
    var n := |candidates| - limit;
    SplitKeys(keys, n, expiry);
    RestCount(keys, n, expiry);
    CutIsSoonest(before, Elements(keys[..n]), Elements(keys[n..]), limit, expiry);
  }

  /** The label a packet may be shown with. */
  function FreshLabel(hints: map<HintKey, Hint>, key: HintKey, now: real): Option<string> {
    if key in hints && hints[key].expiresAt > now then Some(hints[key].text) else None
  }

  // ---------------------------------------------------------------- one store

  /** response_matches_qname */
  predicate HintMatches(h: Hint, qname: string, qtype: string, text: string) {
    h.qname == qname && h.qtype == qtype && h.text == text
  }

  /** remove_old_qname_ips: the labels this name still owns. */
  function OldHints(c: Cache, key: RecordKey): set<HintKey> {
    if key !in c.records then {}
    else set ip | ip in c.records[key].labels && (key.source, ip) in c.hints &&
                  HintMatches(c.hints[(key.source, ip)], key.qname, key.qtype, c.records[key].labels[ip]) :: (key.source, ip)
  }

  /** The response entries a store writes for some of its addresses. */
  function NewHints(s: Store, ips: set<Addr>): map<HintKey, Hint> {
    map ip | ip in ips && ip in s.labels :: (s.source, ip) := s.HintFor(ip)
  }

  /** Everything store_dns_labels writes before it evicts. */
  function Written(c: Cache, s: Store): Cache {
    Cache((c.hints - OldHints(c, s.Key())) + NewHints(s, s.labels.Keys),
          c.records[s.Key() := Record(s.labels, s.expiresAt)])
  }

  /** prune_qname_cache for one entry. */
  function PrunedLabels(hints: map<HintKey, Hint>, key: RecordKey, labels: map<Addr, string>): map<Addr, string> {
    map ip | ip in labels && (key.source, ip) in hints && HintMatches(hints[(key.source, ip)], key.qname, key.qtype, labels[ip]) :: labels[ip]
  }

  function Pruned(hints: map<HintKey, Hint>, records: map<RecordKey, Record>): map<RecordKey, Record> {
    map k | k in records :: Record(PrunedLabels(hints, k, records[k].labels), records[k].expiresAt)
  }

  function HintsOf(hints: map<HintKey, Hint>, source: Name): set<HintKey> {
    set k | k in hints && k.0 == source
  }

  function RecordsOf(records: map<RecordKey, Record>, source: Name): set<RecordKey> {
    set k | k in records && k.source == source
  }

  function HintExpiry(hints: map<HintKey, Hint>): map<HintKey, real> {
    map k | k in hints :: hints[k].expiresAt
  }

  function RecordExpiry(records: map<RecordKey, Record>): map<RecordKey, real> {
    map k | k in records :: records[k].expiresAt
  }

  ghost predicate SubMap<K, V>(small: map<K, V>, big: map<K, V>) {
    small.Keys <= big.Keys && forall k :: k in small ==> small[k] == big[k]
  }

  /** Entries are only removed, unchanged otherwise, as one eviction pass may. */
  ghost predicate HintsCut(before: map<HintKey, Hint>, after: map<HintKey, Hint>, candidates: set<HintKey>, limit: nat) {
    SubMap(after, before) && SoonestCut(before.Keys, after.Keys, candidates, limit, HintExpiry(before))
  }

  ghost predicate RecordsCut(before: map<RecordKey, Record>, after: map<RecordKey, Record>, candidates: set<RecordKey>, limit: nat) {
    SubMap(after, before) && SoonestCut(before.Keys, after.Keys, candidates, limit, RecordExpiry(before))
  }

  /** evict_dns_cache_for_source and evict_dns_cache_global, on their candidates. */
  ghost predicate HintsEvicted(before: map<HintKey, Hint>, kept: map<RecordKey, Record>, after: map<HintKey, Hint>,
                               pruned: map<RecordKey, Record>, candidates: set<HintKey>, limit: nat) {
    if |candidates| <= limit then after == before && pruned == kept
    else HintsCut(before, after, candidates, limit) && pruned == Pruned(after, kept)
  }

  /** evict_qname_cache_for_source and evict_qname_cache_global. */
  ghost predicate RecordsEvicted(before: map<RecordKey, Record>, after: map<RecordKey, Record>,
                                 candidates: set<RecordKey>, limit: nat) {
    if |candidates| <= limit then after == before else RecordsCut(before, after, candidates, limit)
  }

  /** The overflow of the response cache: the first candidates in sort order. */
  method HintVictims(hints: map<HintKey, Hint>, candidates: set<HintKey>, limit: nat, now: real)
    returns (victims: seq<HintKey>)
    requires candidates <= hints.Keys && |candidates| > limit
    ensures HintsCut(hints, hints - Elements(victims), candidates, limit)
  {
    var expiry := HintExpiry(hints);
    var keys := SortByExpiry(candidates, expiry, now);
    victims := keys[..|candidates| - limit];
    FirstAreSoonest(hints.Keys, candidates, limit, expiry, keys);
    assert (hints - Elements(victims)).Keys == hints.Keys - Elements(victims);
  }

  /** The overflow of the qname cache. */
  method RecordVictims(records: map<RecordKey, Record>, candidates: set<RecordKey>, limit: nat, now: real)
    returns (victims: seq<RecordKey>)
    requires candidates <= records.Keys && |candidates| > limit
    ensures RecordsCut(records, records - Elements(victims), candidates, limit)
  {
    var expiry := RecordExpiry(records);
    var keys := SortByExpiry(candidates, expiry, now);
    victims := keys[..|candidates| - limit];
    FirstAreSoonest(records.Keys, candidates, limit, expiry, keys);
    assert (records - Elements(victims)).Keys == records.Keys - Elements(victims);
  }

  lemma WriteOneHint(hints: map<HintKey, Hint>, s: Store, ips: set<Addr>, ip: Addr)
    requires ip in s.labels
    ensures hints + NewHints(s, ips + {ip}) == (hints + NewHints(s, ips))[(s.source, ip) := s.HintFor(ip)]
  {
  }

  datatype CacheLimits = CacheLimits(perSource: nat, total: nat)

  /** The four eviction passes of one store, in their order. */
  ghost predicate Evicted(before: Cache, source: Name, a: Cache, b: Cache, c: Cache, after: Cache, lim: CacheLimits) {
    && HintsEvicted(before.hints, before.records, a.hints, a.records, HintsOf(before.hints, source), lim.perSource)
    && HintsEvicted(a.hints, a.records, b.hints, b.records, a.hints.Keys, lim.total)
    && c.hints == b.hints && RecordsEvicted(b.records, c.records, RecordsOf(b.records, source), lim.perSource)
    && after.hints == c.hints && RecordsEvicted(c.records, after.records, c.records.Keys, lim.total)
  }

  /** store_dns_labels as a relation, with the caches between its passes. */
  ghost predicate Stored(before: Cache, s: Store, a: Cache, b: Cache, c: Cache, after: Cache, lim: CacheLimits) {
    Evicted(Written(before, s), s.source, a, b, c, after, lim)
  }

  /** What the cleanups of a vanished or reused source delete. */
  function WithoutSource(c: Cache, source: Name): Cache {
    Cache(c.hints - HintsOf(c.hints, source), c.records - RecordsOf(c.records, source))
  }

  // -------------------------------------------------------------- the cache object

  class DnsCache {
    var hints: map<HintKey, Hint>
    var records: map<RecordKey, Record>
    const lim: CacheLimits

    ghost function State(): Cache
      reads this
    {
      Cache(hints, records)
    }

    constructor (lim: CacheLimits)
      ensures State() == EMPTY_CACHE && this.lim == lim
    {
      this.hints, this.records, this.lim := map[], map[], lim;
    }

    /** remove_old_qname_ips */
    method RemoveOldIps(key: RecordKey)
      modifies this`hints
      ensures hints == old(hints) - OldHints(old(State()), key)
    {
      if key !in records {
        return;
      }
      ghost var start := State();
      var labels := records[key].labels;
      var todo := labels.Keys;
      while todo != {}
        invariant todo <= labels.Keys
        invariant hints == start.hints - (set k | k in OldHints(start, key) && k.1 !in todo)
        decreases todo
      {
        var ip :| ip in todo;
        todo := todo - {ip};
        if (key.source, ip) in hints && HintMatches(hints[(key.source, ip)], key.qname, key.qtype, labels[ip]) {
          hints := hints - {(key.source, ip)};
        }
      }
    }

    /** prune_qname_cache */
    method PruneRecords()
      modifies this`records
      ensures records == Pruned(hints, old(records))
    {
      ghost var start := records;
      var todo := records.Keys;
      while todo != {}
        invariant todo <= start.Keys && records.Keys == start.Keys
        invariant forall k :: k in records ==>
                    records[k] == if k in todo then start[k] else Record(PrunedLabels(hints, k, start[k].labels), start[k].expiresAt)
        decreases todo
      {
        var key :| key in todo;
        todo := todo - {key};
        records := records[key := records[key].(labels := PrunedLabels(hints, key, records[key].labels))];
      }
    }

    method DeleteHints(keys: seq<HintKey>)
      modifies this`hints
      ensures hints == old(hints) - Elements(keys)
    {
      ghost var start := hints;
      for i := 0 to |keys|
        invariant hints == start - Elements(keys[..i])
      {
        assert keys[..i + 1] == keys[..i] + [keys[i]];
        hints := hints - {keys[i]};
      }
      assert keys[..|keys|] == keys;
    }

    method DeleteRecords(keys: seq<RecordKey>)
      modifies this`records
      ensures records == old(records) - Elements(keys)
    {
      ghost var start := records;
      for i := 0 to |keys|
        invariant records == start - Elements(keys[..i])
      {
        assert keys[..i + 1] == keys[..i] + [keys[i]];
        records := records - {keys[i]};
      }
      assert keys[..|keys|] == keys;
    }

    /** The body of the two response cache evictions. */
    method EvictHints(candidates: set<HintKey>, limit: nat, now: real)
      requires candidates <= hints.Keys
      modifies this
      ensures HintsEvicted(old(hints), old(records), hints, records, candidates, limit)
    {
      if |candidates| <= limit {
        return;
      }
      var victims := HintVictims(hints, candidates, limit, now);
      DeleteHints(victims);
      PruneRecords();
    }

    /** The body of the two qname cache evictions. */
    method EvictRecords(candidates: set<RecordKey>, limit: nat, now: real)
      requires candidates <= records.Keys
      modifies this`records
      ensures RecordsEvicted(old(records), records, candidates, limit)
    {
      if |candidates| <= limit {
        return;
      }
      var victims := RecordVictims(records, candidates, limit, now);
      DeleteRecords(victims);
    }

    /** The loop of store_dns_labels over the answer. */
    method WriteHints(s: Store)
      modifies this`hints
      ensures hints == old(hints) + NewHints(s, s.labels.Keys)
    {
      ghost var done: set<Addr> := {};
      var todo := s.labels.Keys;
      while todo != {}
        invariant todo <= s.labels.Keys && done == s.labels.Keys - todo
        invariant hints == old(hints) + NewHints(s, done)
        decreases todo
      {
        var ip :| ip in todo;
        WriteOneHint(old(hints), s, done, ip);
        todo, done := todo - {ip}, done + {ip};
        hints := hints[(s.source, ip) := s.HintFor(ip)];
      }
      assert done == s.labels.Keys;
    }

    /** store_dns_labels up to its evictions. */
    method WriteLabels(s: Store)
      modifies this
      ensures State() == Written(old(State()), s)
    {
      RemoveOldIps(s.Key());
      records := records[s.Key() := Record(s.labels, s.expiresAt)];
      WriteHints(s);
    }

    /** The eviction passes of store_dns_labels. */
    method Evict(source: Name, now: real) returns (ghost a: Cache, ghost b: Cache, ghost c: Cache)
      modifies this
      ensures Evicted(old(State()), source, a, b, c, State(), lim)
    {
      EvictHints(HintsOf(hints, source), lim.perSource, now);
      a := State();
      EvictHints(hints.Keys, lim.total, now);
      b := State();
      EvictRecords(RecordsOf(records, source), lim.perSource, now);
      c := State();
      EvictRecords(records.Keys, lim.total, now);
    }

    /** store_dns_labels; now is read inside the lock. */
    method StoreDnsLabels(s: Store, now: real) returns (ghost a: Cache, ghost b: Cache, ghost c: Cache)
      modifies this
      ensures Stored(old(State()), s, a, b, c, State(), lim)
    {
      WriteLabels(s);
      a, b, c := Evict(s.source, now);
    }

    /** fresh_response_label */
    method FreshResponseLabel(source: Name, ip: Addr, now: real) returns (text: Option<string>)
      ensures text == FreshLabel(hints, (source, ip), now)
    {
      if (source, ip) in hints && hints[(source, ip)].expiresAt > now {
        return Some(hints[(source, ip)].text);
      }
      return None;
    }

    /** The list comprehension of a cleanup over the response cache. */
    method HintKeysFor(source: Name) returns (keys: seq<HintKey>)
      ensures Elements(keys) == HintsOf(hints, source)
    {
      keys := [];
      var todo := hints.Keys;
      while todo != {}
        invariant todo <= hints.Keys
        invariant forall k :: k in keys <==> k in hints && k.0 == source && k !in todo
        decreases todo
      {
        var k :| k in todo;
        todo := todo - {k};
        if k.0 == source {
          keys := keys + [k];
        }
      }
    }

    method RecordKeysFor(source: Name) returns (keys: seq<RecordKey>)
      ensures Elements(keys) == RecordsOf(records, source)
    {
      keys := [];
      var todo := records.Keys;
      while todo != {}
        invariant todo <= records.Keys
        invariant forall k :: k in keys <==> k in records && k.source == source && k !in todo
        decreases todo
      {
        var k :| k in todo;
        todo := todo - {k};
        if k.source == source {
          keys := keys + [k];
        }
      }
    }

    /** The cache part of both source cleanups: both maps forget the source, and nothing else. */
    method DropSource(source: Name)
      modifies this
      ensures forall k :: k in hints <==> k in old(hints) && k.0 != source
      ensures forall k :: k in hints ==> hints[k] == old(hints[k])
      ensures forall k :: k in records <==> k in old(records) && k.source != source
      ensures forall k :: k in records ==> records[k] == old(records[k])
      ensures State() == WithoutSource(old(State()), source)
    {
      var hintKeys := HintKeysFor(source);
      DeleteHints(hintKeys);
      var recordKeys := RecordKeysFor(source);
      DeleteRecords(recordKeys);
    }
  }
}
