/** Whole runs of the log limiter: how many log lines one key can cause. */
module LogRuns {
  import opened LogLimiter

  datatype Call = Call(key: LogKey, now: real)

  ghost predicate ClockRuns(calls: seq<Call>) {
    forall i, j :: 0 <= i <= j < |calls| ==> calls[i].now <= calls[j].now
  }

  /** The table before every call and after the last, and the tokens each call found. */
  datatype Trace = Trace(tables: seq<BucketTable>, found: seq<real>)

  ghost predicate Stepped(t: BucketTable, c: Call, found: real, u: BucketTable, lim: LogLimits)
    requires lim.Valid()
  {
    found == Available(t, c.key, c.now, lim) && u == AfterCall(t, c.key, c.now, lim)
  }

  ghost predicate Shaped(calls: seq<Call>, tr: Trace) {
    |tr.tables| == |calls| + 1 && |tr.found| == |calls|
  }

  /** The run of these calls from the empty table. */
  ghost predicate RunOf(calls: seq<Call>, tr: Trace, lim: LogLimits) {
    && lim.Valid() && ClockRuns(calls) && Shaped(calls, tr) && tr.tables[0] == EMPTY_TABLE
    && forall i :: 0 <= i < |calls| ==> Stepped(tr.tables[i], calls[i], tr.found[i], tr.tables[i + 1], lim)
  }

  /** How many of the calls[lo..hi] for the key were logged. */
  function Logged(calls: seq<Call>, found: seq<real>, key: LogKey, lo: nat, hi: nat): nat
    requires lo <= hi <= |calls| == |found|
    decreases hi
  {
    if lo == hi then 0
    else Logged(calls, found, key, lo, hi - 1) + if calls[hi - 1].key == key && found[hi - 1] >= 1.0 then 1 else 0
  }

  /** The distinct keys of calls[lo..hi]. */
  function KeysOf(calls: seq<Call>, lo: nat, hi: nat): set<LogKey>
    requires hi <= |calls|
  {
    set i | lo <= i < hi :: calls[i].key
  }

  /** No use of the key in calls[lo..hi]. */
  ghost predicate Unused(calls: seq<Call>, key: LogKey, lo: nat, hi: nat)
    requires hi <= |calls|
  {
    forall i :: lo <= i < hi ==> calls[i].key != key
  }

  /** p is the last use of the key among the first n calls. */
  ghost predicate LastUse(calls: seq<Call>, key: LogKey, p: nat, n: nat)
    requires n <= |calls|
  {
    p < n && calls[p].key == key && Unused(calls, key, p + 1, n)
  }

  /** Fewer than maxEntries other keys between consecutive uses of the key in calls[lo..hi]. */
  ghost predicate Undisturbed(calls: seq<Call>, key: LogKey, lo: nat, hi: nat, lim: LogLimits)
    requires lo <= hi <= |calls|
  {
    forall p: nat, q: nat :: lo <= p < q < hi && LastUse(calls, key, p, q) && calls[q].key == key ==>
                               |KeysOf(calls, p + 1, q)| < lim.maxEntries
  }

  // ------------------------------------------------------------------ reachable tables

  /** The cap, and for every bucket a balance from 0 to burst and the time of its last use. */
  ghost predicate SoundTable(t: BucketTable, calls: seq<Call>, n: nat, lim: LogLimits)
    requires n <= |calls|
  {
    && WellFormed(t) && |t.order| <= lim.maxEntries
    && forall k :: k in t.buckets ==> SoundBucket(t.buckets[k], k, calls, n, lim)
  }

  ghost predicate SoundBucket(b: Bucket, key: LogKey, calls: seq<Call>, n: nat, lim: LogLimits)
    requires n <= |calls|
  {
    0.0 <= b.tokens <= lim.burst as real && exists p: nat :: LastUse(calls, key, p, n) && b.updated == calls[p].now
  }

  lemma AvailableInRange(t: BucketTable, key: LogKey, now: real, lim: LogLimits)
    requires lim.Valid()
    requires key in t.buckets ==> 0.0 <= t.buckets[key].tokens && t.buckets[key].updated <= now
    ensures 0.0 <= Available(t, key, now, lim) <= lim.burst as real
    ensures key !in t.buckets ==> Available(t, key, now, lim) == lim.burst as real
  {
  }

  /** What one call does: its bucket is charged, every other one stays or is evicted. */
  ghost predicate Charged(t: BucketTable, c: Call, found: real, u: BucketTable, lim: LogLimits) {
    && WellFormed(u) && |u.order| <= lim.maxEntries
    && u.order != [] && u.order[|u.order| - 1] == c.key
    && c.key in u.buckets && u.buckets[c.key] == Bucket(Spent(found), c.now)
    && forall k :: k in u.buckets && k != c.key ==> k in t.buckets && u.buckets[k] == t.buckets[k]
  }

  lemma TrimKeepsLatest(t: BucketTable, key: LogKey, bucket: Bucket, cap: nat)
    requires WellFormed(t) && cap >= 1
    ensures var u := Trimmed(Touched(t, key, bucket), cap);
            && WellFormed(u) && |u.order| <= cap
            && u.order != [] && u.order[|u.order| - 1] == key
            && key in u.buckets && u.buckets[key] == bucket
            && forall k :: k in u.buckets && k != key ==> k in t.buckets && u.buckets[k] == t.buckets[k]
  {
    var touched := Touched(t, key, bucket);
    TouchedWellFormed(t, key, bucket);
    TrimmedWellFormed(touched, cap);
    var u := Trimmed(touched, cap);
    assert u.order[|u.order| - 1] == key;
  }

  lemma CallCharges(t: BucketTable, c: Call, found: real, u: BucketTable, lim: LogLimits)
    requires lim.Valid() && WellFormed(t) && Stepped(t, c, found, u, lim)
    ensures Charged(t, c, found, u, lim)
  {
    TrimKeepsLatest(t, c.key, Bucket(Spent(found), c.now), lim.maxEntries);
  }

  lemma ChargeKeepsInv(t: BucketTable, calls: seq<Call>, n: nat, found: real, u: BucketTable, lim: LogLimits)
    requires n < |calls| && SoundTable(t, calls, n, lim) && Charged(t, calls[n], found, u, lim)
    requires 0.0 <= found <= lim.burst as real
    ensures SoundTable(u, calls, n + 1, lim)
  {
  }

  lemma FoundInRange(t: BucketTable, calls: seq<Call>, n: nat, lim: LogLimits)
    requires n < |calls| && SoundTable(t, calls, n, lim) && lim.Valid() && ClockRuns(calls)
    ensures 0.0 <= Available(t, calls[n].key, calls[n].now, lim) <= lim.burst as real
  {
    var key := calls[n].key;
    if key in t.buckets {
      assert SoundBucket(t.buckets[key], key, calls, n, lim);
    }
    AvailableInRange(t, key, calls[n].now, lim);
  }

  /** The cap holds after every call, and every bucket is sound. */
  lemma {:induction false} TablesAreSound(calls: seq<Call>, tr: Trace, n: nat, lim: LogLimits)
    requires RunOf(calls, tr, lim) && n <= |calls|
    ensures SoundTable(tr.tables[n], calls, n, lim)
  {
    if n > 0 {
      TablesAreSound(calls, tr, n - 1, lim);
      var t, u := tr.tables[n - 1], tr.tables[n];
      assert Stepped(t, calls[n - 1], tr.found[n - 1], u, lim);
      FoundInRange(t, calls, n - 1, lim);
      CallCharges(t, calls[n - 1], tr.found[n - 1], u, lim);
      ChargeKeepsInv(t, calls, n - 1, tr.found[n - 1], u, lim);
    }
  }

  /** The books of a run: what every call found, and what it left. */
  ghost predicate Booked(t: BucketTable, c: Call, found: real, u: BucketTable, lim: LogLimits)
    requires lim.Valid()
  {
    && c.key in u.buckets && u.buckets[c.key] == Bucket(Spent(found), c.now)
    && 0.0 <= found <= lim.burst as real
    && (c.key in t.buckets ==> found <= t.buckets[c.key].tokens + lim.Refill(c.now - t.buckets[c.key].updated))
  }

  ghost predicate Ledger(calls: seq<Call>, tr: Trace, lim: LogLimits) {
    lim.Valid() && Shaped(calls, tr)
    && forall i :: 0 <= i < |calls| ==> Booked(tr.tables[i], calls[i], tr.found[i], tr.tables[i + 1], lim)
  }

  lemma RunKeepsLedger(calls: seq<Call>, tr: Trace, lim: LogLimits)
    requires RunOf(calls, tr, lim)
    ensures Ledger(calls, tr, lim)
  {
    forall i | 0 <= i < |calls| ensures Booked(tr.tables[i], calls[i], tr.found[i], tr.tables[i + 1], lim) {
      assert Stepped(tr.tables[i], calls[i], tr.found[i], tr.tables[i + 1], lim);
      TablesAreSound(calls, tr, i, lim);
      FoundInRange(tr.tables[i], calls, i, lim);
      CallCharges(tr.tables[i], calls[i], tr.found[i], tr.tables[i + 1], lim);
    }
  }

  // ----------------------------------------------------------------- survival in LRU order

  /** Every key used more recently than k is among the others. */
  ghost predicate Recent(order: seq<LogKey>, k: LogKey, m: nat, others: set<LogKey>) {
    m < |order| && order[m] == k && forall j :: m < j < |order| ==> order[j] in others
  }

  lemma {:induction false} WithoutShrinks(order: seq<LogKey>, x: LogKey)
    ensures forall y :: y in Without(order, x) ==> y in order
  {
    if order != [] {
      WithoutShrinks(order[1..], x);
    }
  }

  lemma {:induction false} WithoutKeepsRecent(order: seq<LogKey>, k: LogKey, m: nat, others: set<LogKey>, x: LogKey) returns (m': nat)
    requires Recent(order, k, m, others) && x != k
    ensures Recent(Without(order, x), k, m', others)
  {
    var rest := Without(order[1..], x);
    if m == 0 {
      WithoutShrinks(order[1..], x);
      forall y | y in rest ensures y in others {
        var j :| 0 <= j < |order[1..]| && order[1..][j] == y;
        assert order[j + 1] == y;
      }
      m' := 0;
    } else {
      var r := WithoutKeepsRecent(order[1..], k, m - 1, others, x);
      m' := if order[0] == x then r else r + 1;
    }
  }

  lemma {:induction false} DistinctCount(order: seq<LogKey>, others: set<LogKey>)
    requires Distinct(order) && forall j :: 0 <= j < |order| ==> order[j] in others
    ensures |order| <= |others|
  {
    if order != [] {
      DistinctCount(order[1..], others - {order[0]});
    }
  }

  lemma TouchKeepsRecent(order: seq<LogKey>, x: LogKey, k: LogKey, m: nat, others: set<LogKey>) returns (i: nat)
    requires Recent(order, k, m, others) && x != k
    ensures Recent(Without(order, x) + [x], k, i, others + {x})
  {
    i := WithoutKeepsRecent(order, k, m, others, x);
  }

  lemma TrimKeepsRecent(t: BucketTable, cap: nat, k: LogKey, i: nat, others: set<LogKey>) returns (m: nat)
    requires WellFormed(t) && Recent(t.order, k, i, others) && |others| < cap
    ensures Recent(Trimmed(t, cap).order, k, m, others)
    ensures k in t.buckets && k in Trimmed(t, cap).buckets && Trimmed(t, cap).buckets[k] == t.buckets[k]
  {
    DistinctCount(t.order[i + 1..], others);
    var cut := if |t.order| <= cap then 0 else |t.order| - cap;
    m := i - cut;
    assert Trimmed(t, cap).order == t.order[cut..];
    assert t.order[cut..][m] == k;
  }

  lemma RecentSurvives(t: BucketTable, c: Call, found: real, u: BucketTable, lim: LogLimits, k: LogKey, m: nat, others: set<LogKey>)
    returns (m': nat)
    requires lim.Valid() && WellFormed(t) && Stepped(t, c, found, u, lim) && k in t.buckets && c.key != k
    requires Recent(t.order, k, m, others) && |others + {c.key}| < lim.maxEntries
    ensures Recent(u.order, k, m', others + {c.key})
    ensures k in u.buckets && u.buckets[k] == t.buckets[k]
  {
    var bucket := Bucket(Spent(found), c.now);
    TouchedWellFormed(t, c.key, bucket);
    var i := TouchKeepsRecent(t.order, c.key, k, m, others);
    m' := TrimKeepsRecent(Touched(t, c.key, bucket), lim.maxEntries, k, i, others + {c.key});
  }

  lemma KeysOfNext(calls: seq<Call>, lo: nat, hi: nat)
    requires lo <= hi < |calls|
    ensures KeysOf(calls, lo, hi + 1) == KeysOf(calls, lo, hi) + {calls[hi].key}
    ensures |KeysOf(calls, lo, hi)| <= |KeysOf(calls, lo, hi + 1)|
  {
    if calls[hi].key in KeysOf(calls, lo, hi) {
      assert KeysOf(calls, lo, hi) + {calls[hi].key} == KeysOf(calls, lo, hi);
    }
  }

  /** A bucket outlives any calls for fewer than maxEntries other keys, unchanged. */
  lemma {:induction false} BucketSurvives(calls: seq<Call>, tr: Trace, key: LogKey, p: nat, n: nat, lim: LogLimits)
    returns (m: nat)
    requires RunOf(calls, tr, lim) && n <= |calls| && LastUse(calls, key, p, n)
    requires |KeysOf(calls, p + 1, n)| < lim.maxEntries
    ensures key in tr.tables[n].buckets && key in tr.tables[p + 1].buckets
    ensures tr.tables[n].buckets[key] == tr.tables[p + 1].buckets[key]
    ensures Recent(tr.tables[n].order, key, m, KeysOf(calls, p + 1, n))
  {
    if n == p + 1 {
      UseIsLatest(calls, tr, p, lim);
      m := |tr.tables[n].order| - 1;
    } else {
      KeysOfNext(calls, p + 1, n - 1);
      m := BucketSurvives(calls, tr, key, p, n - 1, lim);
      m := OtherCallKeeps(calls, tr, n - 1, key, m, KeysOf(calls, p + 1, n - 1), lim);
    }
  }

  lemma UseIsLatest(calls: seq<Call>, tr: Trace, p: nat, lim: LogLimits)
    requires RunOf(calls, tr, lim) && p < |calls|
    ensures var u := tr.tables[p + 1]; calls[p].key in u.buckets && u.order != [] && u.order[|u.order| - 1] == calls[p].key
  {
    TablesAreSound(calls, tr, p, lim);
    assert Stepped(tr.tables[p], calls[p], tr.found[p], tr.tables[p + 1], lim);
    CallCharges(tr.tables[p], calls[p], tr.found[p], tr.tables[p + 1], lim);
  }

  lemma OtherCallKeeps(calls: seq<Call>, tr: Trace, n: nat, key: LogKey, m: nat, others: set<LogKey>, lim: LogLimits)
    returns (m': nat)
    requires RunOf(calls, tr, lim) && n < |calls| && calls[n].key != key && key in tr.tables[n].buckets
    requires Recent(tr.tables[n].order, key, m, others) && |others + {calls[n].key}| < lim.maxEntries
    ensures Recent(tr.tables[n + 1].order, key, m', others + {calls[n].key})
    ensures key in tr.tables[n + 1].buckets && tr.tables[n + 1].buckets[key] == tr.tables[n].buckets[key]
  {
    TablesAreSound(calls, tr, n, lim);
    assert Stepped(tr.tables[n], calls[n], tr.found[n], tr.tables[n + 1], lim);
    m' := RecentSurvives(tr.tables[n], calls[n], tr.found[n], tr.tables[n + 1], lim, key, m, others);
  }

  /** The bucket a use leaves is the one the next use finds. */
  ghost predicate Carried(calls: seq<Call>, tr: Trace, key: LogKey, lo: nat, hi: nat)
    requires Shaped(calls, tr) && hi <= |calls|
  {
    forall p: nat, q: nat :: lo <= p < q < hi && LastUse(calls, key, p, q) && calls[q].key == key ==>
                               && key in tr.tables[q].buckets && key in tr.tables[p + 1].buckets
                               && tr.tables[q].buckets[key] == tr.tables[p + 1].buckets[key]
  }

  lemma UndisturbedIsCarried(calls: seq<Call>, tr: Trace, key: LogKey, lo: nat, hi: nat, lim: LogLimits)
    requires RunOf(calls, tr, lim) && lo <= hi <= |calls| && Undisturbed(calls, key, lo, hi, lim)
    ensures Carried(calls, tr, key, lo, hi)
  {
    forall p: nat, q: nat | lo <= p < q < hi && LastUse(calls, key, p, q) && calls[q].key == key
      ensures key in tr.tables[q].buckets && key in tr.tables[p + 1].buckets
      ensures tr.tables[q].buckets[key] == tr.tables[p + 1].buckets[key]
    {
      var _ := BucketSurvives(calls, tr, key, p, q, lim);
    }
  }

  // --------------------------------------------------------------------- the rate bound

  lemma {:induction false} NoUseNoLog(calls: seq<Call>, found: seq<real>, key: LogKey, start: nat, lo: nat, hi: nat)
    requires start <= lo <= hi <= |calls| == |found| && Unused(calls, key, lo, hi)
    ensures Logged(calls, found, key, start, hi) == Logged(calls, found, key, start, lo)
    decreases hi
  {
    if lo < hi {
      NoUseNoLog(calls, found, key, start, lo, hi - 1);
    }
  }

  /** The last use of the key in calls[lo..hi], if any. */
  lemma {:induction false} FindUse(calls: seq<Call>, key: LogKey, lo: nat, hi: nat) returns (some: bool, p: nat)
    requires lo <= hi <= |calls|
    ensures if some then lo <= p && LastUse(calls, key, p, hi) else Unused(calls, key, lo, hi)
    decreases hi
  {
    if lo == hi {
      some, p := false, 0;
    } else if calls[hi - 1].key == key {
      some, p := true, hi - 1;
    } else {
      some, p := FindUse(calls, key, lo, hi - 1);
    }
  }

  /** The lines logged and the tokens left fit the burst and the time passed. */
  ghost predicate WithinBudget(logged: nat, tokens: real, elapsed: real, lim: LogLimits)
    requires lim.Valid()
  {
    logged as real + tokens <= lim.burst as real + lim.Refill(elapsed)
  }

  lemma FirstUseFits(found: real, elapsed: real, lim: LogLimits)
    requires lim.Valid() && elapsed >= 0.0 && found <= lim.burst as real
    ensures WithinBudget(if found >= 1.0 then 1 else 0, Spent(found), elapsed, lim)
  {
    RefillAdds(lim, elapsed, 0.0);
  }

  lemma NextUseFits(logged: nat, tokens: real, elapsed: real, more: real, found: real, lim: LogLimits)
    requires lim.Valid() && elapsed >= 0.0 && more >= 0.0
    requires WithinBudget(logged, tokens, elapsed, lim) && found <= tokens + lim.Refill(more)
    ensures WithinBudget(logged + if found >= 1.0 then 1 else 0, Spent(found), elapsed + more, lim)
  {
    RefillAdds(lim, elapsed, more);
  }

  lemma LaterStillFits(logged: nat, tokens: real, elapsed: real, more: real, lim: LogLimits)
    requires lim.Valid() && elapsed >= 0.0 && more >= 0.0 && tokens >= 0.0 && WithinBudget(logged, tokens, elapsed, lim)
    ensures logged as real <= lim.burst as real + lim.Refill(elapsed + more)
  {
    RefillAdds(lim, elapsed, more);
    RefillAdds(lim, more, 0.0);
  }

  lemma {:induction false} SpentAndLeft(calls: seq<Call>, tr: Trace, key: LogKey, lo: nat, p: nat, hi: nat, lim: LogLimits)
    requires Ledger(calls, tr, lim) && ClockRuns(calls) && lo <= p < hi <= |calls| && calls[p].key == key
    requires Carried(calls, tr, key, lo, hi)
    ensures WithinBudget(Logged(calls, tr.found, key, lo, p + 1), Spent(tr.found[p]), calls[p].now - calls[lo].now, lim)
    decreases p
  {
    var now := calls[p].now;
    assert Booked(tr.tables[p], calls[p], tr.found[p], tr.tables[p + 1], lim);
    var some, q := FindUse(calls, key, lo, p);
    if !some {
      NoUseNoLog(calls, tr.found, key, lo, lo, p);
      FirstUseFits(tr.found[p], now - calls[lo].now, lim);
    } else {
      SpentAndLeft(calls, tr, key, lo, q, hi, lim);
      NoUseNoLog(calls, tr.found, key, lo, q + 1, p);
      assert Booked(tr.tables[q], calls[q], tr.found[q], tr.tables[q + 1], lim);
      NextUseFits(Logged(calls, tr.found, key, lo, p), Spent(tr.found[q]),
                  calls[q].now - calls[lo].now, now - calls[q].now, tr.found[p], lim);
    }
  }

  lemma LedgerBound(calls: seq<Call>, tr: Trace, key: LogKey, lo: nat, hi: nat, lim: LogLimits)
    requires Ledger(calls, tr, lim) && ClockRuns(calls) && lo < hi <= |calls| && Carried(calls, tr, key, lo, hi)
    ensures Logged(calls, tr.found, key, lo, hi) as real
         <= lim.burst as real + lim.Refill(calls[hi - 1].now - calls[lo].now)
  {
    var some, p := FindUse(calls, key, lo, hi);
    if !some {
      NoUseNoLog(calls, tr.found, key, lo, lo, hi);
      RefillAdds(lim, calls[hi - 1].now - calls[lo].now, 0.0);
    } else {
      NoUseNoLog(calls, tr.found, key, lo, p + 1, hi);
      SpentAndLeft(calls, tr, key, lo, p, hi, lim);
      assert Booked(tr.tables[p], calls[p], tr.found[p], tr.tables[p + 1], lim);
      LaterStillFits(Logged(calls, tr.found, key, lo, p + 1), Spent(tr.found[p]),
                     calls[p].now - calls[lo].now, calls[hi - 1].now - calls[p].now, lim);
    }
  }

  /** Refilling in the configuration's own numbers. */
  lemma RefillIsRate(lim: LogLimits, x: real)
    requires lim.Valid()
    ensures lim.Refill(x) * lim.seconds as real == x * lim.count as real
  {
  }

  lemma ScaleBound(a: real, b: real, x: real, lim: LogLimits)
    requires lim.Valid() && a <= b + lim.Refill(x)
    ensures (a - b) * lim.seconds as real <= x * lim.count as real
  {
    RefillIsRate(lim, x);
    var s := lim.seconds as real;
    assert (lim.Refill(x) - (a - b)) * s >= 0.0;
  }

  /** Any stretch of any run: at most burst lines for the key, plus count for every seconds it takes. */
  lemma LogRateIsBounded(calls: seq<Call>, tr: Trace, key: LogKey, lo: nat, hi: nat, lim: LogLimits)
    requires RunOf(calls, tr, lim) && lo < hi <= |calls| && Undisturbed(calls, key, lo, hi, lim)
    ensures (Logged(calls, tr.found, key, lo, hi) as real - lim.burst as real) * lim.seconds as real
         <= (calls[hi - 1].now - calls[lo].now) * lim.count as real
  {
    RunKeepsLedger(calls, tr, lim);
    UndisturbedIsCarried(calls, tr, key, lo, hi, lim);
    LedgerBound(calls, tr, key, lo, hi, lim);
    ScaleBound(Logged(calls, tr.found, key, lo, hi) as real, lim.burst as real, calls[hi - 1].now - calls[lo].now, lim);
  }

  /** What a call that found so many tokens leaves. */
  function LeftBy(found: real): real {
    if found < 1.0 then found else found - 1.0
  }

  lemma ScaleTokens(left: real, x: real, burst: real, lim: LogLimits)
    requires lim.Valid()
    ensures var refilled := left * lim.seconds as real + x * lim.count as real;
            var full := burst * lim.seconds as real;
            Min(burst, left + lim.Refill(x)) * lim.seconds as real == if refilled < full then refilled else full
  {
    RefillIsRate(lim, x);
    var s := lim.seconds as real;
    assert (left + lim.Refill(x)) * s == left * s + lim.Refill(x) * s;
    if left + lim.Refill(x) < burst {
      assert (burst - (left + lim.Refill(x))) * s > 0.0;
    } else {
      assert ((left + lim.Refill(x)) - burst) * s >= 0.0;
    }
  }

  lemma BucketRefills(t: BucketTable, key: LogKey, now: real, left: real, since: real, lim: LogLimits)
    requires lim.Valid() && key in t.buckets && t.buckets[key] == Bucket(left, since)
    ensures var refilled := left * lim.seconds as real + (now - since) * lim.count as real;
            var full := lim.burst as real * lim.seconds as real;
            Available(t, key, now, lim) * lim.seconds as real == if refilled < full then refilled else full
  {
    ScaleTokens(left, now - since, lim.burst as real, lim);
  }

  /** The bucket a use finds is the one its last use left. */
  lemma LeftForNextUse(calls: seq<Call>, tr: Trace, key: LogKey, p: nat, n: nat, lim: LogLimits)
    requires RunOf(calls, tr, lim) && n < |calls| && LastUse(calls, key, p, n) && calls[n].key == key
    requires |KeysOf(calls, p + 1, n)| < lim.maxEntries
    ensures key in tr.tables[n].buckets && tr.tables[n].buckets[key] == Bucket(LeftBy(tr.found[p]), calls[p].now)
    ensures tr.found[n] == Available(tr.tables[n], key, calls[n].now, lim)
  {
    var _ := BucketSurvives(calls, tr, key, p, n, lim);
    assert Stepped(tr.tables[p], calls[p], tr.found[p], tr.tables[p + 1], lim);
    TablesAreSound(calls, tr, p, lim);
    CallCharges(tr.tables[p], calls[p], tr.found[p], tr.tables[p + 1], lim);
    assert Stepped(tr.tables[n], calls[n], tr.found[n], tr.tables[n + 1], lim);
  }

  /** Exactly what the next use of a surviving bucket finds: what was left, plus count for every seconds
      since, up to the burst. */
  lemma NextUseFinds(calls: seq<Call>, tr: Trace, key: LogKey, p: nat, n: nat, lim: LogLimits)
    requires RunOf(calls, tr, lim) && n < |calls| && LastUse(calls, key, p, n) && calls[n].key == key
    requires |KeysOf(calls, p + 1, n)| < lim.maxEntries
    ensures var refilled := LeftBy(tr.found[p]) * lim.seconds as real + (calls[n].now - calls[p].now) * lim.count as real;
            var full := lim.burst as real * lim.seconds as real;
            tr.found[n] * lim.seconds as real == if refilled < full then refilled else full
  {
    LeftForNextUse(calls, tr, key, p, n, lim);
    BucketRefills(tr.tables[n], key, calls[n].now, LeftBy(tr.found[p]), calls[p].now, lim);
  }

  lemma RefillTest(found: real, left: real, x: real, burst: real, s: real, c: real)
    requires s > 0.0 && burst >= 1.0
    requires found * s == if left * s + x * c < burst * s then left * s + x * c else burst * s
    ensures found < 1.0 <==> x * c < (1.0 - left) * s
  {
    assert (burst - 1.0) * s >= 0.0;
    assert (1.0 - left) * s == s - left * s;
    BelowOne(found, s);
  }

  /** Exactly when that use is suppressed; after the last token was taken, while less than seconds / count
      has passed. */
  lemma SuppressedIff(calls: seq<Call>, tr: Trace, key: LogKey, p: nat, n: nat, lim: LogLimits)
    requires RunOf(calls, tr, lim) && n < |calls| && LastUse(calls, key, p, n) && calls[n].key == key
    requires |KeysOf(calls, p + 1, n)| < lim.maxEntries
    ensures tr.found[n] < 1.0 <==>
            (calls[n].now - calls[p].now) * lim.count as real < (1.0 - LeftBy(tr.found[p])) * lim.seconds as real
    ensures tr.found[p] == 1.0 ==>
              (tr.found[n] < 1.0 <==> calls[n].now - calls[p].now < lim.seconds as real / lim.count as real)
  {
    NextUseFinds(calls, tr, key, p, n, lim);
    var s, c, x, left := lim.seconds as real, lim.count as real, calls[n].now - calls[p].now, LeftBy(tr.found[p]);
    RefillTest(tr.found[n], left, x, lim.burst as real, s, c);
    if tr.found[p] == 1.0 {
      assert (1.0 - left) * s == s;
      QuotientTest(x, s, c);
    }
  }

  lemma BelowOne(f: real, s: real)
    requires s > 0.0
    ensures f < 1.0 <==> f * s < s
  {
    if f < 1.0 {
      assert (1.0 - f) * s > 0.0;
    } else {
      assert (f - 1.0) * s >= 0.0;
    }
  }

  lemma QuotientTest(x: real, s: real, c: real)
    requires c > 0.0
    ensures x * c < s <==> x < s / c
  {
    var q := s / c;
    assert q * c == s;
    if x < q {
      assert (q - x) * c > 0.0;
    } else {
      assert (x - q) * c >= 0.0;
    }
  }

  /** A key that was never used, or not for the time of one token, is always logged. */
  lemma IdleKeyIsLogged(calls: seq<Call>, tr: Trace, n: nat, lim: LogLimits)
    requires RunOf(calls, tr, lim) && n < |calls|
    requires forall p: nat :: LastUse(calls, calls[n].key, p, n) ==>
                                calls[n].now - calls[p].now >= lim.seconds as real / lim.count as real
    ensures tr.found[n] >= 1.0
  {
    var t, key := tr.tables[n], calls[n].key;
    TablesAreSound(calls, tr, n, lim);
    assert Stepped(t, calls[n], tr.found[n], tr.tables[n + 1], lim);
    if key in t.buckets {
      assert SoundBucket(t.buckets[key], key, calls, n, lim);
      var p: nat :| LastUse(calls, key, p, n) && t.buckets[key].updated == calls[p].now;
      OneTokenTime(lim, calls[n].now - calls[p].now);
    } else {
      AvailableInRange(t, key, calls[n].now, lim);
    }
  }

  // ------------------------------------------------------- why the condition is needed

  /** All the others were used more recently than k. */
  ghost predicate Behind(order: seq<LogKey>, k: LogKey, m: nat, others: set<LogKey>) {
    m < |order| && order[m] == k && forall x :: x in others ==> x in order[m + 1..]
  }

  lemma {:induction false} WithoutKeeps(order: seq<LogKey>, x: LogKey, y: LogKey)
    requires y in order && y != x
    ensures y in Without(order, x)
  {
    if order[0] != y {
      WithoutKeeps(order[1..], x, y);
    }
  }

  lemma {:induction false} WithoutKeepsBehind(order: seq<LogKey>, k: LogKey, m: nat, others: set<LogKey>, x: LogKey) returns (m': nat)
    requires Behind(order, k, m, others) && x != k && x !in others
    ensures Behind(Without(order, x), k, m', others)
  {
    var rest := Without(order[1..], x);
    if m == 0 {
      m' := 0;
      forall y | y in others ensures y in rest {
        WithoutKeeps(order[1..], x, y);
      }
      assert Without(order, x)[1..] == rest;
    } else {
      assert order[1..][m..] == order[m + 1..];
      var r := WithoutKeepsBehind(order[1..], k, m - 1, others, x);
      m' := if order[0] == x then r else r + 1;
      assert Without(order, x)[m' + 1..] == rest[r + 1..];
    }
  }

  lemma TouchKeepsBehind(order: seq<LogKey>, k: LogKey, m: nat, others: set<LogKey>, x: LogKey) returns (m': nat)
    requires Behind(order, k, m, others) && x != k
    ensures Behind(Without(order, x) + [x], k, m', others + {x})
  {
    m' := WithoutKeepsBehind(order, k, m, others - {x}, x);
    var rest := Without(order, x)[m' + 1..];
    assert (Without(order, x) + [x])[m' + 1..] == rest + [x];
    assert (Without(order, x) + [x])[m'] == k;
    forall y | y in others + {x} ensures y in rest + [x] {
      if y == x {
        assert (rest + [x])[|rest|] == x;
      } else {
        assert y in others - {x};
        var j :| 0 <= j < |rest| && rest[j] == y;
        assert (rest + [x])[j] == y;
      }
    }
  }

  lemma DropKeepsBehind(order: seq<LogKey>, cut: nat, k: LogKey, m: nat, others: set<LogKey>)
    requires Distinct(order) && Behind(order, k, m, others) && cut <= |order| && k in order[cut..]
    ensures cut <= m && Behind(order[cut..], k, m - cut, others)
  {
    var j :| 0 <= j < |order| - cut && order[cut..][j] == k;
    assert order[cut + j] == order[m];
    assert order[cut..][m - cut + 1..] == order[m + 1..];
  }

  lemma TrimKeepsBehind(t: BucketTable, cap: nat, k: LogKey, m: nat, others: set<LogKey>) returns (m': nat)
    requires WellFormed(t) && Behind(t.order, k, m, others) && k in Trimmed(t, cap).buckets
    ensures Behind(Trimmed(t, cap).order, k, m', others)
  {
    if |t.order| <= cap {
      m' := m;
    } else {
      DropKeepsBehind(t.order, |t.order| - cap, k, m, others);
      m' := m - (|t.order| - cap);
    }
  }

  lemma OtherCallKeepsBehind(t: BucketTable, c: Call, found: real, u: BucketTable, lim: LogLimits, k: LogKey, m: nat, others: set<LogKey>)
    returns (m': nat)
    requires lim.Valid() && WellFormed(t) && Stepped(t, c, found, u, lim) && c.key != k && k in u.buckets
    requires Behind(t.order, k, m, others)
    ensures Behind(u.order, k, m', others + {c.key})
  {
    var bucket := Bucket(Spent(found), c.now);
    TouchedWellFormed(t, c.key, bucket);
    var i := TouchKeepsBehind(t.order, k, m, others, c.key);
    m' := TrimKeepsBehind(Touched(t, c.key, bucket), lim.maxEntries, k, i, others + {c.key});
  }

  lemma OthersOnlyStay(calls: seq<Call>, tr: Trace, n: nat, key: LogKey, lim: LogLimits)
    requires RunOf(calls, tr, lim) && n < |calls| && calls[n].key != key && key in tr.tables[n + 1].buckets
    ensures key in tr.tables[n].buckets
  {
    TablesAreSound(calls, tr, n, lim);
    assert Stepped(tr.tables[n], calls[n], tr.found[n], tr.tables[n + 1], lim);
    CallCharges(tr.tables[n], calls[n], tr.found[n], tr.tables[n + 1], lim);
  }

  lemma OtherUseStandsBehind(calls: seq<Call>, tr: Trace, n: nat, key: LogKey, m: nat, others: set<LogKey>, next: set<LogKey>,
                             lim: LogLimits)
    returns (m': nat)
    requires RunOf(calls, tr, lim) && n < |calls| && calls[n].key != key && key in tr.tables[n + 1].buckets
    requires Behind(tr.tables[n].order, key, m, others) && next == others + {calls[n].key}
    ensures Behind(tr.tables[n + 1].order, key, m', next)
  {
    TablesAreSound(calls, tr, n, lim);
    assert Stepped(tr.tables[n], calls[n], tr.found[n], tr.tables[n + 1], lim);
    m' := OtherCallKeepsBehind(tr.tables[n], calls[n], tr.found[n], tr.tables[n + 1], lim, key, m, others);
  }

  lemma NothingStandsBehind(calls: seq<Call>, tr: Trace, p: nat, lim: LogLimits) returns (m: nat)
    requires RunOf(calls, tr, lim) && p < |calls|
    ensures Behind(tr.tables[p + 1].order, calls[p].key, m, KeysOf(calls, p + 1, p + 1))
  {
    UseIsLatest(calls, tr, p, lim);
    m := |tr.tables[p + 1].order| - 1;
    assert KeysOf(calls, p + 1, p + 1) == {};
  }

  /** While a bucket is there, every key used since stands behind it. */
  lemma {:induction false} UsedSinceStandBehind(calls: seq<Call>, tr: Trace, key: LogKey, p: nat, n: nat, lim: LogLimits)
    returns (m: nat)
    requires RunOf(calls, tr, lim) && n <= |calls| && LastUse(calls, key, p, n) && key in tr.tables[n].buckets
    ensures Behind(tr.tables[n].order, key, m, KeysOf(calls, p + 1, n))
  {
    if n == p + 1 {
      m := NothingStandsBehind(calls, tr, p, lim);
    } else {
      OthersOnlyStay(calls, tr, n - 1, key, lim);
      var before := UsedSinceStandBehind(calls, tr, key, p, n - 1, lim);
      KeysOfNext(calls, p + 1, n - 1);
      m := OtherUseStandsBehind(calls, tr, n - 1, key, before, KeysOf(calls, p + 1, n - 1), KeysOf(calls, p + 1, n), lim);
    }
  }

  lemma {:induction false} SetInSeqCount(others: set<LogKey>, order: seq<LogKey>)
    requires forall x :: x in others ==> x in order
    ensures |others| <= |order|
  {
    if order == [] {
      assert others == {};
    } else {
      SetInSeqCount(others - {order[0]}, order[1..]);
      assert |others| <= |others - {order[0]}| + 1;
    }
  }

  /** Exactly when a bucket is still there: fewer than maxEntries other keys were used since. */
  lemma BucketSurvivesIff(calls: seq<Call>, tr: Trace, key: LogKey, p: nat, n: nat, lim: LogLimits)
    requires RunOf(calls, tr, lim) && n <= |calls| && LastUse(calls, key, p, n)
    ensures key in tr.tables[n].buckets <==> |KeysOf(calls, p + 1, n)| < lim.maxEntries
  {
    if |KeysOf(calls, p + 1, n)| < lim.maxEntries {
      var _ := BucketSurvives(calls, tr, key, p, n, lim);
    } else if key in tr.tables[n].buckets {
      var m := UsedSinceStandBehind(calls, tr, key, p, n, lim);
      SetInSeqCount(KeysOf(calls, p + 1, n), tr.tables[n].order[m + 1..]);
      TablesAreSound(calls, tr, n, lim);
    }
  }

  /** Otherwise a spent budget restarts: the next use of the key finds a full bucket and is logged,
      however soon it comes. */
  lemma EvictedBudgetRestarts(calls: seq<Call>, tr: Trace, key: LogKey, p: nat, n: nat, lim: LogLimits)
    requires RunOf(calls, tr, lim) && n < |calls| && LastUse(calls, key, p, n) && calls[n].key == key
    requires |KeysOf(calls, p + 1, n)| >= lim.maxEntries
    ensures tr.found[n] == lim.burst as real && tr.found[n] >= 1.0
  {
    BucketSurvivesIff(calls, tr, key, p, n, lim);
    assert Stepped(tr.tables[n], calls[n], tr.found[n], tr.tables[n + 1], lim);
    AvailableInRange(tr.tables[n], key, calls[n].now, lim);
  }

  /** Every sequence of calls has its run. */
  lemma {:induction false} EveryCallSequenceRuns(calls: seq<Call>, lim: LogLimits) returns (tr: Trace)
    requires lim.Valid() && ClockRuns(calls)
    ensures RunOf(calls, tr, lim)
  {
    if calls == [] {
      tr := Trace([EMPTY_TABLE], []);
    } else {
      var n := |calls| - 1;
      var past := EveryCallSequenceRuns(calls[..n], lim);
      var found := Available(past.tables[n], calls[n].key, calls[n].now, lim);
      tr := Trace(past.tables + [AfterCall(past.tables[n], calls[n].key, calls[n].now, lim)], past.found + [found]);
      forall i | 0 <= i < |calls| ensures Stepped(tr.tables[i], calls[i], tr.found[i], tr.tables[i + 1], lim) {
        if i < n {
          assert Stepped(past.tables[i], calls[..n][i], past.found[i], past.tables[i + 1], lim);
        }
      }
    }
  }
}
