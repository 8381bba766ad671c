/** The bounded token-bucket log limiter (qubes_snitch/alerts_runtime.py:13-32). */
module LogLimiter {
  /** A throttle key: the reject's fields, as text. */
  type LogKey = seq<string>

  datatype Bucket = Bucket(tokens: real, updated: real)

  /** The OrderedDict: its keys, least recently used first, and their buckets. */
  datatype BucketTable = BucketTable(order: seq<LogKey>, buckets: map<LogKey, Bucket>)

  const EMPTY_TABLE := BucketTable([], map[])

  /** burst, limit_rate and log_bucket_max_entries of the configuration. */
  datatype LogLimits = LogLimits(burst: nat, count: nat, seconds: nat, maxEntries: nat) {
    predicate Valid() {
      burst >= 1 && count >= 1 && seconds >= 1 && maxEntries >= 1
    }

    /** The tokens a bucket gains in this time. */
    function Refill(elapsed: real): real
      requires Valid()
    {
      elapsed * count as real / seconds as real
    }
  }

  lemma RefillAdds(lim: LogLimits, x: real, y: real)
    requires lim.Valid() && x >= 0.0 && y >= 0.0
    ensures lim.Refill(x + y) == lim.Refill(x) + lim.Refill(y)
    ensures lim.Refill(x) >= 0.0
  {
    var c, s := lim.count as real, lim.seconds as real;
    assert (x + y) * c == x * c + y * c;
    assert x * c >= 0.0;
    assert (x * c + y * c) / s == x * c / s + y * c / s;
  }

  /** One token takes seconds / count. */
  lemma OneTokenTime(lim: LogLimits, x: real)
    requires lim.Valid() && x >= lim.seconds as real / lim.count as real
    ensures lim.Refill(x) >= 1.0
  {
    var c, s := lim.count as real, lim.seconds as real;
    var need := s / c;
    assert need * c == s;
    assert x * c >= need * c;
    assert x * c / s >= 1.0;
  }

  // ------------------------------------------------------------ one call, as a function

  function Min(a: real, b: real): real {
    if a <= b then a else b
  }

  /** The tokens the call finds: a missing key starts full. */
  function Available(t: BucketTable, key: LogKey, now: real, lim: LogLimits): real
    requires lim.Valid()
  {
    if key in t.buckets then Min(lim.burst as real, t.buckets[key].tokens + lim.Refill(now - t.buckets[key].updated))
    else Min(lim.burst as real, lim.burst as real + lim.Refill(0.0))
  }

  predicate Allows(t: BucketTable, key: LogKey, now: real, lim: LogLimits)
    requires lim.Valid()
  {
    Available(t, key, now, lim) >= 1.0
  }

  /** An allowed call takes one token; a suppressed one keeps what it found. */
  function Spent(tokens: real): real {
    if tokens >= 1.0 then tokens - 1.0 else tokens
  }

  function Without(order: seq<LogKey>, key: LogKey): seq<LogKey> {
    if order == [] then []
    else if order[0] == key then Without(order[1..], key)
    else [order[0]] + Without(order[1..], key)
  }

  function Touched(t: BucketTable, key: LogKey, bucket: Bucket): BucketTable {
    BucketTable(Without(t.order, key) + [key], t.buckets[key := bucket])
  }

  function OnlyKeys(buckets: map<LogKey, Bucket>, keys: seq<LogKey>): map<LogKey, Bucket> {
    map k | k in buckets && k in keys :: buckets[k]
  }

  lemma DropFirst(buckets: map<LogKey, Bucket>, keys: seq<LogKey>)
    requires keys != [] && Distinct(keys)
    ensures OnlyKeys(buckets, keys) - {keys[0]} == OnlyKeys(buckets, keys[1..])
  {
  }

  /** The most recently used keys survive. */
  function Trimmed(t: BucketTable, cap: nat): BucketTable {
    if |t.order| <= cap then t
    else
      var kept := t.order[|t.order| - cap..];
      BucketTable(kept, OnlyKeys(t.buckets, kept))
  }

  function AfterCall(t: BucketTable, key: LogKey, now: real, lim: LogLimits): BucketTable
    requires lim.Valid()
  {
    Trimmed(Touched(t, key, Bucket(Spent(Available(t, key, now, lim)), now)), lim.maxEntries)
  }

  ghost predicate Distinct(order: seq<LogKey>) {
    forall i, j :: 0 <= i < j < |order| ==> order[i] != order[j]
  }

  ghost predicate WellFormed(t: BucketTable) {
    Distinct(t.order) && forall k :: k in t.order <==> k in t.buckets
  }

  lemma {:induction false} WithoutLaws(order: seq<LogKey>, key: LogKey)
    requires Distinct(order)
    ensures Distinct(Without(order, key)) && |Without(order, key)| <= |order|
    ensures forall k :: k in Without(order, key) <==> k in order && k != key
  {
    if order != [] {
      WithoutLaws(order[1..], key);
      assert order == [order[0]] + order[1..];
      assert order[0] !in order[1..];
      assert order[0] !in Without(order[1..], key);
    }
  }

  lemma TouchedWellFormed(t: BucketTable, key: LogKey, bucket: Bucket)
    requires WellFormed(t)
    ensures WellFormed(Touched(t, key, bucket))
  {
    WithoutLaws(t.order, key);
    assert key !in Without(t.order, key);
  }

  lemma TrimmedWellFormed(t: BucketTable, cap: nat)
    requires WellFormed(t)
    ensures WellFormed(Trimmed(t, cap)) && |Trimmed(t, cap).order| <= cap
  {
  }

  class LogBuckets {
    var order: seq<LogKey>
    var buckets: map<LogKey, Bucket>
    const lim: LogLimits

    ghost predicate Valid()
      reads this
    {
      lim.Valid() && WellFormed(State())
    }

    ghost function State(): BucketTable
      reads this
    {
      BucketTable(order, buckets)
    }

    constructor (lim: LogLimits)
      requires lim.Valid()
      ensures Valid() && State() == EMPTY_TABLE && this.lim == lim
    {
      this.order, this.buckets, this.lim := [], map[], lim;
    }

    /** popitem(last=False) until the table fits. */
    method EvictOldest()
      requires Valid()
      modifies this
      ensures State() == Trimmed(old(State()), lim.maxEntries)
    {
      ghost var n := 0;
      while |order| > lim.maxEntries
        invariant 0 <= n <= |old(order)| && order == old(order)[n..]
        invariant n > 0 ==> |order| >= lim.maxEntries
        invariant buckets == OnlyKeys(old(buckets), order)
      {
        DropFirst(old(buckets), order);
        buckets := buckets - {order[0]};
        order := order[1..];
        n := n + 1;
      }
    }

    /** The write and move_to_end. */
    method Touch(key: LogKey, bucket: Bucket)
      requires Valid()
      modifies this
      ensures Valid() && State() == Touched(old(State()), key, bucket)
    {
      TouchedWellFormed(State(), key, bucket);
      buckets := buckets[key := bucket];
      order := Without(order, key) + [key];
    }

    /** The refilled tokens of the key's bucket. */
    method TokensFor(key: LogKey, now: real) returns (tokens: real)
      requires Valid()
      ensures tokens == Available(State(), key, now, lim)
    {
      var bucket := if key in buckets then buckets[key] else Bucket(lim.burst as real, now);
      tokens := Min(lim.burst as real, bucket.tokens + lim.Refill(now - bucket.updated));
    }

    /** log_allowed */
    method LogAllowed(key: LogKey, now: real) returns (allowed: bool)
      requires Valid()
      modifies this
      ensures Valid() && State() == AfterCall(old(State()), key, now, lim)
      ensures allowed == Allows(old(State()), key, now, lim)
    {
      var tokens := TokensFor(key, now);
      allowed := tokens >= 1.0;
      Touch(key, Bucket(Spent(tokens), now));
      TrimmedWellFormed(State(), lim.maxEntries);
      EvictOldest();
    }
  }
}
