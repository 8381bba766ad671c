/** What a rule means, said without the interpreter's own helpers: addresses by their bits, ports
    by their numbers, names by their labels, and the deciding rule by its place in the list. */
module PolicyMeaning {
  import opened Wrappers
  import opened DnsNames
  import opened Policy

  // --------------------------------------------------------------------- addresses

  /** The n-digit binary notation of a number, highest bit first. */
  function Bits(a: nat, n: nat): (bits: seq<bool>)
    ensures |bits| == n
  {
    if n == 0 then [] else Bits(a / 2, n - 1) + [a % 2 == 1]
  }

  /** The addresses agree in their first bits. */
  predicate SamePrefix(a: Addr, b: Addr, prefix: Prefix) {
    Bits(a, 32)[..prefix] == Bits(b, 32)[..prefix]
  }

  lemma AtLeastOnce(d: nat, n: nat)
    requires d >= 1
    ensures d * n >= n
  {
    assert d * n == n + (d - 1) * n;
    assert (d - 1) * n >= 0;
  }

  lemma QuotientIs(x: nat, n: nat, q: nat, r: nat)
    requires n > 0 && x == q * n + r && r < n
    ensures x / n == q
  {
    var k := x / n;
    assert x == k * n + x % n;
    if k < q {
      assert q * n == k * n + (q - k) * n;
      AtLeastOnce(q - k, n);
    } else if k > q {
      assert k * n == q * n + (k - q) * n;
      AtLeastOnce(k - q, n);
    }
  }

  lemma DivHalf(a: nat, n: nat, q: nat, r: nat)
    requires n > 0 && a / 2 == q * n + r && r < n
    ensures a / (2 * n) == q
  {
    assert q * (2 * n) == 2 * (q * n);
    QuotientIs(a, 2 * n, q, 2 * r + a % 2);
  }

  /** The number without its last h bits. */
  function Chop(a: nat, h: nat): nat {
    if h == 0 then a else Chop(a / 2, h - 1)
  }

  lemma DivideWithRest(x: nat, n: nat) returns (q: nat, r: nat)
    requires n > 0
    ensures x == q * n + r && r < n && q == x / n
  {
    q, r := x / n, x % n;
  }

  /** Dividing by the block cuts the host bits off. */
  lemma {:induction false} ChopIsBlock(a: nat, h: nat)
    ensures Chop(a, h) == a / BlockSize(h)
  {
    if h > 0 {
      ChopIsBlock(a / 2, h - 1);
      var q, r := DivideWithRest(a / 2, BlockSize(h - 1));
      DivHalf(a, BlockSize(h - 1), q, r);
    }
  }

  lemma {:induction false} LeadingBits(a: nat, n: nat, h: nat)
    requires h <= n
    ensures Bits(a, n)[..n - h] == Bits(Chop(a, h), n - h)
  {
    if h > 0 {
      LeadingBits(a / 2, n - 1, h - 1);
      assert Bits(a, n)[..n - h] == Bits(a / 2, n - 1)[..n - h];
    }
  }

  lemma {:induction false} BitsTell(x: nat, y: nat, n: nat)
    requires x < BlockSize(n) && y < BlockSize(n) && Bits(x, n) == Bits(y, n)
    ensures x == y
  {
    if n > 0 {
      assert Bits(x, n)[..n - 1] == Bits(x / 2, n - 1) && Bits(y, n)[..n - 1] == Bits(y / 2, n - 1);
      assert Bits(x, n)[n - 1] == (x % 2 == 1) && Bits(y, n)[n - 1] == (y % 2 == 1);
      BitsTell(x / 2, y / 2, n - 1);
    }
  }

  lemma {:induction false} ChopFits(a: nat, n: nat, h: nat)
    requires h <= n && a < BlockSize(n)
    ensures Chop(a, h) < BlockSize(n - h)
  {
    if h > 0 {
      ChopFits(a / 2, n - 1, h - 1);
    }
  }

  lemma FourBitsMore(n: nat)
    ensures BlockSize(n + 4) == 16 * BlockSize(n)
  {
    assert BlockSize(n + 4) == 2 * BlockSize(n + 3);
    assert BlockSize(n + 3) == 2 * BlockSize(n + 2);
    assert BlockSize(n + 2) == 2 * BlockSize(n + 1);
    assert BlockSize(n + 1) == 2 * BlockSize(n);
  }

  lemma AllAddresses()
    ensures BlockSize(32) == 0x1_0000_0000
  {
    FourBitsMore(0);
    FourBitsMore(4);
    FourBitsMore(8);
    FourBitsMore(12);
    FourBitsMore(16);
    FourBitsMore(20);
    FourBitsMore(24);
    FourBitsMore(28);
  }

  lemma PrefixTellsBlock(a: Addr, b: Addr, prefix: Prefix)
    requires SamePrefix(a, b, prefix)
    ensures Chop(a, 32 - prefix) == Chop(b, 32 - prefix)
  {
    AllAddresses();
    LeadingBits(a, 32, 32 - prefix);
    LeadingBits(b, 32, 32 - prefix);
    ChopFits(a, 32, 32 - prefix);
    ChopFits(b, 32, 32 - prefix);
    BitsTell(Chop(a, 32 - prefix), Chop(b, 32 - prefix), prefix);
  }

  /** A network rule covers exactly the addresses with the network's first bits. */
  lemma NetworkIsPrefix(a: Addr, base: Addr, prefix: Prefix)
    ensures InNetwork(a, base, prefix) <==> SamePrefix(a, base, prefix)
  {
    ChopIsBlock(a, 32 - prefix);
    ChopIsBlock(base, 32 - prefix);
    LeadingBits(a, 32, 32 - prefix);
    LeadingBits(base, 32, 32 - prefix);
    if SamePrefix(a, base, prefix) {
      PrefixTellsBlock(a, base, prefix);
    }
  }

  // --------------------------------------------------------------------- flow rules

  ghost predicate DestCovers(dest: Dest, a: Addr) {
    match dest
    case AnyDest => true
    case Network(base, prefix) => SamePrefix(a, base, prefix)
    case Hostname(_, resolved) => exists i :: 0 <= i < |resolved| && resolved[i] == a
  }

  predicate PortCovers(spec: PortSpec, dport: Option<nat>) {
    match spec
    case AnyPort => true
    case OnePort(port) => dport == Some(port)
    case PortRange(first, last) => dport.Some? && first <= dport.value && dport.value <= last
  }

  ghost predicate Covers(rule: FlowRule, flow: Flow) {
    flow.proto == rule.proto && DestCovers(rule.dest, flow.dst) && PortCovers(rule.port, flow.dport)
  }

  lemma FlowRuleMatchesMeaning(flow: Flow, rule: FlowRule)
    ensures FlowRuleMatches(flow, rule) <==> Covers(rule, flow)
  {
    if rule.dest.Network? {
      NetworkIsPrefix(flow.dst, rule.dest.base, rule.dest.prefix);
    }
  }

  /** Rule i is the first that covers the flow. */
  ghost predicate FirstCovering(rules: seq<FlowRule>, flow: Flow, i: nat) {
    i < |rules| && Covers(rules[i], flow) && forall j :: 0 <= j < i ==> !Covers(rules[j], flow)
  }

  ghost predicate FlowDecided(rules: seq<FlowRule>, flow: Flow, action: Action) {
    exists i: nat :: FirstCovering(rules, flow, i) && rules[i].action == action
  }

  lemma FirstCoveringTail(rules: seq<FlowRule>, flow: Flow, i: nat)
    requires rules != [] && !Covers(rules[0], flow)
    ensures FirstCovering(rules[1..], flow, i) <==> FirstCovering(rules, flow, i + 1)
  {
    if FirstCovering(rules[1..], flow, i) {
      forall j | 0 <= j < i + 1
        ensures !Covers(rules[j], flow)
      {
        assert j > 0 ==> rules[j] == rules[1..][j - 1];
      }
    }
    if FirstCovering(rules, flow, i + 1) {
      forall j | 0 <= j < i
        ensures !Covers(rules[1..][j], flow)
      {
        assert rules[j + 1] == rules[1..][j];
      }
    }
  }

  lemma FlowDecidedTail(rules: seq<FlowRule>, flow: Flow, action: Action)
    requires rules != [] && !Covers(rules[0], flow)
    ensures FlowDecided(rules[1..], flow, action) <==> FlowDecided(rules, flow, action)
  {
    if FlowDecided(rules[1..], flow, action) {
      var i: nat :| FirstCovering(rules[1..], flow, i) && rules[1..][i].action == action;
      FirstCoveringTail(rules, flow, i);
      assert FirstCovering(rules, flow, i + 1) && rules[i + 1].action == action;
    }
    if FlowDecided(rules, flow, action) {
      var i: nat :| FirstCovering(rules, flow, i) && rules[i].action == action;
      FirstCoveringTail(rules, flow, i - 1);
      assert FirstCovering(rules[1..], flow, i - 1) && rules[1..][i - 1].action == action;
    }
  }

  /** The interpreter's answer is the action of the first rule that covers the flow. */
  lemma {:induction false} FirstFlowMeaning(rules: seq<FlowRule>, flow: Flow, action: Action)
    ensures FirstFlowAction(rules, flow) == Some(action) <==> FlowDecided(rules, flow, action)
  {
    if rules != [] {
      FlowRuleMatchesMeaning(flow, rules[0]);
      if Covers(rules[0], flow) {
        assert FirstCovering(rules, flow, 0);
      } else {
        FirstFlowMeaning(rules[1..], flow, action);
        FlowDecidedTail(rules, flow, action);
      }
    }
  }

  // ---------------------------------------------------------------------- DNS rules

  const CAPITALS := "ABCDEFGHIJKLMNOPQRSTUVWXYZ"
  const SMALLS := "abcdefghijklmnopqrstuvwxyz"

  /** One letter is the other, or its other case in the two alphabets. */
  ghost predicate CaseOf(c: char, d: char, from: string, into: string)
    requires |from| == |into|
  {
    if c in from then exists k :: 0 <= k < |from| && from[k] == c && into[k] == d else d == c
  }

  ghost predicate Recased(s: string, t: string, from: string, into: string)
    requires |from| == |into|
  {
    |t| == |s| && forall i :: 0 <= i < |s| ==> CaseOf(s[i], t[i], from, into)
  }

  lemma CapitalAt(c: char)
    ensures c in CAPITALS <==> 'A' <= c <= 'Z'
    ensures c in CAPITALS ==> CAPITALS[c as int - 'A' as int] == c
  {
  }

  lemma SmallAt(c: char)
    ensures c in SMALLS <==> 'a' <= c <= 'z'
    ensures c in SMALLS ==> SMALLS[c as int - 'a' as int] == c
  {
  }

  lemma SameLetter(k: nat)
    requires k < 26
    ensures CAPITALS[k] as int - 'A' as int == SMALLS[k] as int - 'a' as int == k
  {
  }

  lemma LowerLetter(c: char, d: char)
    ensures CaseOf(c, d, CAPITALS, SMALLS) <==> d == LowerChar(c)
  {
    CapitalAt(c);
    if c in CAPITALS {
      var n := c as int - 'A' as int;
      forall k | 0 <= k < 26 && CAPITALS[k] == c
        ensures k == n
      {
        SameLetter(k);
      }
      SameLetter(n);
    }
  }

  lemma UpperLetter(c: char, d: char)
    ensures CaseOf(c, d, SMALLS, CAPITALS) <==> d == UpperChar(c)
  {
    SmallAt(c);
    if c in SMALLS {
      var n := c as int - 'a' as int;
      forall k | 0 <= k < 26 && SMALLS[k] == c
        ensures k == n
      {
        SameLetter(k);
      }
      assert CAPITALS[n] == UpperChar(c) by {
        SameLetter(n);
      }
      assert SMALLS[n] == c;
    }
  }

  lemma LowerMeaning(s: string, t: string)
    ensures t == Lower(s) <==> Recased(s, t, CAPITALS, SMALLS)
  {
    if |t| == |s| {
      forall i | 0 <= i < |s|
        ensures CaseOf(s[i], t[i], CAPITALS, SMALLS) <==> t[i] == Lower(s)[i]
      {
        LowerLetter(s[i], t[i]);
      }
    }
  }

  lemma UpperMeaning(s: string, t: string)
    ensures t == Upper(s) <==> Recased(s, t, SMALLS, CAPITALS)
  {
    if |t| == |s| {
      forall i | 0 <= i < |s|
        ensures CaseOf(s[i], t[i], SMALLS, CAPITALS) <==> t[i] == Upper(s)[i]
      {
        UpperLetter(s[i], t[i]);
      }
    }
  }

  /** The name is the stem and k trailing dots, no fewer. */
  predicate DottedStem(name: string, stem: string, k: nat) {
    name == stem + seq(k, _ => '.') && (stem == "" || stem[|stem| - 1] != '.')
  }

  /** A name without its trailing dots, in small letters. */
  ghost predicate Normalized(name: string, normal: string) {
    exists stem: string, k: nat :: DottedStem(name, stem, k) && Recased(stem, normal, CAPITALS, SMALLS)
  }

  lemma {:induction false} StripDotsMeaning(s: string) returns (k: nat)
    ensures s == RStripDots(s) + seq(k, _ => '.')
  {
    if s != "" && s[|s| - 1] == '.' {
      var m := StripDotsMeaning(s[..|s| - 1]);
      k := m + 1;
      assert s == s[..|s| - 1] + ".";
      assert seq(k, _ => '.') == seq(m, _ => '.') + ".";
    } else {
      k := 0;
    }
  }

  lemma {:induction false} DotsAreStripped(stem: string, k: nat)
    requires stem == "" || stem[|stem| - 1] != '.'
    ensures RStripDots(stem + seq(k, _ => '.')) == stem
  {
    var s := stem + seq(k, _ => '.');
    if k > 0 {
      assert s[..|s| - 1] == stem + seq(k - 1, _ => '.');
      DotsAreStripped(stem, k - 1);
    } else {
      assert s == stem;
    }
  }

  lemma NormalizeMeaning(name: string, normal: string)
    ensures normal == NormalizeName(name) <==> Normalized(name, normal)
  {
    var k := StripDotsMeaning(name);
    RStripDone(name);
    LowerMeaning(RStripDots(name), normal);
    if normal == NormalizeName(name) {
      assert DottedStem(name, RStripDots(name), k);
    }
    if Normalized(name, normal) {
      var stem: string, m: nat :| DottedStem(name, stem, m) && Recased(stem, normal, CAPITALS, SMALLS);
      DotsAreStripped(stem, m);
      LowerMeaning(stem, normal);
    }
  }

  /** "*." and a suffix: the query's labels end with the suffix's and are more; without "*.": the name itself. */
  ghost predicate NameCovers(ruleName: string, qname: string) {
    if exists suffix :: ruleName == "*." + suffix
    then exists suffix :: ruleName == "*." + suffix && ProperSuffix(Labels(suffix), Labels(qname))
    else ruleName == qname
  }

  lemma NameMatchesMeaning(qname: string, ruleName: string)
    ensures NameMatches(qname, ruleName) <==> NameCovers(ruleName, qname)
  {
    if StartsWith(ruleName, "*.") {
      assert ruleName == "*." + ruleName[2..];
      WildcardIsLabelSuffix(qname, ruleName[2..]);
      forall suffix | ruleName == "*." + suffix
        ensures suffix == ruleName[2..]
      {
      }
    } else {
      forall suffix
        ensures ruleName != "*." + suffix
      {
        assert StartsWith("*." + suffix, "*.");
      }
    }
  }

  /** The rule's type and name, recased, are those the question has or falls under. */
  ghost predicate DnsCovers(rule: DnsRule, q: DnsQuestion) {
    && Recased(rule.question.qtype, q.qtype, SMALLS, CAPITALS)
    && exists name :: Recased(rule.question.qname, name, CAPITALS, SMALLS) && NameCovers(name, q.qname)
  }

  lemma DnsRuleMatchesMeaning(q: DnsQuestion, rule: DnsRule)
    ensures DnsRuleMatches(q, rule) <==> DnsCovers(rule, q)
  {
    UpperMeaning(rule.question.qtype, q.qtype);
    NameMatchesMeaning(q.qname, Lower(rule.question.qname));
    LowerMeaning(rule.question.qname, Lower(rule.question.qname));
    forall name | Recased(rule.question.qname, name, CAPITALS, SMALLS)
      ensures name == Lower(rule.question.qname)
    {
      LowerMeaning(rule.question.qname, name);
    }
  }

  ghost predicate FirstDnsCovering(rules: seq<DnsRule>, q: DnsQuestion, i: nat) {
    i < |rules| && DnsCovers(rules[i], q) && forall j :: 0 <= j < i ==> !DnsCovers(rules[j], q)
  }

  ghost predicate DnsDecided(rules: seq<DnsRule>, q: DnsQuestion, action: Action) {
    exists i: nat :: FirstDnsCovering(rules, q, i) && rules[i].action == action
  }

  lemma FirstDnsCoveringTail(rules: seq<DnsRule>, q: DnsQuestion, i: nat)
    requires rules != [] && !DnsCovers(rules[0], q)
    ensures FirstDnsCovering(rules[1..], q, i) <==> FirstDnsCovering(rules, q, i + 1)
  {
    if FirstDnsCovering(rules[1..], q, i) {
      forall j | 0 <= j < i + 1
        ensures !DnsCovers(rules[j], q)
      {
        assert j > 0 ==> rules[j] == rules[1..][j - 1];
      }
    }
    if FirstDnsCovering(rules, q, i + 1) {
      forall j | 0 <= j < i
        ensures !DnsCovers(rules[1..][j], q)
      {
        assert rules[j + 1] == rules[1..][j];
      }
    }
  }

  lemma DnsDecidedTail(rules: seq<DnsRule>, q: DnsQuestion, action: Action)
    requires rules != [] && !DnsCovers(rules[0], q)
    ensures DnsDecided(rules[1..], q, action) <==> DnsDecided(rules, q, action)
  {
    if DnsDecided(rules[1..], q, action) {
      var i: nat :| FirstDnsCovering(rules[1..], q, i) && rules[1..][i].action == action;
      FirstDnsCoveringTail(rules, q, i);
      assert FirstDnsCovering(rules, q, i + 1) && rules[i + 1].action == action;
    }
    if DnsDecided(rules, q, action) {
      var i: nat :| FirstDnsCovering(rules, q, i) && rules[i].action == action;
      FirstDnsCoveringTail(rules, q, i - 1);
      assert FirstDnsCovering(rules[1..], q, i - 1) && rules[1..][i - 1].action == action;
    }
  }

  /** The same for questions. */
  lemma {:induction false} FirstDnsMeaning(rules: seq<DnsRule>, q: DnsQuestion, action: Action)
    ensures FirstDnsAction(rules, q) == Some(action) <==> DnsDecided(rules, q, action)
  {
    if rules != [] {
      DnsRuleMatchesMeaning(q, rules[0]);
      if DnsCovers(rules[0], q) {
        assert FirstDnsCovering(rules, q, 0);
      } else {
        FirstDnsMeaning(rules[1..], q, action);
        DnsDecidedTail(rules, q, action);
      }
    }
  }

  /** No rule covers it. */
  ghost predicate FlowOpen(rules: seq<FlowRule>, flow: Flow) {
    forall i :: 0 <= i < |rules| ==> !Covers(rules[i], flow)
  }

  lemma {:induction false} FirstFlowOpen(rules: seq<FlowRule>, flow: Flow)
    ensures FirstFlowAction(rules, flow).None? <==> FlowOpen(rules, flow)
  {
    if rules != [] {
      FlowRuleMatchesMeaning(flow, rules[0]);
      FirstFlowOpen(rules[1..], flow);
      assert FlowOpen(rules, flow) <==> !Covers(rules[0], flow) && FlowOpen(rules[1..], flow) by {
        assert forall i :: 1 <= i < |rules| ==> rules[i] == rules[1..][i - 1];
        assert forall i :: 0 <= i < |rules| - 1 ==> rules[1..][i] == rules[i + 1];
      }
    }
  }

  // ---------------------------------------------------------------------- questions

  /** The same port, or none: a missing and a zero port ask the same. */
  predicate SamePort(a: Option<nat>, b: Option<nat>) {
    a == b || (a in {None, Some(0)} && b in {None, Some(0)})
  }

  /** Two requests ask the user the same thing: the DNS question, or the flow without its ports of origin. */
  predicate SameQuestion(a: Request, b: Request) {
    && a.source == b.source
    && match (a.question, b.question)
       case (Some(p), Some(q)) => p.qname == q.qname && p.qtype == q.qtype
       case (None, None) => a.dst == b.dst && a.proto == b.proto && SamePort(a.dport, b.dport)
       case _ => false
  }

  /** One prompt per key is one prompt per question. */
  lemma QuestionKeyMeaning(a: Request, b: Request)
    ensures QuestionKey(a) == QuestionKey(b) <==> SameQuestion(a, b)
  {
  }
}
