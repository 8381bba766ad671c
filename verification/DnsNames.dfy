/** DNS owner names: label splitting, wildcard rules, the live-query filter and
    the validation of saved DNS rules (qubes_snitch/dns.py, qubes_snitch/config.py). */
module DnsNames {
  import opened Wrappers

  // ---------------------------------------------------------------- splitting

  /** str.split(sep): always at least one piece, pieces may be empty. */
  function Split(s: string, sep: char): (pieces: seq<string>)
    ensures |pieces| >= 1
  {
    if s == "" then [""]
    else
      var rest := Split(s[1..], sep);
      if s[0] == sep then [""] + rest else [[s[0]] + rest[0]] + rest[1..]
  }

  function Join(pieces: seq<string>, sep: char): string
    requires |pieces| >= 1
  {
    if |pieces| == 1 then pieces[0] else pieces[0] + [sep] + Join(pieces[1..], sep)
  }

  lemma {:induction false} JoinSplit(s: string, sep: char)
    ensures Join(Split(s, sep), sep) == s
  {
    if s != "" {
      JoinSplit(s[1..], sep);
      var rest := Split(s[1..], sep);
      if s[0] == sep {
        assert ([""] + rest)[1..] == rest;
      } else {
        var all := [[s[0]] + rest[0]] + rest[1..];
        assert all[1..] == rest[1..];
        assert s == [s[0]] + s[1..];
      }
    }
  }

  /** One more character in front of split text. */
  ghost function Push(c: char, pieces: seq<string>, sep: char): seq<string>
    requires |pieces| >= 1
  {
    if c == sep then [""] + pieces else [[c] + pieces[0]] + pieces[1..]
  }

  lemma PushAppend(c: char, a: seq<string>, b: seq<string>, sep: char)
    requires |a| >= 1
    ensures Push(c, a + b, sep) == Push(c, a, sep) + b
  {
  }

  lemma {:induction false} SplitAtSeparator(a: string, b: string, sep: char)
    ensures Split(a + [sep] + b, sep) == Split(a, sep) + Split(b, sep)
  {
    var whole := a + [sep] + b;
    if a == "" {
      assert whole[1..] == b;
    } else {
      SplitAtSeparator(a[1..], b, sep);
      PushAppend(a[0], Split(a[1..], sep), Split(b, sep), sep);
      assert whole[1..] == a[1..] + [sep] + b && whole[0] == a[0];
      assert Split(whole, sep) == Push(a[0], Split(whole[1..], sep), sep);
      assert Split(a, sep) == Push(a[0], Split(a[1..], sep), sep);
    }
  }

  lemma {:induction false} JoinAppend(a: seq<string>, b: seq<string>, sep: char)
    requires |a| >= 1 && |b| >= 1
    ensures Join(a + b, sep) == Join(a, sep) + [sep] + Join(b, sep)
  {
    assert (a + b)[1..] == a[1..] + b;
    if |a| > 1 {
      JoinAppend(a[1..], b, sep);
    }
  }

  function Labels(name: string): seq<string> {
    Split(name, '.')
  }

  predicate EndsWith(s: string, tail: string) {
    |tail| <= |s| && s[|s| - |tail|..] == tail
  }

  predicate StartsWith(s: string, head: string) {
    |head| <= |s| && s[..|head|] == head
  }

  ghost predicate ProperSuffix<T>(small: seq<T>, big: seq<T>) {
    |small| < |big| && big[|big| - |small|..] == small
  }

  // ------------------------------------------------------------- rule matching

  datatype DnsQuestion = DnsQuestion(qname: string, qtype: string)

  /** dns_rule_matches on the name part: "*." rules are suffix rules. */
  predicate NameMatches(qname: string, ruleName: string) {
    if StartsWith(ruleName, "*.") then
      var suffix := ruleName[2..];
      EndsWith(qname, "." + suffix) && qname != suffix
    else
      qname == ruleName
  }

  lemma EndsWithLabels(qname: string, suffix: string)
    requires EndsWith(qname, "." + suffix)
    ensures ProperSuffix(Labels(suffix), Labels(qname))
  {
    var head := qname[..|qname| - |suffix| - 1];
    assert qname == head + "." + suffix;
    SplitAtSeparator(head, suffix, '.');
    assert Labels(qname)[|Labels(head)|..] == Labels(suffix);
  }

  lemma LabelsEndWith(qname: string, suffix: string)
    requires ProperSuffix(Labels(suffix), Labels(qname))
    ensures EndsWith(qname, "." + suffix)
  {
    var head := Labels(qname)[..|Labels(qname)| - |Labels(suffix)|];
    assert Labels(qname) == head + Labels(suffix);
    JoinAppend(head, Labels(suffix), '.');
    JoinSplit(qname, '.');
    JoinSplit(suffix, '.');
    assert qname == Join(head, '.') + ("." + suffix);
  }

  /** The string test used for "*.suffix" rules is exactly the label-wise one: the
      labels of the suffix are a proper suffix of the labels of the query. */
  lemma WildcardIsLabelSuffix(qname: string, suffix: string)
    ensures NameMatches(qname, "*." + suffix) <==> ProperSuffix(Labels(suffix), Labels(qname))
  {
    var rule := "*." + suffix;
    assert rule[..2] == "*." && rule[2..] == suffix;
    if EndsWith(qname, "." + suffix) {
      EndsWithLabels(qname, suffix);
    }
    if ProperSuffix(Labels(suffix), Labels(qname)) {
      LabelsEndWith(qname, suffix);
    }
  }

  // ------------------------------------------------------------ normalisation

  function RStripDots(s: string): string {
    if s != "" && s[|s| - 1] == '.' then RStripDots(s[..|s| - 1]) else s
  }

  function LowerChar(c: char): char {
    if 'A' <= c <= 'Z' then c - 'A' + 'a' else c
  }

  function UpperChar(c: char): char {
    if 'a' <= c <= 'z' then c - 'a' + 'A' else c
  }

  function Lower(s: string): string {
    seq(|s|, i requires 0 <= i < |s| => LowerChar(s[i]))
  }

  function Upper(s: string): string {
    seq(|s|, i requires 0 <= i < |s| => UpperChar(s[i]))
  }

  /** normalize_dns_name */
  function NormalizeName(name: string): string {
    Lower(RStripDots(name))
  }

  lemma {:induction false} RStripDone(s: string)
    ensures var r := RStripDots(s); r == "" || r[|r| - 1] != '.'
  {
    if s != "" && s[|s| - 1] == '.' {
      RStripDone(s[..|s| - 1]);
    }
  }

  lemma NormalizeIdempotent(name: string)
    ensures NormalizeName(NormalizeName(name)) == NormalizeName(name)
  {
    RStripDone(name);
    var n := NormalizeName(name);
    assert RStripDots(n) == n;
    assert Lower(n) == n;
  }

  // ----------------------------------------------------------- accepted names

  predicate LabelChar(c: char) {
    'a' <= c <= 'z' || '0' <= c <= '9'
  }

  /** [a-z0-9]([a-z0-9-]{0,61}[a-z0-9])? */
  predicate PlainLabel(l: string) {
    && 1 <= |l| <= 63
    && LabelChar(l[0]) && LabelChar(l[|l| - 1])
    && forall i :: 0 <= i < |l| ==> LabelChar(l[i]) || l[i] == '-'
  }

  predicate ServiceLabel(l: string) {
    |l| >= 1 && l[0] == '_' && PlainLabel(l[1..])
  }

  /** LIVE_DNS_QNAME_RE, read label by label. */
  predicate LiveNameRe(name: string) {
    var labels := Labels(name);
    |labels| >= 2 && forall i :: 0 <= i < |labels| ==> PlainLabel(labels[i])
  }

  /** LIVE_DNS_SRV_QNAME_RE, read label by label. */
  predicate LiveSrvNameRe(name: string) {
    var labels := Labels(name);
    && |labels| >= 4
    && ServiceLabel(labels[0]) && ServiceLabel(labels[1])
    && forall i :: 2 <= i < |labels| ==> PlainLabel(labels[i])
  }

  predicate Ipv6Reverse(name: string) {
    name == "ip6.arpa" || EndsWith(name, ".ip6.arpa")
  }

  predicate BadLabels(labels: seq<string>) {
    exists i :: 0 <= i < |labels| && (|labels[i]| > 63 || StartsWith(labels[i], "xn--"))
  }

  /** live_dns_qname_supported */
  predicate LiveNameSupported(qname: string, qtype: string) {
    && !Ipv6Reverse(qname)
    && |qname| <= 253
    && !BadLabels(Labels(qname))
    && (if qtype == "SRV" then LiveSrvNameRe(qname) else LiveNameRe(qname))
  }

  const SUPPORTED_QTYPES: set<string> := {
    "A", "CNAME", "MX", "TXT", "SRV", "PTR", "CAA", "NS", "SOA", "HTTPS", "SVCB",
    "NAPTR", "DS", "DNSKEY", "RRSIG", "NSEC", "NSEC3"
  }

  predicate IsDigits(s: string) {
    s != "" && forall i :: 0 <= i < |s| ==> '0' <= s[i] <= '9'
  }

  /** What dnspython's record-type table does to an upper-case type name: the canonical
      name, or absent when from_text raises. Only the fact that every supported type is
      its own canonical name is used. */
  type TypeTable = map<string, string>

  ghost predicate KnowsSupported(types: TypeTable) {
    forall t :: t in SUPPORTED_QTYPES ==> t in types && types[t] == t
  }

  predicate QtypeAccepted(qtype: string, types: TypeTable) {
    var text := Upper(qtype);
    && !StartsWith(text, "TYPE") && !IsDigits(text)
    && text in types && types[text] in SUPPORTED_QTYPES
  }

  /** validate_dns_rule: the rewritten (qname, qtype), or None for SystemExit. */
  function ValidateDnsRule(rule: DnsQuestion, types: TypeTable): Option<DnsQuestion> {
    var qname := NormalizeName(rule.qname);
    var wildcard := StartsWith(qname, "*.");
    var base := if wildcard then qname[2..] else qname;
    var labels := Labels(base);
    if Ipv6Reverse(qname) || |qname| > 253 || |labels| < 2 || BadLabels(labels) then None
    else if !QtypeAccepted(rule.qtype, types) then None
    else
      var canonical := types[Upper(rule.qtype)];
      var valid := if wildcard then LiveNameRe(base)
                   else if canonical == "SRV" then LiveSrvNameRe(qname)
                   else LiveNameRe(qname);
      if valid then Some(DnsQuestion(qname, canonical)) else None
  }

  lemma SupportedTypesAreAccepted(t: string, types: TypeTable)
    requires t in SUPPORTED_QTYPES && KnowsSupported(types)
    ensures QtypeAccepted(t, types) && types[Upper(t)] == t
  {
    assert Upper(t) == t;
    assert t[0] != 'T' || t == "TXT";
    assert !('0' <= t[0] <= '9');
  }

  /** Saving a rule file and loading it again changes no DNS rule. */
  lemma ValidateIdempotent(rule: DnsQuestion, types: TypeTable)
    requires KnowsSupported(types)
    requires ValidateDnsRule(rule, types).Some?
    ensures ValidateDnsRule(ValidateDnsRule(rule, types).value, types) == ValidateDnsRule(rule, types)
  {
    NormalizeIdempotent(rule.qname);
    SupportedTypesAreAccepted(types[Upper(rule.qtype)], types);
  }

  /** Hand-written concrete rules are accepted exactly when the live packet path would
      accept the same normalised question. */
  lemma ValidateAgreesWithLivePath(rule: DnsQuestion, types: TypeTable)
    requires !StartsWith(NormalizeName(rule.qname), "*.")
    ensures ValidateDnsRule(rule, types).Some? <==>
            QtypeAccepted(rule.qtype, types) &&
            LiveNameSupported(NormalizeName(rule.qname), types[Upper(rule.qtype)])
  {
  }

  // ------------------------------------------- live names are already normal

  predicate NormalChar(c: char) {
    LabelChar(c) || c == '-' || c == '_' || c == '.'
  }

  lemma {:induction false} CharsOfPieces(s: string)
    requires forall i, j :: 0 <= i < |Labels(s)| && 0 <= j < |Labels(s)[i]| ==> NormalChar(Labels(s)[i][j])
    ensures forall k :: 0 <= k < |s| ==> NormalChar(s[k])
  {
    if s != "" {
      var rest := Labels(s[1..]);
      var all := Labels(s);
      if s[0] == '.' {
        assert forall i :: 0 <= i < |rest| ==> rest[i] == all[i + 1];
      } else {
        assert all[0][0] == s[0];
        assert forall j :: 0 <= j < |rest[0]| ==> rest[0][j] == all[0][j + 1];
        assert forall i :: 1 <= i < |rest| ==> rest[i] == all[i];
      }
      CharsOfPieces(s[1..]);
      assert s == [s[0]] + s[1..];
    }
  }

  lemma TrailingDotLabel(s: string)
    requires s != "" && s[|s| - 1] == '.'
    ensures Labels(s)[|Labels(s)| - 1] == ""
  {
    var head := s[..|s| - 1];
    assert s == head + "." + "";
    SplitAtSeparator(head, "", '.');
  }

  lemma LiveNameIsNormal(qname: string, qtype: string)
    requires LiveNameSupported(qname, qtype)
    ensures NormalizeName(qname) == qname && !StartsWith(qname, "*.")
  {
    var labels := Labels(qname);
    forall i, j | 0 <= i < |labels| && 0 <= j < |labels[i]|
      ensures NormalChar(labels[i][j])
    {
      if qtype == "SRV" && i < 2 && j > 0 {
        assert labels[i][j] == labels[i][1..][j - 1];
      }
    }
    CharsOfPieces(qname);
    if qname != "" && qname[|qname| - 1] == '.' {
      TrailingDotLabel(qname);
      assert false;
    }
    assert RStripDots(qname) == qname;
    assert Lower(qname) == qname;
    assert qname != "" ==> qname[0] != '*';
  }

  /** Every question the packet path can prompt for is saved unchanged by the validator,
      and the saved rule then matches exactly that question's name. */
  lemma PromptedQuestionSavesUnchanged(q: DnsQuestion, other: string, types: TypeTable)
    requires LiveNameSupported(q.qname, q.qtype) && q.qtype in SUPPORTED_QTYPES
    requires KnowsSupported(types)
    ensures ValidateDnsRule(q, types) == Some(q)
    ensures NameMatches(other, q.qname) <==> other == q.qname
  {
    LiveNameIsNormal(q.qname, q.qtype);
    SupportedTypesAreAccepted(q.qtype, types);
    ValidateAgreesWithLivePath(q, types);
  }
}
