/** The patterns the source writes as regular expressions, and the tests the model uses for them
    (qubes_snitch/dns.py:20-23, qubes_snitch/config.py:20-35). */
module Regexes {
  import opened Wrappers
  import opened DnsNames
  import opened Policy
  import opened PolicyMeaning
  import opened Runtime
  import opened Sources

  type Ranges = seq<(char, char)>

  /** The part of Python's syntax these patterns need; FullMatch is fullmatch. */
  datatype Re =
    | Class(ranges: Ranges, atLeast: nat, atMost: Option<nat>)
    | Cat(first: Re, second: Re)
    | Maybe(opt: Re)
    | Plus(unit: Re)

  predicate InRanges(c: char, ranges: Ranges) {
    exists k :: 0 <= k < |ranges| && ranges[k].0 <= c <= ranges[k].1
  }

  ghost predicate FullMatch(re: Re, s: string)
    decreases re, |s|
  {
    match re
    case Class(ranges, atLeast, atMost) =>
      atLeast <= |s| && (atMost.Some? ==> |s| <= atMost.value) && forall i :: 0 <= i < |s| ==> InRanges(s[i], ranges)
    case Cat(first, second) => exists i :: 0 <= i <= |s| && FullMatch(first, s[..i]) && FullMatch(second, s[i..])
    case Maybe(opt) => s == "" || FullMatch(opt, s)
    case Plus(unit) => FullMatch(unit, s) || exists i :: 0 < i < |s| && FullMatch(unit, s[..i]) && FullMatch(re, s[i..])
  }

  lemma CatCut(first: Re, second: Re, s: string) returns (i: nat)
    requires FullMatch(Cat(first, second), s)
    ensures i <= |s| && FullMatch(first, s[..i]) && FullMatch(second, s[i..])
  {
    i :| 0 <= i <= |s| && FullMatch(first, s[..i]) && FullMatch(second, s[i..]);
  }

  lemma CatMatches(first: Re, second: Re, s: string, i: nat)
    requires i <= |s| && FullMatch(first, s[..i]) && FullMatch(second, s[i..])
    ensures FullMatch(Cat(first, second), s)
  {
  }

  function One(ranges: Ranges): Re {
    Class(ranges, 1, Some(1))
  }

  const LOWER_DIGITS: Ranges := [('a', 'z'), ('0', '9')]
  const LETTERS_DIGITS: Ranges := [('A', 'Z'), ('a', 'z'), ('0', '9')]
  const DOT := One([('.', '.')])
  const UNDERSCORE := One([('_', '_')])

  /** [a-z0-9]([a-z0-9-]{0,61}[a-z0-9])? */
  const LABEL := Cat(One(LOWER_DIGITS), Maybe(Cat(Class(LOWER_DIGITS + [('-', '-')], 0, Some(61)), One(LOWER_DIGITS))))

  const DOT_LABEL := Cat(DOT, LABEL)
  const SERVICE := Cat(UNDERSCORE, LABEL)

  /** LIVE_DNS_QNAME_RE */
  const QNAME := Cat(LABEL, Plus(DOT_LABEL))

  /** LIVE_DNS_SRV_QNAME_RE */
  const SRV_QNAME := Cat(SERVICE, Cat(DOT, Cat(SERVICE, Cat(DOT, QNAME))))

  /** SOURCE_NAME_RE */
  const SOURCE_NAME := Cat(One(LETTERS_DIGITS), Maybe(Cat(Class(LETTERS_DIGITS + [('_', '_'), ('.', '.'), ('-', '-')], 0, None), One(LETTERS_DIGITS))))

  /** NUMBERED_DISPVM_RE */
  const NUMBERED :=
    Cat(One([('d', 'd')]), Cat(One([('i', 'i')]), Cat(One([('s', 's')]), Cat(One([('p', 'p')]), Class([('0', '9')], 1, Some(4))))))

  // ------------------------------------------------------------------ single characters

  lemma LowerDigit(c: char)
    ensures InRanges(c, LOWER_DIGITS) <==> LabelChar(c)
    ensures InRanges(c, LOWER_DIGITS + [('-', '-')]) <==> LabelChar(c) || c == '-'
  {
    var ls, dashed := LOWER_DIGITS, LOWER_DIGITS + [('-', '-')];
    assert ls[0] == dashed[0] == ('a', 'z') && ls[1] == dashed[1] == ('0', '9') && dashed[2] == ('-', '-');
  }

  lemma SourceChar(c: char)
    ensures InRanges(c, LETTERS_DIGITS) <==> Alnum(c)
    ensures InRanges(c, LETTERS_DIGITS + [('_', '_'), ('.', '.'), ('-', '-')]) <==> Alnum(c) || c in "_.-"
  {
    var ls, more := LETTERS_DIGITS, LETTERS_DIGITS + [('_', '_'), ('.', '.'), ('-', '-')];
    assert ls[0] == more[0] == ('A', 'Z') && ls[1] == more[1] == ('a', 'z') && ls[2] == more[2] == ('0', '9');
    assert more[3] == ('_', '_') && more[4] == ('.', '.') && more[5] == ('-', '-');
    assert c in "_.-" <==> c == '_' || c == '.' || c == '-';
  }

  lemma SingleRange(c: char, d: char)
    ensures InRanges(c, [(d, d)]) <==> c == d
  {
    assert [(d, d)][0] == (d, d);
  }

  lemma OneChar(ranges: Ranges, s: string)
    ensures FullMatch(One(ranges), s) <==> |s| == 1 && InRanges(s[0], ranges)
  {
  }

  /** A pattern behind one character of a class. */
  lemma BehindOne(ranges: Ranges, rest: Re, s: string)
    ensures FullMatch(Cat(One(ranges), rest), s) <==> s != "" && InRanges(s[0], ranges) && FullMatch(rest, s[1..])
  {
    if s != "" && InRanges(s[0], ranges) && FullMatch(rest, s[1..]) {
      OneChar(ranges, s[..1]);
      CatMatches(One(ranges), rest, s, 1);
    }
    if FullMatch(Cat(One(ranges), rest), s) {
      var i := CatCut(One(ranges), rest, s);
      OneChar(ranges, s[..i]);
    }
  }

  lemma BehindChar(c: char, rest: Re, s: string)
    ensures FullMatch(Cat(One([(c, c)]), rest), s) <==> s != "" && s[0] == c && FullMatch(rest, s[1..])
  {
    BehindOne([(c, c)], rest, s);
    if s != "" {
      SingleRange(s[0], c);
    }
  }

  /** A class and one last character. */
  lemma BeforeOne(inner: Ranges, atMost: Option<nat>, last: Ranges, s: string)
    ensures FullMatch(Cat(Class(inner, 0, atMost), One(last)), s) <==>
            && s != "" && (atMost.Some? ==> |s| - 1 <= atMost.value) && InRanges(s[|s| - 1], last)
            && forall i :: 0 <= i < |s| - 1 ==> InRanges(s[i], inner)
  {
    var whole := Cat(Class(inner, 0, atMost), One(last));
    if s != "" {
      var n := |s| - 1;
      OneChar(last, s[n..]);
      assert FullMatch(Class(inner, 0, atMost), s[..n]) <==>
             (atMost.Some? ==> n <= atMost.value) && forall i :: 0 <= i < n ==> InRanges(s[..n][i], inner);
      assert forall i :: 0 <= i < n ==> s[..n][i] == s[i];
      if FullMatch(Class(inner, 0, atMost), s[..n]) && InRanges(s[n], last) {
        CatMatches(Class(inner, 0, atMost), One(last), s, n);
      }
    }
    if FullMatch(whole, s) {
      var i := CatCut(Class(inner, 0, atMost), One(last), s);
      OneChar(last, s[i..]);
      assert i == |s| - 1;
    }
  }

  // ---------------------------------------------------------------------------- labels

  lemma LabelIsPlain(s: string)
    ensures FullMatch(LABEL, s) <==> PlainLabel(s)
  {
    var tail := Cat(Class(LOWER_DIGITS + [('-', '-')], 0, Some(61)), One(LOWER_DIGITS));
    BehindOne(LOWER_DIGITS, Maybe(tail), s);
    if s != "" {
      var t := s[1..];
      BeforeOne(LOWER_DIGITS + [('-', '-')], Some(61), LOWER_DIGITS, t);
      LowerDigit(s[0]);
      LowerDigit(s[|s| - 1]);
      forall i | 0 <= i < |s|
        ensures InRanges(s[i], LOWER_DIGITS + [('-', '-')]) <==> LabelChar(s[i]) || s[i] == '-'
      {
        LowerDigit(s[i]);
      }
      assert forall i :: 0 <= i < |t| ==> t[i] == s[i + 1];
      assert FullMatch(Maybe(tail), t) <==> t == "" || FullMatch(tail, t);
    }
  }

  lemma ServiceIsPlain(s: string)
    ensures FullMatch(SERVICE, s) <==> ServiceLabel(s)
  {
    BehindChar('_', LABEL, s);
    if s != "" {
      LabelIsPlain(s[1..]);
    }
  }

  lemma {:induction false} OnePiece(s: string, sep: char)
    requires sep !in s
    ensures Split(s, sep) == [s]
  {
    if s != "" {
      OnePiece(s[1..], sep);
      assert [s[0]] + s[1..] == s;
    }
  }

  lemma {:induction false} PiecesAreFree(s: string, sep: char)
    ensures forall i :: 0 <= i < |Split(s, sep)| ==> sep !in Split(s, sep)[i]
  {
    if s != "" {
      PiecesAreFree(s[1..], sep);
      var rest := Split(s[1..], sep);
      forall i | 0 <= i < |Split(s, sep)|
        ensures sep !in Split(s, sep)[i]
      {
        if s[0] == sep {
          assert i > 0 ==> Split(s, sep)[i] == rest[i - 1];
        } else {
          assert i > 0 ==> Split(s, sep)[i] == rest[i];
        }
      }
    }
  }

  lemma PlainIsOneLabel(s: string)
    requires PlainLabel(s) || ServiceLabel(s)
    ensures Labels(s) == [s]
  {
    forall i | 0 <= i < |s|
      ensures s[i] != '.'
    {
      assert ServiceLabel(s) && i > 0 ==> s[i] == s[1..][i - 1];
    }
    OnePiece(s, '.');
  }

  /** The first label ends at the first dot. */
  lemma {:induction false} FirstDot(s: string) returns (n: nat)
    ensures n <= |s| && Labels(s)[0] == s[..n]
    ensures if n == |s| then Labels(s) == [s] else s[n] == '.' && Labels(s) == [s[..n]] + Labels(s[n + 1..])
  {
    if s == "" {
      n := 0;
    } else if s[0] == '.' {
      n := 0;
    } else {
      var k := FirstDot(s[1..]);
      n := k + 1;
      assert s[..n] == [s[0]] + s[1..][..k];
      if n < |s| {
        assert s[1..][k + 1..] == s[n + 1..];
      } else {
        assert s == [s[0]] + s[1..];
      }
    }
  }

  predicate AllPlain(labels: seq<string>) {
    forall i :: 0 <= i < |labels| ==> PlainLabel(labels[i])
  }

  lemma AllPlainCons(l: string, rest: seq<string>)
    ensures AllPlain([l] + rest) <==> PlainLabel(l) && AllPlain(rest)
  {
    var all := [l] + rest;
    assert all[0] == l && forall i :: 0 <= i < |rest| ==> all[i + 1] == rest[i];
    if AllPlain(all) {
      forall i | 0 <= i < |rest|
        ensures PlainLabel(rest[i])
      {
        assert PlainLabel(all[i + 1]);
      }
    }
  }

  lemma DotLabelMeaning(s: string)
    ensures FullMatch(DOT_LABEL, s) <==> s != "" && s[0] == '.' && PlainLabel(s[1..])
  {
    BehindChar('.', LABEL, s);
    if s != "" {
      LabelIsPlain(s[1..]);
    }
  }

  /** One or more dotted labels: behind the first dot all labels are plain. */
  lemma {:induction false} DottedLabels(s: string)
    ensures FullMatch(Plus(DOT_LABEL), s) <==> s != "" && s[0] == '.' && AllPlain(Labels(s[1..]))
    decreases |s|
  {
    DotLabelMeaning(s);
    if s != "" && s[0] == '.' && AllPlain(Labels(s[1..])) {
      DottedLabelsMatch(s);
    }
    if FullMatch(DOT_LABEL, s) {
      PlainIsOneLabel(s[1..]);
    } else if FullMatch(Plus(DOT_LABEL), s) {
      var i :| 0 < i < |s| && FullMatch(DOT_LABEL, s[..i]) && FullMatch(Plus(DOT_LABEL), s[i..]);
      DottedLabels(s[i..]);
      DotLabelThenLabels(s, i);
    }
  }

  lemma DotLabelThenLabels(s: string, i: nat)
    requires 0 < i < |s| && FullMatch(DOT_LABEL, s[..i]) && s[i] == '.' && AllPlain(Labels(s[i..][1..]))
    ensures s[0] == '.' && AllPlain(Labels(s[1..]))
  {
    DotLabelMeaning(s[..i]);
    var l, rest := s[1..i], s[i + 1..];
    assert s[..i][1..] == l && s[i..][1..] == rest;
    SplitAtSeparator(l, rest, '.');
    assert s[1..] == l + "." + rest;
    PlainIsOneLabel(l);
    AllPlainCons(l, Labels(rest));
  }

  lemma {:induction false} DottedLabelsMatch(s: string)
    requires s != "" && s[0] == '.' && AllPlain(Labels(s[1..]))
    ensures FullMatch(Plus(DOT_LABEL), s)
    decreases |s|
  {
    var t := s[1..];
    var n := FirstDot(t);
    DotLabelMeaning(s[..n + 1]);
    assert s[..n + 1][1..] == t[..n];
    if n == |t| {
      assert s[..n + 1] == s;
      assert PlainLabel([t][0]);
    } else {
      AllPlainCons(t[..n], Labels(t[n + 1..]));
      assert s[n + 1..][1..] == t[n + 1..];
      DottedLabelsMatch(s[n + 1..]);
      assert FullMatch(DOT_LABEL, s[..n + 1]) && FullMatch(Plus(DOT_LABEL), s[n + 1..]);
    }
  }

  /** Where a one-label pattern can end: before the first dot. */
  lemma CutAtFirstDot(s: string, n: nat, i: nat)
    requires n < |s| && Labels(s)[0] == s[..n] && i < |s| && s[i] == '.' && Labels(s[..i]) == [s[..i]]
    ensures i == n
  {
    assert s == s[..i] + "." + s[i + 1..];
    SplitAtSeparator(s[..i], s[i + 1..], '.');
    assert s[..i] == s[..n];
  }

  /** A label pattern in front of a dotted rest. */
  lemma LabelThenRest(s: string, l: Re, n: nat, rest: Re)
    requires n < |s| && Labels(s)[0] == s[..n] && s[n] == '.'
    requires forall x :: FullMatch(l, x) ==> Labels(x) == [x]
    requires forall x :: FullMatch(rest, x) ==> x != "" && x[0] == '.'
    ensures FullMatch(Cat(l, rest), s) <==> FullMatch(l, s[..n]) && FullMatch(rest, s[n..])
  {
    if FullMatch(l, s[..n]) && FullMatch(rest, s[n..]) {
      CatMatches(l, rest, s, n);
    }
    if FullMatch(Cat(l, rest), s) {
      var i := CatCut(l, rest, s);
      assert s[i..] != "" && s[i..][0] == s[i];
      CutAtFirstDot(s, n, i);
    }
  }

  lemma NoDotNoRest(s: string, l: Re, rest: Re)
    requires Labels(s) == [s]
    requires forall x :: FullMatch(rest, x) ==> x != "" && x[0] == '.'
    ensures !FullMatch(Cat(l, rest), s)
  {
    if FullMatch(Cat(l, rest), s) {
      var i := CatCut(l, rest, s);
      assert s == s[..i] + "." + s[i + 1..] by {
        assert s[i..][0] == s[i];
      }
      SplitAtSeparator(s[..i], s[i + 1..], '.');
    }
  }

  /** LIVE_DNS_QNAME_RE, read label by label. */
  lemma QnameIsLabels(s: string)
    ensures FullMatch(QNAME, s) <==> LiveNameRe(s)
  {
    forall x ensures FullMatch(LABEL, x) ==> Labels(x) == [x] {
      LabelIsPlain(x);
      if PlainLabel(x) {
        PlainIsOneLabel(x);
      }
    }
    forall x ensures FullMatch(Plus(DOT_LABEL), x) ==> x != "" && x[0] == '.' {
      DottedLabels(x);
    }
    var n := FirstDot(s);
    if n == |s| {
      NoDotNoRest(s, LABEL, Plus(DOT_LABEL));
    } else {
      LabelThenRest(s, LABEL, n, Plus(DOT_LABEL));
      LabelIsPlain(s[..n]);
      DottedLabels(s[n..]);
      assert s[n..][1..] == s[n + 1..];
      AllPlainCons(s[..n], Labels(s[n + 1..]));
      assert |Labels(s[n + 1..])| >= 1;
    }
  }

  /** What follows a service label: a dot and something the rest matches. */
  lemma DotThen(rest: Re, s: string)
    ensures FullMatch(Cat(DOT, rest), s) <==> s != "" && s[0] == '.' && FullMatch(rest, s[1..])
  {
    BehindChar('.', rest, s);
  }

  lemma ServiceThenRest(s: string, rest: Re)
    ensures FullMatch(Cat(SERVICE, Cat(DOT, rest)), s) <==>
            && |Labels(s)| >= 2 && ServiceLabel(Labels(s)[0])
            && |Labels(s)[0]| < |s| && FullMatch(rest, s[|Labels(s)[0]| + 1..])
    ensures |Labels(s)| >= 2 ==> |Labels(s)[0]| < |s| && Labels(s[|Labels(s)[0]| + 1..]) == Labels(s)[1..]
  {
    forall x ensures FullMatch(SERVICE, x) ==> Labels(x) == [x] {
      ServiceIsPlain(x);
      if ServiceLabel(x) {
        PlainIsOneLabel(x);
      }
    }
    forall x ensures FullMatch(Cat(DOT, rest), x) ==> x != "" && x[0] == '.' {
      DotThen(rest, x);
    }
    var n := FirstDot(s);
    if n == |s| {
      NoDotNoRest(s, SERVICE, Cat(DOT, rest));
    } else {
      LabelThenRest(s, SERVICE, n, Cat(DOT, rest));
      ServiceIsPlain(s[..n]);
      DotThen(rest, s[n..]);
      assert s[n..][1..] == s[n + 1..];
      assert ([s[..n]] + Labels(s[n + 1..]))[1..] == Labels(s[n + 1..]);
      assert |Labels(s[n + 1..])| >= 1;
    }
  }

  /** LIVE_DNS_SRV_QNAME_RE, read label by label. */
  lemma SrvQnameIsLabels(s: string)
    ensures FullMatch(SRV_QNAME, s) <==> LiveSrvNameRe(s)
  {
    ServiceThenRest(s, Cat(SERVICE, Cat(DOT, QNAME)));
    var labels := Labels(s);
    if |labels| >= 2 {
      var t := s[|labels[0]| + 1..];
      ServiceThenRest(t, QNAME);
      assert Labels(t) == labels[1..];
      if |labels| >= 3 {
        var u := t[|Labels(t)[0]| + 1..];
        QnameIsLabels(u);
        assert Labels(u) == labels[1..][1..] == labels[2..];
        assert forall i :: 2 <= i < |labels| ==> labels[i] == labels[2..][i - 2];
      }
    }
  }

  /** SOURCE_NAME_RE */
  lemma SourceNameIsPattern(s: string)
    ensures FullMatch(SOURCE_NAME, s) <==> SourceNameRe(s)
  {
    var inner := LETTERS_DIGITS + [('_', '_'), ('.', '.'), ('-', '-')];
    var tail := Cat(Class(inner, 0, None), One(LETTERS_DIGITS));
    BehindOne(LETTERS_DIGITS, Maybe(tail), s);
    if s != "" {
      var t := s[1..];
      BeforeOne(inner, None, LETTERS_DIGITS, t);
      forall i | 0 <= i < |s|
        ensures InRanges(s[i], LETTERS_DIGITS) <==> Alnum(s[i])
        ensures InRanges(s[i], inner) <==> Alnum(s[i]) || s[i] in "_.-"
      {
        SourceChar(s[i]);
      }
      assert forall i :: 0 <= i < |t| ==> t[i] == s[i + 1];
      assert FullMatch(Maybe(tail), t) <==> t == "" || FullMatch(tail, t);
      assert (forall c :: c in s ==> Alnum(c) || c in "_.-") <==> forall i :: 0 <= i < |s| ==> Alnum(s[i]) || s[i] in "_.-";
    }
  }

  lemma FourDigits(s: string)
    ensures FullMatch(Class([('0', '9')], 1, Some(4)), s) <==> 1 <= |s| <= 4 && IsDigits(s)
  {
    assert [('0', '9')][0] == ('0', '9');
    assert forall c :: InRanges(c, [('0', '9')]) <==> '0' <= c <= '9';
  }

  /** NUMBERED_DISPVM_RE, and so the names every cleanup is about. */
  lemma NumberedIsPattern(s: string)
    ensures FullMatch(NUMBERED, s) <==> Numbered(s)
  {
    var four := Class([('0', '9')], 1, Some(4));
    var p := Cat(One([('p', 'p')]), four);
    var sp := Cat(One([('s', 's')]), p);
    var isp := Cat(One([('i', 'i')]), sp);
    BehindChar('d', isp, s);
    if |s| >= 4 {
      BehindChar('i', sp, s[1..]);
      BehindChar('s', p, s[1..][1..]);
      BehindChar('p', four, s[1..][1..][1..]);
      assert s[1..][1..][1..][1..] == s[4..];
      assert s[..4] == "disp" <==> s[0] == 'd' && s[1] == 'i' && s[2] == 's' && s[3] == 'p';
      FourDigits(s[4..]);
    } else if |s| >= 1 {
      BehindChar('i', sp, s[1..]);
      if |s| >= 2 {
        BehindChar('s', p, s[1..][1..]);
        if |s| >= 3 {
          BehindChar('p', four, s[1..][1..][1..]);
        }
      }
    }
  }

  // ------------------------------------------------------------ names the filter takes

  /** The name is ip6.arpa or under it. */
  ghost predicate UnderIp6Arpa(labels: seq<string>) {
    |labels| >= 2 && labels[|labels| - 2] == "ip6" && labels[|labels| - 1] == "arpa"
  }

  lemma Ip6ArpaLabels()
    ensures Labels("ip6.arpa") == ["ip6", "arpa"]
  {
    OnePiece("ip6", '.');
    OnePiece("arpa", '.');
    SplitAtSeparator("ip6", "arpa", '.');
    assert "ip6" + "." + "arpa" == "ip6.arpa";
  }

  lemma Ipv6ReverseMeaning(name: string)
    ensures Ipv6Reverse(name) <==> UnderIp6Arpa(Labels(name))
  {
    Ip6ArpaLabels();
    var labels := Labels(name);
    assert "." + "ip6.arpa" == ".ip6.arpa";
    if EndsWith(name, ".ip6.arpa") {
      EndsWithLabels(name, "ip6.arpa");
      assert labels[|labels| - 2..] == ["ip6", "arpa"];
    }
    if UnderIp6Arpa(labels) {
      assert labels[|labels| - 2..] == ["ip6", "arpa"];
      if |labels| > 2 {
        LabelsEndWith(name, "ip6.arpa");
      } else {
        assert labels == ["ip6", "arpa"];
        JoinSplit(name, '.');
        JoinSplit("ip6.arpa", '.');
      }
    }
  }

  /** An internationalised label. */
  ghost predicate Punycode(text: string) {
    exists rest :: text == "xn--" + rest
  }

  lemma PunycodeMeaning(text: string)
    ensures Punycode(text) <==> StartsWith(text, "xn--")
  {
    if StartsWith(text, "xn--") {
      assert text == "xn--" + text[4..];
    }
    if Punycode(text) {
      var rest :| text == "xn--" + rest;
      assert text[..4] == "xn--";
    }
  }

  ghost predicate TakenName(name: string, pattern: Re) {
    && FullMatch(pattern, name) && |name| <= 253 && !UnderIp6Arpa(Labels(name))
    && forall i :: 0 <= i < |Labels(name)| ==> !Punycode(Labels(name)[i])
  }

  lemma LabelLengths(labels: seq<string>)
    requires forall i :: 0 <= i < |labels| ==> PlainLabel(labels[i]) || (ServiceLabel(labels[i]) && |labels[i]| <= 63)
    ensures BadLabels(labels) <==> exists i :: 0 <= i < |labels| && Punycode(labels[i])
  {
    forall i | 0 <= i < |labels|
      ensures Punycode(labels[i]) <==> StartsWith(labels[i], "xn--")
    {
      PunycodeMeaning(labels[i]);
    }
  }

  /** The names the live filter takes for types other than SRV. */
  lemma LiveNameMeaning(qname: string, qtype: string)
    requires qtype != "SRV"
    ensures LiveNameSupported(qname, qtype) <==> TakenName(qname, QNAME)
  {
    QnameIsLabels(qname);
    Ipv6ReverseMeaning(qname);
    if LiveNameRe(qname) {
      LabelLengths(Labels(qname));
    }
  }

  /** And for SRV, where a service label counts its underscore. */
  lemma LiveSrvNameMeaning(qname: string)
    ensures LiveNameSupported(qname, "SRV") <==>
            TakenName(qname, SRV_QNAME) && |Labels(qname)[0]| <= 63 && (|Labels(qname)| > 1 ==> |Labels(qname)[1]| <= 63)
  {
    SrvQnameIsLabels(qname);
    Ipv6ReverseMeaning(qname);
    if LiveSrvNameRe(qname) {
      var labels := Labels(qname);
      if |labels[0]| <= 63 && |labels[1]| <= 63 {
        forall i | 0 <= i < |labels|
          ensures PlainLabel(labels[i]) || (ServiceLabel(labels[i]) && |labels[i]| <= 63)
        {
        }
        LabelLengths(labels);
      }
    }
  }

  /** A type text the validator takes: the table's name for it is supported, and it is neither the generic
      TYPE notation nor a number. */
  ghost predicate TakenType(text: string, types: TypeTable) {
    && (forall rest :: text != "TYPE" + rest) && !FullMatch(Plus(One([('0', '9')])), text)
    && text in types && types[text] in SUPPORTED_QTYPES
  }

  lemma {:induction false} DigitsPattern(s: string)
    ensures FullMatch(Plus(One([('0', '9')])), s) <==> IsDigits(s)
    decreases |s|
  {
    var digit := One([('0', '9')]);
    assert [('0', '9')][0] == ('0', '9');
    assert forall c :: InRanges(c, [('0', '9')]) <==> '0' <= c <= '9';
    OneChar([('0', '9')], s);
    forall i | 0 < i < |s|
      ensures FullMatch(digit, s[..i]) <==> i == 1 && '0' <= s[0] <= '9'
    {
      OneChar([('0', '9')], s[..i]);
    }
    if |s| > 1 {
      DigitsPattern(s[1..]);
      assert forall i :: 1 <= i < |s| ==> s[i] == s[1..][i - 1];
      if IsDigits(s) {
        assert FullMatch(digit, s[..1]) && FullMatch(Plus(digit), s[1..]);
      }
    }
  }

  lemma TakenTypeMeaning(qtype: string, types: TypeTable)
    ensures QtypeAccepted(qtype, types) <==> TakenType(Upper(qtype), types)
  {
    var text := Upper(qtype);
    DigitsPattern(text);
    if StartsWith(text, "TYPE") {
      assert text == "TYPE" + text[4..];
    }
    forall rest | text == "TYPE" + rest
      ensures StartsWith(text, "TYPE")
    {
      assert text[..4] == "TYPE";
    }
  }

  /** Hand-written wildcard rules: "*." and a name the live filter takes for an address, within the length
      limit, with a supported type; SRV makes no difference. */
  lemma WildcardRuleIsTaken(rule: DnsQuestion, types: TypeTable, base: string)
    requires NormalizeName(rule.qname) == "*." + base
    ensures ValidateDnsRule(rule, types).Some? <==>
            TakenName(base, QNAME) && |base| <= 251 && TakenType(Upper(rule.qtype), types)
  {
    var qname := "*." + base;
    assert qname[..2] == "*." && qname[2..] == base;
    TakenTypeMeaning(rule.qtype, types);
    LiveNameMeaning(base, "A");
    assert Ipv6Reverse(qname) <==> Ipv6Reverse(base) by {
      Ipv6ReverseMeaning(qname);
      Ipv6ReverseMeaning(base);
      OnePiece("*", '.');
      SplitAtSeparator("*", base, '.');
      assert "*" + "." + base == qname;
    }
  }
}
