/** From dom0's rows to the source maps (qubes_snitch/config.py:38-51,180-245). */
module Sources {
  import opened Wrappers
  import opened DnsNames
  import opened Policy
  import opened Nft
  import opened Runtime

  datatype SourceError =
    | NonAsciiText | NotFiveFields | BadName | ReservedName | UnsupportedClass
    | MissingTemplate | BadAddress | DuplicateIp | ConflictingLabels

  /** by_name, by_ip, labels and display_by_ip. */
  datatype SourceTables = SourceTables(names: SourceMap, byIp: map<string, Name>, labels: map<Name, string>, display: map<string, string>)

  const NO_SOURCES := SourceTables([], map[], map[], map[])

  const DISPVM_POLICY_PREFIX := "dispvm-"
  const DEFAULT_DVM_TEMPLATE := "default-dvm"

  // ---------------------------------------------------------------------- names

  predicate Alnum(c: char) {
    'A' <= c <= 'Z' || 'a' <= c <= 'z' || '0' <= c <= '9'
  }

  /** SOURCE_NAME_RE */
  predicate SourceNameRe(s: string) {
    && s != "" && Alnum(s[0]) && Alnum(s[|s| - 1])
    && forall c :: c in s ==> Alnum(c) || c in "_.-"
  }

  predicate Contains(s: string, part: string) {
    exists i :: 0 <= i <= |s| && StartsWith(s[i..], part)
  }

  /** validate_source_name */
  function CheckSourceName(name: string): Option<SourceError> {
    if !SourceNameRe(name) then Some(BadName)
    else if name == "unknown" || StartsWith(name, DISPVM_POLICY_PREFIX) then Some(ReservedName)
    else None
  }

  /** validate_qubes_vm_name */
  function CheckVmName(name: string, vmClass: string): Option<SourceError> {
    if Contains(name, "unknown") then Some(ReservedName)
    else if Contains(name, "disp") && vmClass != "DispVM" then Some(ReservedName)
    else None
  }

  function FirstError(a: Option<SourceError>, b: Option<SourceError>): Option<SourceError> {
    if a.Some? then a else b
  }

  predicate DefaultTemplate(template: string, default: string) {
    template == default || template == DEFAULT_DVM_TEMPLATE
  }

  /** dispvm_policy_source: no source for a default disposable that has no number. */
  function PolicySource(name: string, vmClass: string, template: string, default: string): Result<Option<Name>, SourceError> {
    if vmClass != "DispVM" then Ok(Some(name))
    else
      match FirstError(CheckSourceName(template), CheckVmName(template, "TemplateVM"))
      case Some(e) => Err(e)
      case None =>
        if !DefaultTemplate(template, default) then Ok(Some(DISPVM_POLICY_PREFIX + template))
        else if Numbered(name) then Ok(Some(name))
        else Ok(None)
  }

  // ------------------------------------------------------------------ addresses

  function Digit(c: char): (d: nat)
    requires '0' <= c <= '9'
    ensures d <= 9
  {
    c as int - '0' as int
  }

  /** One decimal octet: at most three digits, no leading zero. */
  function Octet(s: string): Option<nat> {
    if !IsDigits(s) || |s| > 3 || (|s| > 1 && s[0] == '0') then None
    else
      var value := if |s| == 1 then Digit(s[0])
                   else if |s| == 2 then 10 * Digit(s[0]) + Digit(s[1])
                   else 100 * Digit(s[0]) + 10 * Digit(s[1]) + Digit(s[2]);
      if value > 255 then None else Some(value)
  }

  /** ipaddress.ip_address, where it yields an IPv4 address. */
  function ParseIp4(s: string): Option<Addr> {
    var parts := Split(s, '.');
    if |parts| != 4 then None
    else
      var a, b, c, d := Octet(parts[0]), Octet(parts[1]), Octet(parts[2]), Octet(parts[3]);
      if a.None? || b.None? || c.None? || d.None? then None
      else Some(((a.value * 256 + b.value) * 256 + c.value) * 256 + d.value)
  }

  /** Without leading zeros the value tells the number of digits. */
  lemma OctetLength(s: string)
    requires Octet(s).Some?
    ensures |s| == if Octet(s).value < 10 then 1 else if Octet(s).value < 100 then 2 else 3
  {
    assert s[0] != '0' ==> Digit(s[0]) >= 1;
  }

  lemma OctetIsCanonical(s: string, t: string)
    requires Octet(s).Some? && Octet(s) == Octet(t)
    ensures s == t
  {
    OctetLength(s);
    OctetLength(t);
    assert Digit(s[0]) == Digit(t[0]);
    assert |s| > 1 ==> Digit(s[1]) == Digit(t[1]);
    assert |s| > 2 ==> Digit(s[2]) == Digit(t[2]);
  }

  lemma Base256(a: nat, b: nat, x: nat, y: nat)
    requires b < 256 && y < 256 && a * 256 + b == x * 256 + y
    ensures a == x && b == y
  {
  }

  /** An IPv4 address has one text, so keying by text is keying by address. */
  lemma Ip4TextIsCanonical(s: string, t: string)
    requires ParseIp4(s).Some? && ParseIp4(s) == ParseIp4(t)
    ensures s == t
  {
    var p, q := Split(s, '.'), Split(t, '.');
    var a, b, c, d := Octet(p[0]).value, Octet(p[1]).value, Octet(p[2]).value, Octet(p[3]).value;
    var e, f, g, h := Octet(q[0]).value, Octet(q[1]).value, Octet(q[2]).value, Octet(q[3]).value;
    Base256((a * 256 + b) * 256 + c, d, (e * 256 + f) * 256 + g, h);
    Base256(a * 256 + b, c, e * 256 + f, g);
    Base256(a, b, e, f);
    OctetIsCanonical(p[0], q[0]);
    OctetIsCanonical(p[1], q[1]);
    OctetIsCanonical(p[2], q[2]);
    OctetIsCanonical(p[3], q[3]);
    assert p == q;
    JoinSplit(s, '.');
    JoinSplit(t, '.');
  }

  // ----------------------------------------------------------------------- rows

  predicate Blank(line: string) {
    forall c :: c in line ==> c in " \t\U{1F}"
  }

  /** by_name.setdefault(name, []).append(ip) */
  function WithIp(sources: SourceMap, name: Name, ip: Addr): SourceMap {
    if sources == [] then [SourceEntry(name, [ip])]
    else if sources[0].name == name then [SourceEntry(name, sources[0].ips + [ip])] + sources[1..]
    else [sources[0]] + WithIp(sources[1..], name, ip)
  }

  /** name|ip|label|class|template; color is the Qubes label. */
  datatype Row = Row(name: string, ip: string, color: string, vmClass: string, template: string) {
    predicate Skipped() {
      ip == "" || ip == "-"
    }

    function Problem(): Option<SourceError> {
      var names := FirstError(CheckSourceName(name), CheckVmName(name, vmClass));
      if names.Some? then names
      else if vmClass !in {"AppVM", "TemplateVM", "StandaloneVM", "DispVM"} then Some(UnsupportedClass)
      else if vmClass == "DispVM" && (template == "" || template == "-") then Some(MissingTemplate)
      else None
    }

    /** The policy source the row is filed under. */
    function Source(default: string): Result<Option<Name>, SourceError> {
      match Problem()
      case Some(e) => Err(e)
      case None => PolicySource(name, vmClass, template, default)
    }

    function Display(): string {
      if vmClass != "DispVM" then name else name + "(" + template + ")"
    }
  }

  /** Filing one address under its source. */
  function File(t: SourceTables, row: Row, source: Name): Result<SourceTables, SourceError> {
    var address := ParseIp4(row.ip);
    if address.None? then Err(BadAddress)
    else if row.ip in t.byIp then Err(DuplicateIp)
    else if source in t.labels && t.labels[source] != row.color then Err(ConflictingLabels)
    else Ok(SourceTables(WithIp(t.names, source, address.value), t.byIp[row.ip := source],
                         t.labels[source := row.color], t.display[row.ip := row.Display()]))
  }

  function AddRow(t: SourceTables, row: Row, default: string): Result<SourceTables, SourceError> {
    if row.Skipped() then Ok(t)
    else
      match row.Source(default)
      case Err(e) => Err(e)
      case Ok(None) => Ok(t)
      case Ok(Some(source)) => File(t, row, source)
  }

  function ReadRow(line: string): Option<Row> {
    var parts := Split(line, '|');
    if |parts| == 5 then Some(Row(parts[0], parts[1], parts[2], parts[3], parts[4])) else None
  }

  function AddLine(t: SourceTables, line: string, default: string): Result<SourceTables, SourceError> {
    if Blank(line) then Ok(t)
    else
      match ReadRow(line)
      case None => Err(NotFiveFields)
      case Some(row) => AddRow(t, row, default)
  }

  function ReadLines(lines: seq<string>, default: string): Result<SourceTables, SourceError> {
    if lines == [] then Ok(NO_SOURCES)
    else
      match ReadLines(lines[..|lines| - 1], default)
      case Err(e) => Err(e)
      case Ok(t) => AddLine(t, lines[|lines| - 1], default)
  }

  predicate Ascii(line: string) {
    forall c :: c in line ==> c <= '\U{7F}'
  }

  /** parse_sources_output on the text's lines. */
  function Read(lines: seq<string>, default: string): Result<SourceTables, SourceError> {
    if exists l :: l in lines && !Ascii(l) then Err(NonAsciiText) else ReadLines(lines, default)
  }

  lemma {:induction false} ErrorStops(lines: seq<string>, n: nat, default: string)
    requires n <= |lines| && ReadLines(lines[..n], default).Err?
    ensures ReadLines(lines, default) == ReadLines(lines[..n], default)
  {
    if n == |lines| {
      assert lines[..n] == lines;
    } else {
      var init := lines[..|lines| - 1];
      assert init[..n] == lines[..n];
      ErrorStops(init, n, default);
    }
  }

  method ParseSourcesOutput(lines: seq<string>, default: string) returns (r: Result<SourceTables, SourceError>)
    ensures r == Read(lines, default)
  {
    if exists l :: l in lines && !Ascii(l) {
      return Err(NonAsciiText);
    }
    var t := NO_SOURCES;
    for i := 0 to |lines|
      invariant ReadLines(lines[..i], default) == Ok(t)
    {
      assert lines[..i + 1][..i] == lines[..i];
      var next := AddLine(t, lines[i], default);
      if next.Err? {
        ErrorStops(lines, i + 1, default);
        return next;
      }
      t := next.value;
    }
    assert lines[..|lines|] == lines;
    return Ok(t);
  }

  // ----------------------------------------------------------------- consistency

  /** No address is listed twice, under one name or two. */
  ghost predicate UniqueIps(sources: SourceMap) {
    forall i, p, j, q :: 0 <= i < |sources| && 0 <= p < |sources[i].ips| && 0 <= j < |sources| && 0 <= q < |sources[j].ips| ==>
                           sources[i].ips[p] == sources[j].ips[q] ==> i == j && p == q
  }

  ghost predicate NamesMatch(t: SourceTables) {
    && DistinctNames(t.names) && UniqueIps(t.names)
    && t.display.Keys == t.byIp.Keys && t.labels.Keys == SourceNames(t.names)
  }

  ghost predicate TextsAreOwned(t: SourceTables) {
    forall ip :: ip in t.byIp ==> ParseIp4(ip).Some? && Owner(t.names, ParseIp4(ip).value) == Some(t.byIp[ip])
  }

  ghost predicate OwnersHaveTexts(t: SourceTables) {
    forall a: Addr :: Owner(t.names, a).Some? ==> exists ip :: ip in t.byIp && ParseIp4(ip) == Some(a)
  }

  /** by_name and by_ip are inverse: an address is listed under a name if and only if its text is
      mapped to that name, and it is listed once. */
  ghost predicate Consistent(t: SourceTables) {
    NamesMatch(t) && TextsAreOwned(t) && OwnersHaveTexts(t)
  }

  lemma {:induction false} WithIpLaws(sources: SourceMap, name: Name, ip: Addr)
    requires DistinctNames(sources)
    ensures DistinctNames(WithIp(sources, name, ip))
    ensures SourceNames(WithIp(sources, name, ip)) == SourceNames(sources) + {name}
    ensures Owner(sources, ip).None? ==> forall a :: Owner(WithIp(sources, name, ip), a) == if a == ip then Some(name) else Owner(sources, a)
  {
    var next := WithIp(sources, name, ip);
    if sources != [] && sources[0].name != name {
      var rest := sources[1..];
      WithIpLaws(rest, name, ip);
      NamesOfCons(sources);
      NamesOfCons(next);
      assert sources[0].name !in SourceNames(rest) by {
        NotListedLater(sources);
      }
      DistinctCons(sources[0], WithIp(rest, name, ip));
    } else if sources != [] {
      NamesOfCons(sources);
      NamesOfCons(next);
      assert next[1..] == sources[1..];
    } else {
      NamesOfCons(next);
    }
  }

  lemma NamesOfCons(sources: SourceMap)
    requires sources != []
    ensures SourceNames(sources) == {sources[0].name} + SourceNames(sources[1..])
  {
  }

  lemma NotListedLater(sources: SourceMap)
    requires DistinctNames(sources) && sources != []
    ensures sources[0].name !in SourceNames(sources[1..])
  {
  }

  lemma DistinctCons(head: SourceEntry, rest: SourceMap)
    requires DistinctNames(rest) && head.name !in SourceNames(rest)
    ensures DistinctNames([head] + rest)
  {
  }

  lemma {:induction false} WithIpAt(sources: SourceMap, name: Name, ip: Addr) returns (k: nat)
    ensures k <= |sources| && (k < |sources| ==> sources[k].name == name)
    ensures WithIp(sources, name, ip) ==
            if k < |sources| then sources[k := SourceEntry(name, sources[k].ips + [ip])] else sources + [SourceEntry(name, [ip])]
  {
    if sources == [] || sources[0].name == name {
      k := 0;
    } else {
      k := WithIpAt(sources[1..], name, ip);
      k := k + 1;
    }
  }

  lemma {:induction false} UnownedIsUnlisted(sources: SourceMap, ip: Addr)
    requires Owner(sources, ip).None?
    ensures forall i :: 0 <= i < |sources| ==> ip !in sources[i].ips
  {
    if sources != [] {
      UnownedIsUnlisted(sources[1..], ip);
      assert forall i :: 1 <= i < |sources| ==> sources[i] == sources[1..][i - 1];
    }
  }

  /** Every address of the new map is an old one in its old place, or the new one. */
  lemma WithIpSlot(sources: SourceMap, name: Name, ip: Addr, k: nat, i: nat, p: nat)
    requires k <= |sources|
    requires WithIp(sources, name, ip) ==
             if k < |sources| then sources[k := SourceEntry(name, sources[k].ips + [ip])] else sources + [SourceEntry(name, [ip])]
    requires i < |WithIp(sources, name, ip)| && p < |WithIp(sources, name, ip)[i].ips|
    ensures var a := WithIp(sources, name, ip)[i].ips[p];
            || (i < |sources| && p < |sources[i].ips| && a == sources[i].ips[p])
            || (i == k && p == (if k < |sources| then |sources[k].ips| else 0) && a == ip)
  {
  }

  lemma WithIpIsUnique(sources: SourceMap, name: Name, ip: Addr)
    requires UniqueIps(sources) && Owner(sources, ip).None?
    ensures UniqueIps(WithIp(sources, name, ip))
  {
    UnownedIsUnlisted(sources, ip);
    var after := WithIp(sources, name, ip);
    var k := WithIpAt(sources, name, ip);
    forall i, p, j, q | 0 <= i < |after| && 0 <= p < |after[i].ips| && 0 <= j < |after| && 0 <= q < |after[j].ips|
                        && after[i].ips[p] == after[j].ips[q]
      ensures i == j && p == q
    {
      WithIpSlot(sources, name, ip, k, i, p);
      WithIpSlot(sources, name, ip, k, j, q);
    }
  }

  /** A text that is not in by_ip denotes an address nobody owns. */
  lemma NewTextIsUnowned(t: SourceTables, ip: string)
    requires Consistent(t) && ParseIp4(ip).Some? && ip !in t.byIp
    ensures Owner(t.names, ParseIp4(ip).value).None?
  {
    var a := ParseIp4(ip).value;
    if Owner(t.names, a).Some? {
      var other :| other in t.byIp && ParseIp4(other) == Some(a);
      Ip4TextIsCanonical(ip, other);
      assert false;
    }
  }

  lemma FileKeepsTexts(t: SourceTables, row: Row, source: Name)
    requires Consistent(t) && File(t, row, source).Ok?
    ensures TextsAreOwned(File(t, row, source).value)
  {
    var u, a := File(t, row, source).value, ParseIp4(row.ip).value;
    NewTextIsUnowned(t, row.ip);
    WithIpLaws(t.names, source, a);
    forall ip | ip in u.byIp
      ensures ParseIp4(ip).Some? && Owner(u.names, ParseIp4(ip).value) == Some(u.byIp[ip])
    {
      if ip != row.ip && ParseIp4(ip) == Some(a) {
        Ip4TextIsCanonical(ip, row.ip);
      }
    }
  }

  lemma FileKeepsOwners(t: SourceTables, row: Row, source: Name)
    requires Consistent(t) && File(t, row, source).Ok?
    ensures OwnersHaveTexts(File(t, row, source).value)
  {
    var u, a := File(t, row, source).value, ParseIp4(row.ip).value;
    NewTextIsUnowned(t, row.ip);
    WithIpLaws(t.names, source, a);
    forall b: Addr | Owner(u.names, b).Some? ensures exists ip :: ip in u.byIp && ParseIp4(ip) == Some(b) {
      if b == a {
        assert row.ip in u.byIp;
      } else {
        var ip :| ip in t.byIp && ParseIp4(ip) == Some(b);
        assert ip in u.byIp;
      }
    }
  }

  lemma FileKeepsNames(t: SourceTables, row: Row, source: Name)
    requires Consistent(t) && File(t, row, source).Ok?
    ensures NamesMatch(File(t, row, source).value)
  {
    NewTextIsUnowned(t, row.ip);
    WithIpLaws(t.names, source, ParseIp4(row.ip).value);
    WithIpIsUnique(t.names, source, ParseIp4(row.ip).value);
  }

  lemma FileKeepsConsistent(t: SourceTables, row: Row, source: Name)
    requires Consistent(t) && File(t, row, source).Ok?
    ensures Consistent(File(t, row, source).value)
  {
    FileKeepsNames(t, row, source);
    FileKeepsTexts(t, row, source);
    FileKeepsOwners(t, row, source);
  }

  lemma {:induction false} LinesAreConsistent(lines: seq<string>, default: string)
    requires ReadLines(lines, default).Ok?
    ensures Consistent(ReadLines(lines, default).value)
  {
    if lines != [] {
      var before, line := lines[..|lines| - 1], lines[|lines| - 1];
      LinesAreConsistent(before, default);
      var t := ReadLines(before, default).value;
      if !Blank(line) {
        var row := ReadRow(line).value;
        if !row.Skipped() && row.Source(default).value.Some? {
          FileKeepsConsistent(t, row, row.Source(default).value.value);
        }
      }
    }
  }

  /** Whatever dom0 sends: the source maps are inverse, and form the kind of map that refreshes,
      rendering and the packet path rely on. */
  lemma AcceptedMapsAreInverse(lines: seq<string>, default: string)
    requires Read(lines, default).Ok?
    ensures Consistent(Read(lines, default).value)
    ensures OneOwner(Read(lines, default).value.names)
  {
    LinesAreConsistent(lines, default);
  }

  /** The line is a row that files this address text under this source. */
  predicate Files(line: string, default: string, ip: string, source: Name) {
    !Blank(line) && ReadRow(line).Some?
    && var row := ReadRow(line).value; !row.Skipped() && row.ip == ip && row.Source(default) == Ok(Some(source))
  }

  lemma LineFiles(t: SourceTables, line: string, default: string, ip: string, source: Name)
    requires AddLine(t, line, default).Ok?
    ensures var byIp := AddLine(t, line, default).value.byIp;
            ip in byIp && byIp[ip] == source <==> (ip in t.byIp && t.byIp[ip] == source) || Files(line, default, ip, source)
  {
  }

  /** by_ip holds exactly what the rows say: none dropped, none overwritten. */
  lemma {:induction false} MapsAreExactlyTheRows(lines: seq<string>, default: string, ip: string, source: Name)
    requires ReadLines(lines, default).Ok?
    ensures var byIp := ReadLines(lines, default).value.byIp;
            ip in byIp && byIp[ip] == source <==> exists i :: 0 <= i < |lines| && Files(lines[i], default, ip, source)
  {
    if lines != [] {
      var before, line := lines[..|lines| - 1], lines[|lines| - 1];
      MapsAreExactlyTheRows(before, default, ip, source);
      LineFiles(ReadLines(before, default).value, line, default, ip, source);
      assert forall i :: 0 <= i < |before| ==> before[i] == lines[i];
    }
  }

  // ------------------------------------------------------------------- isolation

  lemma PrefixedNames(name: string, template: string)
    ensures StartsWith(DISPVM_POLICY_PREFIX + template, DISPVM_POLICY_PREFIX)
    ensures !Numbered(DISPVM_POLICY_PREFIX + template)
  {
    var s := DISPVM_POLICY_PREFIX + template;
    assert s[4..][0] == 'v';
  }

  lemma DispInName(name: string)
    requires StartsWith(name, "disp")
    ensures Contains(name, "disp")
  {
    assert name[0..] == name;
  }

  predicate SharesTemplate(a: Row, b: Row, default: string) {
    a.vmClass == b.vmClass == "DispVM" && a.template == b.template && !DefaultTemplate(a.template, default)
  }

  /** Two VMs share a policy source if and only if both are disposables of one template that is
      not the default one; a default disposable never inherits another VM's policy. */
  lemma PolicyIsPerVm(a: Row, b: Row, default: string)
    requires a.name != b.name
    requires a.Source(default).Ok? && a.Source(default).value.Some? && b.Source(default).Ok? && b.Source(default).value.Some?
    ensures a.Source(default) == b.Source(default) <==> SharesTemplate(a, b, default)
  {
    PrefixedNames(a.name, a.template);
    PrefixedNames(b.name, b.template);
    if a.Source(default) == b.Source(default) && a.Source(default).value.value != a.name {
      assert a.template == (DISPVM_POLICY_PREFIX + a.template)[|DISPVM_POLICY_PREFIX|..];
      assert b.template == (DISPVM_POLICY_PREFIX + b.template)[|DISPVM_POLICY_PREFIX|..];
    }
  }

  /** A numbered policy source, whose rules are temporary, is always a live default disposable
      of that very name. */
  lemma NumberedSourceIsDefaultDisposable(row: Row, default: string, name: Name)
    requires row.Source(default) == Ok(Some(name))
    ensures Numbered(name) <==> row.vmClass == "DispVM" && DefaultTemplate(row.template, default)
    ensures Numbered(name) ==> row.name == name
  {
    PrefixedNames(row.name, row.template);
    if Numbered(name) && row.vmClass != "DispVM" {
      DispInName(row.name);
      assert false;
    }
  }
}
