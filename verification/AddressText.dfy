/** Addresses as dotted quads, and what accepted rows put on record (qubes_snitch/config.py:204-245). */
module AddressText {
  import opened Wrappers
  import opened DnsNames
  import opened Policy
  import opened Nft
  import opened Runtime
  import opened Sources
  import opened Regexes
  import opened Incarnations

  const DIGIT_CHARS := "0123456789"

  /** Decimal notation without leading zeros. */
  function Decimal(n: nat): string {
    if n < 10 then [DIGIT_CHARS[n]] else Decimal(n / 10) + [DIGIT_CHARS[n % 10]]
  }

  function DottedQuad(a: Addr): string {
    Decimal(a / 0x100_0000) + "." + Decimal(a / 0x1_0000 % 0x100) + "." + Decimal(a / 0x100 % 0x100) + "." + Decimal(a % 0x100)
  }

  lemma DigitChar(n: nat)
    requires n < 10
    ensures '0' <= DIGIT_CHARS[n] <= '9' && Digit(DIGIT_CHARS[n]) == n && (n > 0 ==> DIGIT_CHARS[n] != '0')
  {
  }

  lemma DecimalDigits(n: nat)
    requires n <= 255
    ensures Decimal(n) == if n < 10 then [DIGIT_CHARS[n]]
                          else if n < 100 then [DIGIT_CHARS[n / 10], DIGIT_CHARS[n % 10]]
                          else [DIGIT_CHARS[n / 100], DIGIT_CHARS[n / 10 % 10], DIGIT_CHARS[n % 10]]
  {
    if n >= 100 {
      assert Decimal(n / 10) == Decimal(n / 10 / 10) + [DIGIT_CHARS[n / 10 % 10]];
      assert n / 10 / 10 == n / 100;
    }
  }

  lemma OctetReadsDecimal(n: nat)
    requires n <= 255
    ensures Octet(Decimal(n)) == Some(n) && '.' !in Decimal(n)
  {
    DecimalDigits(n);
    DigitChar(n % 10);
    DigitChar(n / 10 % 10);
    DigitChar(n / 100);
    var s := Decimal(n);
    assert forall i :: 0 <= i < |s| ==> '0' <= s[i] <= '9';
    assert IsDigits(s);
  }

  lemma FourPieces(a: string, b: string, c: string, d: string)
    requires '.' !in a && '.' !in b && '.' !in c && '.' !in d
    ensures Split(a + "." + b + "." + c + "." + d, '.') == [a, b, c, d]
  {
    OnePiece(a, '.');
    OnePiece(b, '.');
    OnePiece(c, '.');
    OnePiece(d, '.');
    SplitAtSeparator(a, b, '.');
    SplitAtSeparator(a + "." + b, c, '.');
    SplitAtSeparator(a + "." + b + "." + c, d, '.');
  }

  lemma QuadValue(a: Addr)
    ensures ((a / 0x100_0000 * 256 + a / 0x1_0000 % 0x100) * 256 + a / 0x100 % 0x100) * 256 + a % 0x100 == a
  {
  }

  /** Exactly which text is read as an address: its dotted quad. */
  lemma Ip4TextIsDottedQuad(s: string, a: Addr)
    ensures ParseIp4(s) == Some(a) <==> s == DottedQuad(a)
  {
    var w, x, y, z := a / 0x100_0000, a / 0x1_0000 % 0x100, a / 0x100 % 0x100, a % 0x100;
    OctetReadsDecimal(w);
    OctetReadsDecimal(x);
    OctetReadsDecimal(y);
    OctetReadsDecimal(z);
    FourPieces(Decimal(w), Decimal(x), Decimal(y), Decimal(z));
    QuadValue(a);
    assert ParseIp4(DottedQuad(a)) == Some(a);
    if ParseIp4(s) == Some(a) {
      Ip4TextIsCanonical(s, DottedQuad(a));
    }
  }

  lemma QuadOctets(w: nat, x: nat, y: nat, z: nat) returns (a: Addr)
    requires w < 256 && x < 256 && y < 256 && z < 256
    ensures a == ((w * 256 + x) * 256 + y) * 256 + z
    ensures a / 0x100_0000 == w && a / 0x1_0000 % 0x100 == x && a / 0x100 % 0x100 == y && a % 0x100 == z
  {
    a := ((w * 256 + x) * 256 + y) * 256 + z;
  }

  lemma SmallDecimals()
    ensures Decimal(10) == "10" && Decimal(138) == "138" && Decimal(0) == "0"
  {
    DecimalDigits(10);
    DecimalDigits(138);
    DecimalDigits(0);
  }

  lemma DispSubnet(x: nat, y: nat) returns (a: Addr)
    requires x < 256 && y < 256
    ensures a == 0x0A8A_0000 + x * 256 + y && DottedQuad(a) == "10.138." + Decimal(x) + "." + Decimal(y)
  {
    a := QuadOctets(10, 138, x, y);
    SmallDecimals();
    assert "10" + "." + "138" + "." == "10.138.";
  }

  /** The text dom0 prints for a dispid. */
  lemma DispAddrText(dispid: DispId)
    ensures DottedQuad(DispAddr(dispid)) ==
            if dispid < 255 then "10.138.0." + Decimal(dispid)
            else "10.138." + Decimal((dispid - 1) / 254) + "." + Decimal((dispid - 1) % 254 + 1)
  {
    if dispid < 255 {
      var a := DispSubnet(0, dispid);
      assert a == DispAddr(dispid);
      SmallDecimals();
      assert "10.138." + "0" + "." == "10.138.0.";
    } else {
      var a := DispSubnet((dispid - 1) / 254, (dispid - 1) % 254 + 1);
      assert a == DispAddr(dispid);
    }
  }

  // -------------------------------------------------------------------- text of a row

  function RowText(row: Row): string {
    row.name + "|" + row.ip + "|" + row.color + "|" + row.vmClass + "|" + row.template
  }

  predicate NoBars(row: Row) {
    '|' !in row.name && '|' !in row.ip && '|' !in row.color && '|' !in row.vmClass && '|' !in row.template
  }

  lemma FivePieces(row: Row)
    requires NoBars(row)
    ensures Split(RowText(row), '|') == [row.name, row.ip, row.color, row.vmClass, row.template]
  {
    OnePiece(row.name, '|');
    OnePiece(row.ip, '|');
    OnePiece(row.color, '|');
    OnePiece(row.vmClass, '|');
    OnePiece(row.template, '|');
    SplitAtSeparator(row.name, row.ip, '|');
    SplitAtSeparator(row.name + "|" + row.ip, row.color, '|');
    SplitAtSeparator(row.name + "|" + row.ip + "|" + row.color, row.vmClass, '|');
    SplitAtSeparator(row.name + "|" + row.ip + "|" + row.color + "|" + row.vmClass, row.template, '|');
  }

  lemma JoinFive(a: string, b: string, c: string, d: string, e: string)
    ensures Join([a, b, c, d, e], '|') == a + "|" + b + "|" + c + "|" + d + "|" + e
  {
    JoinAppend([a], [b], '|');
    JoinAppend([a, b], [c], '|');
    JoinAppend([a, b, c], [d], '|');
    JoinAppend([a, b, c, d], [e], '|');
    assert [a] + [b] == [a, b] && [a, b] + [c] == [a, b, c] && [a, b, c] + [d] == [a, b, c, d] && [a, b, c, d] + [e] == [a, b, c, d, e];
  }

  /** A line is a row exactly when it is its five fields with bars between them. */
  lemma RowOfLine(line: string, row: Row)
    ensures ReadRow(line) == Some(row) <==> line == RowText(row) && NoBars(row)
  {
    if NoBars(row) {
      FivePieces(row);
    }
    if ReadRow(line) == Some(row) {
      var pieces := Split(line, '|');
      PiecesAreFree(line, '|');
      JoinSplit(line, '|');
      assert pieces == [row.name, row.ip, row.color, row.vmClass, row.template];
      assert pieces[0] == row.name && pieces[1] == row.ip && pieces[2] == row.color && pieces[3] == row.vmClass && pieces[4] == row.template;
      JoinFive(row.name, row.ip, row.color, row.vmClass, row.template);
    }
  }

  // -------------------------------------------------------------- labels of the rows

  /** The label and display name a filed row asks for. */
  ghost predicate RowOnRecord(t: SourceTables, row: Row, source: Name) {
    && row.ip in t.byIp && t.byIp[row.ip] == source
    && source in t.labels && t.labels[source] == row.color
    && row.ip in t.display
    && t.display[row.ip] == if row.vmClass == "DispVM" then row.name + "(" + row.template + ")" else row.name
  }

  lemma FiledIsOnRecord(t: SourceTables, row: Row, source: Name)
    requires File(t, row, source).Ok?
    ensures RowOnRecord(File(t, row, source).value, row, source)
  {
  }

  lemma FilingKeepsRecords(t: SourceTables, row: Row, source: Name, old_row: Row, old_source: Name)
    requires File(t, row, source).Ok? && RowOnRecord(t, old_row, old_source)
    ensures RowOnRecord(File(t, row, source).value, old_row, old_source)
  {
  }

  lemma LineKeepsRecords(t: SourceTables, line: string, default: string, row: Row, source: Name)
    requires AddLine(t, line, default).Ok? && RowOnRecord(t, row, source)
    ensures RowOnRecord(AddLine(t, line, default).value, row, source)
  {
    if !Blank(line) {
      var next := ReadRow(line).value;
      if !next.Skipped() && next.Source(default).value.Some? {
        FilingKeepsRecords(t, next, next.Source(default).value.value, row, source);
      }
    }
  }

  /** In an accepted text all rows of a source carry its one label, and every address the display name
      of its own row. */
  lemma {:induction false} RowsAreOnRecord(lines: seq<string>, default: string, i: nat, source: Name)
    requires ReadLines(lines, default).Ok? && i < |lines|
    requires ReadRow(lines[i]).Some? && Files(lines[i], default, ReadRow(lines[i]).value.ip, source)
    ensures RowOnRecord(ReadLines(lines, default).value, ReadRow(lines[i]).value, source)
  {
    var before, line := lines[..|lines| - 1], lines[|lines| - 1];
    var t := ReadLines(before, default).value;
    if i == |lines| - 1 {
      FiledIsOnRecord(t, ReadRow(line).value, source);
    } else {
      assert before[i] == lines[i];
      RowsAreOnRecord(before, default, i, source);
      LineKeepsRecords(t, line, default, ReadRow(lines[i]).value, source);
    }
  }

  // ---------------------------------------------------------------- names of the rows

  ghost predicate Within(part: string, text: string) {
    exists before: string, after: string :: text == before + part + after
  }

  lemma ContainsMeaning(text: string, part: string)
    ensures Contains(text, part) <==> Within(part, text)
  {
    if Contains(text, part) {
      var i :| 0 <= i <= |text| && StartsWith(text[i..], part);
      assert text[i..] == part + text[i..][|part|..];
      assert text == text[..i] + part + text[i..][|part|..];
    }
    if Within(part, text) {
      var before: string, after: string :| text == before + part + after;
      assert text[|before|..] == part + after;
      assert (part + after)[..|part|] == part;
      assert StartsWith(text[|before|..], part);
    }
  }

  ghost predicate Prefixed(part: string, text: string) {
    exists after: string :: text == part + after
  }

  lemma PrefixMeaning(text: string, part: string)
    ensures StartsWith(text, part) <==> Prefixed(part, text)
  {
    if StartsWith(text, part) {
      assert text == part + text[|part|..];
    }
    if Prefixed(part, text) {
      var after: string :| text == part + after;
      assert text[..|part|] == part;
    }
  }

  /** A VM name that is neither malformed nor reserved. */
  ghost predicate UsableName(name: string, vmClass: string) {
    && FullMatch(SOURCE_NAME, name) && !Prefixed("dispvm-", name) && !Within("unknown", name)
    && (Within("disp", name) ==> vmClass == "DispVM")
  }

  lemma UsableNameMeaning(name: string, vmClass: string)
    ensures UsableName(name, vmClass) <==> CheckSourceName(name).None? && CheckVmName(name, vmClass).None?
  {
    SourceNameIsPattern(name);
    PrefixMeaning(name, "dispvm-");
    ContainsMeaning(name, "unknown");
    ContainsMeaning(name, "disp");
    if name == "unknown" {
      assert name[0..] == name && StartsWith(name[0..], "unknown");
    }
  }

  /** Exactly which rows with an address are taken, and the policy source they are filed under: a VM's own
      name, its template for disposables of a template that is not the default one, and nothing for default
      disposables without a number. */
  lemma SourceOfRow(row: Row, default: string)
    ensures row.Source(default).Ok? <==>
              && UsableName(row.name, row.vmClass)
              && (row.vmClass == "AppVM" || row.vmClass == "TemplateVM" || row.vmClass == "StandaloneVM" || row.vmClass == "DispVM")
              && (row.vmClass == "DispVM" ==> UsableName(row.template, "TemplateVM"))
    ensures row.Source(default).Ok? ==>
              row.Source(default).value ==
              if row.vmClass != "DispVM" then Some(row.name)
              else if row.template != default && row.template != "default-dvm" then Some("dispvm-" + row.template)
              else if FullMatch(NUMBERED, row.name) then Some(row.name) else None
  {
    UsableNameMeaning(row.name, row.vmClass);
    UsableNameMeaning(row.template, "TemplateVM");
    NumberedIsPattern(row.name);
    SourceNameIsPattern(row.template);
    assert !SourceNameRe("") && !SourceNameRe("-");
  }

  // --------------------------------------------------------- exactly the accepted texts

  /** Nothing but what a line can hold of white space. */
  predicate White(line: string) {
    forall i :: 0 <= i < |line| ==> line[i] == ' ' || line[i] == '\t' || line[i] == '\U{1F}'
  }

  lemma BlankIsWhite(line: string)
    ensures Blank(line) <==> White(line)
  {
    forall i | 0 <= i < |line|
      ensures line[i] in " \t\U{1F}" <==> line[i] == ' ' || line[i] == '\t' || line[i] == '\U{1F}'
    {
    }
    if White(line) {
      forall c | c in line
        ensures c in " \t\U{1F}"
      {
        var i :| 0 <= i < |line| && line[i] == c;
      }
    }
    if Blank(line) {
      forall i | 0 <= i < |line|
        ensures line[i] in " \t\U{1F}"
      {
        assert line[i] in line;
      }
    }
  }

  /** The row a line files, and its source. */
  ghost predicate FiledBy(line: string, default: string, row: Row, source: Name) {
    && !White(line) && line == RowText(row) && NoBars(row)
    && row.ip != "" && row.ip != "-" && row.Source(default) == Ok(Some(source))
  }

  /** A line that can be read: blank, or a row that has no address, belongs to nobody, or is filed with a
      dotted quad. */
  ghost predicate ReadableLine(line: string, default: string) {
    White(line) || exists row :: line == RowText(row) && NoBars(row) && ReadableRow(row, default)
  }

  ghost predicate ReadableRow(row: Row, default: string) {
    || row.ip == "" || row.ip == "-"
    || (row.Source(default).Ok? && (row.Source(default).value.Some? ==> exists a :: row.ip == DottedQuad(a)))
  }

  /** Other addresses, and one label if the source is the same. */
  predicate Apart(x: Row, s: Name, row: Row, source: Name) {
    x.ip != row.ip && (s == source ==> x.color == row.color)
  }

  /** No address twice, and one label for each source. */
  ghost predicate Compatible(a: string, b: string, default: string) {
    forall x, y, s, t :: FiledBy(a, default, x, s) && FiledBy(b, default, y, t) ==> Apart(x, s, y, t)
  }

  ghost predicate Acceptable(lines: seq<string>, default: string) {
    && (forall i :: 0 <= i < |lines| ==> ReadableLine(lines[i], default))
    && forall i, j :: 0 <= i < j < |lines| ==> Compatible(lines[i], lines[j], default)
  }

  /** What a row adds to, or the error it is. */
  predicate Fits(t: SourceTables, row: Row, source: Name) {
    row.ip !in t.byIp && (source in t.labels ==> t.labels[source] == row.color)
  }

  lemma ReadableRowMeaning(row: Row, default: string)
    ensures ReadableRow(row, default) <==>
            row.Skipped() || (row.Source(default).Ok? && (row.Source(default).value.Some? ==> ParseIp4(row.ip).Some?))
  {
    if ParseIp4(row.ip).Some? {
      Ip4TextIsDottedQuad(row.ip, ParseIp4(row.ip).value);
    }
    if exists a :: row.ip == DottedQuad(a) {
      var a :| row.ip == DottedQuad(a);
      Ip4TextIsDottedQuad(row.ip, a);
    }
  }

  /** A line can be added exactly when it is readable and what it files fits. */
  lemma LineAddsIff(t: SourceTables, line: string, default: string)
    ensures AddLine(t, line, default).Ok? <==>
            ReadableLine(line, default) && forall row, source :: FiledBy(line, default, row, source) ==> Fits(t, row, source)
  {
    BlankIsWhite(line);
    if !Blank(line) {
      forall row
        ensures ReadRow(line) == Some(row) <==> line == RowText(row) && NoBars(row)
      {
        RowOfLine(line, row);
      }
      if ReadRow(line).Some? {
        var row := ReadRow(line).value;
        ReadableRowMeaning(row, default);
        assert forall x :: line == RowText(x) && NoBars(x) ==> x == row;
        if row.Source(default).Ok? && row.Source(default).value.Some? && !row.Skipped() {
          assert FiledBy(line, default, row, row.Source(default).value.value);
        }
      }
    }
  }

  lemma FilesMeaning(line: string, default: string, ip: string, source: Name)
    ensures Files(line, default, ip, source) <==> exists row :: FiledBy(line, default, row, source) && row.ip == ip
  {
    BlankIsWhite(line);
    if Files(line, default, ip, source) {
      RowOfLine(line, ReadRow(line).value);
      assert FiledBy(line, default, ReadRow(line).value, source);
    }
    if row :| FiledBy(line, default, row, source) && row.ip == ip {
      RowOfLine(line, row);
    }
  }

  lemma FiledRowIsOnRecord(lines: seq<string>, default: string, i: nat, row: Row, source: Name)
    requires ReadLines(lines, default).Ok? && i < |lines| && FiledBy(lines[i], default, row, source)
    ensures RowOnRecord(ReadLines(lines, default).value, row, source)
  {
    BlankIsWhite(lines[i]);
    RowOfLine(lines[i], row);
    RowsAreOnRecord(lines, default, i, source);
  }

  /** Everything on record was filed by some line. */
  lemma {:induction false} RecordsAreFiled(lines: seq<string>, default: string, ip: string, source: Name)
    requires ReadLines(lines, default).Ok?
    ensures var t := ReadLines(lines, default).value;
            && (ip in t.byIp ==> exists i, row :: 0 <= i < |lines| && FiledBy(lines[i], default, row, t.byIp[ip]) && row.ip == ip)
            && (source in t.labels ==> exists i, row :: 0 <= i < |lines| && FiledBy(lines[i], default, row, source))
  {
    if lines != [] {
      var before, line := lines[..|lines| - 1], lines[|lines| - 1];
      RecordsAreFiled(before, default, ip, source);
      assert forall i :: 0 <= i < |before| ==> before[i] == lines[i];
      BlankIsWhite(line);
      if !Blank(line) {
        var row := ReadRow(line).value;
        RowOfLine(line, row);
        if !row.Skipped() && row.Source(default).value.Some? {
          assert FiledBy(lines[|lines| - 1], default, row, row.Source(default).value.value);
        }
      }
    }
  }

  lemma FittingIsApart(lines: seq<string>, default: string, row: Row, source: Name, i: nat, x: Row, s: Name)
    requires ReadLines(lines, default).Ok? && Fits(ReadLines(lines, default).value, row, source)
    requires i < |lines| && FiledBy(lines[i], default, x, s)
    ensures Apart(x, s, row, source)
  {
    FiledRowIsOnRecord(lines, default, i, x, s);
  }

  lemma UnfittingClashes(lines: seq<string>, default: string, row: Row, source: Name) returns (i: nat, x: Row, s: Name)
    requires ReadLines(lines, default).Ok? && !Fits(ReadLines(lines, default).value, row, source)
    ensures i < |lines| && FiledBy(lines[i], default, x, s) && !Apart(x, s, row, source)
  {
    var t := ReadLines(lines, default).value;
    RecordsAreFiled(lines, default, row.ip, source);
    if row.ip in t.byIp {
      s := t.byIp[row.ip];
      var k: nat, y :| k < |lines| && FiledBy(lines[k], default, y, s) && y.ip == row.ip;
      i, x := k, y;
    } else {
      s := source;
      var k: nat, y :| k < |lines| && FiledBy(lines[k], default, y, s);
      i, x := k, y;
      FiledRowIsOnRecord(lines, default, i, x, s);
    }
  }

  lemma FitsMeaning(lines: seq<string>, default: string, row: Row, source: Name)
    requires ReadLines(lines, default).Ok?
    ensures Fits(ReadLines(lines, default).value, row, source) <==>
            forall i, x, s :: 0 <= i < |lines| && FiledBy(lines[i], default, x, s) ==> Apart(x, s, row, source)
  {
    if Fits(ReadLines(lines, default).value, row, source) {
      forall i, x, s | 0 <= i < |lines| && FiledBy(lines[i], default, x, s)
        ensures Apart(x, s, row, source)
      {
        FittingIsApart(lines, default, row, source, i, x, s);
      }
    } else {
      var _, _, _ := UnfittingClashes(lines, default, row, source);
    }
  }

  /** The lines are accepted exactly when each can be read, no address is filed twice and all rows of a
      source have one label. */
  lemma {:induction false} AcceptedIff(lines: seq<string>, default: string)
    ensures ReadLines(lines, default).Ok? <==> Acceptable(lines, default)
  {
    if lines != [] {
      var before, line := lines[..|lines| - 1], lines[|lines| - 1];
      AcceptedIff(before, default);
      assert forall i :: 0 <= i < |before| ==> before[i] == lines[i];
      if ReadLines(before, default).Ok? {
        LineAddsIff(ReadLines(before, default).value, line, default);
        forall row, source
          ensures Fits(ReadLines(before, default).value, row, source) <==>
                  forall i, x, s :: 0 <= i < |before| && FiledBy(before[i], default, x, s) ==> Apart(x, s, row, source)
        {
          FitsMeaning(before, default, row, source);
        }
        LastIsCompatible(lines, default);
      }
    }
  }

  lemma AsciiMeaning(line: string)
    ensures Ascii(line) <==> forall k :: 0 <= k < |line| ==> line[k] as int < 128
  {
    if Ascii(line) {
      forall k | 0 <= k < |line|
        ensures line[k] as int < 128
      {
        assert line[k] in line;
      }
    }
  }

  /** And the text, when it is ASCII besides. */
  lemma TextAcceptedIff(lines: seq<string>, default: string)
    ensures Read(lines, default).Ok? <==>
            Acceptable(lines, default) && forall i, k :: 0 <= i < |lines| && 0 <= k < |lines[i]| ==> lines[i][k] as int < 128
  {
    AcceptedIff(lines, default);
    forall l: string
      ensures Ascii(l) <==> forall k :: 0 <= k < |l| ==> l[k] as int < 128
    {
      AsciiMeaning(l);
    }
    assert forall i :: 0 <= i < |lines| ==> lines[i] in lines;
  }

  lemma LastIsCompatible(lines: seq<string>, default: string)
    requires lines != []
    ensures var before, line := lines[..|lines| - 1], lines[|lines| - 1];
            Acceptable(lines, default) <==>
            && Acceptable(before, default) && ReadableLine(line, default)
            && forall i :: 0 <= i < |before| ==> Compatible(before[i], line, default)
  {
    var before := lines[..|lines| - 1];
    assert forall i :: 0 <= i < |before| ==> before[i] == lines[i];
    assert Acceptable(lines, default) ==> forall i :: 0 <= i < |before| ==> Compatible(lines[i], lines[|lines| - 1], default);
  }
}
