/** Parsing a Packages file, and the printer it undoes. */
module PackagesFile {
  import opened Basics
  import opened Numbers
  import opened Digests

  datatype Entry = Entry(pkg: string, architecture: string, version: string, size: int)

  const NO_ENTRY := Entry("", "", "", 0)

  /** The scanner's variables: the stanza being read, the package count and the entries. */
  datatype Scan = Scan(e: Entry, num: nat, entries: map<string, Entry>)

  const SCAN_START := Scan(NO_ENTRY, 0, map[])

  /** What a line means to the scanner. */
  datatype LineKind =
    | Blank
    | Ignored
    | Package(v: string)
    | Version(v: string)
    | Architecture(v: string)
    | Size(n: Option<int>)
    | Sha256(h: Option<string>)

  function Classify(line: string): LineKind {
    if line == "" then Blank
    else match Cut(line, ':')
      case None => Ignored
      case Some((k, rest)) => ClassifyField(k, TrimSpace(rest))
  }

  function ClassifyField(k: string, v: string): LineKind {
    if k == "Package" then Package(v)
    else if k == "Version" then Version(v)
    else if k == "Architecture" then Architecture(v)
    else if k == "Size" then Size(ParseInt64(v))
    else if k == "SHA256" then Sha256(NewSha256Digest(v))
    else Ignored
  }

  function Apply(s: Scan, kind: LineKind): Option<Scan> {
    match kind
    case Blank => Some(s.(e := NO_ENTRY))
    case Ignored => Some(s)
    case Package(v) => Some(s.(e := s.e.(pkg := v), num := s.num + 1))
    case Version(v) => Some(s.(e := s.e.(version := v)))
    case Architecture(v) => Some(s.(e := s.e.(architecture := v)))
    case Size(n) => if n.Some? then Some(s.(e := s.e.(size := n.value))) else None
    case Sha256(h) => if h.Some? then Some(s.(entries := s.entries[h.value := s.e])) else None
  }

  function ScanLine(s: Scan, line: string): Option<Scan> {
    Apply(s, Classify(line))
  }

  function ScanLines(s: Scan, lines: seq<string>): Option<Scan> {
    if lines == [] then Some(s)
    else match ScanLines(s, lines[..|lines| - 1])
      case None => None
      case Some(t) => ScanLine(t, lines[|lines| - 1])
  }

  /** One line of a stanza, as the scanner's switch takes it. */
  method TakeField(s: Scan, line: string) returns (t: Option<Scan>)
    requires line != ""
    ensures t == ScanLine(s, line)
  {
    var kv := Cut(line, ':');
    if kv == None {
      return Some(s);
    }
    var k, v := kv.value.0, TrimSpace(kv.value.1);
    if k == "Package" {
      return Some(s.(e := s.e.(pkg := v), num := s.num + 1));
    } else if k == "Version" {
      return Some(s.(e := s.e.(version := v)));
    } else if k == "Architecture" {
      return Some(s.(e := s.e.(architecture := v)));
    } else if k == "Size" {
      var n := ParseInt64(v);
      if n == None {
        return None;
      }
      return Some(s.(e := s.e.(size := n.value)));
    } else if k == "SHA256" {
      var h := NewSha256Digest(v);
      if h == None {
        return None;
      }
      return Some(s.(entries := s.entries[h.value := s.e]));
    }
    return Some(s);
  }

  /** parsePackages: the package count and the entries by digest, or an error. */
  method ParsePackages(lines: seq<string>) returns (num: nat, entries: map<string, Entry>, ok: bool)
    ensures ok <==> ScanLines(SCAN_START, lines).Some?
    ensures ok ==> num == ScanLines(SCAN_START, lines).value.num
                   && entries == ScanLines(SCAN_START, lines).value.entries
    ensures !ok ==> num == 0
  {
    var scan := SCAN_START;
    for i := 0 to |lines|
      invariant ScanLines(SCAN_START, lines[..i]) == Some(scan)
    {
      assert lines[..i + 1] == lines[..i] + [lines[i]];
      ScanOneMore(SCAN_START, lines[..i], scan, lines[i]);
      ScanPrefix(SCAN_START, lines, i + 1);
      if lines[i] == "" {
        scan := scan.(e := NO_ENTRY);
        continue;
      }
      var next := TakeField(scan, lines[i]);
      if next == None {
        return 0, scan.entries, false;
      }
      scan := next.value;
    }
    assert lines[..|lines|] == lines;
    return scan.num, scan.entries, true;
  }

  lemma {:induction false} ScanSplit(s: Scan, a: seq<string>, b: seq<string>)
    ensures ScanLines(s, a + b) ==
            match ScanLines(s, a) case None => None case Some(t) => ScanLines(t, b)
  {
    if b == [] {
      assert a + b == a;
    } else {
      var n := |b| - 1;
      assert (a + b)[..|a + b| - 1] == a + b[..n];
      ScanSplit(s, a, b[..n]);
    }
  }

  /** A prefix that fails makes the whole scan fail. */
  lemma ScanPrefix(s: Scan, lines: seq<string>, n: nat)
    requires n <= |lines|
    ensures ScanLines(s, lines[..n]).None? ==> ScanLines(s, lines).None?
  {
    assert lines == lines[..n] + lines[n..];
    ScanSplit(s, lines[..n], lines[n..]);
  }

  // What a scan comes to, line by line

  /** The line is of field `k`. */
  predicate IsField(line: string, k: string) {
    Cut(line, ':').Some? && Cut(line, ':').value.0 == k
  }

  function ValueOf(line: string): string {
    if Cut(line, ':').Some? then TrimSpace(Cut(line, ':').value.1) else ""
  }

  /** A size that is no 64-bit number, or a digest that is not one. */
  predicate BadLine(line: string) {
    (IsField(line, "Size") && ParseInt64(ValueOf(line)) == None) || (IsField(line, "SHA256") && NewSha256Digest(ValueOf(line)) == None)
  }

  /** A file does not parse exactly when it has such a line. */
  lemma {:induction false} ScanFailsIff(lines: seq<string>)
    ensures ScanLines(SCAN_START, lines) == None <==> exists i | 0 <= i < |lines| :: BadLine(lines[i])
  {
    if lines != [] {
      var n := |lines| - 1;
      ScanFailsIff(lines[..n]);
      if ScanLines(SCAN_START, lines[..n]).Some? {
        LineFailsIff(ScanLines(SCAN_START, lines[..n]).value, lines[n]);
      }
      if i :| 0 <= i < n && BadLine(lines[..n][i]) {
        assert BadLine(lines[i]);
      }
      if i :| 0 <= i < n && BadLine(lines[i]) {
        assert BadLine(lines[..n][i]);
      }
    }
  }

  lemma LineFailsIff(s: Scan, line: string)
    ensures ScanLine(s, line) == None <==> BadLine(line)
  {
    EmptyCut();
  }

  lemma EmptyCut()
    ensures Cut("", ':') == None
  {
  }

  /** The value the last line of field `k` has given it since the last blank line. */
  function Latest(lines: seq<string>, k: string): Option<string> {
    if lines == [] || lines[|lines| - 1] == "" then None
    else if IsField(lines[|lines| - 1], k) then Some(ValueOf(lines[|lines| - 1]))
    else Latest(lines[..|lines| - 1], k)
  }

  function OrEmpty(v: Option<string>): string {
    if v.Some? then v.value else ""
  }

  function SizeOr0(v: Option<string>): int {
    if v.Some? && ParseInt64(v.value).Some? then ParseInt64(v.value).value else 0
  }

  function PackageLines(lines: seq<string>): nat {
    if lines == [] then 0
    else PackageLines(lines[..|lines| - 1]) + if IsField(lines[|lines| - 1], "Package") then 1 else 0
  }

  /** The stanza read so far has the latest value of each field, and every Package line was counted. */
  lemma {:induction false} ScanFields(lines: seq<string>)
    requires ScanLines(SCAN_START, lines).Some?
    ensures var t := ScanLines(SCAN_START, lines).value;
            && t.e == Entry(OrEmpty(Latest(lines, "Package")), OrEmpty(Latest(lines, "Architecture")),
                            OrEmpty(Latest(lines, "Version")), SizeOr0(Latest(lines, "Size")))
            && t.num == PackageLines(lines)
  {
    if lines != [] {
      var n := |lines| - 1;
      ScanFields(lines[..n]);
      LineFields(ScanLines(SCAN_START, lines[..n]).value, lines[n]);
    }
  }

  /** What one line changes of the stanza and the count. */
  lemma LineFields(s: Scan, line: string)
    requires ScanLine(s, line).Some?
    ensures var t := ScanLine(s, line).value;
            && t.num == s.num + (if IsField(line, "Package") then 1 else 0)
            && (line == "" ==> t.e == NO_ENTRY)
            && (line != "" ==>
                  && t.e.pkg == (if IsField(line, "Package") then ValueOf(line) else s.e.pkg)
                  && t.e.architecture == (if IsField(line, "Architecture") then ValueOf(line) else s.e.architecture)
                  && t.e.version == (if IsField(line, "Version") then ValueOf(line) else s.e.version)
                  && t.e.size == (if IsField(line, "Size") then SizeOr0(Some(ValueOf(line))) else s.e.size))
  {
    EmptyCut();
  }

  // No field crosses a blank line

  /** Starting from an empty stanza, what was counted and recorded before only adds up. */
  lemma {:induction false} ScanAdds(s: Scan, num: nat, entries: map<string, Entry>, lines: seq<string>)
    ensures ScanLines(s.(num := num + s.num, entries := entries + s.entries), lines) ==
            match ScanLines(s, lines)
            case None => None
            case Some(t) => Some(t.(num := num + t.num, entries := entries + t.entries))
  {
    if lines != [] {
      ScanAdds(s, num, entries, lines[..|lines| - 1]);
      if ScanLines(s, lines[..|lines| - 1]).Some? {
        ScanLineAdds(ScanLines(s, lines[..|lines| - 1]).value, num, entries, lines[|lines| - 1]);
      }
    }
  }

  lemma ScanLineAdds(s: Scan, num: nat, entries: map<string, Entry>, line: string)
    ensures ScanLine(s.(num := num + s.num, entries := entries + s.entries), line) ==
            match ScanLine(s, line)
            case None => None
            case Some(t) => Some(t.(num := num + t.num, entries := entries + t.entries))
  {
    var kind := Classify(line);
    if kind.Sha256? && kind.h.Some? {
      assert (entries + s.entries)[kind.h.value := s.e] == entries + s.entries[kind.h.value := s.e];
    }
  }

  /** The outcome of reading `second` after `first` and a blank line: counts add up, and the later
      part's entries win. */
  function Joined(first: Option<Scan>, second: Option<Scan>): Option<Scan> {
    if first.None? || second.None? then None
    else Some(Scan(second.value.e, first.value.num + second.value.num, first.value.entries + second.value.entries))
  }

  lemma AfterBlank(t: Scan, b: seq<string>)
    ensures ScanLines(t.(e := NO_ENTRY), b) == Joined(Some(t), ScanLines(SCAN_START, b))
  {
    ScanAdds(SCAN_START, t.num, t.entries, b);
    assert t.entries + map[] == t.entries;
  }

  /** Parsing text around a blank line is parsing the two parts on their own and joining the
      results: no field of the first part reaches the second. */
  lemma BlankLineSeparates(a: seq<string>, b: seq<string>)
    ensures ScanLines(SCAN_START, a + [""] + b) == Joined(ScanLines(SCAN_START, a), ScanLines(SCAN_START, b))
  {
    assert Classify("") == Blank;
    BlankJoins(a, "", b);
  }

  lemma BlankJoins(a: seq<string>, line: string, b: seq<string>)
    requires Classify(line) == Blank
    ensures ScanLines(SCAN_START, a + [line] + b) == Joined(ScanLines(SCAN_START, a), ScanLines(SCAN_START, b))
  {
    ScanAround(a, line, b);
    if ScanLines(SCAN_START, a).Some? {
      AfterBlank(ScanLines(SCAN_START, a).value, b);
    }
  }

  lemma ScanAround(a: seq<string>, line: string, b: seq<string>)
    requires Classify(line) == Blank
    ensures ScanLines(SCAN_START, a + [line] + b) ==
            match ScanLines(SCAN_START, a)
            case None => None
            case Some(t) => ScanLines(t.(e := NO_ENTRY), b)
  {
    ScanSplit(SCAN_START, a + [line], b);
    ScanSplit(SCAN_START, a, [line]);
    if ScanLines(SCAN_START, a).Some? {
      OneLine(ScanLines(SCAN_START, a).value, line);
    }
  }

  lemma OneLine(s: Scan, line: string)
    ensures ScanLines(s, [line]) == ScanLine(s, line)
  {
    assert [line][..0] == [];
    assert ScanLines(s, []) == Some(s);
  }

  // Printer

  /** One package: its entry and digest, with the other fields that may stand between. */
  datatype Stanza = Stanza(entry: Entry, digest: string, afterVersion: seq<string>, afterSize: seq<string>, atEnd: seq<string>)

  /** A line the scanner skips. */
  predicate Inert(line: string) {
    line != "" && match Cut(line, ':')
                  case None => true
                  case Some((k, v)) => ClassifyField(k, TrimSpace(v)) == Ignored
  }

  predicate AllInert(lines: seq<string>) {
    forall i | 0 <= i < |lines| :: Inert(lines[i])
  }

  predicate Printable(st: Stanza) {
    && Trimmed(st.entry.pkg) && Trimmed(st.entry.architecture) && Trimmed(st.entry.version)
    && 0 <= st.entry.size < 0x8000_0000_0000_0000
    && |st.digest| == 32 && IsBytes(st.digest)
    && AllInert(st.afterVersion) && AllInert(st.afterSize) && AllInert(st.atEnd)
  }

  function Field(k: string, v: string): string {
    k + ": " + v
  }

  function PrintStanza(st: Stanza): seq<string>
    requires Printable(st)
  {
    [Field("Package", st.entry.pkg), Field("Architecture", st.entry.architecture), Field("Version", st.entry.version)]
    + st.afterVersion + [Field("Size", Digits(st.entry.size, 10))]
    + st.afterSize + [Field("SHA256", EncodeHex(st.digest))]
    + st.atEnd
  }

  /** Stanzas one after the other, a blank line between them. */
  function JoinBlank(parts: seq<seq<string>>): seq<string> {
    if parts == [] then []
    else if |parts| == 1 then parts[0]
    else JoinBlank(parts[..|parts| - 1]) + [""] + parts[|parts| - 1]
  }

  function PrintEach(sts: seq<Stanza>): (parts: seq<seq<string>>)
    requires forall i | 0 <= i < |sts| :: Printable(sts[i])
    ensures |parts| == |sts|
  {
    if sts == [] then [] else PrintEach(sts[..|sts| - 1]) + [PrintStanza(sts[|sts| - 1])]
  }

  function PrintAll(sts: seq<Stanza>): seq<string>
    requires forall i | 0 <= i < |sts| :: Printable(sts[i])
  {
    JoinBlank(PrintEach(sts))
  }

  function EntriesOf(sts: seq<Stanza>): map<string, Entry> {
    if sts == [] then map[]
    else EntriesOf(sts[..|sts| - 1])[sts[|sts| - 1].digest := sts[|sts| - 1].entry]
  }

  lemma {:induction false} ScanInert(s: Scan, lines: seq<string>)
    requires AllInert(lines)
    ensures ScanLines(s, lines) == Some(s)
  {
    if lines != [] {
      ScanInert(s, lines[..|lines| - 1]);
      assert Inert(lines[|lines| - 1]);
    }
  }

  lemma {:induction false} TrimRightKeeps(s: string)
    requires s == "" || !IsSpace(s[|s| - 1])
    ensures TrimRight(s) == s
  {
  }

  /** Reading back one printed field. */
  lemma FieldCut(k: string, v: string)
    requires ':' !in k && Trimmed(v)
    ensures Classify(Field(k, v)) == ClassifyField(k, v)
  {
    assert Field(k, v) == k + [':'] + (" " + v);
    CutFirst(k, ':', " " + v);
    assert (" " + v)[1..] == v;
    assert TrimLeft(" " + v) == TrimLeft(v) == v;
    TrimRightKeeps(v);
    assert Field(k, v) != "";
  }

  lemma DigitsTrimmed(n: nat)
    ensures Trimmed(Digits(n, 10))
    decreases n
  {
    if n >= 10 {
      DigitsTrimmed(n / 10);
    }
  }

  lemma ScanOneMore(s: Scan, lines: seq<string>, t: Scan, line: string)
    requires ScanLines(s, lines) == Some(t)
    ensures ScanLines(s, lines + [line]) == ScanLine(t, line)
  {
    assert (lines + [line])[..|lines|] == lines;
  }

  lemma ScanPastInert(s: Scan, lines: seq<string>, t: Scan, extras: seq<string>)
    requires ScanLines(s, lines) == Some(t) && AllInert(extras)
    ensures ScanLines(s, lines + extras) == Some(t)
  {
    ScanSplit(s, lines, extras);
    ScanInert(t, extras);
  }

  lemma NamesScanned(e: Entry)
    requires Trimmed(e.pkg) && Trimmed(e.architecture) && Trimmed(e.version)
    ensures ScanLines(SCAN_START, [Field("Package", e.pkg), Field("Architecture", e.architecture), Field("Version", e.version)])
            == Some(Scan(e.(size := 0), 1, map[]))
  {
    NameLines(e);
    ThreeLines(Scan(NO_ENTRY.(pkg := e.pkg), 1, map[]), Scan(Entry(e.pkg, e.architecture, "", 0), 1, map[]),
               Scan(e.(size := 0), 1, map[]),
               Field("Package", e.pkg), Field("Architecture", e.architecture), Field("Version", e.version));
  }

  lemma NameLines(e: Entry)
    requires Trimmed(e.pkg) && Trimmed(e.architecture) && Trimmed(e.version)
    ensures Classify(Field("Package", e.pkg)) == Package(e.pkg)
    ensures Classify(Field("Architecture", e.architecture)) == Architecture(e.architecture)
    ensures Classify(Field("Version", e.version)) == Version(e.version)
  {
    FieldCut("Package", e.pkg);
    FieldCut("Architecture", e.architecture);
    FieldCut("Version", e.version);
  }

  lemma ThreeLines(s1: Scan, s2: Scan, s3: Scan, l1: string, l2: string, l3: string)
    requires ScanLine(SCAN_START, l1) == Some(s1) && ScanLine(s1, l2) == Some(s2) && ScanLine(s2, l3) == Some(s3)
    ensures ScanLines(SCAN_START, [l1, l2, l3]) == Some(s3)
  {
    OneLine(SCAN_START, l1);
    ScanOneMore(SCAN_START, [l1], s1, l2);
    assert [l1] + [l2] == [l1, l2];
    ScanOneMore(SCAN_START, [l1, l2], s2, l3);
    assert [l1, l2] + [l3] == [l1, l2, l3];
  }

  lemma SizeScanned(s: Scan, n: nat)
    requires n < 0x8000_0000_0000_0000
    ensures ScanLine(s, Field("Size", Digits(n, 10))) == Some(s.(e := s.e.(size := n)))
  {
    DigitsTrimmed(n);
    FieldCut("Size", Digits(n, 10));
    DigitsRoundTrip(n, 10);
  }

  lemma DigestScanned(s: Scan, digest: string)
    requires |digest| == 32 && IsBytes(digest)
    ensures ScanLine(s, Field("SHA256", EncodeHex(digest))) == Some(s.(entries := s.entries[digest := s.e]))
  {
    DigestLine(digest);
  }

  lemma DigestLine(digest: string)
    requires |digest| == 32 && IsBytes(digest)
    ensures Classify(Field("SHA256", EncodeHex(digest))) == Sha256(Some(digest))
  {
    HexRoundTrip(digest);
    HexTrimmed(digest);
    FieldCut("SHA256", EncodeHex(digest));
  }

  lemma HexTrimmed(digest: string)
    requires IsBytes(digest)
    ensures Trimmed(EncodeHex(digest))
  {
    HexRoundTrip(digest);
  }

  /** The lines are one stanza: its entry, counted once and recorded under its digest. */
  predicate ScansTo(lines: seq<string>, st: Stanza) {
    ScanLines(SCAN_START, lines) == Some(Scan(st.entry, 1, map[st.digest := st.entry]))
  }

  lemma StanzaScanned(st: Stanza)
    requires Printable(st)
    ensures ScansTo(PrintStanza(st), st)
  {
    var e := st.entry;
    var names := [Field("Package", e.pkg), Field("Architecture", e.architecture), Field("Version", e.version)];
    var size, sha := Field("Size", Digits(e.size, 10)), Field("SHA256", EncodeHex(st.digest));
    var s1 := Scan(e.(size := 0), 1, map[]);
    var s2 := Scan(e, 1, map[]);
    var s3 := Scan(e, 1, map[st.digest := e]);
    NamesScanned(e);
    ScanPastInert(SCAN_START, names, s1, st.afterVersion);
    SizeScanned(s1, e.size);
    ScanOneMore(SCAN_START, names + st.afterVersion, s1, size);
    ScanPastInert(SCAN_START, names + st.afterVersion + [size], s2, st.afterSize);
    DigestScanned(s2, st.digest);
    ScanOneMore(SCAN_START, names + st.afterVersion + [size] + st.afterSize, s2, sha);
    ScanPastInert(SCAN_START, names + st.afterVersion + [size] + st.afterSize + [sha], s3, st.atEnd);
  }

  lemma {:induction false} JoinedStanzas(parts: seq<seq<string>>, sts: seq<Stanza>)
    requires |parts| == |sts| && forall i | 0 <= i < |sts| :: ScansTo(parts[i], sts[i])
    ensures var r := ScanLines(SCAN_START, JoinBlank(parts));
            r.Some? && r.value.num == |sts| && r.value.entries == EntriesOf(sts)
  {
    if sts != [] {
      var n := |sts| - 1;
      JoinedStanzas(parts[..n], sts[..n]);
      assert ScansTo(parts[n], sts[n]);
      if n > 0 {
        BlankLineSeparates(JoinBlank(parts[..n]), parts[n]);
      }
      assert EntriesOf(sts[..n]) + map[sts[n].digest := sts[n].entry] == EntriesOf(sts);
    }
  }

  /** Parsing printed stanzas yields their number and exactly the digest-to-entry map, where a
      later stanza wins over an earlier one with the same digest. */
  lemma {:induction false} PrintParse(sts: seq<Stanza>)
    requires forall i | 0 <= i < |sts| :: Printable(sts[i])
    ensures var r := ScanLines(SCAN_START, PrintAll(sts));
            r.Some? && r.value.num == |sts| && r.value.entries == EntriesOf(sts)
  {
    EachScanned(sts);
    JoinedStanzas(PrintEach(sts), sts);
  }

  lemma {:induction false} PrintedAt(sts: seq<Stanza>, i: nat)
    requires i < |sts| && forall j | 0 <= j < |sts| :: Printable(sts[j])
    ensures PrintEach(sts)[i] == PrintStanza(sts[i])
  {
    if i < |sts| - 1 {
      PrintedAt(sts[..|sts| - 1], i);
    }
  }

  lemma EachScanned(sts: seq<Stanza>)
    requires forall i | 0 <= i < |sts| :: Printable(sts[i])
    ensures forall i | 0 <= i < |sts| :: ScansTo(PrintEach(sts)[i], sts[i])
  {
    forall i | 0 <= i < |sts| ensures ScansTo(PrintEach(sts)[i], sts[i]) {
      PrintedAt(sts, i);
      StanzaScanned(sts[i]);
    }
  }

  // Which lines an entry comes from

  /** Line `i` is the SHA256 line of digest `d`. */
  predicate ListsAt(lines: seq<string>, i: nat, d: string) {
    i < |lines| && IsField(lines[i], "SHA256") && NewSha256Digest(ValueOf(lines[i])) == Some(d)
  }

  lemma ListingIff(line: string, d: string)
    ensures Classify(line) == Sha256(Some(d)) <==> IsField(line, "SHA256") && NewSha256Digest(ValueOf(line)) == Some(d)
  {
    EmptyCut();
  }

  /** The last line that lists `d`. */
  function LastListing(lines: seq<string>, d: string): (r: Option<nat>)
    ensures r.Some? ==> ListsAt(lines, r.value, d)
    ensures forall j: nat | ListsAt(lines, j, d) :: r.Some? && j <= r.value
  {
    if lines == [] then None
    else
      var n := |lines| - 1;
      assert forall j: nat | j < n :: ListsAt(lines, j, d) <==> ListsAt(lines[..n], j, d);
      ListingIff(lines[n], d);
      if Classify(lines[n]) == Sha256(Some(d)) then Some(n) else LastListing(lines[..n], d)
  }

  /** One line gives a digest the entry being read, or leaves its entry alone. */
  lemma LineListing(s: Scan, line: string, d: string)
    requires ScanLine(s, line).Some?
    ensures var t := ScanLine(s, line).value;
            if Classify(line) == Sha256(Some(d)) then d in t.entries && t.entries[d] == s.e
            else (d in t.entries <==> d in s.entries) && (d in s.entries ==> t.entries[d] == s.entries[d])
  {
  }

  /** A digest has an entry exactly when some line lists it; the entry is what its stanza had said
      up to the last such line. */
  lemma {:induction false} EntryIsListed(lines: seq<string>, d: string)
    requires ScanLines(SCAN_START, lines).Some?
    ensures d in ScanLines(SCAN_START, lines).value.entries <==> LastListing(lines, d).Some?
    ensures match LastListing(lines, d)
            case None => true
            case Some(i) =>
              && ScanLines(SCAN_START, lines[..i]).Some?
              && ScanLines(SCAN_START, lines).value.entries[d] == ScanLines(SCAN_START, lines[..i]).value.e
  {
    if lines != [] {
      var n := |lines| - 1;
      EntryIsListed(lines[..n], d);
      LineListing(ScanLines(SCAN_START, lines[..n]).value, lines[n], d);
      if Classify(lines[n]) != Sha256(Some(d)) && LastListing(lines, d).Some? {
        assert lines[..n][..LastListing(lines, d).value] == lines[..LastListing(lines, d).value];
      }
    }
  }
}
