/** The inspector of signed InRelease files, and of the index files they list. */
module AptRelease {
  import opened Basics
  import opened Numbers
  import opened Digests
  import opened Opinions

  const ID := "apt.release"
  const APT_RELEASE := "application/x.apt.release"
  const APT_PACKAGES := "application/x.apt.packages"
  const APT_TRANSLATION := "application/x.apt.translation"
  const APT_COMMANDS := "application/x.apt.commands"
  const TEXT_PLAIN := "text/plain"

  /** One entry of the repository configuration. */
  datatype Repository = Repository(publicKey: string, alias: string)

  /** The configuration; `join` stands for rebasing a repository URL on an alias. */
  datatype Config = Config(repositories: map<string, Repository>, join: (string, string) -> string)

  /** What the URL patterns make of a download URL under the configuration. */
  datatype IndexUrl = IndexUrl(cfgName: string, repository: string, suite: string, component: string,
                               architecture: string, digest: string)
  datatype DebUrl = DebUrl(cfgName: string, component: string, architecture: string)
  datatype Url = Url(
    origin: string,             // normalized origin
    path: string,
    inRelease: Option<string>,  // configuration entry of an InRelease URL
    packages: Option<IndexUrl>,
    translation: Option<IndexUrl>,
    commands: Option<IndexUrl>,
    deb: Option<DebUrl>)

  /** What checking a clearsigned text against a public key yields: its lines, or nothing. */
  datatype Signed = Undecodable | BadSignature(body: seq<string>) | Verified(body: seq<string>)

  /** The artifact under inspection. `signed` stands for the signature check of its content,
      `index` for the lines of its decompression and `control` for its package metadata. */
  datatype Subject = Subject(
    digest: string, size: int, mimes: set<string>, url: Option<Url>,
    base: string,  // the URL without a trailing "/InRelease"
    clearsigned: bool, lines: seq<string>, signed: string -> Signed,
    index: Option<seq<string>>, control: (Meta, Option<string>))

  datatype ReleaseEntry = ReleaseEntry(name: string, size: nat)
  datatype ReleaseFile = ReleaseFile(sha256: string, vendor: string, files: map<string, ReleaseEntry>)

  type Releases = map<string, ReleaseFile>

  predicate MimetypeIs(f: Findings, s: Subject, t: string) {
    f.kind == t || t in s.mimes
  }

  function TextNote(m: InspectionMap, id: string, key: string): Option<string> {
    if id in m && key in m[id].notes && m[id].notes[key].Text? then Some(m[id].notes[key].text) else None
  }

  function PublicKey(c: Config, cfgName: string): string {
    if cfgName in c.repositories then c.repositories[cfgName].publicKey else ""
  }

  /** getRepositoryAlias: None when the configuration entry does not exist. */
  function RepositoryAlias(c: Config, repo: string, cfgName: string): Option<string> {
    if cfgName !in c.repositories then None
    else if c.repositories[cfgName].alias == "" then Some(repo)
    else Some(c.join(c.repositories[cfgName].alias, repo))
  }

  function AliasOr(c: Config, repo: string, cfgName: string): string {
    match RepositoryAlias(c, repo, cfgName)
    case Some(r) => r
    case None => repo
  }

  function DistOf(u: IndexUrl): string {
    u.repository + "/dists/" + u.suite
  }

  // Parsing a release file

  function WordLength(s: string): (n: nat)
    ensures n <= |s|
    ensures s != "" && !IsSpace(s[0]) ==> n > 0
  {
    if s == "" || IsSpace(s[0]) then 0 else 1 + WordLength(s[1..])
  }

  function SkipSpace(s: string): (t: string)
    ensures |t| <= |s|
    ensures t != "" ==> !IsSpace(t[0])
  {
    if s != "" && IsSpace(s[0]) then SkipSpace(s[1..]) else s
  }

  /** strings.Fields. */
  function Words(s: string): seq<string>
    decreases |s|
  {
    var t := SkipSpace(s);
    if t == "" then [] else [t[..WordLength(t)]] + Words(t[WordLength(t)..])
  }

  // Three laws that determine Words: white space has none, a text without any is one word, and words are
  // those of the two halves wherever white space separates these.

  lemma {:induction false} NoWords(s: string)
    requires forall i | 0 <= i < |s| :: IsSpace(s[i])
    ensures Words(s) == [] && SkipSpace(s) == ""
  {
    if s != "" {
      NoWords(s[1..]);
    }
  }

  lemma {:induction false} OneWord(w: string)
    requires w != "" && forall i | 0 <= i < |w| :: !IsSpace(w[i])
    ensures Words(w) == [w]
  {
    LeadingWord(w, "");
    assert w + "" == w && Words("") == [];
  }

  lemma LeadingWord(w: string, rest: string)
    requires w != "" && forall i | 0 <= i < |w| :: !IsSpace(w[i])
    requires rest == "" || IsSpace(rest[0])
    ensures Words(w + rest) == [w] + Words(rest)
  {
    WholeWord(w, rest);
    assert (w + rest)[0] == w[0] && SkipSpace(w + rest) == w + rest;
    assert (w + rest)[..|w|] == w && (w + rest)[|w|..] == rest;
  }

  lemma {:induction false} WholeWord(w: string, rest: string)
    requires forall i | 0 <= i < |w| :: !IsSpace(w[i])
    requires rest == "" || IsSpace(rest[0])
    ensures WordLength(w + rest) == |w|
  {
    if w == "" {
      assert w + rest == rest;
    } else {
      assert (w + rest)[1..] == w[1..] + rest;
      WholeWord(w[1..], rest);
    }
  }

  lemma {:induction false} WordsApart(a: string, b: string)
    requires a == "" || b == "" || IsSpace(a[|a| - 1]) || IsSpace(b[0])
    ensures Words(a + b) == Words(a) + Words(b)
    decreases |a|
  {
    if a == "" {
      assert a + b == b;
    } else if IsSpace(a[0]) {
      assert (a + b)[1..] == a[1..] + b;
      WordsApart(a[1..], b);
      LeadingSpace(a);
      LeadingSpace(a + b);
    } else {
      var n := WordLength(a);
      WordSplits(a);
      var w, rest := a[..n], a[n..];
      assert a == w + rest;
      WordsApart(rest, b);
      WordBeforeBoth(w, rest, b);
    }
  }

  lemma WordBeforeBoth(w: string, rest: string, b: string)
    requires w != "" && forall i | 0 <= i < |w| :: !IsSpace(w[i])
    requires (rest == "" || IsSpace(rest[0])) && (rest + b == "" || IsSpace((rest + b)[0]))
    requires Words(rest + b) == Words(rest) + Words(b)
    ensures Words(w + rest + b) == Words(w + rest) + Words(b)
  {
    Assoc3(w, rest, b);
    Assoc3([w], Words(rest), Words(b));
    LeadingWord(w, rest);
    LeadingWord(w, rest + b);
  }

  lemma LeadingSpace(s: string)
    requires s != "" && IsSpace(s[0])
    ensures Words(s) == Words(s[1..])
  {
  }

  /** The first word of a text that begins with one. */
  lemma {:induction false} WordSplits(s: string)
    ensures var n := WordLength(s);
            && (forall i | 0 <= i < n :: !IsSpace(s[i]))
            && (n < |s| ==> IsSpace(s[n]))
  {
    if s != "" && !IsSpace(s[0]) {
      WordSplits(s[1..]);
    }
  }

  type Header = map<string, string>

  /** The header fields up to the SHA256 section, and the lines after it. */
  function HeaderFrom(lines: seq<string>, n: nat, fields: Header): Option<(Header, seq<string>)>
    decreases |lines|
  {
    if lines == [] then None
    else
      var rest := lines[1..];
      var kv: Option<(string, string)> := if lines[0] == "" || lines[0][0] == ' ' then None else Cut(lines[0], ':');
      match kv
      case None => HeaderFrom(rest, n, fields)
      case Some((k, v)) =>
        if k == "SHA256" then Some((fields, rest))
        else if n > 100 then None
        else HeaderFrom(rest, n + 1, if TrimSpace(v) != "" then fields[k := TrimSpace(v)] else fields)
  }

  // What the header is, said without the loop

  /** The field name of a line: what precedes its first ':', if it has one and is not indented. */
  function KeyOf(line: string): Option<string> {
    if line == "" || line[0] == ' ' || Cut(line, ':') == None then None else Some(Cut(line, ':').value.0)
  }

  /** The first line whose field is SHA256. */
  predicate SectionAt(lines: seq<string>, p: nat) {
    p < |lines| && KeyOf(lines[p]) == Some("SHA256") && forall j | 0 <= j < p :: KeyOf(lines[j]) != Some("SHA256")
  }

  function FieldCount(lines: seq<string>): nat {
    if lines == [] then 0 else (if KeyOf(lines[0]).Some? then 1 else 0) + FieldCount(lines[1..])
  }

  /** The value the last line with that field gives it, empty values not counting. */
  function LastField(lines: seq<string>, k: string): Option<string> {
    if lines == [] then None
    else if LastField(lines[1..], k).Some? then LastField(lines[1..], k)
    else if KeyOf(lines[0]) == Some(k) && TrimSpace(lines[0][|k| + 1..]) != "" then Some(TrimSpace(lines[0][|k| + 1..]))
    else None
  }

  function FieldOf(fields: Header, k: string): Option<string> {
    if k in fields then Some(fields[k]) else None
  }

  /** A text has a header exactly when some line starts the SHA256 section and no more than 101 fields come
      before the first such line; the section is what follows it, and each field has its last
      value. */
  lemma {:induction false} HeaderIff(lines: seq<string>, p: nat)
    requires SectionAt(lines, p)
    ensures var h := HeaderFrom(lines, 0, map[]);
            && (h.Some? <==> FieldCount(lines[..p]) <= 101)
            && (h.Some? ==> h.value.1 == lines[p + 1..] && forall k :: FieldOf(h.value.0, k) == LastField(lines[..p], k))
  {
    HeaderReads(lines, p, 0, map[]);
    if HeaderFrom(lines, 0, map[]).Some? {
      forall k ensures FieldOf(HeaderFrom(lines, 0, map[]).value.0, k) == LastField(lines[..p], k) {
        HeaderGives(lines, p, 0, map[], k);
      }
    }
  }

  lemma {:induction false} HeaderNeedsSection(lines: seq<string>, n: nat, fields: Header)
    requires forall j | 0 <= j < |lines| :: KeyOf(lines[j]) != Some("SHA256")
    ensures HeaderFrom(lines, n, fields) == None
    decreases |lines|
  {
    if lines != [] {
      var rest := lines[1..];
      match KeyOf(lines[0]) {
        case None => HeaderNeedsSection(rest, n, fields);
        case Some(k) =>
          var v := Cut(lines[0], ':').value.1;
          HeaderNeedsSection(rest, n + 1, if TrimSpace(v) != "" then fields[k := TrimSpace(v)] else fields);
      }
    }
  }

  /** The fields after one more line. */
  function Noted(line: string, fields: Header): Header {
    match KeyOf(line)
    case None => fields
    case Some(k) => if TrimSpace(Cut(line, ':').value.1) != "" then fields[k := TrimSpace(Cut(line, ':').value.1)] else fields
  }

  lemma HeaderNext(lines: seq<string>, n: nat, fields: Header)
    requires lines != [] && KeyOf(lines[0]) != Some("SHA256") && (KeyOf(lines[0]).Some? ==> n <= 100)
    ensures HeaderFrom(lines, n, fields) == HeaderFrom(lines[1..], if KeyOf(lines[0]).Some? then n + 1 else n, Noted(lines[0], fields))
  {
  }

  lemma {:induction false} HeaderReads(lines: seq<string>, p: nat, n: nat, fields: Header)
    requires SectionAt(lines, p) && n <= 101
    ensures HeaderFrom(lines, n, fields).Some? <==> n + FieldCount(lines[..p]) <= 101
    ensures HeaderFrom(lines, n, fields).Some? ==> HeaderFrom(lines, n, fields).value.1 == lines[p + 1..]
    decreases p
  {
    if p > 0 && !(KeyOf(lines[0]).Some? && n > 100) {
      HeaderNext(lines, n, fields);
      assert lines[..p][0] == lines[0] && lines[..p][1..] == lines[1..][..p - 1] && lines[1..][p - 1 + 1..] == lines[p + 1..];
      HeaderReads(lines[1..], p - 1, if KeyOf(lines[0]).Some? then n + 1 else n, Noted(lines[0], fields));
    } else if p > 0 {
      assert lines[..p][0] == lines[0];
      assert KeyOf(lines[0]) != Some("SHA256");
    } else {
      assert lines[..0] == [];
    }
  }

  lemma {:induction false} HeaderGives(lines: seq<string>, p: nat, n: nat, fields: Header, k: string)
    requires SectionAt(lines, p) && n <= 101 && HeaderFrom(lines, n, fields).Some?
    ensures FieldOf(HeaderFrom(lines, n, fields).value.0, k)
            == if LastField(lines[..p], k).Some? then LastField(lines[..p], k) else FieldOf(fields, k)
    decreases p
  {
    if p > 0 {
      assert KeyOf(lines[0]) != Some("SHA256");
      assert lines[..p][0] == lines[0] && lines[..p][1..] == lines[1..][..p - 1];
      HeaderReads(lines, p, n, fields);
      HeaderNext(lines, n, fields);
      HeaderGives(lines[1..], p - 1, if KeyOf(lines[0]).Some? then n + 1 else n, Noted(lines[0], fields), k);
      NotedField(lines[0], fields, k);
    }
  }

  lemma NotedField(line: string, fields: Header, k: string)
    ensures FieldOf(Noted(line, fields), k)
            == if KeyOf(line) == Some(k) && TrimSpace(line[|k| + 1..]) != "" then Some(TrimSpace(line[|k| + 1..])) else FieldOf(fields, k)
  {
    if KeyOf(line) == Some(k) {
      assert Cut(line, ':').value.1 == line[|k| + 1..];
    }
  }

  method ParseUpToSignatures(lines: seq<string>) returns (r: Option<(Header, seq<string>)>)
    ensures r == HeaderFrom(lines, 0, map[])
  {
    var fields: Header := map[];
    var n := 0;
    var i := 0;
    while i < |lines|
      invariant i <= |lines|
      invariant HeaderFrom(lines, 0, map[]) == HeaderFrom(lines[i..], n, fields)
    {
      var line := lines[i];
      assert lines[i..][1..] == lines[i + 1..];
      i := i + 1;
      if line == "" || line[0] == ' ' {
        continue;
      }
      var kv := Cut(line, ':');
      if kv == None {
        continue;
      }
      var (k, v) := kv.value;
      if k == "SHA256" {
        return Some((fields, lines[i..]));
      }
      v := TrimSpace(v);
      if v != "" {
        fields := fields[k := v];
      }
      if n > 100 {
        return None;
      }
      n := n + 1;
    }
    return None;
  }

  /** One line of the SHA256 section: digest, size and path, or None when it is ill-formed. */
  function SectionEntry(line: string): Option<(string, ReleaseEntry)> {
    var f := Words(line);
    if |f| != 3 then None
    else match (NewSha256Digest(f[0]), ParseUint(f[1], 10))
      case (Some(d), Some(n)) => if n < 0x1_0000_0000_0000_0000 then Some((d, ReleaseEntry(f[2], n))) else None
      case _ => None
  }

  /** The files listed and the ill-formed lines; None when the parser indexes an empty line. */
  type Section = Option<(map<string, ReleaseEntry>, seq<string>)>

  function SectionFrom(lines: seq<string>, files: map<string, ReleaseEntry>, bad: seq<string>): Section
    decreases |lines|
  {
    if lines == [] then Some((files, bad))
    else if lines[0] == "" then None
    else if lines[0][0] != ' ' then Some((files, bad))
    else match SectionEntry(lines[0])
      case None => SectionFrom(lines[1..], files, bad + [lines[0]])
      case Some((d, e)) => SectionFrom(lines[1..], files[d := e], bad)
  }

  method ParseSignaturesSection(lines: seq<string>) returns (r: Section)
    ensures r == SectionFrom(lines, map[], [])
  {
    var files: map<string, ReleaseEntry>, bad: seq<string> := map[], [];
    var i := 0;
    while i < |lines|
      invariant i <= |lines|
      invariant SectionFrom(lines, map[], []) == SectionFrom(lines[i..], files, bad)
    {
      var line := lines[i];
      assert lines[i..][1..] == lines[i + 1..];
      if line == "" {
        return None;
      }
      if line[0] != ' ' {
        break;
      }
      i := i + 1;
      var f := Words(line);
      if |f| != 3 {
        bad := bad + [line];
        continue;
      }
      var digest := NewSha256Digest(f[0]);
      if digest == None {
        bad := bad + [line];
        continue;
      }
      var size := ParseUint(f[1], 10);
      if size == None || size.value >= 0x1_0000_0000_0000_0000 {
        bad := bad + [line];
        continue;
      }
      files := files[digest.value := ReleaseEntry(f[2], size.value)];
    }
    r := Some((files, bad));
  }

  /** The section ends at the first line that is not indented. */
  predicate Indented(lines: seq<string>, n: nat)
    requires n <= |lines|
  {
    forall j | 0 <= j < n :: lines[j] != "" && lines[j][0] == ' '
  }

  predicate HitsEmptyLine(lines: seq<string>) {
    exists i | 0 <= i < |lines| :: lines[i] == "" && Indented(lines, i)
  }

  /** Exactly when the section parser runs into an empty line it cannot index. */
  lemma {:induction false} SectionFailsIff(lines: seq<string>, files: map<string, ReleaseEntry>, bad: seq<string>)
    ensures SectionFrom(lines, files, bad).None? <==> HitsEmptyLine(lines)
    decreases |lines|
  {
    if lines != [] {
      var rest := lines[1..];
      if lines[0] == "" {
        assert Indented(lines, 0);
      } else if lines[0][0] == ' ' {
        match SectionEntry(lines[0]) {
          case None => SectionFailsIff(rest, files, bad + [lines[0]]);
          case Some((d, e)) => SectionFailsIff(rest, files[d := e], bad);
        }
        if HitsEmptyLine(rest) {
          var i :| 0 <= i < |rest| && rest[i] == "" && Indented(rest, i);
          assert forall j | 0 <= j < i + 1 :: j == 0 || lines[j] == rest[j - 1];
          assert lines[i + 1] == "" && Indented(lines, i + 1);
        }
        if HitsEmptyLine(lines) {
          var i :| 0 <= i < |lines| && lines[i] == "" && Indented(lines, i);
          assert forall j | 0 <= j < i - 1 :: rest[j] == lines[j + 1];
          assert rest[i - 1] == "" && Indented(rest, i - 1);
        }
      }
    }
  }

  /** Some line of the section lists digest `d`. */
  predicate Lists(lines: seq<string>, d: string) {
    exists i | 0 <= i < |lines| :: ListsAt(lines, i, d)
  }

  predicate ListsAt(lines: seq<string>, i: nat, d: string)
    requires i < |lines|
  {
    Indented(lines, i + 1) && SectionEntry(lines[i]).Some? && SectionEntry(lines[i]).value.0 == d
  }

  /** The files recorded are exactly those listed. */
  lemma {:induction false} FilesAreListed(lines: seq<string>, files: map<string, ReleaseEntry>, bad: seq<string>, d: string)
    requires SectionFrom(lines, files, bad).Some?
    ensures d in SectionFrom(lines, files, bad).value.0 <==> d in files || Lists(lines, d)
    decreases |lines|
  {
    if lines != [] && lines[0] != "" && lines[0][0] == ' ' {
      var rest := lines[1..];
      match SectionEntry(lines[0]) {
        case None => FilesAreListed(rest, files, bad + [lines[0]], d);
        case Some((h, e)) => FilesAreListed(rest, files[h := e], bad, d);
      }
      forall i | 0 <= i < |rest| ensures ListsAt(rest, i, d) <==> ListsAt(lines, i + 1, d) {
        assert forall j | 0 <= j < i + 1 :: rest[j] == lines[j + 1];
        if Indented(rest, i + 1) {
          assert forall j | 0 <= j < i + 2 :: j == 0 || lines[j] == rest[j - 1];
        }
      }
      assert ListsAt(lines, 0, d) <==> SectionEntry(lines[0]).Some? && SectionEntry(lines[0]).value.0 == d;
      if Lists(lines, d) && !ListsAt(lines, 0, d) {
        var i :| 0 <= i < |lines| && ListsAt(lines, i, d);
        assert ListsAt(rest, i - 1, d);
      }
      if Lists(rest, d) {
        var i :| 0 <= i < |rest| && ListsAt(rest, i, d);
        assert ListsAt(lines, i + 1, d);
      }
    }
  }

  /** The errors that reject a release file. */
  function ErrorNotes(bad: seq<string>, unverified: bool): Annotation {
    var format := if bad != [] then map["file format errors" := Texts(bad)] else map[];
    if unverified then format["integrity errors" := Texts(["signature verification failed"])] else format
  }

  predicate MissingFields(fields: Header) {
    !({"Origin", "Label", "Suite", "Version", "Codename", "Date", "Architectures", "Components"} <= fields.Keys)
  }

  /** A line of the section: a digest of 64 hexadecimal digits, a 64-bit size and a path. */
  predicate WellFormed(line: string) {
    var w := Words(line);
    && |w| == 3
    && |w[0]| == 64 && (forall i | 0 <= i < 64 :: IsDigit(w[0][i], 16))
    && w[1] != "" && (forall i | 0 <= i < |w[1]| :: IsDigit(w[1][i], 10))
    && ParseUint(w[1], 10).Some? && ParseUint(w[1], 10).value < 0x1_0000_0000_0000_0000
  }

  lemma EntryIff(line: string)
    ensures SectionEntry(line).Some? <==> WellFormed(line)
    ensures SectionEntry(line).Some? ==>
              var (d, e) := SectionEntry(line).value;
              NewSha256Digest(Words(line)[0]) == Some(d) && ParseUint(Words(line)[1], 10) == Some(e.size) && e.name == Words(line)[2]
  {
    var w := Words(line);
    if |w| == 3 {
      DecodesIff(w[0]);
      ParseUintIff(w[1], 10);
    }
  }

  /** Line `i` belongs to the section: it and all before it are indented. */
  predicate InSection(lines: seq<string>, i: nat) {
    i < |lines| && Indented(lines, i + 1)
  }

  predicate AllWellFormed(lines: seq<string>) {
    forall i | 0 <= i < |lines| && InSection(lines, i) :: WellFormed(lines[i])
  }

  /** The parser reports no line exactly when all are well-formed. */
  lemma {:induction false} SectionBadIff(lines: seq<string>, files: map<string, ReleaseEntry>, bad: seq<string>)
    requires SectionFrom(lines, files, bad).Some?
    ensures bad <= SectionFrom(lines, files, bad).value.1
    ensures SectionFrom(lines, files, bad).value.1 == bad <==> AllWellFormed(lines)
    decreases |lines|
  {
    if lines != [] && lines[0][0] == ' ' {
      var rest := lines[1..];
      EntryIff(lines[0]);
      assert InSection(lines, 0);
      match SectionEntry(lines[0]) {
        case None => SectionBadIff(rest, files, bad + [lines[0]]);
        case Some((d, e)) => SectionBadIff(rest, files[d := e], bad);
      }
      forall i: nat ensures InSection(rest, i) <==> InSection(lines, i + 1) {
        IndentedAfterFirst(lines, i);
      }
      if AllWellFormed(lines) {
        forall i: nat | InSection(rest, i) ensures WellFormed(rest[i]) {
          assert InSection(lines, i + 1);
        }
      }
      if WellFormed(lines[0]) && AllWellFormed(rest) {
        forall i: nat | InSection(lines, i) ensures WellFormed(lines[i]) {
          assert i > 0 ==> InSection(rest, i - 1);
        }
      }
    }
  }

  lemma IndentedAfterFirst(lines: seq<string>, i: nat)
    requires lines != [] && lines[0] != "" && lines[0][0] == ' '
    ensures InSection(lines[1..], i) <==> InSection(lines, i + 1)
  {
    if InSection(lines[1..], i) {
      forall j | 0 <= j < i + 2 ensures lines[j] != "" && lines[j][0] == ' ' {
        assert j > 0 ==> lines[j] == lines[1..][j - 1];
      }
    }
  }

  // The inspector

  /** Opinions, recorded releases, and whether the inspector returned an error or could not go on. */
  datatype Outcome = Outcome(releases: Releases, f: Findings, error: Option<string>, crashed: bool)

  function Says(o: Opinion, reason: Reason, m: Meta, notes: Annotation): Verdict {
    Verdict(o, reason, m, notes)
  }

  /** The notes the request inspector leaves for an index URL. */
  function IndexNotes(u: IndexUrl): Annotation {
    map["cfg-name" := Text(u.cfgName), "repository" := Text(u.repository), "suite" := Text(u.suite),
        "component" := Text(u.component), "architecture" := Text(u.architecture)]
  }

  function RequestIndex(c: Config, rs: Releases, f: Findings, u: IndexUrl): Findings {
    if AliasOr(c, DistOf(u), u.cfgName) in rs then
      SetRequest(f, ID, Says(Pending, ValidUrl, NO_METADATA, IndexNotes(u)))
    else
      SetRequest(f, ID, Says(Rejected, BeforeRelease, NO_METADATA, IndexNotes(u)))
  }

  function RequestOpinion(c: Config, rs: Releases, f: Findings, u: Url): Findings {
    match u.inRelease
    case Some(name) =>
      SetRequest(f, ID, Says(Pending, ValidUrl, NO_METADATA, map["cfg-name" := Text(name)]))
    case None =>
      if u.packages.Some? then RequestIndex(c, rs, f, u.packages.value)
      else if u.translation.Some? then RequestIndex(c, rs, f, u.translation.value)
      else if u.commands.Some? then RequestIndex(c, rs, f, u.commands.value)
      else f
  }

  function ReleaseMeta(fields: Header): Meta
    requires !MissingFields(fields)
  {
    var description := if "Description" in fields then fields["Description"] else fields["Origin"] + " " + fields["Suite"];
    Meta(APT_RELEASE, NO_DETAILS.(name := "InRelease", version := fields["Codename"], description := description,
                                  vendor := fields["Origin"], author := fields["Origin"], aptSuite := fields["Suite"]))
  }

  /** An InRelease file: approved and recorded only when its signature verifies under the key of
      its configuration entry and every listed line is well-formed. */
  function InRelease(c: Config, rs: Releases, f: Findings, s: Subject): Outcome {
    var same := Outcome(rs, f, None, false);
    match TextNote(f.request, ID, "cfg-name")
    case None => same
    case Some(name) =>
      if !s.clearsigned then same
      else
        var signed := s.signed(PublicKey(c, name));
        match HeaderFrom(if signed.Undecodable? then s.lines else signed.body, 0, map[])
        case None => same
        case Some((fields, section)) =>
          if MissingFields(fields) then same
          else match SectionFrom(section, map[], [])
            case None => same.(crashed := true)
            case Some((files, bad)) =>
              if bad != [] || !signed.Verified? then
                same.(f := SetResponse(f, ID, Says(Rejected, ParseError, ReleaseMeta(fields), ErrorNotes(bad, !signed.Verified?))))
              else
                var notes := map k | k in fields :: Text(fields[k]);
                same.(f := SetResponse(f, ID, Says(Approved, ReleaseValidated, ReleaseMeta(fields), notes)),
                      releases := rs[AliasOr(c, s.base, name) := ReleaseFile(s.digest, fields["Origin"], files)])
  }

  /** The header and section an InRelease download is read by, from its signed text or, when it does not decode,
      from its raw lines; nothing when the inspector does not take it for an InRelease file: no
      configuration entry was noted on request, it is not clearsigned, or a required field is
      missing. */
  function ReadAs(c: Config, f: Findings, s: Subject): Option<(Header, seq<string>)> {
    match TextNote(f.request, ID, "cfg-name")
    case None => None
    case Some(name) =>
      var signed := s.signed(KeyFor(c, name));
      var h := HeaderFrom(if signed.Undecodable? then s.lines else signed.body, 0, map[]);
      if s.clearsigned && h.Some?
         && {"Origin", "Label", "Suite", "Version", "Codename", "Date", "Architectures", "Components"} <= h.value.0.Keys
      then h else None
  }

  /** The public key of a configuration entry. */
  function KeyFor(c: Config, name: string): string {
    if name in c.repositories then c.repositories[name].publicKey else ""
  }

  /** The signature verifies under the key of the configuration entry noted on request. */
  predicate SignedBy(c: Config, f: Findings, s: Subject) {
    var name := TextNote(f.request, ID, "cfg-name");
    name.Some? && s.signed(KeyFor(c, name.value)).Verified?
  }

  /** Approved exactly when it reads as an InRelease file, its signature verifies, its section parses and every
      line of it is well-formed; rejected exactly when it reads as one and its section parses, but the
      signature does not verify or some line is ill-formed; and the inspector crashes exactly when it
      reads as one and the section has an empty line. Otherwise there is no opinion. The file is
      recorded, under its aliased repository, exactly on approval. */
  lemma InReleaseIff(c: Config, rs: Releases, f: Findings, s: Subject)
    requires ID !in f.response
    ensures var o, read := InRelease(c, rs, f, s), ReadAs(c, f, s);
            var good := SignedBy(c, f, s) && read.Some? && AllWellFormed(read.value.1);
            && (o.crashed <==> read.Some? && HitsEmptyLine(read.value.1))
            && (ID in o.f.response <==> read.Some? && !o.crashed)
            && (ID in o.f.response ==> o.f.response[ID].opinion == if good then Approved else Rejected)
            && o.error == None
            && (if ID in o.f.response && good then
                  var name := TextNote(f.request, ID, "cfg-name").value;
                  var repo := if name !in c.repositories || c.repositories[name].alias == "" then s.base
                              else c.join(c.repositories[name].alias, s.base);
                  repo in o.releases && o.releases == rs[repo := o.releases[repo]]
                  && o.releases[repo].sha256 == s.digest
                else o.releases == rs)
  {
    var read := ReadAs(c, f, s);
    if read.Some? {
      SectionFailsIff(read.value.1, map[], []);
      if !HitsEmptyLine(read.value.1) {
        SectionBadIff(read.value.1, map[], []);
      }
    }
  }

  /** What an approval records: the metadata taken from the header fields, every field as an annotation, and the
      vendor and files under the repository. */
  lemma InReleaseDetails(c: Config, rs: Releases, f: Findings, s: Subject)
    requires ID !in f.response && ReadAs(c, f, s).Some? && !Any(f.response, Approved)
    requires var g := InRelease(c, rs, f, s).f; ID in g.response && g.response[ID].opinion == Approved
    ensures var (fields, section) := ReadAs(c, f, s).value; var g := InRelease(c, rs, f, s).f;
            && g.kind == APT_RELEASE
            && g.details.version == fields["Codename"] && g.details.aptSuite == fields["Suite"]
            && g.details.vendor == g.details.author == fields["Origin"]
            && g.details.description == (if "Description" in fields then fields["Description"] else fields["Origin"] + " " + fields["Suite"])
            && (forall k | k in fields :: k in g.response[ID].notes && g.response[ID].notes[k] == Text(fields[k]))
    ensures var (fields, section) := ReadAs(c, f, s).value; var o := InRelease(c, rs, f, s);
            forall repo | repo in o.releases && (repo !in rs || o.releases[repo] != rs[repo]) ::
              o.releases[repo].vendor == fields["Origin"] && forall d :: d in o.releases[repo].files <==> Lists(section, d)
  {
    InReleaseIff(c, rs, f, s);
    var (fields, section) := ReadAs(c, f, s).value;
    forall d ensures d in SectionFrom(section, map[], []).value.0 <==> Lists(section, d) {
      FilesAreListed(section, map[], [], d);
    }
  }

  /** The notes left on a listed index file are those of the release on record: its digest and vendor, and the
      path it lists the file under. */
  lemma ListedNotes(c: Config, rs: Releases, f: Findings, s: Subject, u: IndexUrl, kind: string)
    requires IndexVerdict(c, rs, f, s, Some(u), kind).opinion == Unknown
    ensures TextNote(f.request, ID, "cfg-name").Some? && TextNote(f.request, ID, "cfg-name").value in c.repositories
    ensures var name := TextNote(f.request, ID, "cfg-name").value;
            var repo := if c.repositories[name].alias == "" then u.repository + "/dists/" + u.suite
                        else c.join(c.repositories[name].alias, u.repository + "/dists/" + u.suite);
            var v := IndexVerdict(c, rs, f, s, Some(u), kind);
            && repo in rs && s.digest in rs[repo].files
            && v.notes == map["file-path" := Text(rs[repo].files[s.digest].name), "release-file" := Text(rs[repo].sha256), "vendor" := Text(rs[repo].vendor)]
            && v.meta.kind == kind && v.meta.details.aptSuite == u.suite
            && (kind == APT_PACKAGES ==> v.meta.details.architecture == u.architecture)
  {
    IndexListedIff(c, rs, f, s, Some(u), kind);
  }

  /** What a request is told: an InRelease URL is left pending; a URL of another index file is so exactly when a
      release of its repository, by its alias if it has one, is on record, and rejected otherwise; the
      inspector has nothing to say on other URLs. */
  lemma RequestIff(c: Config, rs: Releases, f: Findings, u: Url)
    requires ID !in f.request
    ensures var g := RequestOpinion(c, rs, f, u);
            var index := if u.packages.Some? then u.packages else if u.translation.Some? then u.translation else u.commands;
            && (ID in g.request <==> u.inRelease.Some? || index.Some?)
            && (u.inRelease.Some? ==> g.request[ID].opinion == Pending)
            && (u.inRelease.None? && index.Some? ==>
                  var i := index.value;
                  var repo := i.repository + "/dists/" + i.suite;
                  var known := if i.cfgName !in c.repositories || c.repositories[i.cfgName].alias == "" then repo in rs
                               else c.join(c.repositories[i.cfgName].alias, repo) in rs;
                  g.request[ID].opinion == if known then Pending else Rejected)
            && g.response == f.response
  {
  }

  function Int64(n: nat): int {
    var m := n % 0x1_0000_0000_0000_0000;
    if m < 0x8000_0000_0000_0000 then m else m - 0x1_0000_0000_0000_0000
  }

  /** A listed size is compared as a 64-bit number. */
  lemma Int64Wraps(n: nat)
    ensures n < 0x8000_0000_0000_0000 ==> Int64(n) == n
    ensures 0x8000_0000_0000_0000 <= n < 0x1_0000_0000_0000_0000 ==> Int64(n) == n - 0x1_0000_0000_0000_0000
  {
  }

  function IndexDetails(kind: string, u: IndexUrl): Details {
    if kind == APT_PACKAGES then
      NO_DETAILS.(name := "Packages", description := u.suite + " " + u.component + " Packages file",
                  architecture := u.architecture, aptSuite := u.suite)
    else if kind == APT_TRANSLATION then NO_DETAILS.(name := "Translation", aptSuite := u.suite)
    else NO_DETAILS.(name := "Commands", description := "Commands list for command-not-found", aptSuite := u.suite)
  }

  /** The verdict on an index file whose path and digest are in order: is it listed? */
  function ListedVerdict(c: Config, rs: Releases, f: Findings, s: Subject, info: IndexUrl, md: Meta, checkSize: bool): Verdict {
    match TextNote(f.request, ID, "cfg-name")
    case None => Says(Rejected, UnknownRepository, md, map[])
    case Some(name) =>
      var repo := RepositoryAlias(c, DistOf(info), name);
      if repo.None? then Says(Rejected, UnknownConfiguration, md, map["cfg-name" := Text(name)])
      else if repo.value !in rs then Says(Rejected, NoRelease, md, map[])
      else
        var rel := rs[repo.value];
        if s.digest !in rel.files then Says(Rejected, NotListed, md, map[])
        else if checkSize && Int64(rel.files[s.digest].size) != s.size then Says(Rejected, SizeMismatch, md, map[])
        else Says(Unknown, ListedInRelease, md,
                  map["file-path" := Text(rel.files[s.digest].name), "release-file" := Text(rel.sha256), "vendor" := Text(rel.vendor)])
  }

  /** The verdict on an index file: a Packages file may be named by its digest in the URL, and the
      size listed counts for the others only. */
  function IndexVerdict(c: Config, rs: Releases, f: Findings, s: Subject, u: Option<IndexUrl>, kind: string): Verdict {
    var bare := Meta(kind, NO_DETAILS);
    if u.None? then Says(Rejected, InvalidPath, bare, map[])
    else
      var info := u.value;
      var md := Meta(kind, IndexDetails(kind, info));
      var byHash := NewSha256Digest(info.digest);
      if kind == APT_PACKAGES && info.digest != "" && byHash.None? then Says(Rejected, InvalidDigest, md, map[])
      else if kind == APT_PACKAGES && info.digest != "" && byHash.value != s.digest then Says(Rejected, DigestMismatch, md, map[])
      else ListedVerdict(c, rs, f, s, info, md, kind != APT_PACKAGES)
  }

  /** The release on record for the repository the URL points to lists the file, with its size where
      that counts. The repository goes by its alias, if the configuration entry noted on request gives
      it one. */
  predicate ListedOnRecord(c: Config, rs: Releases, f: Findings, s: Subject, info: IndexUrl, sizeCounts: bool) {
    && TextNote(f.request, ID, "cfg-name").Some?
    && var name := TextNote(f.request, ID, "cfg-name").value;
    && name in c.repositories
    && var repo := if c.repositories[name].alias == "" then DistOf(info) else c.join(c.repositories[name].alias, DistOf(info));
    && repo in rs && s.digest in rs[repo].files
    && (sizeCounts ==> Int64(rs[repo].files[s.digest].size) == s.size)
  }

  /** When an index file counts as listed, for every configuration, record and download: the path
      parses, a digest in the URL is that of the file, and the release on record for its repository
      lists it, with its size except for Packages files. */
  lemma IndexListedIff(c: Config, rs: Releases, f: Findings, s: Subject, u: Option<IndexUrl>, kind: string)
    ensures IndexVerdict(c, rs, f, s, u, kind).opinion in {Unknown, Rejected}
    ensures IndexVerdict(c, rs, f, s, u, kind).opinion == Unknown <==>
            && u.Some?
            && (kind == APT_PACKAGES && u.value.digest != "" ==> NewSha256Digest(u.value.digest) == Some(s.digest))
            && ListedOnRecord(c, rs, f, s, u.value, kind != APT_PACKAGES)
    ensures IndexVerdict(c, rs, f, s, u, kind).opinion == Unknown <==> "release-file" in IndexVerdict(c, rs, f, s, u, kind).notes
  {
    if u.Some? {
      ListedIff(c, rs, f, s, u.value, Meta(kind, IndexDetails(kind, u.value)), kind != APT_PACKAGES);
    }
  }

  lemma ListedIff(c: Config, rs: Releases, f: Findings, s: Subject, info: IndexUrl, md: Meta, checkSize: bool)
    ensures var v := ListedVerdict(c, rs, f, s, info, md, checkSize);
            && v.opinion in {Unknown, Rejected}
            && (v.opinion == Unknown <==> "release-file" in v.notes)
            && (v.opinion == Unknown <==> ListedOnRecord(c, rs, f, s, info, checkSize))
  {
  }

  function Index(c: Config, rs: Releases, f: Findings, s: Subject, kind: string): Outcome {
    match s.url
    case None => Outcome(rs, f, Some("cannot parse URL"), false)
    case Some(u) =>
      var info := if kind == APT_PACKAGES then u.packages else if kind == APT_TRANSLATION then u.translation else u.commands;
      Outcome(rs, SetResponse(f, ID, IndexVerdict(c, rs, f, s, info, kind)), None, false)
  }

  function Inspect(c: Config, rs: Releases, f: Findings, s: Subject): Outcome {
    if MimetypeIs(f, s, APT_PACKAGES) then Index(c, rs, f, s, APT_PACKAGES)
    else if MimetypeIs(f, s, APT_TRANSLATION) then Index(c, rs, f, s, APT_TRANSLATION)
    else if MimetypeIs(f, s, APT_COMMANDS) then Index(c, rs, f, s, APT_COMMANDS)
    else if !MimetypeIs(f, s, TEXT_PLAIN) then Outcome(rs, f, None, false)
    else InRelease(c, rs, f, s)
  }

  /** Of all the inspector sees it approves InRelease files only: plain text that is none of the index files. */
  lemma ApprovesInRelease(c: Config, rs: Releases, f: Findings, s: Subject)
    requires ID !in f.response
    requires var g := Inspect(c, rs, f, s).f; ID in g.response && g.response[ID].opinion == Approved
    ensures SignedBy(c, f, s) && ReadAs(c, f, s).Some? && AllWellFormed(ReadAs(c, f, s).value.1)
    ensures MimetypeIs(f, s, TEXT_PLAIN) && !MimetypeIs(f, s, APT_PACKAGES) && !MimetypeIs(f, s, APT_TRANSLATION) && !MimetypeIs(f, s, APT_COMMANDS)
  {
    if MimetypeIs(f, s, APT_PACKAGES) {
      IndexNotApproved(c, rs, f, s, APT_PACKAGES);
    } else if MimetypeIs(f, s, APT_TRANSLATION) {
      IndexNotApproved(c, rs, f, s, APT_TRANSLATION);
    } else if MimetypeIs(f, s, APT_COMMANDS) {
      IndexNotApproved(c, rs, f, s, APT_COMMANDS);
    } else {
      InReleaseIff(c, rs, f, s);
    }
  }

  lemma IndexNotApproved(c: Config, rs: Releases, f: Findings, s: Subject, kind: string)
    requires ID !in f.response
    ensures var g := Index(c, rs, f, s, kind).f; ID in g.response ==> g.response[ID].opinion != Approved
  {
    if s.url.Some? {
      var u := s.url.value;
      IndexListedIff(c, rs, f, s, if kind == APT_PACKAGES then u.packages else if kind == APT_TRANSLATION then u.translation else u.commands, kind);
    }
  }

  predicate IsType(f: Findings, s: Subject, t: string) {
    f.kind == t || t in s.mimes
  }

  /** The index files' checks by type. An error is returned exactly for a bad URL, and otherwise the file is not
      rejected exactly when it is listed, by the URL of its own kind. */
  lemma IndexFileIff(c: Config, rs: Releases, f: Findings, s: Subject)
    requires ID !in f.response && (IsType(f, s, APT_PACKAGES) || IsType(f, s, APT_TRANSLATION) || IsType(f, s, APT_COMMANDS))
    ensures var o := Inspect(c, rs, f, s);
            && o.releases == rs && !o.crashed
            && (o.error.Some? <==> s.url == None)
            && (ID in o.f.response <==> s.url.Some?)
    ensures s.url.Some? ==>
              var u := s.url.value; var i := Inspect(c, rs, f, s).f.response[ID];
              var packages := IsType(f, s, APT_PACKAGES);
              var info := if packages then u.packages else if IsType(f, s, APT_TRANSLATION) then u.translation else u.commands;
              var listed := && info.Some?
                            && (packages && info.value.digest != "" ==> NewSha256Digest(info.value.digest) == Some(s.digest))
                            && ListedOnRecord(c, rs, f, s, info.value, !packages);
              i.opinion == if listed then Unknown else Rejected
  {
    if s.url.Some? {
      var u := s.url.value;
      if IsType(f, s, APT_PACKAGES) {
        IndexListedIff(c, rs, f, s, u.packages, APT_PACKAGES);
      } else if IsType(f, s, APT_TRANSLATION) {
        IndexListedIff(c, rs, f, s, u.translation, APT_TRANSLATION);
      } else {
        IndexListedIff(c, rs, f, s, u.commands, APT_COMMANDS);
      }
    }
  }

  /** Anything else is inspected only when it is plain text, as an InRelease file. */
  lemma OtherFileIff(c: Config, rs: Releases, f: Findings, s: Subject)
    requires !IsType(f, s, APT_PACKAGES) && !IsType(f, s, APT_TRANSLATION) && !IsType(f, s, APT_COMMANDS)
    ensures Inspect(c, rs, f, s) == if IsType(f, s, "text/plain") then InRelease(c, rs, f, s) else Outcome(rs, f, None, false)
  {
  }

  class AptReleaseInspector {
    const config: Config
    var release: Releases

    constructor (config: Config)
      ensures this.config == config && release == map[]
    {
      this.config := config;
      release := map[];
    }

    method InspectRequest(a: Artifact, s: Subject) returns (error: Option<string>)
      modifies a
      ensures match s.url
              case None => error.Some? && a.View() == old(a.View())
              case Some(u) => error.None? && a.View() == RequestOpinion(config, release, old(a.View()), u)
    {
      if s.url == None {
        return Some("cannot parse URL");
      }
      var u := s.url.value;
      if u.inRelease.Some? {
        a.SetRequestOpinion(ID, Says(Pending, ValidUrl, NO_METADATA, map["cfg-name" := Text(u.inRelease.value)]));
      } else if u.packages.Some? {
        RequestIndexFile(a, u.packages.value);
      } else if u.translation.Some? {
        RequestIndexFile(a, u.translation.value);
      } else if u.commands.Some? {
        RequestIndexFile(a, u.commands.value);
      }
      error := None;
    }

    /** An index file may only be requested once a Release of its repository is known. */
    method RequestIndexFile(a: Artifact, u: IndexUrl)
      modifies a
      ensures a.View() == RequestIndex(config, release, old(a.View()), u)
    {
      if AliasOr(config, DistOf(u), u.cfgName) in release {
        a.SetRequestOpinion(ID, Says(Pending, ValidUrl, NO_METADATA, IndexNotes(u)));
      } else {
        a.SetRequestOpinion(ID, Says(Rejected, BeforeRelease, NO_METADATA, IndexNotes(u)));
      }
    }

    method InspectArtifact(a: Artifact, s: Subject) returns (error: Option<string>, crashed: bool)
      modifies this, a
      ensures Outcome(release, a.View(), error, crashed) == Inspect(config, old(release), old(a.View()), s)
    {
      error, crashed := None, false;
      if MimetypeIs(a.View(), s, APT_PACKAGES) {
        error := ValidatePackagesFile(a, s);
      } else if MimetypeIs(a.View(), s, APT_TRANSLATION) {
        error := ValidateTranslationFile(a, s);
      } else if MimetypeIs(a.View(), s, APT_COMMANDS) {
        error := ValidateCommandsFile(a, s);
      } else if MimetypeIs(a.View(), s, TEXT_PLAIN) {
        crashed := InspectInRelease(a, s);
      }
    }

    method InspectInRelease(a: Artifact, s: Subject) returns (crashed: bool)
      modifies this, a
      ensures Outcome(release, a.View(), None, crashed) == InRelease(config, old(release), old(a.View()), s)
    {
      crashed := false;
      var cfgName := TextNote(a.request, ID, "cfg-name");
      if cfgName == None || !s.clearsigned {
        return;
      }
      var signed := s.signed(PublicKey(config, cfgName.value));
      var parsed := ParseUpToSignatures(if signed.Undecodable? then s.lines else signed.body);
      if parsed == None {
        return;
      }
      var (fields, rest) := parsed.value;
      if MissingFields(fields) {
        return;
      }
      var section := ParseSignaturesSection(rest);
      if section == None {
        return true;
      }
      var (files, bad) := section.value;
      if bad != [] || !signed.Verified? {
        a.SetResponseOther(ID, Says(Rejected, ParseError, ReleaseMeta(fields), ErrorNotes(bad, !signed.Verified?)));
        return;
      }
      var notes := map k | k in fields :: Text(fields[k]);
      a.SetResponseApproved(ID, ReleaseValidated, ReleaseMeta(fields), notes);
      release := release[AliasOr(config, s.base, cfgName.value) := ReleaseFile(s.digest, fields["Origin"], files)];
    }

    method ValidatePackagesFile(a: Artifact, s: Subject) returns (error: Option<string>)
      modifies a
      ensures Outcome(release, a.View(), error, false) == Index(config, release, old(a.View()), s, APT_PACKAGES)
    {
      if s.url == None {
        return Some("cannot parse URL");
      }
      var md := Meta(APT_PACKAGES, NO_DETAILS);
      if s.url.value.packages == None {
        a.SetResponseOther(ID, Says(Rejected, InvalidPath, md, map[]));
        return None;
      }
      var info := s.url.value.packages.value;
      md := md.(details := NO_DETAILS.(name := "Packages", description := info.suite + " " + info.component + " Packages file",
                                       architecture := info.architecture, aptSuite := info.suite));
      if info.digest != "" {
        var sha256 := NewSha256Digest(info.digest);
        if sha256 == None {
          a.SetResponseOther(ID, Says(Rejected, InvalidDigest, md, map[]));
          return None;
        }
        if sha256.value != s.digest {
          a.SetResponseOther(ID, Says(Rejected, DigestMismatch, md, map[]));
          return None;
        }
      }
      CheckListed(a, s, info, md, false);
      return None;
    }

    method ValidateTranslationFile(a: Artifact, s: Subject) returns (error: Option<string>)
      modifies a
      ensures Outcome(release, a.View(), error, false) == Index(config, release, old(a.View()), s, APT_TRANSLATION)
    {
      if s.url == None {
        return Some("cannot parse URL");
      }
      var md := Meta(APT_TRANSLATION, NO_DETAILS);
      if s.url.value.translation == None {
        a.SetResponseOther(ID, Says(Rejected, InvalidPath, md, map[]));
        return None;
      }
      var info := s.url.value.translation.value;
      md := md.(details := NO_DETAILS.(name := "Translation", aptSuite := info.suite));
      CheckListed(a, s, info, md, true);
      return None;
    }

    method ValidateCommandsFile(a: Artifact, s: Subject) returns (error: Option<string>)
      modifies a
      ensures Outcome(release, a.View(), error, false) == Index(config, release, old(a.View()), s, APT_COMMANDS)
    {
      if s.url == None {
        return Some("cannot parse URL");
      }
      var md := Meta(APT_COMMANDS, NO_DETAILS);
      if s.url.value.commands == None {
        a.SetResponseOther(ID, Says(Rejected, InvalidPath, md, map[]));
        return None;
      }
      var info := s.url.value.commands.value;
      md := md.(details := NO_DETAILS.(name := "Commands", description := "Commands list for command-not-found", aptSuite := info.suite));
      CheckListed(a, s, info, md, true);
      return None;
    }

    /** The part the three share: find the release of the repository, and the file in it. */
    method CheckListed(a: Artifact, s: Subject, info: IndexUrl, md: Meta, checkSize: bool)
      modifies a
      ensures a.View() == SetResponse(old(a.View()), ID, ListedVerdict(config, release, old(a.View()), s, info, md, checkSize))
    {
      var cfgName := TextNote(a.request, ID, "cfg-name");
      if cfgName == None {
        a.SetResponseOther(ID, Says(Rejected, UnknownRepository, md, map[]));
        return;
      }
      var repo := RepositoryAlias(config, DistOf(info), cfgName.value);
      if repo == None {
        a.SetResponseOther(ID, Says(Rejected, UnknownConfiguration, md, map["cfg-name" := Text(cfgName.value)]));
        return;
      }
      if repo.value !in release {
        a.SetResponseOther(ID, Says(Rejected, NoRelease, md, map[]));
        return;
      }
      var rel := release[repo.value];
      if s.digest !in rel.files {
        a.SetResponseOther(ID, Says(Rejected, NotListed, md, map[]));
        return;
      }
      var entry := rel.files[s.digest];
      if checkSize && Int64(entry.size) != s.size {
        a.SetResponseOther(ID, Says(Rejected, SizeMismatch, md, map[]));
        return;
      }
      a.SetResponseOther(ID, Says(Unknown, ListedInRelease, md,
                                  map["file-path" := Text(entry.name), "release-file" := Text(rel.sha256), "vendor" := Text(rel.vendor)]));
    }
  }
}
