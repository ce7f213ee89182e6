/** Writing release files, and reading them back. */
module ReleaseText {
  import opened Basics
  import opened Numbers
  import opened Digests
  import opened AptRelease
  import Opinions

  // Header fields

  function FieldLine(field: (string, string)): string {
    field.0 + [':'] + (" " + field.1)
  }

  function PrintFields(fields: seq<(string, string)>): seq<string> {
    if fields == [] then [] else [FieldLine(fields[0])] + PrintFields(fields[1..])
  }

  predicate PlainField(field: (string, string)) {
    && field.0 != "" && ':' !in field.0 && field.0[0] != ' ' && field.0 != "SHA256"
    && field.1 != "" && Trimmed(field.1)
  }

  predicate AllPlain(fields: seq<(string, string)>) {
    forall i | 0 <= i < |fields| :: PlainField(fields[i])
  }

  /** The fields in order, later ones winning. */
  function Collect(h: Header, fields: seq<(string, string)>): Header
    decreases |fields|
  {
    if fields == [] then h else Collect(h[fields[0].0 := fields[0].1], fields[1..])
  }

  lemma TrimAfterSpace(v: string)
    requires v != "" && Trimmed(v)
    ensures TrimSpace(" " + v) == v
  {
    assert (" " + v)[1..] == v;
    assert TrimLeft(" " + v) == TrimLeft(v) == v;
  }

  lemma FieldRead(field: (string, string))
    requires PlainField(field)
    ensures FieldLine(field) != "" && FieldLine(field)[0] != ' '
    ensures Cut(FieldLine(field), ':') == Some((field.0, " " + field.1)) && TrimSpace(" " + field.1) == field.1
  {
    CutFirst(field.0, ':', " " + field.1);
    TrimAfterSpace(field.1);
    assert FieldLine(field)[0] == field.0[0];
  }

  lemma HeaderStep(field: (string, string), more: seq<string>, n: nat, h: Header)
    requires PlainField(field) && n <= 100
    ensures HeaderFrom([FieldLine(field)] + more, n, h) == HeaderFrom(more, n + 1, h[field.0 := field.1])
  {
    FieldRead(field);
    assert ([FieldLine(field)] + more)[1..] == more;
  }

  lemma HeaderEnds(section: seq<string>, n: nat, h: Header)
    ensures HeaderFrom(["SHA256:"] + section, n, h) == Some((h, section))
  {
    assert "SHA256:" == "SHA256" + [':'] + "";
    CutFirst("SHA256", ':', "");
    assert (["SHA256:"] + section)[1..] == section;
  }

  /** Up to 101 header fields are read back as written, and the section is what follows them. */
  lemma {:induction false} HeaderRoundTrip(fields: seq<(string, string)>, section: seq<string>, n: nat, h: Header)
    requires AllPlain(fields) && n + |fields| <= 101
    ensures HeaderFrom(PrintFields(fields) + (["SHA256:"] + section), n, h) == Some((Collect(h, fields), section))
    decreases |fields|
  {
    var last := ["SHA256:"] + section;
    if fields == [] {
      assert PrintFields(fields) + last == last;
      HeaderEnds(section, n, h);
    } else {
      var more := PrintFields(fields[1..]) + last;
      assert PrintFields(fields) + last == [FieldLine(fields[0])] + more;
      HeaderStep(fields[0], more, n, h);
      HeaderRoundTrip(fields[1..], section, n + 1, h[fields[0].0 := fields[0].1]);
    }
  }

  // The SHA256 section

  predicate IsWord(w: string) {
    w != "" && forall c | c in w :: !IsSpace(c)
  }

  /** The rest of a line after a word. */
  predicate WordEnds(rest: string) {
    rest == "" || IsSpace(rest[0])
  }

  lemma FirstWord(w: string, rest: string)
    requires IsWord(w) && WordEnds(rest)
    ensures Words(" " + w + rest) == [w] + Words(rest)
  {
    var s := " " + w + rest;
    assert s[1..] == w + rest;
    LeadingSpace(s);
    LeadingWord(w, rest);
  }

  lemma ThreeWords(a: string, b: string, d: string)
    requires IsWord(a) && IsWord(b) && IsWord(d)
    ensures Words(" " + a + (" " + b + (" " + d + ""))) == [a, b, d]
  {
    FirstWord(d, "");
    FirstWord(b, " " + d + "");
    FirstWord(a, " " + b + (" " + d + ""));
    assert Words("") == [];
  }

  /** One file of a release: digest, and size and path. */
  type Listed = (string, ReleaseEntry)

  predicate Listable(e: Listed) {
    |e.0| == 32 && IsBytes(e.0) && IsWord(e.1.name) && e.1.size < 0x1_0000_0000_0000_0000
  }

  function SectionLine(e: Listed): string
    requires Listable(e)
  {
    " " + EncodeHex(e.0) + (" " + Digits(e.1.size, 10) + (" " + e.1.name + ""))
  }

  lemma DigitsWord(n: nat)
    ensures IsWord(Digits(n, 10))
    decreases n
  {
    if n >= 10 {
      DigitsWord(n / 10);
    }
  }

  lemma SectionLineRead(e: Listed)
    requires Listable(e)
    ensures SectionEntry(SectionLine(e)) == Some(e)
    ensures SectionLine(e) != "" && SectionLine(e)[0] == ' '
  {
    HexRoundTrip(e.0);
    DigitsWord(e.1.size);
    DigitsReadBack(e.1.size);
    ThreeWords(EncodeHex(e.0), Digits(e.1.size, 10), e.1.name);
  }

  lemma DigitsReadBack(n: nat)
    ensures ParseUint(Digits(n, 10), 10) == Some(n)
  {
    ValueOfDigits(n, 10);
  }

  predicate AllListable(es: seq<Listed>) {
    forall i | 0 <= i < |es| :: Listable(es[i])
  }

  function PrintSection(es: seq<Listed>): seq<string>
    requires AllListable(es)
  {
    if es == [] then [] else [SectionLine(es[0])] + PrintSection(es[1..])
  }

  function CollectFiles(files: map<string, ReleaseEntry>, es: seq<Listed>): map<string, ReleaseEntry>
    decreases |es|
  {
    if es == [] then files else CollectFiles(files[es[0].0 := es[0].1], es[1..])
  }

  /** The listed files are read back as written, up to the end of the text or a line that is not
      indented. */
  lemma {:induction false} SectionRoundTrip(es: seq<Listed>, files: map<string, ReleaseEntry>, bad: seq<string>, after: seq<string>)
    requires AllListable(es) && (after == [] || (after[0] != "" && after[0][0] != ' '))
    ensures SectionFrom(PrintSection(es) + after, files, bad) == Some((CollectFiles(files, es), bad))
    decreases |es|
  {
    if es == [] {
      assert PrintSection(es) + after == after;
    } else {
      var more := PrintSection(es[1..]) + after;
      assert PrintSection(es) + after == [SectionLine(es[0])] + more;
      assert ([SectionLine(es[0])] + more)[1..] == more;
      SectionLineRead(es[0]);
      SectionRoundTrip(es[1..], files[es[0].0 := es[0].1], bad, after);
    }
  }

  function PrintRelease(fields: seq<(string, string)>, es: seq<Listed>): seq<string>
    requires AllListable(es)
  {
    PrintFields(fields) + (["SHA256:"] + PrintSection(es))
  }

  /** A written release is read back: its header fields and the files it lists, later entries for a
      field or digest winning. */
  lemma ReleaseRoundTrip(fields: seq<(string, string)>, es: seq<Listed>)
    requires AllPlain(fields) && |fields| <= 101 && AllListable(es)
    ensures var lines := PrintRelease(fields, es);
            && HeaderFrom(lines, 0, map[]) == Some((Collect(map[], fields), PrintSection(es)))
            && SectionFrom(PrintSection(es), map[], []) == Some((CollectFiles(map[], es), []))
  {
    HeaderRoundTrip(fields, PrintSection(es), 0, map[]);
    SectionRoundTrip(es, map[], [], []);
    assert PrintSection(es) + [] == PrintSection(es);
  }

  lemma {:induction false} Collected(h: Header, fields: seq<(string, string)>, k: string)
    ensures k in Collect(h, fields) <==> k in h || exists i | 0 <= i < |fields| :: fields[i].0 == k
    decreases |fields|
  {
    if fields != [] {
      Collected(h[fields[0].0 := fields[0].1], fields[1..], k);
      if i :| 0 <= i < |fields[1..]| && fields[1..][i].0 == k {
        assert fields[i + 1].0 == k;
      }
      if i :| 0 < i < |fields| && fields[i].0 == k {
        assert fields[1..][i - 1].0 == k;
      }
    }
  }

  /** The header fields every release must have. */
  const REQUIRED: seq<string> :=
    ["Origin", "Label", "Suite", "Version", "Codename", "Date", "Architectures", "Components"]

  function Minimal(v: string): seq<(string, string)> {
    [("Origin", v), ("Label", v), ("Suite", v), ("Version", v), ("Codename", v), ("Date", v), ("Architectures", v), ("Components", v)]
  }

  lemma MinimalIsEnough(v: string)
    requires v != "" && Trimmed(v)
    ensures AllPlain(Minimal(v)) && !MissingFields(Collect(map[], Minimal(v)))
  {
    var fields := Minimal(v);
    forall i | 0 <= i < 8 ensures REQUIRED[i] in Collect(map[], fields) {
      assert fields[i].0 == REQUIRED[i];
      Collected(map[], fields, REQUIRED[i]);
    }
    assert {"Origin", "Label", "Suite", "Version", "Codename", "Date", "Architectures", "Components"} <= Collect(map[], fields).Keys by {
      assert REQUIRED[0] == "Origin" && REQUIRED[1] == "Label" && REQUIRED[2] == "Suite" && REQUIRED[3] == "Version";
      assert REQUIRED[4] == "Codename" && REQUIRED[5] == "Date" && REQUIRED[6] == "Architectures" && REQUIRED[7] == "Components";
    }
  }

  // A release that crashes its inspector

  /** An InRelease with an empty section line: everything is in order up to there. */
  function CrashingRelease(u: Url, v: string): Subject {
    var lines := PrintFields(Minimal(v)) + (["SHA256:"] + [""]);
    Subject("", 0, {TEXT_PLAIN}, Some(u), "", true, lines, key => Verified(lines), None, (Opinions.NO_METADATA, None))
  }

  /** The code can receive it: whatever the configuration and the releases on record, a download from
      an InRelease URL with this content crashes the release inspector. */
  lemma CrashExample(c: Config, rs: Releases, u: Url, v: string)
    requires u.inRelease.Some? && v != "" && Trimmed(v)
    ensures Inspect(c, rs, RequestOpinion(c, rs, Opinions.FRESH.(kind := TEXT_PLAIN), u), CrashingRelease(u, v)).crashed
  {
    var s, fields := CrashingRelease(u, v), Minimal(v);
    var f := RequestOpinion(c, rs, Opinions.FRESH.(kind := TEXT_PLAIN), u);
    HeaderRoundTrip(fields, [""], 0, map[]);
    MinimalIsEnough(v);
    InReleaseRequest(c, rs, Opinions.FRESH.(kind := TEXT_PLAIN), u);
    PlainText(f, s);
    CrashesOn(c, rs, f, s, s.lines, Collect(map[], fields), [""]);
  }

  lemma InReleaseRequest(c: Config, rs: Releases, f: Opinions.Findings, u: Url)
    requires u.inRelease.Some?
    ensures var g := RequestOpinion(c, rs, f, u);
            TextNote(g.request, ID, "cfg-name") == u.inRelease && g.kind == f.kind
  {
  }

  lemma CrashesOn(c: Config, rs: Releases, f: Opinions.Findings, s: Subject, body: seq<string>, h: Header, section: seq<string>)
    requires MimetypeIs(f, s, TEXT_PLAIN)
    requires !MimetypeIs(f, s, APT_PACKAGES) && !MimetypeIs(f, s, APT_TRANSLATION) && !MimetypeIs(f, s, APT_COMMANDS)
    requires TextNote(f.request, ID, "cfg-name").Some? && s.clearsigned
    requires s.signed(PublicKey(c, TextNote(f.request, ID, "cfg-name").value)) == Verified(body)
    requires HeaderFrom(body, 0, map[]) == Some((h, section)) && !MissingFields(h) && section == [""]
    ensures Inspect(c, rs, f, s).crashed
  {
    assert SectionFrom(section, map[], []) == None;
    assert InRelease(c, rs, f, s).crashed;
  }

  lemma PlainText(f: Opinions.Findings, s: Subject)
    requires f.kind == TEXT_PLAIN && s.mimes == {TEXT_PLAIN}
    ensures MimetypeIs(f, s, TEXT_PLAIN)
    ensures !MimetypeIs(f, s, APT_PACKAGES) && !MimetypeIs(f, s, APT_TRANSLATION) && !MimetypeIs(f, s, APT_COMMANDS)
  {
    assert TEXT_PLAIN[0] == 't' && APT_PACKAGES[0] == 'a' && APT_TRANSLATION[0] == 'a' && APT_COMMANDS[0] == 'a';
  }
}
