/** The check of a wheel's members against its RECORD file. */
module WheelRecord {
  import opened Basics
  import opened Numbers
  import opened Opinions

  datatype Member = Member(name: string, sha256: string, size: int)

  type Members = map<string, Member>

  /** Base64 decoding of a digest, outside the model. */
  type Decoder = string -> Option<string>

  const DIGEST_SIZE := 32

  /** Copying a decoded digest into a 32-byte array: cut off, or padded with zeros. */
  function Copied(d: string): string {
    if |d| >= DIGEST_SIZE then d[..DIGEST_SIZE] else d + seq(DIGEST_SIZE - |d|, i => 0 as char)
  }

  /** The name-to-member map: of several members with one name the last counts. */
  function ByName(files: seq<Member>): Members {
    if files == [] then map[] else ByName(files[..|files| - 1])[files[|files| - 1].name := files[|files| - 1]]
  }

  function NameOf(line: string): string {
    Split(line, ',')[0]
  }

  /** The line RECORD has for itself: its own name and no digest. */
  predicate Own(rname: string, line: string) {
    |Split(line, ',')| == 3 && Split(line, ',')[1] == "" && NameOf(line) == rname
  }

  /** What can be wrong with a line. */
  datatype Fault = MalformedEntry | MalformedSize | SizeDiffers | UnknownDigestType | DigestUnreadable | DigestDiffers

  /** What one line does: strike its member off, end the check with a fault, or index past the end
      of a digest that has no '='. */
  datatype LineResult = Strikes | Faulty(fault: Fault) | Lacking | Crashes

  /** The digest field after its "sha256=" prefix. */
  datatype DigestField = Foreign | Cropped | Sha256(text: string)

  function ReadDigest(digest: string): DigestField {
    match Cut(digest, '=')
    case None => if digest == "sha256" then Cropped else Foreign
    case Some((kind, text)) => if kind == "sha256" then Sha256(text) else Foreign
  }

  function SizeIn(m: Members, name: string): int {
    if name in m then m[name].size else 0
  }

  function CheckLine(decode: Decoder, rname: string, m: Members, line: string): LineResult {
    var x := Split(line, ',');
    if |x| != 3 then Faulty(MalformedEntry)
    else if Own(rname, line) then Strikes
    else match ParseInt64(x[2])
      case None => Faulty(MalformedSize)
      case Some(size) =>
        if size != SizeIn(m, x[0]) then Faulty(SizeDiffers)
        else match ReadDigest(x[1])
          case Foreign => Faulty(UnknownDigestType)
          case Cropped => Crashes
          case Sha256(text) => CheckDigest(decode, m, x[0], text)
  }

  function CheckDigest(decode: Decoder, m: Members, name: string, text: string): LineResult {
    match decode(text)
    case None => Faulty(DigestUnreadable)
    case Some(d) =>
      if name !in m then Lacking
      else if m[name].sha256 != Copied(d) then Faulty(DigestDiffers)
      else Strikes
  }

  /** The faults noted by a whole check, or nothing when it crashes. */
  datatype Faults = Faults(integrity: seq<Fault>, missing: seq<string>, extra: set<string>) | Crash

  const NO_FAULTS := Faults([], [], {})

  function Check(decode: Decoder, rname: string, m: Members, lines: seq<string>): Faults
    decreases |lines|
  {
    if lines == [] then Faults([], [], m.Keys)
    else match CheckLine(decode, rname, m, lines[0])
      case Strikes => Check(decode, rname, m - {NameOf(lines[0])}, lines[1..])
      case Faulty(fault) => Faults([fault], [], {})
      case Lacking => Faults([], [NameOf(lines[0])], {})
      case Crashes => Crash
  }

  class WheelNotes {
    var requirementFaults: seq<string>
    var integrityFaults: seq<Fault>
    var missingFiles: seq<string>
    var extraFiles: seq<string>

    constructor ()
      ensures requirementFaults == missingFiles == extraFiles == [] && integrityFaults == []
    {
      requirementFaults, integrityFaults, missingFiles, extraFiles := [], [], [], [];
    }

    function View(): Faults
      reads this
    {
      Faults(integrityFaults, missingFiles, set k | k in extraFiles)
    }
  }

  method CheckRecord(decode: Decoder, rname: string, lines: seq<string>, files: seq<Member>, notes: WheelNotes) returns (crashed: bool)
    requires notes.View() == NO_FAULTS
    modifies notes
    ensures notes.requirementFaults == old(notes.requirementFaults)
    ensures crashed <==> Check(decode, rname, ByName(files), lines).Crash?
    ensures !crashed ==> notes.View() == Check(decode, rname, ByName(files), lines)
  {
    var fileMap: Members := map[];
    for i := 0 to |files|
      invariant fileMap == ByName(files[..i])
    {
      assert files[..i + 1][..i] == files[..i];
      fileMap := fileMap[files[i].name := files[i]];
    }
    assert files[..|files|] == files;
    for i := 0 to |lines|
      invariant notes.View() == NO_FAULTS && notes.requirementFaults == old(notes.requirementFaults)
      invariant Check(decode, rname, ByName(files), lines) == Check(decode, rname, fileMap, lines[i..])
    {
      assert lines[i..][1..] == lines[i + 1..];
      var stop;
      stop, crashed := TakeLine(decode, rname, lines[i], fileMap, notes);
      if stop || crashed {
        return;
      }
      fileMap := fileMap - {NameOf(lines[i])};
    }
    var todo := fileMap.Keys;
    while todo != {}
      invariant todo <= fileMap.Keys
      invariant notes.View() == Faults([], [], fileMap.Keys - todo)
      invariant notes.requirementFaults == old(notes.requirementFaults)
    {
      var k :| k in todo;
      todo := todo - {k};
      ghost var noted := notes.View().extra;
      notes.extraFiles := notes.extraFiles + [k];
      assert (set x | x in notes.extraFiles) == noted + {k};
    }
    crashed := false;
  }

  /** The body of the line loop. */
  method TakeLine(decode: Decoder, rname: string, line: string, m: Members, notes: WheelNotes) returns (stop: bool, crashed: bool)
    requires notes.View() == NO_FAULTS
    modifies notes
    ensures notes.requirementFaults == old(notes.requirementFaults)
    ensures match CheckLine(decode, rname, m, line)
            case Strikes => !stop && !crashed && notes.View() == NO_FAULTS
            case Faulty(fault) => stop && !crashed && notes.View() == Faults([fault], [], {})
            case Lacking => stop && !crashed && notes.View() == Faults([], [NameOf(line)], {})
            case Crashes => crashed
  {
    stop, crashed := true, false;
    var x := Split(line, ',');
    if |x| != 3 {
      notes.integrityFaults := notes.integrityFaults + [MalformedEntry];
      return;
    }
    var name, digest := x[0], x[1];
    if digest == "" && name == rname {
      return false, false;
    }
    var size := ParseInt64(x[2]);
    if size == None {
      notes.integrityFaults := notes.integrityFaults + [MalformedSize];
      return;
    }
    if size.value != SizeIn(m, name) {
      notes.integrityFaults := notes.integrityFaults + [SizeDiffers];
      return;
    }
    var d := ReadDigest(digest);
    if d.Foreign? {
      notes.integrityFaults := notes.integrityFaults + [UnknownDigestType];
      return;
    }
    if d.Cropped? {
      crashed := true;
      return;
    }
    var dst := decode(d.text);
    if dst == None {
      notes.integrityFaults := notes.integrityFaults + [DigestUnreadable];
      return;
    }
    if name !in m {
      notes.missingFiles := notes.missingFiles + [name];
      return;
    }
    if m[name].sha256 != Copied(dst.value) {
      notes.integrityFaults := notes.integrityFaults + [DigestDiffers];
      return;
    }
    stop := false;
  }

  /** processOpinion. */
  function Opinion(requirementFaults: seq<string>, faults: Faults, md: Meta, notes: Annotation): Verdict
    requires faults.Faults?
  {
    if requirementFaults != [] then Verdict(Rejected, RequirementsNotMet, md, notes)
    else if faults.integrity != [] || faults.missing != [] || faults.extra != {}
      then Verdict(Rejected, IntegrityFailed, md, notes)
    else Verdict(Approved, Parsed, md, notes)
  }

  method ProcessOpinion(a: Artifact, md: Meta, notes: WheelNotes, annotation: Annotation)
    modifies a
    ensures a.View() == SetResponse(old(a.View()), "pip.wheel", Opinion(notes.requirementFaults, notes.View(), md, annotation))
  {
    if |notes.requirementFaults| > 0 {
      a.SetResponseOther("pip.wheel", Verdict(Rejected, RequirementsNotMet, md, annotation));
      return;
    }
    assert |notes.extraFiles| > 0 ==> notes.extraFiles[0] in notes.View().extra;
    if |notes.integrityFaults| > 0 || |notes.missingFiles| > 0 || |notes.extraFiles| > 0 {
      a.SetResponseOther("pip.wheel", Verdict(Rejected, IntegrityFailed, md, annotation));
      return;
    }
    a.SetResponseApproved("pip.wheel", Parsed, md, annotation);
  }

  // Completeness of RECORD. Its predicates speak of the fields of the lines only, so that they say what
  // the check decides without repeating how it does.

  /** `sha256` is the 32 bytes of `d`: the first 32, or all followed by zeros. */
  predicate DigestIs(d: string, sha256: string) {
    |sha256| == 32 && forall k | 0 <= k < 32 :: sha256[k] == if k < |d| then d[k] else 0 as char
  }

  /** The line has three fields, and after its name the digest of `f`, as "sha256=" and a text that
      decodes to it, and the size of `f`. */
  predicate Records(decode: Decoder, line: string, f: Member) {
    var x := Split(line, ',');
    && |x| == 3
    && ParseInt64(x[2]) == Some(f.size)
    && HasPrefix(x[1], "sha256=")
    && decode(x[1][7..]).Some?
    && DigestIs(decode(x[1][7..]).value, f.sha256)
  }

  /** Line `i` has three fields and is RECORD's own, with no digest and the name `rname`, or it records the
      member it names, which no earlier line does. */
  predicate LineOk(decode: Decoder, rname: string, m: Members, lines: seq<string>, i: nat)
    requires i < |lines|
  {
    var x := Split(lines[i], ',');
    || (|x| == 3 && x[0] == rname && x[1] == "")
    || (x[0] in m && Records(decode, lines[i], m[x[0]]) && FirstNaming(lines, i))
  }

  predicate FirstNaming(lines: seq<string>, i: nat)
    requires i < |lines|
  {
    forall j | 0 <= j < i :: Split(lines[j], ',')[0] != Split(lines[i], ',')[0]
  }

  predicate Named(lines: seq<string>, name: string) {
    exists i | 0 <= i < |lines| :: Split(lines[i], ',')[0] == name
  }

  /** The digest fields that are read as a SHA256 digest, and those cut off before it. */
  lemma ReadDigestIff(digest: string)
    ensures ReadDigest(digest).Sha256? <==> HasPrefix(digest, "sha256=")
    ensures ReadDigest(digest).Sha256? ==> ReadDigest(digest).text == digest[7..]
    ensures ReadDigest(digest) == Cropped <==> digest == "sha256"
  {
    var i := IndexOf(digest, '=');
    if HasPrefix(digest, "sha256=") {
      assert digest == "sha256" + ['='] + digest[7..];
      CutFirst("sha256", '=', digest[7..]);
    }
    if i < |digest| && digest[..i] == "sha256" {
      assert digest[..7] == digest[..6] + [digest[6]];
    }
  }

  lemma CopiedIff(d: string, sha256: string)
    ensures sha256 == Copied(d) <==> DigestIs(d, sha256)
  {
  }

  /** RECORD and the archive agree: every line is in order and every member is named. */
  predicate Complete(decode: Decoder, rname: string, m: Members, lines: seq<string>) {
    && (forall i | 0 <= i < |lines| :: LineOk(decode, rname, m, lines, i))
    && (forall name | name in m :: Named(lines, name))
  }

  /** A line that strikes is one in order. */
  lemma StrikesIff(decode: Decoder, rname: string, m: Members, line: string)
    ensures CheckLine(decode, rname, m, line) == Strikes <==> LineOk(decode, rname, m, [line], 0)
  {
    var x := Split(line, ',');
    assert FirstNaming([line], 0);
    if |x| == 3 {
      ReadDigestIff(x[1]);
      if x[0] in m && HasPrefix(x[1], "sha256=") && decode(x[1][7..]).Some? {
        CopiedIff(decode(x[1][7..]).value, m[x[0]].sha256);
      }
    }
  }

  lemma OkAfterFirst(decode: Decoder, rname: string, m: Members, lines: seq<string>, i: nat)
    requires 0 < i < |lines|
    ensures LineOk(decode, rname, m, lines, i)
            <==> LineOk(decode, rname, m - {NameOf(lines[0])}, lines[1..], i - 1)
  {
    FirstNamingAfterFirst(lines, i);
  }

  lemma NamedAfterFirst(lines: seq<string>, name: string)
    requires lines != []
    ensures Named(lines, name) <==> name == NameOf(lines[0]) || Named(lines[1..], name)
  {
    if i :| 0 <= i < |lines[1..]| && NameOf(lines[1..][i]) == name {
      assert NameOf(lines[i + 1]) == name;
    }
    if i :| 0 < i < |lines| && NameOf(lines[i]) == name {
      assert NameOf(lines[1..][i - 1]) == name;
    }
  }

  lemma CompleteStep(decode: Decoder, rname: string, m: Members, lines: seq<string>)
    requires lines != []
    ensures Complete(decode, rname, m, lines) <==>
            CheckLine(decode, rname, m, lines[0]) == Strikes
            && Complete(decode, rname, m - {NameOf(lines[0])}, lines[1..])
  {
    var rest, less := lines[1..], m - {NameOf(lines[0])};
    StrikesIff(decode, rname, m, lines[0]);
    forall i | 0 < i < |lines| ensures LineOk(decode, rname, m, lines, i) <==> LineOk(decode, rname, less, rest, i - 1) {
      OkAfterFirst(decode, rname, m, lines, i);
    }
    forall i | 0 <= i < |rest| ensures LineOk(decode, rname, m, lines, i + 1) <==> LineOk(decode, rname, less, rest, i) {
      OkAfterFirst(decode, rname, m, lines, i + 1);
    }
    forall name | name in m ensures Named(lines, name) <==> name == NameOf(lines[0]) || Named(rest, name) {
      NamedAfterFirst(lines, name);
    }
    if CheckLine(decode, rname, m, lines[0]) == Strikes && Complete(decode, rname, less, rest) {
      forall i | 0 <= i < |lines| ensures LineOk(decode, rname, m, lines, i) {
        if i > 0 {
          assert LineOk(decode, rname, less, rest, i - 1);
        }
      }
      forall name | name in m ensures Named(lines, name) {
        assert name == NameOf(lines[0]) || name in less;
      }
    }
    if Complete(decode, rname, m, lines) {
      assert LineOk(decode, rname, m, lines, 0);
      forall i | 0 <= i < |rest| ensures LineOk(decode, rname, less, rest, i) {
        assert LineOk(decode, rname, m, lines, i + 1);
      }
      forall name | name in less ensures Named(rest, name) {
        assert name in m;
      }
    }
  }

  /** The check notes no fault exactly when RECORD is complete. */
  lemma {:induction false} FaultlessIff(decode: Decoder, rname: string, m: Members, lines: seq<string>)
    ensures Check(decode, rname, m, lines) == NO_FAULTS <==> Complete(decode, rname, m, lines)
    decreases |lines|
  {
    if lines == [] {
      assert m.Keys == {} <==> forall name | name in m :: Named(lines, name);
    } else {
      CompleteStep(decode, rname, m, lines);
      FaultlessIff(decode, rname, m - {NameOf(lines[0])}, lines[1..]);
    }
  }

  /** What no fault means for a name: the lines without a digest are RECORD's own, and every other member
      is named by exactly one line, which gives its size and digest. */
  lemma {:induction false} FaultlessMeans(decode: Decoder, rname: string, m: Members, lines: seq<string>)
    requires Check(decode, rname, m, lines) == NO_FAULTS
    ensures forall i | 0 <= i < |lines| :: |Split(lines[i], ',')| == 3
    ensures forall i | 0 <= i < |lines| && Split(lines[i], ',')[1] == "" :: Split(lines[i], ',')[0] == rname
    ensures forall name | name in m && name != rname :: exists i | 0 <= i < |lines| ::
              && Split(lines[i], ',')[0] == name && Records(decode, lines[i], m[name])
              && forall j | 0 <= j < |lines| && j != i :: Split(lines[j], ',')[0] != name
  {
    FaultlessIff(decode, rname, m, lines);
    forall i | 0 <= i < |lines| ensures |Split(lines[i], ',')| == 3 && (Split(lines[i], ',')[1] == "" ==> Split(lines[i], ',')[0] == rname) {
      assert LineOk(decode, rname, m, lines, i);
    }
    forall name | name in m && name != rname
      ensures exists i | 0 <= i < |lines| ::
                && Split(lines[i], ',')[0] == name && Records(decode, lines[i], m[name])
                && forall j | 0 <= j < |lines| && j != i :: Split(lines[j], ',')[0] != name
    {
      assert Named(lines, name);
      var i :| 0 <= i < |lines| && Split(lines[i], ',')[0] == name;
      assert LineOk(decode, rname, m, lines, i);
      forall j | 0 <= j < |lines| && j != i ensures Split(lines[j], ',')[0] != name {
        assert LineOk(decode, rname, m, lines, j);
      }
    }
  }

  /** A wheel is approved exactly when the other requirements hold, RECORD names each member of the
      archive once with its size and digest (or is the one line RECORD has for itself), and
      nothing else. */
  lemma WheelApprovedIff(decode: Decoder, rname: string, files: seq<Member>, lines: seq<string>, requirementFaults: seq<string>, md: Meta, notes: Annotation)
    requires Check(decode, rname, ByName(files), lines).Faults?
    ensures var v := Opinion(requirementFaults, Check(decode, rname, ByName(files), lines), md, notes);
            && (v.opinion == Approved <==> requirementFaults == [] && Complete(decode, rname, ByName(files), lines))
            && (v.opinion != Approved ==> v.opinion == Rejected)
            && (v.reason == RequirementsNotMet <==> requirementFaults != [])
            && (v.opinion == Rejected && requirementFaults == [] ==> v.reason == IntegrityFailed)
  {
    FaultlessIff(decode, rname, ByName(files), lines);
  }

  /** The size the check compares with: that of the member the line names, or zero when the archive
      has no such member or an earlier line named it already. */
  function SizeLeft(m: Members, lines: seq<string>, i: nat): int
    requires i < |lines|
  {
    var name := Split(lines[i], ',')[0];
    if name in m && FirstNaming(lines, i) then m[name].size else 0
  }

  /** Line `i` has a digest field that is just "sha256", and a size that is as expected. */
  predicate BareDigest(m: Members, lines: seq<string>, i: nat)
    requires i < |lines|
  {
    var x := Split(lines[i], ',');
    |x| == 3 && x[1] == "sha256" && ParseInt64(x[2]) == Some(SizeLeft(m, lines, i))
  }

  /** All lines before `i` are in order. */
  predicate OkBefore(decode: Decoder, rname: string, m: Members, lines: seq<string>, i: nat)
    requires i <= |lines|
  {
    forall j | 0 <= j < i :: LineOk(decode, rname, m, lines, j)
  }

  lemma LineCrashesIff(decode: Decoder, rname: string, m: Members, lines: seq<string>)
    requires lines != []
    ensures CheckLine(decode, rname, m, lines[0]) == Crashes <==> BareDigest(m, lines, 0)
  {
    var x := Split(lines[0], ',');
    assert FirstNaming(lines, 0);
    if |x| == 3 {
      ReadDigestIff(x[1]);
    }
  }

  lemma BareAfterFirst(m: Members, lines: seq<string>, i: nat)
    requires 0 < i < |lines|
    ensures BareDigest(m, lines, i) <==> BareDigest(m - {NameOf(lines[0])}, lines[1..], i - 1)
  {
    FirstNamingAfterFirst(lines, i);
  }

  lemma FirstNamingAfterFirst(lines: seq<string>, i: nat)
    requires 0 < i < |lines|
    ensures FirstNaming(lines, i) <==> NameOf(lines[0]) != NameOf(lines[i]) && FirstNaming(lines[1..], i - 1)
  {
    var rest := lines[1..];
    if FirstNaming(lines, i) {
      forall j | 0 <= j < i - 1 ensures NameOf(rest[j]) != NameOf(rest[i - 1]) {
        assert rest[j] == lines[j + 1];
      }
    }
    if FirstNaming(rest, i - 1) && NameOf(lines[0]) != NameOf(lines[i]) {
      forall j | 0 <= j < i ensures NameOf(lines[j]) != NameOf(lines[i]) {
        assert j == 0 || lines[j] == rest[j - 1];
      }
    }
  }

  lemma OkBeforeAfterFirst(decode: Decoder, rname: string, m: Members, lines: seq<string>, i: nat)
    requires 0 < i <= |lines| && LineOk(decode, rname, m, lines, 0)
    ensures OkBefore(decode, rname, m, lines, i) <==> OkBefore(decode, rname, m - {NameOf(lines[0])}, lines[1..], i - 1)
  {
    var rest, less := lines[1..], m - {NameOf(lines[0])};
    forall j | 0 < j < i ensures LineOk(decode, rname, m, lines, j) <==> LineOk(decode, rname, less, rest, j - 1) {
      OkAfterFirst(decode, rname, m, lines, j);
    }
    if OkBefore(decode, rname, m, lines, i) {
      forall j | 0 <= j < i - 1 ensures LineOk(decode, rname, less, rest, j) {
        assert LineOk(decode, rname, m, lines, j + 1);
      }
    }
    if OkBefore(decode, rname, less, rest, i - 1) {
      forall j | 0 <= j < i ensures LineOk(decode, rname, m, lines, j) {
        assert j == 0 || LineOk(decode, rname, less, rest, j - 1);
      }
    }
  }

  /** The check gets to line `i` and crashes there. */
  predicate CrashesAt(decode: Decoder, rname: string, m: Members, lines: seq<string>, i: nat)
    requires i < |lines|
  {
    OkBefore(decode, rname, m, lines, i) && BareDigest(m, lines, i)
  }

  /** Exactly when the check runs past the end of a digest: some line, all lines before it being in
      order, has the digest field "sha256" and the size expected of it. */
  lemma {:induction false} CrashIff(decode: Decoder, rname: string, m: Members, lines: seq<string>)
    ensures Check(decode, rname, m, lines).Crash? <==>
            exists i | 0 <= i < |lines| :: CrashesAt(decode, rname, m, lines, i)
    decreases |lines|
  {
    if lines != [] {
      var rest, less := lines[1..], m - {NameOf(lines[0])};
      LineCrashesIff(decode, rname, m, lines);
      StrikesIff(decode, rname, m, lines[0]);
      assert LineOk(decode, rname, m, lines, 0) <==> CheckLine(decode, rname, m, lines[0]) == Strikes;
      if CheckLine(decode, rname, m, lines[0]) == Strikes {
        CrashIff(decode, rname, less, rest);
        forall i | 0 < i < |lines| ensures CrashesAt(decode, rname, m, lines, i) <==> CrashesAt(decode, rname, less, rest, i - 1) {
          OkBeforeAfterFirst(decode, rname, m, lines, i);
          BareAfterFirst(m, lines, i);
        }
        if i :| 0 <= i < |rest| && CrashesAt(decode, rname, less, rest, i) {
          assert CrashesAt(decode, rname, m, lines, i + 1);
        }
        if i :| 0 <= i < |lines| && CrashesAt(decode, rname, m, lines, i) {
          assert CrashesAt(decode, rname, less, rest, i - 1);
        }
      } else {
        forall i | 0 < i < |lines| ensures !OkBefore(decode, rname, m, lines, i) {
          assert !LineOk(decode, rname, m, lines, 0);
        }
        assert CrashesAt(decode, rname, m, lines, 0) <==> BareDigest(m, lines, 0);
      }
    }
  }

  /** Line `i` is well-formed, gives the size zero and a SHA256 digest that decodes, and names no member
      that is left: the archive has none of that name, or an earlier line named it. */
  predicate NamesNothing(decode: Decoder, m: Members, lines: seq<string>, i: nat)
    requires i < |lines|
  {
    var x := Split(lines[i], ',');
    && |x| == 3 && ParseInt64(x[2]) == Some(0)
    && HasPrefix(x[1], "sha256=") && decode(x[1][7..]).Some?
    && !(x[0] in m && FirstNaming(lines, i))
  }

  /** The check gets to line `i` and reports `name` as missing there. */
  predicate LacksAt(decode: Decoder, rname: string, m: Members, lines: seq<string>, i: nat, name: string)
    requires i < |lines|
  {
    OkBefore(decode, rname, m, lines, i) && NamesNothing(decode, m, lines, i) && Split(lines[i], ',')[0] == name
  }

  lemma LineLacksIff(decode: Decoder, rname: string, m: Members, lines: seq<string>)
    requires lines != []
    ensures CheckLine(decode, rname, m, lines[0]) == Lacking <==> NamesNothing(decode, m, lines, 0)
  {
    assert FirstNaming(lines, 0);
    var x := Split(lines[0], ',');
    if |x| == 3 {
      ReadDigestIff(x[1]);
    }
  }

  lemma LacksAfterFirst(decode: Decoder, rname: string, m: Members, lines: seq<string>, i: nat, name: string)
    requires 0 < i < |lines| && LineOk(decode, rname, m, lines, 0)
    ensures LacksAt(decode, rname, m, lines, i, name)
            <==> LacksAt(decode, rname, m - {NameOf(lines[0])}, lines[1..], i - 1, name)
  {
    OkBeforeAfterFirst(decode, rname, m, lines, i);
    FirstNamingAfterFirst(lines, i);
  }

  /** When the check reports `name` as missing, and it reports nothing else then: some line, all lines
      before it being in order, names it, and no member of that name is left. The line's size has to be
      zero, because it is compared first; so a file that RECORD gives any other size is not reported as
      missing, and an empty member that RECORD names twice is. */
  lemma {:induction false} LackingIff(decode: Decoder, rname: string, m: Members, lines: seq<string>, name: string)
    ensures var r := Check(decode, rname, m, lines);
            && (r.Faults? && name in r.missing <==> exists i | 0 <= i < |lines| :: LacksAt(decode, rname, m, lines, i, name))
            && (r.Faults? && name in r.missing ==> r == Faults([], [name], {}))
    decreases |lines|
  {
    if lines != [] {
      var rest, less := lines[1..], m - {NameOf(lines[0])};
      LineLacksIff(decode, rname, m, lines);
      StrikesIff(decode, rname, m, lines[0]);
      assert LineOk(decode, rname, m, lines, 0) <==> CheckLine(decode, rname, m, lines[0]) == Strikes;
      if CheckLine(decode, rname, m, lines[0]) == Strikes {
        LackingIff(decode, rname, less, rest, name);
        forall i | 0 < i < |lines| ensures LacksAt(decode, rname, m, lines, i, name) <==> LacksAt(decode, rname, less, rest, i - 1, name) {
          LacksAfterFirst(decode, rname, m, lines, i, name);
        }
        if i :| 0 <= i < |rest| && LacksAt(decode, rname, less, rest, i, name) {
          assert LacksAt(decode, rname, m, lines, i + 1, name);
        }
        if i :| 0 <= i < |lines| && LacksAt(decode, rname, m, lines, i, name) {
          assert LacksAt(decode, rname, less, rest, i - 1, name);
        }
      } else {
        forall i | 0 < i < |lines| ensures !OkBefore(decode, rname, m, lines, i) {
          assert !LineOk(decode, rname, m, lines, 0);
        }
        assert LacksAt(decode, rname, m, lines, 0, name) <==> NamesNothing(decode, m, lines, 0) && Split(lines[0], ',')[0] == name;
      }
    }
  }

  /** Line `i` has the fault, given that it is reached: it is not of three fields; or it is not RECORD's own and
      its size is no number, or not the one expected of it; or, the size being as expected, its digest is not
      a SHA256 one, does not decode, or is not that of the member it is the first to name. */
  predicate HasFault(decode: Decoder, rname: string, m: Members, lines: seq<string>, i: nat, fault: Fault)
    requires i < |lines|
  {
    var x := Split(lines[i], ',');
    if |x| != 3 then fault == MalformedEntry
    else
      && !(x[0] == rname && x[1] == "")
      && (fault == MalformedSize <==> ParseInt64(x[2]) == None)
      && (fault == SizeDiffers <==> ParseInt64(x[2]).Some? && ParseInt64(x[2]).value != SizeLeft(m, lines, i))
      && (fault == UnknownDigestType ==> x[1] != "sha256" && !HasPrefix(x[1], "sha256="))
      && (fault == DigestUnreadable ==> HasPrefix(x[1], "sha256=") && decode(x[1][7..]) == None)
      && (fault == DigestDiffers ==>
            && HasPrefix(x[1], "sha256=") && decode(x[1][7..]).Some? && x[0] in m && FirstNaming(lines, i)
            && !DigestIs(decode(x[1][7..]).value, m[x[0]].sha256))
      && fault != MalformedEntry
  }

  /** The check gets to line `i` and ends there with the fault. */
  predicate FaultAt(decode: Decoder, rname: string, m: Members, lines: seq<string>, i: nat, fault: Fault)
    requires i < |lines|
  {
    OkBefore(decode, rname, m, lines, i) && HasFault(decode, rname, m, lines, i, fault)
  }

  lemma LineFaultIff(decode: Decoder, rname: string, m: Members, lines: seq<string>, fault: Fault)
    requires lines != []
    ensures CheckLine(decode, rname, m, lines[0]) == Faulty(fault) <==> HasFault(decode, rname, m, lines, 0, fault)
  {
    assert FirstNaming(lines, 0);
    var x := Split(lines[0], ',');
    if |x| == 3 {
      ReadDigestIff(x[1]);
      if x[0] in m && HasPrefix(x[1], "sha256=") && decode(x[1][7..]).Some? {
        CopiedIff(decode(x[1][7..]).value, m[x[0]].sha256);
      }
    }
  }

  lemma FaultAfterFirst(decode: Decoder, rname: string, m: Members, lines: seq<string>, i: nat, fault: Fault)
    requires 0 < i < |lines| && LineOk(decode, rname, m, lines, 0)
    ensures FaultAt(decode, rname, m, lines, i, fault)
            <==> FaultAt(decode, rname, m - {NameOf(lines[0])}, lines[1..], i - 1, fault)
  {
    OkBeforeAfterFirst(decode, rname, m, lines, i);
    FirstNamingAfterFirst(lines, i);
  }

  /** The check notes an integrity fault, and nothing else then, exactly when some line has it and all lines
      before are in order. */
  lemma {:induction false} IntegrityIff(decode: Decoder, rname: string, m: Members, lines: seq<string>, fault: Fault)
    ensures Check(decode, rname, m, lines) == Faults([fault], [], {})
            <==> exists i | 0 <= i < |lines| :: FaultAt(decode, rname, m, lines, i, fault)
    decreases |lines|
  {
    if lines != [] {
      var rest, less := lines[1..], m - {NameOf(lines[0])};
      LineFaultIff(decode, rname, m, lines, fault);
      StrikesIff(decode, rname, m, lines[0]);
      assert LineOk(decode, rname, m, lines, 0) <==> CheckLine(decode, rname, m, lines[0]) == Strikes;
      if CheckLine(decode, rname, m, lines[0]) == Strikes {
        IntegrityIff(decode, rname, less, rest, fault);
        forall i | 0 < i < |lines| ensures FaultAt(decode, rname, m, lines, i, fault) <==> FaultAt(decode, rname, less, rest, i - 1, fault) {
          FaultAfterFirst(decode, rname, m, lines, i, fault);
        }
        if i :| 0 <= i < |rest| && FaultAt(decode, rname, less, rest, i, fault) {
          assert FaultAt(decode, rname, m, lines, i + 1, fault);
        }
        if i :| 0 <= i < |lines| && FaultAt(decode, rname, m, lines, i, fault) {
          assert FaultAt(decode, rname, less, rest, i - 1, fault);
        }
      } else {
        forall i | 0 < i < |lines| ensures !OkBefore(decode, rname, m, lines, i) {
          assert !LineOk(decode, rname, m, lines, 0);
        }
        assert FaultAt(decode, rname, m, lines, 0, fault) <==> HasFault(decode, rname, m, lines, 0, fault);
      }
    }
  }

  /** The check reports a member as extra exactly when every line is in order and none names it. */
  lemma {:induction false} ExtraIff(decode: Decoder, rname: string, m: Members, lines: seq<string>, name: string)
    ensures var r := Check(decode, rname, m, lines);
            r.Faults? && name in r.extra <==>
            name in m && OkBefore(decode, rname, m, lines, |lines|) && !Named(lines, name)
    decreases |lines|
  {
    if lines != [] {
      var rest, less := lines[1..], m - {NameOf(lines[0])};
      StrikesIff(decode, rname, m, lines[0]);
      assert LineOk(decode, rname, m, lines, 0) <==> CheckLine(decode, rname, m, lines[0]) == Strikes;
      if CheckLine(decode, rname, m, lines[0]) == Strikes {
        ExtraIff(decode, rname, less, rest, name);
        OkBeforeAfterFirst(decode, rname, m, lines, |lines|);
        NamedAfterFirst(lines, name);
      }
    }
  }

  lemma OneDigit(d: nat)
    requires d < 10
    ensures ParseInt64(Digits(d, 10)) == Some(d) && Digits(d, 10) == [DIGITS[d]]
  {
    DigitsRoundTrip(d, 10);
  }

  lemma ExampleLines()
    ensures Split("a,sha256,3", ',') == ["a", "sha256", "3"] && Split("b,sha256=,0", ',') == ["b", "sha256=", "0"]
  {
    assert "a,sha256,3" == "a" + "," + "sha256" + "," + "3";
    SplitThree("a", "sha256", "3");
    assert "b,sha256=,0" == "b" + "," + "sha256=" + "," + "0";
    SplitThree("b", "sha256=", "0");
  }

  lemma EmptyDigest()
    ensures ReadDigest("sha256=") == Sha256("")
  {
    assert "sha256=" == "sha256" + ['='] + "";
    CutFirst("sha256", '=', "");
  }

  lemma ThreeParses()
    ensures ParseInt64("3") == Some(3)
  {
    OneDigit(3);
    assert [DIGITS[3]] == "3";
  }

  lemma CrashingLine(decode: Decoder, rname: string, m: Members, line: string, name: string, size: string)
    requires Split(line, ',') == [name, "sha256", size] && name in m && ParseInt64(size) == Some(m[name].size)
    ensures Check(decode, rname, m, [line]).Crash?
  {
    LineCrashesIff(decode, rname, m, [line]);
    assert FirstNaming([line], 0);
  }

  lemma LackingLine(decode: Decoder, rname: string, m: Members, line: string, name: string, digest: string, size: string)
    requires Split(line, ',') == [name, digest, size] && name != rname && ParseInt64(size) == Some(0) && name !in m
    requires ReadDigest(digest).Sha256? && decode(ReadDigest(digest).text).Some?
    ensures Check(decode, rname, m, [line]) == Faults([], [name], {})
  {
  }

  lemma TwiceLine(decode: Decoder, rname: string, line: string, name: string, digest: string, size: string)
    requires Split(line, ',') == [name, digest, size] && name != rname && ParseInt64(size) == Some(0)
    requires ReadDigest(digest).Sha256? && decode(ReadDigest(digest).text).Some?
    ensures var m := map[name := Member(name, Copied(decode(ReadDigest(digest).text).value), 0)];
            Check(decode, rname, m, [line, line]) == Faults([], [name], {})
  {
    var m := map[name := Member(name, Copied(decode(ReadDigest(digest).text).value), 0)];
    StrikesIff(decode, rname, m, line);
    assert [line, line][1..] == [line] && m - {name} == map[];
    LackingLine(decode, rname, map[], line, name, digest, size);
  }

  /** A RECORD that crashes the check: one line, for a member of the archive. */
  lemma CrashExample(decode: Decoder, rname: string, sha256: string) returns (line: string, m: Members)
    ensures line == "a,sha256,3" && m == map["a" := Member("a", sha256, 3)]
    ensures Check(decode, rname, m, [line]).Crash?
  {
    line, m := "a,sha256,3", map["a" := Member("a", sha256, 3)];
    ExampleLines();
    ThreeParses();
    CrashingLine(decode, rname, m, line, "a", "3");
  }

  /** Two ways to a missing file: an empty one that the archive lacks, and an empty one that it has
      and RECORD names twice. */
  lemma LackingExample(decode: Decoder) returns (line: string, m: Members)
    requires decode("") == Some("")
    ensures line == "b,sha256=,0" && m == map["b" := Member("b", Copied(""), 0)]
    ensures Check(decode, "RECORD", map[], [line]) == Faults([], ["b"], {})
    ensures Check(decode, "RECORD", m, [line, line]) == Faults([], ["b"], {})
  {
    line, m := "b,sha256=,0", map["b" := Member("b", Copied(""), 0)];
    ExampleLines();
    OneDigit(0);
    EmptyDigest();
    LackingLine(decode, "RECORD", map[], line, "b", "sha256=", "0");
    TwiceLine(decode, "RECORD", line, "b", "sha256=", "0");
  }

  // Writing RECORD

  lemma SplitFirst(a: string, c: char, rest: string)
    requires c !in a
    ensures Split(a + [c] + rest, c) == [a] + Split(rest, c)
  {
    CutFirst(a, c, rest);
  }

  lemma SplitThree(a: string, b: string, d: string)
    requires ',' !in a && ',' !in b && ',' !in d
    ensures Split(a + "," + b + "," + d, ',') == [a, b, d]
  {
    assert a + "," + b + "," + d == a + [','] + (b + [','] + d);
    SplitFirst(a, ',', b + [','] + d);
    SplitFirst(b, ',', d);
    assert IndexOf(d, ',') == |d|;
  }

  lemma DigitsPlain(n: nat)
    ensures ',' !in Digits(n, 10)
    decreases n
  {
    if n >= 10 {
      DigitsPlain(n / 10);
    }
  }

  function DigestText(encode: string -> string, f: Member): string {
    "sha256" + ['='] + encode(f.sha256)
  }

  function SizeText(f: Member): string {
    Digits(if f.size < 0 then 0 else f.size, 10)
  }

  function RecordLine(encode: string -> string, f: Member): string {
    f.name + "," + DigestText(encode, f) + "," + SizeText(f)
  }

  predicate Writable(decode: Decoder, encode: string -> string, f: Member) {
    && ',' !in f.name && |f.sha256| == DIGEST_SIZE && 0 <= f.size < 0x8000_0000_0000_0000
    && ',' !in encode(f.sha256) && decode(encode(f.sha256)) == Some(f.sha256)
  }

  lemma RecordLineFields(decode: Decoder, encode: string -> string, f: Member)
    requires Writable(decode, encode, f)
    ensures Split(RecordLine(encode, f), ',') == [f.name, DigestText(encode, f), SizeText(f)]
  {
    DigitsPlain(f.size);
    SplitThree(f.name, DigestText(encode, f), SizeText(f));
  }

  lemma DigestTextRead(encode: string -> string, f: Member)
    ensures ReadDigest(DigestText(encode, f)) == Sha256(encode(f.sha256))
  {
    CutFirst("sha256", '=', encode(f.sha256));
  }

  lemma SizeTextRead(f: Member)
    requires 0 <= f.size < 0x8000_0000_0000_0000
    ensures ParseInt64(SizeText(f)) == Some(f.size)
  {
    DigitsRoundTrip(f.size, 10);
  }

  lemma WholeDigest(d: string)
    requires |d| == DIGEST_SIZE
    ensures Copied(d) == d
  {
  }

  lemma RecordLineRecords(decode: Decoder, encode: string -> string, f: Member)
    requires Writable(decode, encode, f)
    ensures NameOf(RecordLine(encode, f)) == f.name && Records(decode, RecordLine(encode, f), f)
  {
    RecordLineFields(decode, encode, f);
    DigestTextRead(encode, f);
    SizeTextRead(f);
    WholeDigest(f.sha256);
  }

  lemma {:induction false} MembersByName(files: seq<Member>)
    requires forall i, j | 0 <= i < j < |files| :: files[i].name != files[j].name
    ensures forall i | 0 <= i < |files| :: files[i].name in ByName(files) && ByName(files)[files[i].name] == files[i]
    ensures forall name | name in ByName(files) :: exists i | 0 <= i < |files| :: files[i].name == name
  {
    if files != [] {
      var n := |files| - 1;
      MembersByName(files[..n]);
      forall name | name in ByName(files) ensures exists i | 0 <= i < |files| :: files[i].name == name {
        if name == files[n].name {
        } else {
          var i :| 0 <= i < n && files[..n][i].name == name;
          assert files[i].name == name;
        }
      }
    }
  }

  /** The lines of a RECORD written for `files`, ending with RECORD's own. */
  function WrittenRecord(encode: string -> string, files: seq<Member>, rname: string): (lines: seq<string>) {
    seq(|files|, i requires 0 <= i < |files| => RecordLine(encode, files[i])) + [rname + "," + "" + "," + ""]
  }

  lemma OwnLine(rname: string)
    requires ',' !in rname
    ensures Own(rname, rname + "," + "" + "," + "") && NameOf(rname + "," + "" + "," + "") == rname
  {
    SplitThree(rname, "", "");
  }

  predicate AllWritable(decode: Decoder, encode: string -> string, files: seq<Member>) {
    forall i | 0 <= i < |files| :: Writable(decode, encode, files[i])
  }

  /** A RECORD written for the members of an archive with distinct names, the last of which is
      RECORD itself, passes the check. */
  lemma {:induction false} WrittenFaultless(decode: Decoder, encode: string -> string, files: seq<Member>, own: Member)
    requires AllWritable(decode, encode, files + [own])
    requires forall i, j | 0 <= i < j < |files + [own]| :: (files + [own])[i].name != (files + [own])[j].name
    ensures Check(decode, own.name, ByName(files + [own]), WrittenRecord(encode, files, own.name)) == NO_FAULTS
  {
    var n, all := |files|, files + [own];
    var lines, m := WrittenRecord(encode, files, own.name), ByName(files + [own]);
    MembersByName(all);
    assert all[n] == own;
    OwnLine(own.name);
    forall i | 0 <= i < n ensures NameOf(lines[i]) == all[i].name && Records(decode, lines[i], all[i]) {
      assert Writable(decode, encode, all[i]);
      RecordLineRecords(decode, encode, files[i]);
    }
    WrittenComplete(decode, own.name, m, lines, all);
    FaultlessIff(decode, own.name, m, lines);
  }

  /** Line `i` of `lines` names the `i`-th member. */
  predicate NamesAll(lines: seq<string>, all: seq<Member>) {
    |lines| == |all| && forall i | 0 <= i < |all| :: NameOf(lines[i]) == all[i].name
  }

  lemma FirstToName(lines: seq<string>, all: seq<Member>, i: nat)
    requires NamesAll(lines, all) && i < |lines|
    requires forall j, k | 0 <= j < k < |all| :: all[j].name != all[k].name
    ensures FirstNaming(lines, i)
  {
  }

  lemma AllNamed(lines: seq<string>, all: seq<Member>, i: nat)
    requires NamesAll(lines, all) && i < |all|
    ensures Named(lines, all[i].name)
  {
    assert NameOf(lines[i]) == all[i].name;
  }

  lemma WrittenComplete(decode: Decoder, rname: string, m: Members, lines: seq<string>, all: seq<Member>)
    requires NamesAll(lines, all) && |all| > 0 && Own(rname, lines[|all| - 1])
    requires forall i | 0 <= i < |all| - 1 :: Records(decode, lines[i], all[i])
    requires forall i | 0 <= i < |all| :: all[i].name in m && m[all[i].name] == all[i]
    requires forall name | name in m :: exists i | 0 <= i < |all| :: all[i].name == name
    requires forall i, j | 0 <= i < j < |all| :: all[i].name != all[j].name
    ensures Complete(decode, rname, m, lines)
  {
    forall i | 0 <= i < |lines| ensures LineOk(decode, rname, m, lines, i) {
      FirstToName(lines, all, i);
      assert i < |all| - 1 ==> Records(decode, lines[i], all[i]);
    }
    forall name | name in m ensures Named(lines, name) {
      var i :| 0 <= i < |all| && all[i].name == name;
      AllNamed(lines, all, i);
    }
  }
}
