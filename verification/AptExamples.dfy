/** Concrete sessions of the apt inspectors: one that completes the chain of trust, and one in which
    the chain crosses from one repository to another. */
module AptExamples {
  import opened Basics
  import opened Digests
  import opened Opinions
  import opened ReleaseText
  import opened AptChain
  import Runner
  import Release = AptRelease
  import AptPackages
  import DebPackage
  import Listing = PackagesFile

  /** Repository entry `name` is configured, without an alias. */
  predicate Plain(c: Config, name: string) {
    name in c.repositories && c.repositories[name].alias == ""
  }

  const NO_URL := Release.Url("", "", None, None, None, None, None)

  /** A file as it is served: its digest and its size. */
  datatype Item = Item(digest: string, size: nat)

  function ReleaseOf(name: string, base: string, v: string, es: seq<Listed>, file: Item): Subject
    requires AllListable(es)
  {
    var lines := PrintRelease(Minimal(v), es);
    Release.Subject(file.digest, file.size, {Release.TEXT_PLAIN}, Some(NO_URL.(inRelease := Some(name))), base, true, lines,
                    key => Release.Verified(lines), None, (NO_METADATA, None))
  }

  function PackagesOf(name: string, origin: string, path: string, u: Release.IndexUrl, lines: seq<string>, file: Item): Subject {
    Release.Subject(file.digest, file.size, {Release.APT_PACKAGES}, Some(NO_URL.(origin := origin, path := path, packages := Some(u))), "", false, lines,
                    key => Release.Undecodable, Some(lines), (NO_METADATA, None))
  }

  function DebOf(origin: string, u: Release.DebUrl, file: Item): Subject {
    Release.Subject(file.digest, file.size, {AptPackages.DEB}, Some(NO_URL.(origin := origin, deb := Some(u))), "", false, [],
                    key => Release.Undecodable, None, (NO_METADATA, None))
  }

  lemma SetTwice<V>(m: map<nat, V>, m1: map<nat, V>, m2: map<nat, V>, k: nat)
    requires k in m1 && m1 == m[k := m1[k]] && k in m2 && m2 == m1[k := m2[k]]
    ensures m2 == m[k := m2[k]]
  {
  }

  lemma OneAndOne<T>(x: T, y: T)
    ensures [x] + [y] == [x, y]
  {
  }

  // Visits: one download from its arrival past all three inspectors

  /** Where the steps lead, if each of them can happen in its turn. */
  function Target(c: Config, from: State, steps: seq<Step>): Option<State>
    decreases |steps|
  {
    if steps == [] then Some(from)
    else if Can(c, from, steps[0]) then Target(c, After(c, from, steps[0]), steps[1..])
    else None
  }

  ghost predicate Leads(c: Config, from: State, steps: seq<Step>, to: State) {
    Target(c, from, steps) == Some(to)
  }

  lemma LeadsOne(c: Config, st: State, step: Step)
    requires Can(c, st, step)
    ensures Leads(c, st, [step], After(c, st, step))
  {
    assert [step][1..] == [];
  }

  lemma {:induction false} LeadsTwice(c: Config, a: State, m: seq<Step>, b: State, n: seq<Step>, d: State)
    requires Leads(c, a, m, b) && Leads(c, b, n, d)
    ensures Leads(c, a, m + n, d)
    decreases |m|
  {
    if m == [] {
      assert m + n == n;
    } else {
      assert (m + n)[1..] == m[1..] + n;
      LeadsTwice(c, After(c, a, m[0]), m[1..], b, n, d);
    }
  }

  lemma {:induction false} LeadsRun(c: Config, before: seq<Step>, steps: seq<Step>, to: State)
    requires Leads(c, Run(c, before), steps, to)
    ensures Run(c, before + steps) == to
    decreases |steps|
  {
    if steps == [] {
      assert before + steps == before;
    } else {
      assert (before + [steps[0]])[..|before|] == before;
      LeadsRun(c, before + [steps[0]], steps[1..], to);
      assert before + [steps[0]] + steps[1..] == before + steps;
    }
  }

  /** What the inspectors do with a download, and the same as turns of the runner. */
  datatype Visit = Visit(s: Subject, kind: string, runs: seq<Step>, turns: seq<Runner.Turn>)

  function Arrived(c: Config, st: State, id: nat, s: Subject, kind: string): State {
    st.(flights := st.flights[id := Flight(s, Requested(c, st.releases, s, kind, map[]), AtRelease)])
  }

  predicate ByInspectors(steps: seq<Step>, id: nat) {
    forall i | 0 <= i < |steps| :: !steps[i].Arrive? && steps[i].id == id
  }

  ghost predicate Visits(c: Config, st: State, id: nat, v: Visit, next: State) {
    && id !in st.flights && id in next.flights && next.flights == st.flights[id := next.flights[id]]
    && Leads(c, Arrived(c, st, id, v.s, v.kind), v.runs, next) && ByInspectors(v.runs, id)
    && next.flights[id].stage == PastDeb && next.flights[id].s == v.s
    && Runner.ArtifactTurns(Requested(c, st.releases, v.s, v.kind, map[]), false, v.turns) == (next.flights[id].f, None)
  }

  /** The first visit has the number zero, the next one the number one, and so on. */
  ghost predicate AllVisit(c: Config, vs: seq<Visit>, sts: seq<State>) {
    |sts| == |vs| + 1 && sts[0] == START && forall i | 0 <= i < |vs| :: Visits(c, sts[i], i, vs[i], sts[i + 1])
  }

  lemma OneMoreVisits(c: Config, vs: seq<Visit>, sts: seq<State>, v: Visit, next: State)
    requires AllVisit(c, vs, sts) && Visits(c, sts[|vs|], |vs|, v, next)
    ensures AllVisit(c, vs + [v], sts + [next])
  {
    forall i | 0 <= i < |vs + [v]| ensures Visits(c, (sts + [next])[i], i, (vs + [v])[i], (sts + [next])[i + 1]) {
      if i < |vs| {
        assert Visits(c, sts[i], i, vs[i], sts[i + 1]);
      }
    }
  }

  lemma {:induction false} VisitsRun(c: Config, vs: seq<Visit>, sts: seq<State>) returns (steps: seq<Step>)
    requires AllVisit(c, vs, sts)
    ensures Run(c, steps) == sts[|vs|]
  {
    if vs == [] {
      return [];
    }
    var n := |vs| - 1;
    var before := VisitsRun(c, vs[..n], sts[..n + 1]);
    assert Visits(c, sts[n], n, vs[n], sts[n + 1]);
    var arrive := Arrive(n, vs[n].s, vs[n].kind, map[]);
    assert (before + [arrive])[..|before|] == before;
    LeadsRun(c, before + [arrive], vs[n].runs, sts[n + 1]);
    steps := before + [arrive] + vs[n].runs;
  }

  // Inspectors as turns

  /** The inspector set one opinion. */
  ghost predicate OneVerdict(f: Findings, g: Findings, id: string) {
    exists v: Verdict :: v.opinion != Pending && g == SetResponse(f, id, v)
  }

  predicate LeftPending(f: Findings, id: string) {
    id in f.request && f.request[id].opinion == Pending
  }

  lemma TurnOf(f: Findings, g: Findings, id: string) returns (turn: Runner.Turn)
    requires OneVerdict(f, g, id) && LeftPending(f, id) && IsChainId(id)
    ensures Runner.ArtifactTurn(f, false, turn) == (g, None)
  {
    var v: Verdict :| v.opinion != Pending && g == SetResponse(f, id, v);
    turn := Runner.Turn(id, Runner.Outcome([v], None), true);
    assert [v][..0] == [] && Runner.SetResponses(f, id, []) == f;
    assert Runner.SetResponses(f, id, [v]) == g;
    assert id[0] != 'd' || id[2] != Runner.DEFAULT[2];
  }

  lemma OneTurn(f: Findings, g: Findings, turn: Runner.Turn)
    requires Runner.ArtifactTurn(f, false, turn) == (g, None)
    ensures Runner.ArtifactTurns(f, false, [turn]) == (g, None)
  {
    assert [turn][1..] == [];
  }

  lemma TwoTurns(f: Findings, g: Findings, h: Findings, t: Runner.Turn, u: Runner.Turn)
    requires Runner.ArtifactTurn(f, false, t) == (g, None) && Runner.ArtifactTurn(g, false, u) == (h, None)
    ensures Runner.ArtifactTurns(f, false, [t, u]) == (h, None)
  {
    assert [t, u][1..] == [u];
    OneTurn(g, h, u);
  }

  lemma KindKept(c: Config, rs: Release.Releases, s: Subject, kind: string)
    ensures Requested(c, rs, s, kind, map[]).kind == kind
  {
  }

  lemma Kinds()
    ensures Release.TEXT_PLAIN != Release.APT_PACKAGES && Release.TEXT_PLAIN != Release.APT_TRANSLATION
    ensures Release.TEXT_PLAIN != Release.APT_COMMANDS && AptPackages.DEB != Release.APT_PACKAGES
    ensures AptPackages.DEB != Release.APT_TRANSLATION && AptPackages.DEB != Release.APT_COMMANDS && AptPackages.DEB != Release.TEXT_PLAIN
  {
    assert Release.TEXT_PLAIN[0] == 't' && Release.APT_PACKAGES[0] == 'a' && Release.APT_TRANSLATION[0] == 'a';
    assert Release.APT_COMMANDS[0] == 'a' && AptPackages.DEB[0] == 'a';
    assert AptPackages.DEB[12] == 'v' && Release.APT_PACKAGES[12] == 'x' && Release.APT_TRANSLATION[12] == 'x' && Release.APT_COMMANDS[12] == 'x';
  }

  // Recording a release

  lemma ReleaseAccepted(c: Config, rs: Release.Releases, f: Findings, s: Subject, name: string, h: Release.Header,
                        section: seq<string>, files: map<string, Release.ReleaseEntry>)
    requires Release.TextNote(f.request, Release.ID, "cfg-name") == Some(name) && Plain(c, name) && s.clearsigned
    requires s.signed(Release.PublicKey(c, name)) == Release.Verified(s.lines)
    requires Release.HeaderFrom(s.lines, 0, map[]) == Some((h, section)) && !Release.MissingFields(h)
    requires Release.SectionFrom(section, map[], []) == Some((files, []))
    ensures var o := Release.InRelease(c, rs, f, s);
            && o.error.None? && !o.crashed
            && o.releases == rs[s.base := Release.ReleaseFile(s.digest, h["Origin"], files)]
            && OneVerdict(f, o.f, Release.ID)
  {
    var notes := map k | k in h :: Text(h[k]);
    assert Release.InRelease(c, rs, f, s).f == SetResponse(f, Release.ID, Release.Says(Approved, ReleaseValidated, Release.ReleaseMeta(h), notes));
  }

  /** A flight past the packages and the deb inspector, neither of which has a say. */
  lemma SkipTwice(c: Config, st: State, id: nat)
    requires AtStage(st, id, AtPackages)
    ensures Leads(c, st, [Skip(id)] + [Skip(id)], st.(flights := st.flights[id := st.flights[id].(stage := PastDeb)]))
  {
    LeadsOne(c, st, Skip(id));
    var middle := After(c, st, Skip(id));
    LeadsOne(c, middle, Skip(id));
    LeadsTwice(c, st, [Skip(id)], middle, [Skip(id)], After(c, middle, Skip(id)));
    assert After(c, middle, Skip(id)).flights == st.flights[id := st.flights[id].(stage := PastDeb)];
  }

  /** A download of an InRelease file. */
  lemma RecordRelease(c: Config, st: State, id: nat, name: string, base: string, v: string, es: seq<Listed>, file: Item)
    returns (visit: Visit, next: State)
    requires Plain(c, name) && AllListable(es) && v != "" && Trimmed(v) && id !in st.flights && base !in st.releases
    ensures Visits(c, st, id, visit, next) && visit.s == ReleaseOf(name, base, v, es, file)
    ensures next.known == st.known && next.indexed == st.indexed
    ensures next.trusted == st.trusted + [ReleaseOf(name, base, v, es, file)]
    ensures base in next.releases && next.releases == st.releases[base := next.releases[base]]
    ensures next.releases[base].files == CollectFiles(map[], es)
  {
    var s := ReleaseOf(name, base, v, es, file);
    var f := Requested(c, st.releases, s, Release.TEXT_PLAIN, map[]);
    var arrived := Arrived(c, st, id, s, Release.TEXT_PLAIN);
    ReleaseJudged(c, st.releases, name, base, v, es, file);
    LeadsOne(c, arrived, RunRelease(id));
    var judged := After(c, arrived, RunRelease(id));
    SkipTwice(c, judged, id);
    next := judged.(flights := judged.flights[id := judged.flights[id].(stage := PastDeb)]);
    LeadsTwice(c, arrived, [RunRelease(id)], judged, [Skip(id)] + [Skip(id)], next);
    var turn := TurnOf(f, next.flights[id].f, Release.ID);
    OneTurn(f, next.flights[id].f, turn);
    visit := Visit(s, Release.TEXT_PLAIN, [RunRelease(id)] + ([Skip(id)] + [Skip(id)]), [turn]);
    ThreeSteps(RunRelease(id), Skip(id), Skip(id), id);
    SetTwice(st.flights, arrived.flights, judged.flights, id);
    SetTwice(st.flights, judged.flights, next.flights, id);
  }

  /** The release inspector on a written release of a plain repository. */
  lemma ReleaseJudged(c: Config, rs: Release.Releases, name: string, base: string, v: string, es: seq<Listed>, file: Item)
    requires Plain(c, name) && AllListable(es) && v != "" && Trimmed(v)
    ensures var s := ReleaseOf(name, base, v, es, file);
            var f := Requested(c, rs, s, Release.TEXT_PLAIN, map[]);
            var o := Release.Inspect(c, rs, f, s);
            && o.error.None? && !o.crashed && base in o.releases && o.releases == rs[base := o.releases[base]]
            && o.releases[base].files == CollectFiles(map[], es)
            && LeftPending(f, Release.ID) && OneVerdict(f, o.f, Release.ID)
  {
    var s := ReleaseOf(name, base, v, es, file);
    var f := Requested(c, rs, s, Release.TEXT_PLAIN, map[]);
    ArrivesNoted(c, rs, s, Release.TEXT_PLAIN, map[]);
    KindKept(c, rs, s, Release.TEXT_PLAIN);
    MinimalIsEnough(v);
    ReleaseRoundTrip(Minimal(v), es);
    ReleaseAccepted(c, rs, f, s, name, Collect(map[], Minimal(v)), PrintSection(es), CollectFiles(map[], es));
    Kinds();
    PlainIsRelease(c, rs, f, s);
  }

  lemma PlainIsRelease(c: Config, rs: Release.Releases, f: Findings, s: Subject)
    requires f.kind == Release.TEXT_PLAIN && s.mimes == {Release.TEXT_PLAIN}
    ensures Release.Inspect(c, rs, f, s) == Release.InRelease(c, rs, f, s)
  {
    Kinds();
  }

  // Recording a Packages file

  /** The notes taken of a Packages request. */
  lemma PackagesNoted(c: Config, rs: Release.Releases, s: Subject, u: Release.IndexUrl, kind: string)
    requires s.url.Some? && s.url.value.packages == Some(u) && s.url.value.inRelease.None? && s.url.value.deb.None?
    ensures var f := Requested(c, rs, s, kind, map[]);
            && AptPackages.TextNote(f, "suite") == Some(u.suite) && AptPackages.TextNote(f, "component") == Some(u.component)
            && AptPackages.TextNote(f, "architecture") == Some(u.architecture) && AptPackages.TextNote(f, "cfg-name") == Some(u.cfgName)
            && Release.TextNote(f.request, Release.ID, "cfg-name") == Some(u.cfgName) && f.response == map[]
            && LeftPending(f, AptPackages.ID)
            && (Plain(c, u.cfgName) && Release.DistOf(u) in rs ==> LeftPending(f, Release.ID))
  {
    var g := Release.RequestOpinion(c, rs, FRESH.(request := map[], kind := kind), s.url.value);
    IndexNotesRead(u);
    IndexRequestNotes(c, rs, FRESH.(request := map[], kind := kind), u);
    assert Requested(c, rs, s, kind, map[]) == AptPackages.RequestOpinion(g, s.url.value);
  }

  lemma IndexNotesRead(u: Release.IndexUrl)
    ensures var n := Release.IndexNotes(u);
            && "suite" in n && n["suite"] == Text(u.suite) && "component" in n && n["component"] == Text(u.component)
            && "architecture" in n && n["architecture"] == Text(u.architecture) && "cfg-name" in n && n["cfg-name"] == Text(u.cfgName)
  {
  }

  /** The release inspector's verdict on a Packages file of a plain repository. */
  lemma PackagesJudged(c: Config, rs: Release.Releases, f: Findings, s: Subject, u: Release.IndexUrl)
    requires s.url.Some? && s.url.value.packages == Some(u) && u.digest == "" && Plain(c, u.cfgName)
    requires Release.TextNote(f.request, Release.ID, "cfg-name") == Some(u.cfgName) && Release.DistOf(u) in rs
    requires f.response == map[] && s.mimes == {Release.APT_PACKAGES}
    ensures var o := Release.Inspect(c, rs, f, s);
            && o.error.None? && !o.crashed && o.releases == rs && o.f.request == f.request
            && AptPackages.ID !in o.f.response && o.f.kind == Release.APT_PACKAGES
            && (AptPackages.ReleaseNoted(o.f) <==> s.digest in rs[Release.DistOf(u)].files)
            && OneVerdict(f, o.f, Release.ID)
  {
    Release.IndexListedIff(c, rs, f, s, Some(u), Release.APT_PACKAGES);
    var v := Release.IndexVerdict(c, rs, f, s, Some(u), Release.APT_PACKAGES);
    assert Release.ListedOnRecord(c, rs, f, s, u, false) <==> s.digest in rs[Release.DistOf(u)].files;
    assert Release.Inspect(c, rs, f, s) == Release.Index(c, rs, f, s, Release.APT_PACKAGES);
    NotedText(c, rs, f, s, u);
    VerdictKind(c, rs, f, s, Some(u), Release.APT_PACKAGES);
    assert Release.APT_PACKAGES != "";
    assert Release.Index(c, rs, f, s, Release.APT_PACKAGES).f == SetResponse(f, Release.ID, v);
  }

  lemma NotedText(c: Config, rs: Release.Releases, f: Findings, s: Subject, u: Release.IndexUrl)
    ensures var v := Release.IndexVerdict(c, rs, f, s, Some(u), Release.APT_PACKAGES);
            AptPackages.ReleaseNoted(SetResponse(f, Release.ID, v)) <==> "release-file" in v.notes
  {
  }

  predicate IndexNoted(f: Findings, u: Release.IndexUrl) {
    && AptPackages.TextNote(f, "suite") == Some(u.suite) && AptPackages.TextNote(f, "component") == Some(u.component)
    && AptPackages.TextNote(f, "architecture") == Some(u.architecture) && AptPackages.TextNote(f, "cfg-name") == Some(u.cfgName)
  }

  /** The packages inspector's part. */
  lemma IndexKept(c: Config, k: AptPackages.Known, s: Subject, f: Findings, u: Release.IndexUrl, lines: seq<string>)
    requires IndexNoted(f, u) && Plain(c, u.cfgName) && AptPackages.ID !in f.response && f.kind != AptPackages.DEB
    requires s.url.Some? && s.url.value.packages == Some(u) && s.url.value.deb.None? && s.mimes == {Release.APT_PACKAGES} && s.index == Some(lines)
    requires Listing.ScanLines(Listing.SCAN_START, lines).Some?
    ensures AptPackages.Found(AptPackages.Searched(c, k, f, s), s.digest, None)
    ensures var o := AptPackages.Inspect(c, k, f, s, None);
            var entries := Listing.ScanLines(Listing.SCAN_START, lines).value.entries;
            && o.known.packages == AptPackages.Add(k, s.url.value.origin, s.url.value.path, AptPackages.Packages(s.digest, u.suite, entries)).packages
            && o.known.validated == k.validated + (if AptPackages.ReleaseNoted(f) then {s.digest} else {})
            && o.error.None? && OneVerdict(f, o.f, AptPackages.ID)
  {
    Kinds();
    IndexSays(c, k, f, s);
    AptPackages.IndexOutcomeIff(c, k, f, s);
    assert AptPackages.SearchFor(c, f, s).Fails?;
    assert AptPackages.Inspect(c, k, f, s, None) == AptPackages.Index(c, k, f, s);
  }

  lemma IndexSays(c: Config, k: AptPackages.Known, f: Findings, s: Subject)
    requires s.url.Some? && s.index.Some? && AptPackages.Placeable(c, f)
    ensures OneVerdict(f, AptPackages.Index(c, k, f, s).f, AptPackages.ID)
  {
    var p := AptPackages.Place(c, f, s.url.value);
    RecordSays(k, f, s, s.url.value.path, AptPackages.WithVendor(p.meta, Release.TextNote(f.response, Release.ID, "vendor")), p.suite, p.origin);
  }

  lemma RecordSays(k: AptPackages.Known, f: Findings, s: Subject, path: string, md: Meta, suite: string, origin: string)
    requires s.index.Some?
    ensures OneVerdict(f, AptPackages.Record(k, f, s, path, md, suite, origin).f, AptPackages.ID)
  {
    var scan := Listing.ScanLines(Listing.SCAN_START, s.index.value);
    var v := if scan.None? then Verdict(Rejected, ParseError, md, map["package-count" := Number(0)])
             else AptPackages.ListedVerdict(md, scan.value.num, Release.TextNote(f.response, Release.ID, "release-file"));
    assert AptPackages.Record(k, f, s, path, md, suite, origin).f == SetResponse(f, AptPackages.ID, v);
  }

  /** The release inspector's part in the visit of a Packages file. */
  lemma JudgePackages(c: Config, st: State, id: nat, s: Subject, u: Release.IndexUrl) returns (judged: State)
    requires Plain(c, u.cfgName) && u.digest == "" && id !in st.flights && Release.DistOf(u) in st.releases
    requires s.url.Some? && s.url.value.packages == Some(u) && s.url.value.inRelease.None? && s.url.value.deb.None?
    requires s.mimes == {Release.APT_PACKAGES}
    ensures Leads(c, Arrived(c, st, id, s, Release.APT_PACKAGES), [RunRelease(id)], judged)
    ensures judged == st.(flights := judged.flights) && id in judged.flights && judged.flights == st.flights[id := judged.flights[id]]
    ensures judged.flights[id].stage == AtPackages && judged.flights[id].s == s
    ensures var f, g := Requested(c, st.releases, s, Release.APT_PACKAGES, map[]), judged.flights[id].f;
            && IndexNoted(g, u) && AptPackages.ID !in g.response && g.kind == Release.APT_PACKAGES
            && (AptPackages.ReleaseNoted(g) <==> s.digest in st.releases[Release.DistOf(u)].files)
            && LeftPending(f, Release.ID) && OneVerdict(f, g, Release.ID) && LeftPending(g, AptPackages.ID)
  {
    var f := Requested(c, st.releases, s, Release.APT_PACKAGES, map[]);
    var arrived := Arrived(c, st, id, s, Release.APT_PACKAGES);
    PackagesNoted(c, st.releases, s, u, Release.APT_PACKAGES);
    PackagesJudged(c, st.releases, f, s, u);
    LeadsOne(c, arrived, RunRelease(id));
    judged := After(c, arrived, RunRelease(id));
    SetTwice(st.flights, arrived.flights, judged.flights, id);
  }

  /** The packages inspector's part. */
  lemma KeepPackages(c: Config, st: State, id: nat, u: Release.IndexUrl, lines: seq<string>) returns (next: State)
    requires AtStage(st, id, AtPackages) && IndexNoted(st.flights[id].f, u) && Plain(c, u.cfgName)
    requires var s, f := st.flights[id].s, st.flights[id].f;
             && s.url.Some? && s.url.value.packages == Some(u) && s.url.value.deb.None? && s.mimes == {Release.APT_PACKAGES} && s.index == Some(lines)
             && AptPackages.ID !in f.response && f.kind != AptPackages.DEB && LeftPending(f, AptPackages.ID)
             && s.url.value.path !in AptPackages.At(st.known, s.url.value.origin)
    requires Listing.ScanLines(Listing.SCAN_START, lines).Some?
    ensures Leads(c, st, [RunPackages(id, None)] + [Skip(id)], next)
    ensures id in next.flights && next.flights == st.flights[id := next.flights[id]]
    ensures next.flights[id].stage == PastDeb && next.flights[id].s == st.flights[id].s && OneVerdict(st.flights[id].f, next.flights[id].f, AptPackages.ID)
    ensures var s, entries := st.flights[id].s, Listing.ScanLines(Listing.SCAN_START, lines).value.entries;
            && next.releases == st.releases && next.trusted == st.trusted && next.indexed == st.indexed + [s]
            && next.known.packages == AptPackages.Add(st.known, s.url.value.origin, s.url.value.path, AptPackages.Packages(s.digest, u.suite, entries)).packages
            && next.known.validated == st.known.validated + (if AptPackages.ReleaseNoted(st.flights[id].f) then {s.digest} else {})
  {
    var s := st.flights[id].s;
    IndexKept(c, st.known, s, st.flights[id].f, u, lines);
    var after := AptPackages.Inspect(c, st.known, st.flights[id].f, s, None).known;
    assert s.url.value.path in AptPackages.At(after, s.url.value.origin);
    LeadsOne(c, st, RunPackages(id, None));
    var kept := After(c, st, RunPackages(id, None));
    LeadsOne(c, kept, Skip(id));
    next := After(c, kept, Skip(id));
    LeadsTwice(c, st, [RunPackages(id, None)], kept, [Skip(id)], next);
    SetTwice(st.flights, kept.flights, next.flights, id);
  }

  lemma TwoInspectors(f: Findings, g: Findings, h: Findings, id: string, id': string) returns (turns: seq<Runner.Turn>)
    requires OneVerdict(f, g, id) && LeftPending(f, id) && IsChainId(id)
    requires OneVerdict(g, h, id') && LeftPending(g, id') && IsChainId(id')
    ensures Runner.ArtifactTurns(f, false, turns) == (h, None)
  {
    var t := TurnOf(f, g, id);
    var u := TurnOf(g, h, id');
    TwoTurns(f, g, h, t, u);
    turns := [t, u];
  }

  /** A download of a Packages file. */
  lemma RecordPackages(c: Config, st: State, id: nat, s: Subject, u: Release.IndexUrl, lines: seq<string>)
    returns (visit: Visit, next: State)
    requires Plain(c, u.cfgName) && u.digest == "" && id !in st.flights && Release.DistOf(u) in st.releases
    requires s.url.Some? && s.url.value.packages == Some(u) && s.url.value.inRelease.None? && s.url.value.deb.None?
    requires s.mimes == {Release.APT_PACKAGES} && s.index == Some(lines) && Listing.ScanLines(Listing.SCAN_START, lines).Some?
    requires s.url.value.path !in AptPackages.At(st.known, s.url.value.origin)
    ensures Visits(c, st, id, visit, next) && visit.s == s
    ensures next.releases == st.releases && next.trusted == st.trusted && next.indexed == st.indexed + [s]
    ensures next.known.packages == AptPackages.Add(st.known, s.url.value.origin, s.url.value.path,
              AptPackages.Packages(s.digest, u.suite, Listing.ScanLines(Listing.SCAN_START, lines).value.entries)).packages
    ensures next.known.validated == st.known.validated + (if s.digest in st.releases[Release.DistOf(u)].files then {s.digest} else {})
  {
    Kinds();
    var judged := JudgePackages(c, st, id, s, u);
    next := KeepPackages(c, judged, id, u, lines);
    SetTwice(st.flights, judged.flights, next.flights, id);
    visit := PackagesVisit(c, st, id, s, judged, next, judged.flights[id].f);
  }

  lemma PackagesVisit(c: Config, st: State, id: nat, s: Subject, judged: State, next: State, g: Findings) returns (visit: Visit)
    requires id !in st.flights && id in next.flights && next.flights == st.flights[id := next.flights[id]]
    requires Leads(c, Arrived(c, st, id, s, Release.APT_PACKAGES), [RunRelease(id)], judged)
    requires Leads(c, judged, [RunPackages(id, None)] + [Skip(id)], next)
    requires next.flights[id].stage == PastDeb && next.flights[id].s == s
    requires var f := Requested(c, st.releases, s, Release.APT_PACKAGES, map[]);
             LeftPending(f, Release.ID) && OneVerdict(f, g, Release.ID) && LeftPending(g, AptPackages.ID) && OneVerdict(g, next.flights[id].f, AptPackages.ID)
    ensures Visits(c, st, id, visit, next) && visit.s == s
  {
    var turns := TwoInspectors(Requested(c, st.releases, s, Release.APT_PACKAGES, map[]), g, next.flights[id].f, Release.ID, AptPackages.ID);
    visit := Visit(s, Release.APT_PACKAGES, [RunRelease(id)] + ([RunPackages(id, None)] + [Skip(id)]), turns);
    LeadsTwice(c, Arrived(c, st, id, s, Release.APT_PACKAGES), [RunRelease(id)], judged, [RunPackages(id, None)] + [Skip(id)], next);
    ThreeSteps(RunRelease(id), RunPackages(id, None), Skip(id), id);
    MakesVisit(c, st, id, visit, next);
  }

  lemma ThreeSteps(a: Step, b: Step, d: Step, id: nat)
    requires !a.Arrive? && !b.Arrive? && !d.Arrive? && a.id == b.id == d.id == id
    ensures ByInspectors([a] + ([b] + [d]), id)
  {
  }

  lemma MakesVisit(c: Config, st: State, id: nat, v: Visit, next: State)
    requires id !in st.flights && id in next.flights && next.flights == st.flights[id := next.flights[id]]
    requires Leads(c, Arrived(c, st, id, v.s, v.kind), v.runs, next) && ByInspectors(v.runs, id)
    requires next.flights[id].stage == PastDeb && next.flights[id].s == v.s
    requires Runner.ArtifactTurns(Requested(c, st.releases, v.s, v.kind, map[]), false, v.turns) == (next.flights[id].f, None)
    ensures Visits(c, st, id, v, next)
  {
  }

  // Approving a deb

  /** The request opinions on a deb: pending for the packages and the deb inspector. */
  lemma DebNoted(c: Config, rs: Release.Releases, s: Subject, u: Release.DebUrl)
    requires s.url.Some? && s.url.value == NO_URL.(origin := s.url.value.origin, deb := Some(u))
    ensures var f := Requested(c, rs, s, AptPackages.DEB, map[]);
            && f.response == map[] && f.kind == AptPackages.DEB && PendingRequest(f)
            && AptPackages.TextNote(f, "cfg-name") == Some(u.cfgName)
            && LeftPending(f, AptPackages.ID) && LeftPending(f, DebPackage.ID)
  {
    var f := Requested(c, rs, s, AptPackages.DEB, map[]);
    var notes := AptPackages.DebNotes(u);
    assert "cfg-name" in notes && notes["cfg-name"] == Text(u.cfgName);
    assert Release.RequestOpinion(c, rs, FRESH.(kind := AptPackages.DEB), s.url.value) == FRESH.(kind := AptPackages.DEB);
    assert f.request == map[AptPackages.ID := Inspection(Pending, ValidUrl, notes),
                            DebPackage.ID := Inspection(Pending, ValidUrl, notes)];
    assert f.request[DebPackage.ID].opinion == Pending;
  }

  /** Both inspectors on a deb that file `p` of its origin lists correctly. */
  lemma DebJudged(c: Config, k: AptPackages.Known, f: Findings, s: Subject, u: Release.DebUrl, p: AptPackages.Packages)
    requires s.url.Some? && s.url.value == NO_URL.(origin := s.url.value.origin, deb := Some(u)) && s.control.1.None? && s.mimes == {AptPackages.DEB}
    requires f.response == map[] && PendingRequest(f) && AptPackages.TextNote(f, "cfg-name") == Some(u.cfgName) && Plain(c, u.cfgName)
    requires p in AptPackages.At(k, s.url.value.origin).Values && Accepts(k, s, u, p)
    ensures AptPackages.Found(AptPackages.Searched(c, k, f, s), s.digest, Some(p))
    ensures var o := AptPackages.Inspect(c, k, f, s, Some(p));
            && o.error.None? && o.known == k
            && ArtifactApproved(DebPackage.Inspect(o.f, s)) && DebApproved(DebPackage.Inspect(o.f, s))
            && OneVerdict(f, o.f, AptPackages.ID) && OneVerdict(o.f, DebPackage.Inspect(o.f, s), DebPackage.ID)
            && o.f.request == f.request
  {
    assert AptPackages.SearchFor(c, f, s) == AptPackages.Search(s.url.value.origin, u);
    MatchAccepted(k, s, u, p);
    var v := AptPackages.DebVerdict(k, s, u, Some(p));
    var g := SetResponse(f, AptPackages.ID, v);
    assert AptPackages.Inspect(c, k, f, s, Some(p)) == AptPackages.Outcome(k, g, None);
    DebVouchedFor(f, g, s, v);
  }

  lemma DebVouchedFor(f: Findings, g: Findings, s: Subject, v: Verdict)
    requires f.response == map[] && PendingRequest(f) && s.control.1.None? && s.mimes == {AptPackages.DEB}
    requires g == SetResponse(f, AptPackages.ID, v) && v.opinion == Unknown
    requires "packages-is-valid" in v.notes && v.notes["packages-is-valid"] == Flag(true)
    ensures ArtifactApproved(DebPackage.Inspect(g, s)) && DebApproved(DebPackage.Inspect(g, s))
    ensures OneVerdict(g, DebPackage.Inspect(g, s), DebPackage.ID)
  {
    assert DebPackage.FlagNote(g.response, AptPackages.ID, "packages-is-valid") == Some(true);
    var h := DebPackage.Inspect(g, s);
    assert h.response.Keys == {AptPackages.ID, DebPackage.ID};
    assert h.response[DebPackage.ID].opinion == Approved && h.request == f.request;
  }

  /** The two inspectors' parts in the visit of a deb. */
  lemma JudgeDeb(c: Config, st: State, id: nat, pick: Option<AptPackages.Packages>) returns (next: State)
    requires AtStage(st, id, AtRelease)
    requires var s, f := st.flights[id].s, st.flights[id].f;
             && AptPackages.Found(AptPackages.Searched(c, st.known, f, s), s.digest, pick)
             && AptPackages.Inspect(c, st.known, f, s, pick).known == st.known && AptPackages.Inspect(c, st.known, f, s, pick).error.None?
    ensures Leads(c, st, [Skip(id)] + ([RunPackages(id, pick)] + [RunDeb(id)]), next)
    ensures next == st.(flights := next.flights) && id in next.flights && next.flights == st.flights[id := next.flights[id]]
    ensures next.flights[id] == Flight(st.flights[id].s, DebPackage.Inspect(AptPackages.Inspect(c, st.known, st.flights[id].f, st.flights[id].s, pick).f, st.flights[id].s), PastDeb)
  {
    var fl := st.flights[id];
    LeadsOne(c, st, Skip(id));
    var skipped := st.(flights := st.flights[id := fl.(stage := AtPackages)]);
    var g := AptPackages.Inspect(c, st.known, fl.f, fl.s, pick).f;
    var found := st.(flights := st.flights[id := Flight(fl.s, g, AtDeb)]);
    SearchDeb(c, skipped, id, pick, found);
    LeadsOne(c, found, RunDeb(id));
    next := After(c, found, RunDeb(id));
    LeadsTwice(c, skipped, [RunPackages(id, pick)], found, [RunDeb(id)], next);
    LeadsTwice(c, st, [Skip(id)], skipped, [RunPackages(id, pick)] + [RunDeb(id)], next);
    assert next.flights == st.flights[id := next.flights[id]];
  }

  lemma SearchDeb(c: Config, st: State, id: nat, pick: Option<AptPackages.Packages>, next: State)
    requires AtStage(st, id, AtPackages)
    requires var s, f := st.flights[id].s, st.flights[id].f;
             && AptPackages.Found(AptPackages.Searched(c, st.known, f, s), s.digest, pick)
             && var o := AptPackages.Inspect(c, st.known, f, s, pick);
             && o.known == st.known && o.error.None? && next.flights == st.flights[id := Flight(s, o.f, AtDeb)]
    requires next == st.(flights := next.flights)
    ensures Leads(c, st, [RunPackages(id, pick)], next)
  {
    LeadsOne(c, st, RunPackages(id, pick));
  }

  /** A download of a deb. */
  lemma ApproveDeb(c: Config, st: State, id: nat, s: Subject, u: Release.DebUrl, p: AptPackages.Packages)
    returns (visit: Visit, next: State)
    requires Plain(c, u.cfgName) && id !in st.flights
    requires s.url.Some? && s.url.value == NO_URL.(origin := s.url.value.origin, deb := Some(u)) && s.control.1.None? && s.mimes == {AptPackages.DEB}
    requires p in AptPackages.At(st.known, s.url.value.origin).Values && Accepts(st.known, s, u, p)
    ensures Visits(c, st, id, visit, next) && visit.s == s
    ensures next == st.(flights := next.flights)
    ensures ArtifactApproved(next.flights[id].f) && DebApproved(next.flights[id].f)
  {
    var f := Requested(c, st.releases, s, AptPackages.DEB, map[]);
    DebNoted(c, st.releases, s, u);
    DebJudged(c, st.known, f, s, u, p);
    var arrived := Arrived(c, st, id, s, AptPackages.DEB);
    next := JudgeDeb(c, arrived, id, Some(p));
    var turns := TwoInspectors(f, AptPackages.Inspect(c, st.known, f, s, Some(p)).f, next.flights[id].f, AptPackages.ID, DebPackage.ID);
    visit := DebVisit(c, st, id, s, Some(p), turns, next);
  }

  lemma DebVisit(c: Config, st: State, id: nat, s: Subject, pick: Option<AptPackages.Packages>, turns: seq<Runner.Turn>, next: State)
    returns (visit: Visit)
    requires id !in st.flights && Leads(c, Arrived(c, st, id, s, AptPackages.DEB), [Skip(id)] + ([RunPackages(id, pick)] + [RunDeb(id)]), next)
    requires id in next.flights && next.flights == Arrived(c, st, id, s, AptPackages.DEB).flights[id := next.flights[id]]
    requires next.flights[id].stage == PastDeb && next.flights[id].s == s
    requires Runner.ArtifactTurns(Requested(c, st.releases, s, AptPackages.DEB, map[]), false, turns) == (next.flights[id].f, None)
    ensures Visits(c, st, id, visit, next) && visit.s == s
  {
    visit := Visit(s, AptPackages.DEB, [Skip(id)] + ([RunPackages(id, pick)] + [RunDeb(id)]), turns);
    ThreeSteps(Skip(id), RunPackages(id, pick), RunDeb(id), id);
    SetTwice(st.flights, Arrived(c, st, id, s, AptPackages.DEB).flights, next.flights, id);
  }

  // The two sessions

  /** A repository: its entry in the configuration, where its index files are, and its origin. */
  datatype Place = Place(name: string, repository: string, origin: string)

  function IndexAt(at: Place): Release.IndexUrl {
    Release.IndexUrl(at.name, at.repository, "suite", "main", "amd64", "")
  }

  function BaseOf(at: Place): string {
    Release.DistOf(IndexAt(at))
  }

  function DebAt(at: Place): Release.DebUrl {
    Release.DebUrl(at.name, "main", "amd64")
  }

  function StanzaOf(deb: string, size: nat): Listing.Stanza {
    Listing.Stanza(Listing.Entry("p", "amd64", "1", size), deb, [], [], [])
  }

  lemma StanzaPrints(deb: string, size: nat)
    requires |deb| == 32 && IsBytes(deb) && size < 0x8000_0000_0000_0000
    ensures Listing.Printable(StanzaOf(deb, size))
  {
  }

  /** The text of a Packages file that lists one deb. */
  function Listings(deb: string, size: nat): (lines: seq<string>)
    requires |deb| == 32 && IsBytes(deb) && size < 0x8000_0000_0000_0000
    ensures Listing.ScanLines(Listing.SCAN_START, lines).Some?
    ensures Listing.ScanLines(Listing.SCAN_START, lines).value.entries == map[deb := Listing.Entry("p", "amd64", "1", size)]
  {
    StanzaPrints(deb, size);
    OneStanza(StanzaOf(deb, size));
    Listing.PrintAll([StanzaOf(deb, size)])
  }

  lemma OneStanza(st: Listing.Stanza)
    requires Listing.Printable(st)
    ensures Listing.ScanLines(Listing.SCAN_START, Listing.PrintAll([st])).Some?
    ensures Listing.ScanLines(Listing.SCAN_START, Listing.PrintAll([st])).value.entries == map[st.digest := st.entry]
  {
    Listing.PrintParse([st]);
    assert [st][..0] == [];
    assert Listing.EntriesOf([]) == map[];
  }

  function ListsFile(digest: string): seq<Listed> {
    [(digest, Release.ReleaseEntry("Packages", 1))]
  }

  lemma FileListable(digest: string)
    requires |digest| == 32 && IsBytes(digest)
    ensures AllListable(ListsFile(digest)) && CollectFiles(map[], ListsFile(digest)) == map[digest := Release.ReleaseEntry("Packages", 1)]
  {
    assert ListsFile(digest)[1..] == [];
  }

  /** The files of a session: an InRelease of each of two repositories, a Packages file both serve, a deb
      it lists, and some header text. Files with different text have different digests. */
  datatype Served = Served(releaseA: Item, packages: Item, releaseB: Item, deb: Item, v: string)

  predicate Usable(x: Served) {
    && |x.packages.digest| == 32 && IsBytes(x.packages.digest) && |x.deb.digest| == 32 && IsBytes(x.deb.digest)
    && x.deb.size < 0x8000_0000_0000_0000 && x.v != "" && Trimmed(x.v) && Distinct(x)
  }

  predicate Distinct(x: Served) {
    && x.releaseA.digest != x.packages.digest && x.releaseA.digest != x.releaseB.digest && x.releaseA.digest != x.deb.digest
    && x.packages.digest != x.releaseB.digest && x.packages.digest != x.deb.digest && x.releaseB.digest != x.deb.digest
  }

  function ReleaseA(a: Place, x: Served): Subject
    requires Usable(x) && AllListable(ListsFile(x.packages.digest))
  {
    ReleaseOf(a.name, BaseOf(a), x.v, ListsFile(x.packages.digest), x.releaseA)
  }

  function ReleaseB(b: Place, x: Served): Subject {
    ReleaseOf(b.name, BaseOf(b), x.v, [], x.releaseB)
  }

  function PackagesAt(at: Place, x: Served): Subject
    requires Usable(x)
  {
    PackagesOf(at.name, at.origin, "", IndexAt(at), Listings(x.deb.digest, x.deb.size), x.packages)
  }

  function Known(x: Served): AptPackages.Packages {
    AptPackages.Packages(x.packages.digest, "suite", map[x.deb.digest := Listing.Entry("p", "amd64", "1", x.deb.size)])
  }

  /** One more download of the session. */
  lemma AddRelease(c: Config, vs: seq<Visit>, sts: seq<State>, at: Place, v: string, es: seq<Listed>, file: Item)
    returns (vs': seq<Visit>, sts': seq<State>)
    requires AllVisit(c, vs, sts) && Plain(c, at.name) && AllListable(es) && v != "" && Trimmed(v) && BaseOf(at) !in sts[|vs|].releases
    ensures |vs'| == |vs| + 1 && AllVisit(c, vs', sts') && vs'[..|vs|] == vs && vs'[|vs|].s == ReleaseOf(at.name, BaseOf(at), v, es, file)
    ensures var st, next := sts[|vs|], sts'[|vs'|];
            && next.known == st.known && next.indexed == st.indexed && next.trusted == st.trusted + [vs'[|vs|].s]
            && BaseOf(at) in next.releases && next.releases == st.releases[BaseOf(at) := next.releases[BaseOf(at)]]
            && next.releases[BaseOf(at)].files == CollectFiles(map[], es)
  {
    VisitedOnly(c, vs, sts);
    var visit, next := RecordRelease(c, sts[|vs|], |vs|, at.name, BaseOf(at), v, es, file);
    OneMoreVisits(c, vs, sts, visit, next);
    vs', sts' := vs + [visit], sts + [next];
  }

  lemma AddPackages(c: Config, vs: seq<Visit>, sts: seq<State>, at: Place, x: Served)
    returns (vs': seq<Visit>, sts': seq<State>)
    requires AllVisit(c, vs, sts) && Plain(c, at.name) && Usable(x)
    requires BaseOf(at) in sts[|vs|].releases && at.origin !in sts[|vs|].known.packages
    ensures |vs'| == |vs| + 1 && AllVisit(c, vs', sts') && vs'[..|vs|] == vs && vs'[|vs|].s == PackagesAt(at, x)
    ensures var st, next := sts[|vs|], sts'[|vs'|];
            && next.releases == st.releases && next.trusted == st.trusted && next.indexed == st.indexed + [PackagesAt(at, x)]
            && next.known.packages == st.known.packages[at.origin := map["" := Known(x)]]
            && next.known.validated == st.known.validated + (if x.packages.digest in st.releases[BaseOf(at)].files then {x.packages.digest} else {})
  {
    VisitedOnly(c, vs, sts);
    assert AptPackages.At(sts[|vs|].known, at.origin) == map[];
    var visit, next := RecordPackages(c, sts[|vs|], |vs|, PackagesAt(at, x), IndexAt(at), Listings(x.deb.digest, x.deb.size));
    OneMoreVisits(c, vs, sts, visit, next);
    vs', sts' := vs + [visit], sts + [next];
  }

  lemma AddDeb(c: Config, vs: seq<Visit>, sts: seq<State>, at: Place, x: Served)
    returns (vs': seq<Visit>, sts': seq<State>)
    requires AllVisit(c, vs, sts) && Plain(c, at.name) && Usable(x)
    requires at.origin in sts[|vs|].known.packages && sts[|vs|].known.packages[at.origin] == map["" := Known(x)]
    requires x.packages.digest in sts[|vs|].known.validated
    ensures |vs'| == |vs| + 1 && AllVisit(c, vs', sts') && vs'[..|vs|] == vs && vs'[|vs|].s == DebOf(at.origin, DebAt(at), x.deb)
    ensures var st, next := sts[|vs|], sts'[|vs'|];
            && next == st.(flights := next.flights) && |vs| in next.flights
            && ArtifactApproved(next.flights[|vs|].f) && DebApproved(next.flights[|vs|].f)
  {
    VisitedOnly(c, vs, sts);
    assert AptPackages.At(sts[|vs|].known, at.origin)[""] == Known(x);
    var visit, next := ApproveDeb(c, sts[|vs|], |vs|, DebOf(at.origin, DebAt(at), x.deb), DebAt(at), Known(x));
    OneMoreVisits(c, vs, sts, visit, next);
    vs', sts' := vs + [visit], sts + [next];
  }

  /** A release of one repository. */
  lemma FirstRelease(c: Config, at: Place, x: Served) returns (vs: seq<Visit>, sts: seq<State>)
    requires Plain(c, at.name) && Usable(x)
    ensures AllListable(ListsFile(x.packages.digest)) && |vs| == 1 && AllVisit(c, vs, sts) && vs[0].s == ReleaseA(at, x)
    ensures var st := sts[1];
            && st.releases.Keys == {BaseOf(at)} && x.packages.digest in st.releases[BaseOf(at)].files
            && st.trusted == [ReleaseA(at, x)] && st.indexed == [] && st.known == AptPackages.NOTHING_KNOWN
  {
    FileListable(x.packages.digest);
    vs, sts := AddRelease(c, [], [START], at, x.v, ListsFile(x.packages.digest), x.releaseA);
  }

  /** A release of one repository and a Packages file it lists. */
  lemma Prepared(c: Config, at: Place, x: Served) returns (vs: seq<Visit>, sts: seq<State>)
    requires Plain(c, at.name) && Usable(x)
    ensures AllListable(ListsFile(x.packages.digest)) && |vs| == 2 && AllVisit(c, vs, sts)
    ensures vs[0].s == ReleaseA(at, x) && vs[1].s == PackagesAt(at, x)
    ensures var st := sts[2];
            && st.releases.Keys == {BaseOf(at)} && st.trusted == [ReleaseA(at, x)] && st.indexed == [PackagesAt(at, x)]
            && st.known.validated == {x.packages.digest} && st.known.packages == map[at.origin := map["" := Known(x)]]
  {
    vs, sts := FirstRelease(c, at, x);
    ghost var first := vs;
    vs, sts := AddPackages(c, vs, sts, at, x);
    assert vs[..1] == first;
  }

  /** A session that completes the chain within one repository. */
  lemma ChainVisits(c: Config, at: Place, x: Served) returns (vs: seq<Visit>, sts: seq<State>)
    requires Plain(c, at.name) && Usable(x)
    ensures AllListable(ListsFile(x.packages.digest)) && |vs| == 3 && AllVisit(c, vs, sts)
    ensures vs[0].s == ReleaseA(at, x) && vs[1].s == PackagesAt(at, x) && vs[2].s == DebOf(at.origin, DebAt(at), x.deb)
    ensures sts[3].indexed == [PackagesAt(at, x)] && 2 in sts[3].flights
    ensures ArtifactApproved(sts[3].flights[2].f) && DebApproved(sts[3].flights[2].f)
  {
    vs, sts := Prepared(c, at, x);
    ghost var first := vs;
    vs, sts := AddDeb(c, vs, sts, at, x);
    assert vs[..2] == first;
  }

  /** The deb is approved. */
  lemma ChainExample(c: Config, at: Place, x: Served) returns (steps: seq<Step>)
    requires Plain(c, at.name) && Usable(x)
    ensures AtStage(Run(c, steps), 2, PastDeb)
    ensures ArtifactApproved(Run(c, steps).flights[2].f) && DebApproved(Run(c, steps).flights[2].f)
    ensures OneRepositoryEach(c, Run(c, steps))
  {
    var vs, sts := ChainVisits(c, at, x);
    assert Visits(c, sts[2], 2, vs[2], sts[3]);
    steps := VisitsRun(c, vs, sts);
  }

  /** The second repository has a release that lists nothing. */
  lemma SecondRelease(c: Config, a: Place, b: Place, x: Served) returns (vs: seq<Visit>, sts: seq<State>)
    requires Plain(c, a.name) && Plain(c, b.name) && Usable(x) && BaseOf(a) != BaseOf(b)
    ensures AllListable(ListsFile(x.packages.digest)) && |vs| == 3 && AllVisit(c, vs, sts)
    ensures vs[0].s == ReleaseA(a, x) && vs[1].s == PackagesAt(a, x) && vs[2].s == ReleaseB(b, x)
    ensures var st := sts[3];
            && BaseOf(b) in st.releases && st.trusted == [ReleaseA(a, x), ReleaseB(b, x)] && st.indexed == [PackagesAt(a, x)]
            && st.known.validated == {x.packages.digest} && st.known.packages == map[a.origin := map["" := Known(x)]]
  {
    vs, sts := Prepared(c, a, x);
    ghost var first := vs;
    vs, sts := AddRelease(c, vs, sts, b, x.v, [], x.releaseB);
    OneAndOne(ReleaseA(a, x), ReleaseB(b, x));
    assert vs[..2] == first;
  }

  /** It serves the same Packages file. */
  lemma TwoOrigins(c: Config, a: Place, b: Place, x: Served) returns (vs: seq<Visit>, sts: seq<State>)
    requires Plain(c, a.name) && Plain(c, b.name) && Usable(x) && a.origin != b.origin && BaseOf(a) != BaseOf(b)
    ensures AllListable(ListsFile(x.packages.digest)) && |vs| == 4 && AllVisit(c, vs, sts)
    ensures vs[0].s == ReleaseA(a, x) && vs[1].s == PackagesAt(a, x) && vs[2].s == ReleaseB(b, x) && vs[3].s == PackagesAt(b, x)
    ensures var st := sts[4];
            && st.trusted == [ReleaseA(a, x), ReleaseB(b, x)] && st.indexed == [PackagesAt(a, x), PackagesAt(b, x)]
            && x.packages.digest in st.known.validated && b.origin in st.known.packages && st.known.packages[b.origin] == map["" := Known(x)]
  {
    vs, sts := SecondRelease(c, a, b, x);
    ghost var first := vs;
    vs, sts := AddPackages(c, vs, sts, b, x);
    OneAndOne(PackagesAt(a, x), PackagesAt(b, x));
    assert vs[..3] == first;
  }

  /** The flights are the visits so far. */
  lemma {:induction false} VisitedOnly(c: Config, vs: seq<Visit>, sts: seq<State>)
    requires AllVisit(c, vs, sts)
    ensures forall id | id in sts[|vs|].flights :: id < |vs|
  {
    if vs != [] {
      var n := |vs| - 1;
      VisitedOnly(c, vs[..n], sts[..n + 1]);
      assert Visits(c, sts[n], n, vs[n], sts[n + 1]);
    }
  }

  /** No release vouches for the second repository's Packages file. */
  lemma NobodyVouches(c: Config, a: Place, b: Place, x: Served)
    requires Plain(c, a.name) && Plain(c, b.name) && Usable(x) && BaseOf(a) != BaseOf(b)
    requires AllListable(ListsFile(x.packages.digest))
    ensures !Vouched(c, [ReleaseA(a, x), ReleaseB(b, x)], PackagesAt(b, x))
  {
    Repositories(c, a, b, x);
    BareRelease(c, b, x, x.packages.digest);
    Neither(c, ReleaseA(a, x), ReleaseB(b, x), PackagesAt(b, x));
  }

  lemma Repositories(c: Config, a: Place, b: Place, x: Served)
    requires Plain(c, a.name) && Plain(c, b.name) && Usable(x) && AllListable(ListsFile(x.packages.digest))
    ensures ReleaseRepository(c, ReleaseA(a, x)) == Some(BaseOf(a)) && RepositoryOf(c, PackagesAt(b, x)) == Some(BaseOf(b))
  {
  }

  /** The second release lists nothing. */
  lemma BareRelease(c: Config, b: Place, x: Served, d: string)
    requires x.v != "" && Trimmed(x.v)
    ensures !ReleaseLists(c, ReleaseB(b, x), d)
  {
    MinimalIsEnough(x.v);
    ReleaseRoundTrip(Minimal(x.v), []);
    assert SectionOf(ReleaseB(b, x).lines) == [];
    assert !Release.Lists([], d);
  }

  lemma Neither(c: Config, r: Subject, r': Subject, p: Subject)
    requires !ReleaseVouches(c, r, p) && !ReleaseVouches(c, r', p)
    ensures !Vouched(c, [r, r'], p)
  {
  }

  /** No Packages file that lists the deb there is vouched for. */
  ghost predicate Unvouched(c: Config, st: State, s: Subject) {
    forall j | 0 <= j < |st.indexed| && DebListed(c, st.indexed[j], s) :: !Vouched(c, st.trusted, st.indexed[j])
  }

  /** The deb comes from the second repository and is approved. */
  lemma CrossingVisits(c: Config, a: Place, b: Place, x: Served) returns (vs: seq<Visit>, sts: seq<State>)
    requires Plain(c, a.name) && Plain(c, b.name) && Usable(x) && a.origin != b.origin && BaseOf(a) != BaseOf(b)
    ensures AllListable(ListsFile(x.packages.digest)) && |vs| == 5 && AllVisit(c, vs, sts)
    ensures vs[0].s == ReleaseA(a, x) && vs[1].s == PackagesAt(a, x) && vs[2].s == ReleaseB(b, x) && vs[3].s == PackagesAt(b, x)
    ensures vs[4].s == DebOf(b.origin, DebAt(b), x.deb) && 4 in sts[5].flights
    ensures ArtifactApproved(sts[5].flights[4].f) && DebApproved(sts[5].flights[4].f)
    ensures Unvouched(c, sts[5], vs[4].s)
  {
    vs, sts := TwoOrigins(c, a, b, x);
    ghost var first := vs;
    NobodyVouches(c, a, b, x);
    vs, sts := AddDeb(c, vs, sts, b, x);
    assert vs[..4] == first;
    ListedHereOnly(c, sts[5], a, b, x);
  }

  /** The chain can cross repositories: the deb comes from the second one and is approved, although no
      release vouches for the only Packages file that lists it there. */
  lemma CrossingExample(c: Config, a: Place, b: Place, x: Served) returns (steps: seq<Step>)
    requires Plain(c, a.name) && Plain(c, b.name) && Usable(x) && a.origin != b.origin && BaseOf(a) != BaseOf(b)
    ensures AtStage(Run(c, steps), 4, PastDeb)
    ensures ArtifactApproved(Run(c, steps).flights[4].f) && DebApproved(Run(c, steps).flights[4].f)
    ensures Unvouched(c, Run(c, steps), Run(c, steps).flights[4].s)
  {
    var vs, sts := CrossingVisits(c, a, b, x);
    assert Visits(c, sts[4], 4, vs[4], sts[5]);
    steps := VisitsRun(c, vs, sts);
  }

  /** Only the second repository's Packages file lists its deb. */
  lemma ListedHereOnly(c: Config, st: State, a: Place, b: Place, x: Served)
    requires Plain(c, a.name) && Plain(c, b.name) && Usable(x) && a.origin != b.origin
    requires st.indexed == [PackagesAt(a, x), PackagesAt(b, x)] && !Vouched(c, st.trusted, st.indexed[1])
    ensures Unvouched(c, st, DebOf(b.origin, DebAt(b), x.deb))
  {
    Origins(c, a, b, x);
    OneOfTwo(c, st, DebOf(b.origin, DebAt(b), x.deb));
  }

  lemma Origins(c: Config, a: Place, b: Place, x: Served)
    requires Plain(c, a.name) && Plain(c, b.name) && Usable(x)
    ensures Origin(c, PackagesAt(a, x)) == Some(a.origin) && Origin(c, DebOf(b.origin, DebAt(b), x.deb)) == Some(b.origin)
  {
  }

  lemma OneOfTwo(c: Config, st: State, s: Subject)
    requires |st.indexed| == 2 && Origin(c, st.indexed[0]) != Origin(c, s) && !Vouched(c, st.trusted, st.indexed[1])
    ensures Unvouched(c, st, s)
  {
    NotFrom(c, st.indexed[0], s);
    forall j | 0 <= j < |st.indexed| && DebListed(c, st.indexed[j], s) ensures !Vouched(c, st.trusted, st.indexed[j]) {
      assert j == 0 || j == 1;
    }
  }

  lemma NotFrom(c: Config, x: Subject, s: Subject)
    requires Origin(c, x) != Origin(c, s)
    ensures !DebListed(c, x, s)
  {
  }
}
