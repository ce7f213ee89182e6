/** The apt chain of trust over a whole session: any number of downloads pass, interleaved in any
    way, through the release, packages and deb inspectors, which share state only through their
    own maps and the annotations they leave. */
module AptChain {
  import opened Basics
  import opened Opinions
  import Runner
  import Release = AptRelease
  import AptPackages
  import DebPackage
  import Listing = PackagesFile

  type Config = Release.Config
  type Subject = Release.Subject

  /** Which of the three inspectors a download meets next. The packages inspector is registered
      directly after the release inspector; other inspectors run before and after the two. */
  datatype Stage = AtRelease | AtPackages | AtDeb | PastDeb

  datatype Flight = Flight(s: Subject, f: Findings, stage: Stage)

  /** The inspectors' state and the downloads in flight. The last two fields are history: the
      files recorded as releases and as Packages files, in order. */
  datatype State = State(
    releases: Release.Releases, known: AptPackages.Known, flights: map<nat, Flight>,
    trusted: seq<Subject>, indexed: seq<Subject>)

  const START := State(map[], AptPackages.NOTHING_KNOWN, map[], [], [])

  datatype Step =
    | Arrive(id: nat, s: Subject, kind: string, others: InspectionMap)
    | RunRelease(id: nat)
    | RunPackages(id: nat, pick: Option<AptPackages.Packages>)
    | RunDeb(id: nat)
    | RunOther(id: nat, who: string, verdict: Verdict)
    | Skip(id: nat)

  predicate IsChainId(id: string) {
    id == Release.ID || id == AptPackages.ID || id == DebPackage.ID
  }

  predicate Foreign(m: InspectionMap) {
    Release.ID !in m && AptPackages.ID !in m && DebPackage.ID !in m
  }

  /** The findings when the response arrives: the request opinions of the three inspectors beside
      those of the others, and the detected type. */
  function Requested(c: Config, rs: Release.Releases, s: Subject, kind: string, others: InspectionMap): Findings {
    var f := FRESH.(request := others, kind := kind);
    match s.url
    case None => f
    case Some(u) => DebPackage.RequestOpinion(AptPackages.RequestOpinion(Release.RequestOpinion(c, rs, f, u), u), u)
  }

  /** An inspector's error is recorded as its rejection, and ends the run of the inspectors. */
  function Settle(fl: Flight, id: string, f: Findings, error: Option<string>, next: Stage): Flight {
    match error
    case None => fl.(f := f, stage := next)
    case Some(e) => fl.(f := SetResponse(f, id, Runner.Error(InspectorFailed, e)), stage := PastDeb)
  }

  predicate AtStage(st: State, id: nat, stage: Stage) {
    id in st.flights && st.flights[id].stage == stage
  }

  function ReleaseOutcome(c: Config, st: State, fl: Flight): Release.Outcome {
    Release.Inspect(c, st.releases, fl.f, fl.s)
  }

  function Next(stage: Stage): Stage {
    match stage
    case AtRelease => AtPackages
    case AtPackages => AtDeb
    case _ => PastDeb
  }

  /** When a step can happen. A crash of the release inspector takes the service down, so no run
      continues past it. */
  predicate Can(c: Config, st: State, step: Step) {
    match step
    case Arrive(id, _, _, others) => id !in st.flights && Foreign(others)
    case RunRelease(id) => AtStage(st, id, AtRelease) && !ReleaseOutcome(c, st, st.flights[id]).crashed
    case RunPackages(id, pick) =>
      AtStage(st, id, AtPackages)
      && AptPackages.Found(AptPackages.Searched(c, st.known, st.flights[id].f, st.flights[id].s), st.flights[id].s.digest, pick)
    case RunDeb(id) => AtStage(st, id, AtDeb)
    case RunOther(id, who, _) => id in st.flights && st.flights[id].stage != AtPackages && !IsChainId(who)
    case Skip(id) => id in st.flights
  }

  function After(c: Config, st: State, step: Step): State
    requires Can(c, st, step)
  {
    match step
    case Arrive(id, s, kind, others) =>
      st.(flights := st.flights[id := Flight(s, Requested(c, st.releases, s, kind, others), AtRelease)])
    case RunRelease(id) => AfterRelease(c, st, id)
    case RunPackages(id, pick) => AfterPackages(c, st, id, pick)
    case RunDeb(id) =>
      var fl := st.flights[id];
      st.(flights := st.flights[id := fl.(f := DebPackage.Inspect(fl.f, fl.s), stage := PastDeb)])
    case RunOther(id, who, v) =>
      var fl := st.flights[id];
      st.(flights := st.flights[id := fl.(f := SetResponse(fl.f, who, v))])
    case Skip(id) =>
      var fl := st.flights[id];
      st.(flights := st.flights[id := fl.(stage := Next(fl.stage))])
  }

  function AfterRelease(c: Config, st: State, id: nat): State
    requires AtStage(st, id, AtRelease)
  {
    var fl := st.flights[id];
    var o := ReleaseOutcome(c, st, fl);
    State(o.releases, st.known, st.flights[id := Settle(fl, Release.ID, o.f, o.error, AtPackages)],
          if o.releases != st.releases then st.trusted + [fl.s] else st.trusted, st.indexed)
  }

  function AfterPackages(c: Config, st: State, id: nat, pick: Option<AptPackages.Packages>): State
    requires Can(c, st, RunPackages(id, pick))
  {
    var fl := st.flights[id];
    var o := AptPackages.Inspect(c, st.known, fl.f, fl.s, pick);
    State(st.releases, o.known, st.flights[id := Settle(fl, AptPackages.ID, o.f, o.error, AtDeb)],
          st.trusted, if o.known != st.known then st.indexed + [fl.s] else st.indexed)
  }

  /** The state after the steps of `steps` that can happen, in order. */
  function Run(c: Config, steps: seq<Step>): State {
    if steps == [] then START
    else
      var st := Run(c, steps[..|steps| - 1]);
      if Can(c, st, steps[|steps| - 1]) then After(c, st, steps[|steps| - 1]) else st
  }

  // What the chain promises

  /** The configuration entry an index download was requested under. */
  function CfgName(u: Release.Url): Option<string> {
    if u.inRelease.Some? then u.inRelease
    else if u.packages.Some? then Some(u.packages.value.cfgName)
    else if u.translation.Some? then Some(u.translation.value.cfgName)
    else if u.commands.Some? then Some(u.commands.value.cfgName)
    else None
  }

  /** The configuration entry the packages inspector noted for a download. */
  function PackagesCfg(u: Release.Url): Option<string> {
    if u.packages.Some? then Some(u.packages.value.cfgName)
    else if u.deb.Some? then Some(u.deb.value.cfgName)
    else None
  }

  /** The aliased origin a Packages file or a deb came from. */
  function Origin(c: Config, s: Subject): Option<string> {
    if s.url.None? || PackagesCfg(s.url.value).None? then None
    else AptPackages.OriginAlias(c, s.url.value.origin, PackagesCfg(s.url.value).value)
  }

  function SectionOf(body: seq<string>): seq<string> {
    match Release.HeaderFrom(body, 0, map[])
    case None => []
    case Some((_, section)) => section
  }

  /** `r` is an InRelease file whose signature verifies under the key of the repository entry it was
      downloaded for, and a line of its SHA256 section lists digest `d`. */
  predicate ReleaseLists(c: Config, r: Subject, d: string) {
    && r.url.Some? && CfgName(r.url.value).Some? && r.clearsigned
    && var signed := r.signed(Release.PublicKey(c, CfgName(r.url.value).value));
    && signed.Verified?
    && Release.Lists(SectionOf(signed.body), d)
  }

  /** What the Packages file `x` says of digest `d`: the stanza read up to the last line listing it. */
  function ListedEntry(x: Subject, d: string): Option<Listing.Entry> {
    match x.index
    case None => None
    case Some(lines) =>
      match Listing.LastListing(lines, d)
      case None => None
      case Some(k) =>
        match Listing.ScanLines(Listing.SCAN_START, lines[..k])
        case None => None
        case Some(scan) => Some(scan.e)
  }

  /** The aliased repository an InRelease file is of. */
  function ReleaseRepository(c: Config, r: Subject): Option<string> {
    if r.url.None? || CfgName(r.url.value).None? then None
    else Some(Release.AliasOr(c, r.base, CfgName(r.url.value).value))
  }

  /** The aliased repository a Packages file was downloaded from. */
  function RepositoryOf(c: Config, x: Subject): Option<string> {
    if x.url.None? || x.url.value.packages.None? || CfgName(x.url.value).None? then None
    else Release.RepositoryAlias(c, Release.DistOf(x.url.value.packages.value), CfgName(x.url.value).value)
  }

  /** InRelease file `r` lists Packages file `x`, and is of the repository `x` came from. */
  predicate ReleaseVouches(c: Config, r: Subject, x: Subject) {
    ReleaseLists(c, r, x.digest) && RepositoryOf(c, x).Some? && RepositoryOf(c, x) == ReleaseRepository(c, r)
  }

  /** Some release recorded so far vouches for `x`. */
  predicate Vouched(c: Config, trusted: seq<Subject>, x: Subject) {
    exists i | 0 <= i < |trusted| :: ReleaseVouches(c, trusted[i], x)
  }

  /** A release vouched for a recorded Packages file with digest `d`. */
  predicate Validated(c: Config, trusted: seq<Subject>, indexed: seq<Subject>, d: string) {
    exists j | 0 <= j < |indexed| :: indexed[j].digest == d && Vouched(c, trusted, indexed[j])
  }

  /** Packages file `x` lists the deb `s` with its size, the architecture of its URL and from its
      origin. */
  predicate DebListed(c: Config, x: Subject, s: Subject) {
    && s.url.Some? && s.url.value.deb.Some?
    && Origin(c, s).Some? && Origin(c, x) == Origin(c, s)
    && var entry := ListedEntry(x, s.digest);
    && entry.Some? && entry.value.size == s.size && entry.value.architecture == s.url.value.deb.value.architecture
  }

  /** The chain: a recorded Packages file lists the deb, and a recorded release vouches for a Packages
      file with that very digest, downloaded from its own repository. */
  ghost predicate Chained(c: Config, st: State, s: Subject) {
    exists j | 0 <= j < |st.indexed| ::
      DebListed(c, st.indexed[j], s) && Validated(c, st.trusted, st.indexed, st.indexed[j].digest)
  }

  // Invariants

  /** Release file `r` is what was recorded as `file` for `repo`. */
  predicate RecordedAs(c: Config, r: Subject, repo: string, file: Release.ReleaseFile) {
    file.sha256 == r.digest && ReleaseRepository(c, r) == Some(repo) && forall d | d in file.files :: ReleaseLists(c, r, d)
  }

  ghost predicate ReleasesInv(c: Config, st: State) {
    forall repo | repo in st.releases :: exists i | 0 <= i < |st.trusted| :: RecordedAs(c, st.trusted[i], repo, st.releases[repo])
  }

  ghost predicate ValidatedInv(c: Config, st: State) {
    forall d | d in st.known.validated :: Validated(c, st.trusted, st.indexed, d)
  }

  predicate IndexedAs(c: Config, x: Subject, origin: string, p: AptPackages.Packages) {
    && x.digest == p.sha256 && Origin(c, x) == Some(origin)
    && forall d | d in p.entries :: ListedEntry(x, d) == Some(p.entries[d])
  }

  ghost predicate KnownInv(c: Config, st: State) {
    forall origin, path | origin in st.known.packages && path in st.known.packages[origin] ::
      SomeIndexed(c, st.indexed, origin, st.known.packages[origin][path])
  }

  ghost predicate SomeIndexed(c: Config, indexed: seq<Subject>, origin: string, p: AptPackages.Packages) {
    exists j | 0 <= j < |indexed| :: IndexedAs(c, indexed[j], origin, p)
  }

  predicate RequestNotes(s: Subject, f: Findings) {
    && Release.TextNote(f.request, Release.ID, "cfg-name") == (if s.url.Some? then CfgName(s.url.value) else None)
    && Release.TextNote(f.request, AptPackages.ID, "cfg-name") == (if s.url.Some? then PackagesCfg(s.url.value) else None)
  }

  /** The release inspector's note speaks for the digest, where the packages inspector reads it. */
  predicate ReleaseNoteInv(c: Config, trusted: seq<Subject>, s: Subject, f: Findings) {
    Release.TextNote(f.response, Release.ID, "release-file").Some? && Release.MimetypeIs(f, s, Release.APT_PACKAGES)
    ==> Vouched(c, trusted, s)
  }

  predicate NotRejected(f: Findings, id: string) {
    id in f.response ==> f.response[id].opinion != Rejected
  }

  /** The packages inspector's flag speaks for the deb, unless it rejected it. */
  ghost predicate FlagInv(c: Config, st: State, s: Subject, f: Findings) {
    DebPackage.FlagNote(f.response, AptPackages.ID, "packages-is-valid") == Some(true) && NotRejected(f, AptPackages.ID)
    ==> Chained(c, st, s)
  }

  predicate DebApproved(f: Findings) {
    DebPackage.ID in f.response && f.response[DebPackage.ID].opinion == Approved
  }

  ghost predicate FlightInv(c: Config, st: State, fl: Flight) {
    && RequestNotes(fl.s, fl.f)
    && match fl.stage
       case AtRelease => Foreign(fl.f.response)
       case AtPackages => AptPackages.ID !in fl.f.response && DebPackage.ID !in fl.f.response && ReleaseNoteInv(c, st.trusted, fl.s, fl.f)
       case AtDeb => DebPackage.ID !in fl.f.response && FlagInv(c, st, fl.s, fl.f)
       case PastDeb => DebApproved(fl.f) && NotRejected(fl.f, AptPackages.ID) ==> Chained(c, st, fl.s)
  }

  ghost predicate FlightsInv(c: Config, st: State) {
    forall id | id in st.flights :: FlightInv(c, st, st.flights[id])
  }

  ghost predicate Inv(c: Config, st: State) {
    ReleasesInv(c, st) && ValidatedInv(c, st) && KnownInv(c, st) && FlightsInv(c, st)
  }

  // Histories only grow, and what they support stays supported

  lemma VouchedGrows(c: Config, trusted: seq<Subject>, more: seq<Subject>, x: Subject)
    requires trusted <= more && Vouched(c, trusted, x)
    ensures Vouched(c, more, x)
  {
    var i :| 0 <= i < |trusted| && ReleaseVouches(c, trusted[i], x);
    assert more[i] == trusted[i];
  }

  lemma ValidatedGrows(c: Config, st: State, next: State, d: string)
    requires st.trusted <= next.trusted && st.indexed <= next.indexed && Validated(c, st.trusted, st.indexed, d)
    ensures Validated(c, next.trusted, next.indexed, d)
  {
    var j :| 0 <= j < |st.indexed| && st.indexed[j].digest == d && Vouched(c, st.trusted, st.indexed[j]);
    VouchedGrows(c, st.trusted, next.trusted, st.indexed[j]);
    assert next.indexed[j] == st.indexed[j];
  }

  lemma ChainGrows(c: Config, st: State, next: State, s: Subject)
    requires st.trusted <= next.trusted && st.indexed <= next.indexed && Chained(c, st, s)
    ensures Chained(c, next, s)
  {
    var j :| 0 <= j < |st.indexed| && DebListed(c, st.indexed[j], s) && Validated(c, st.trusted, st.indexed, st.indexed[j].digest);
    ValidatedGrows(c, st, next, st.indexed[j].digest);
    assert next.indexed[j] == st.indexed[j];
  }

  lemma FlightGrows(c: Config, st: State, next: State, fl: Flight)
    requires st.trusted <= next.trusted && st.indexed <= next.indexed && FlightInv(c, st, fl)
    ensures FlightInv(c, next, fl)
  {
    if Chained(c, st, fl.s) {
      ChainGrows(c, st, next, fl.s);
    }
    if Vouched(c, st.trusted, fl.s) {
      VouchedGrows(c, st.trusted, next.trusted, fl.s);
    }
  }

  /** Enough for a step that moves one flight: the state it leaves and that flight are right. */
  lemma OneFlight(c: Config, st: State, next: State, id: nat)
    requires Inv(c, st) && st.trusted <= next.trusted && st.indexed <= next.indexed
    requires id in next.flights && next.flights == st.flights[id := next.flights[id]]
    requires ReleasesInv(c, next) && ValidatedInv(c, next) && KnownInv(c, next)
    requires FlightInv(c, next, next.flights[id])
    ensures Inv(c, next)
  {
    forall k | k in next.flights && k != id ensures FlightInv(c, next, next.flights[k]) {
      FlightGrows(c, st, next, st.flights[k]);
    }
  }

  // The release inspector

  predicate Puts(rs: Release.Releases, repo: string, file: Release.ReleaseFile, after: Release.Releases) {
    after == rs[repo := file]
  }

  ghost predicate RecordsOne(c: Config, rs: Release.Releases, s: Subject, after: Release.Releases) {
    exists repo: string, file: Release.ReleaseFile :: Puts(rs, repo, file, after) && RecordedAs(c, s, repo, file)
  }

  /** Every file of an approved InRelease is listed by a line of its verified text. */
  lemma InReleaseLists(c: Config, rs: Release.Releases, f: Findings, s: Subject)
    requires RequestNotes(s, f)
    ensures var o := Release.InRelease(c, rs, f, s);
            o.releases != rs ==> RecordsOne(c, rs, s, o.releases)
  {
    var o := Release.InRelease(c, rs, f, s);
    if o.releases != rs {
      var name := CfgName(s.url.value).value;
      var signed := s.signed(Release.PublicKey(c, name));
      var (fields, section) := Release.HeaderFrom(signed.body, 0, map[]).value;
      var files := Release.SectionFrom(section, map[], []).value.0;
      var file := Release.ReleaseFile(s.digest, fields["Origin"], files);
      forall d | d in files ensures ReleaseLists(c, s, d) {
        Release.FilesAreListed(section, map[], [], d);
      }
      assert Puts(rs, Release.AliasOr(c, s.base, name), file, o.releases);
    }
  }

  /** Only an InRelease is recorded. */
  lemma ReleaseRecords(c: Config, rs: Release.Releases, f: Findings, s: Subject)
    requires RequestNotes(s, f)
    ensures var o := Release.Inspect(c, rs, f, s);
            o.releases != rs ==> RecordsOne(c, rs, s, o.releases)
  {
    if Release.MimetypeIs(f, s, Release.APT_PACKAGES) {
      IndexRecordsNothing(c, rs, f, s, Release.APT_PACKAGES);
    } else if Release.MimetypeIs(f, s, Release.APT_TRANSLATION) {
      IndexRecordsNothing(c, rs, f, s, Release.APT_TRANSLATION);
    } else if Release.MimetypeIs(f, s, Release.APT_COMMANDS) {
      IndexRecordsNothing(c, rs, f, s, Release.APT_COMMANDS);
    } else {
      InReleaseLists(c, rs, f, s);
    }
  }

  lemma IndexRecordsNothing(c: Config, rs: Release.Releases, f: Findings, s: Subject, kind: string)
    ensures Release.Index(c, rs, f, s, kind).releases == rs
  {
  }

  /** A release on record for the repository of `x` lists it. */
  predicate OnRecord(c: Config, rs: Release.Releases, x: Subject) {
    exists repo | repo in rs :: x.digest in rs[repo].files && RepositoryOf(c, x) == Some(repo)
  }

  predicate NotedAsPackages(f: Findings, s: Subject) {
    Release.TextNote(f.response, Release.ID, "release-file").Some? && Release.MimetypeIs(f, s, Release.APT_PACKAGES)
  }

  /** A Packages file noted as listed is listed by the release recorded for its repository. */
  lemma IndexNoted(c: Config, rs: Release.Releases, f: Findings, s: Subject)
    requires Release.ID !in f.response && RequestNotes(s, f)
    ensures Release.TextNote(Release.Index(c, rs, f, s, Release.APT_PACKAGES).f.response, Release.ID, "release-file").Some? ==> OnRecord(c, rs, s)
  {
    if s.url.Some? {
      var v := Release.IndexVerdict(c, rs, f, s, s.url.value.packages, Release.APT_PACKAGES);
      Release.IndexListedIff(c, rs, f, s, s.url.value.packages, Release.APT_PACKAGES);
      NoteOf(f, v);
      if v.opinion == Unknown {
        ListedIsOnRecord(c, rs, f, s);
      }
    }
  }

  lemma NoteOf(f: Findings, v: Verdict)
    ensures Release.TextNote(SetResponse(f, Release.ID, v).response, Release.ID, "release-file").Some? ==> "release-file" in v.notes
  {
  }

  lemma ListedIsOnRecord(c: Config, rs: Release.Releases, f: Findings, s: Subject)
    requires RequestNotes(s, f) && s.url.Some? && s.url.value.packages.Some?
    requires Release.ListedOnRecord(c, rs, f, s, s.url.value.packages.value, false)
    ensures OnRecord(c, rs, s)
  {
  }

  /** Neither an InRelease nor another index file is taken for a Packages file afterwards. */
  lemma InReleaseNoted(c: Config, rs: Release.Releases, f: Findings, s: Subject)
    requires !Release.MimetypeIs(f, s, Release.APT_PACKAGES)
    ensures !Release.MimetypeIs(Release.InRelease(c, rs, f, s).f, s, Release.APT_PACKAGES)
  {
  }

  lemma OtherIndexNoted(c: Config, rs: Release.Releases, f: Findings, s: Subject, kind: string)
    requires !Release.MimetypeIs(f, s, Release.APT_PACKAGES) && kind != Release.APT_PACKAGES
    ensures !Release.MimetypeIs(Release.Index(c, rs, f, s, kind).f, s, Release.APT_PACKAGES)
  {
    if s.url.Some? {
      var u := if kind == Release.APT_TRANSLATION then s.url.value.translation else s.url.value.commands;
      VerdictKind(c, rs, f, s, u, kind);
    }
  }

  lemma VerdictKind(c: Config, rs: Release.Releases, f: Findings, s: Subject, u: Option<Release.IndexUrl>, kind: string)
    ensures Release.IndexVerdict(c, rs, f, s, u, kind).meta.kind == kind
  {
  }

  lemma ReleaseNoted(c: Config, rs: Release.Releases, f: Findings, s: Subject)
    requires Release.ID !in f.response && RequestNotes(s, f)
    ensures NotedAsPackages(Release.Inspect(c, rs, f, s).f, s) ==> OnRecord(c, rs, s)
  {
    if Release.MimetypeIs(f, s, Release.APT_PACKAGES) {
      IndexNoted(c, rs, f, s);
    } else if Release.MimetypeIs(f, s, Release.APT_TRANSLATION) {
      OtherIndexNoted(c, rs, f, s, Release.APT_TRANSLATION);
    } else if Release.MimetypeIs(f, s, Release.APT_COMMANDS) {
      OtherIndexNoted(c, rs, f, s, Release.APT_COMMANDS);
    } else {
      InReleaseNoted(c, rs, f, s);
    }
  }

  lemma IndexResponds(c: Config, rs: Release.Releases, f: Findings, s: Subject, kind: string)
    ensures Responds(f, Release.Index(c, rs, f, s, kind).f, Release.ID)
  {
    if s.url.Some? {
      var u := s.url.value;
      var info := if kind == Release.APT_PACKAGES then u.packages else if kind == Release.APT_TRANSLATION then u.translation else u.commands;
      SetResponds(f, Release.ID, Release.IndexVerdict(c, rs, f, s, info, kind));
    }
  }

  lemma InReleaseResponds(c: Config, rs: Release.Releases, f: Findings, s: Subject)
    ensures Responds(f, Release.InRelease(c, rs, f, s).f, Release.ID)
  {
  }

  /** The release inspector writes its own opinion and no other. */
  lemma ReleaseResponds(c: Config, rs: Release.Releases, f: Findings, s: Subject)
    ensures Responds(f, Release.Inspect(c, rs, f, s).f, Release.ID)
  {
    if Release.MimetypeIs(f, s, Release.APT_PACKAGES) {
      IndexResponds(c, rs, f, s, Release.APT_PACKAGES);
    } else if Release.MimetypeIs(f, s, Release.APT_TRANSLATION) {
      IndexResponds(c, rs, f, s, Release.APT_TRANSLATION);
    } else if Release.MimetypeIs(f, s, Release.APT_COMMANDS) {
      IndexResponds(c, rs, f, s, Release.APT_COMMANDS);
    } else {
      InReleaseResponds(c, rs, f, s);
    }
  }

  lemma ReleasesGrow(c: Config, st: State, next: State, s: Subject)
    requires ReleasesInv(c, st)
    requires (next.releases == st.releases && next.trusted == st.trusted)
             || (next.trusted == st.trusted + [s] && RecordsOne(c, st.releases, s, next.releases))
    ensures ReleasesInv(c, next)
  {
    forall repo | repo in next.releases
      ensures exists i | 0 <= i < |next.trusted| :: RecordedAs(c, next.trusted[i], repo, next.releases[repo])
    {
      if repo in st.releases && next.releases[repo] == st.releases[repo] {
        var i :| 0 <= i < |st.trusted| && RecordedAs(c, st.trusted[i], repo, st.releases[repo]);
        assert next.trusted[i] == st.trusted[i];
      } else {
        assert RecordedAs(c, next.trusted[|st.trusted|], repo, next.releases[repo]);
      }
    }
  }

  lemma ReleaseStep(c: Config, st: State, id: nat)
    requires Inv(c, st) && Can(c, st, RunRelease(id))
    ensures Inv(c, After(c, st, RunRelease(id)))
  {
    var fl := st.flights[id];
    var next := AfterRelease(c, st, id);
    ReleaseRecords(c, st.releases, fl.f, fl.s);
    ReleasesGrow(c, st, next, fl.s);
    forall d | d in st.known.validated ensures Validated(c, next.trusted, next.indexed, d) {
      ValidatedGrows(c, st, next, d);
    }
    ReleaseFlight(c, st, id);
    OneFlight(c, st, next, id);
  }

  lemma ReleaseFlight(c: Config, st: State, id: nat)
    requires Inv(c, st) && Can(c, st, RunRelease(id))
    ensures var next := AfterRelease(c, st, id); FlightInv(c, next, next.flights[id])
  {
    var fl := st.flights[id];
    var next := AfterRelease(c, st, id);
    var o := Release.Inspect(c, st.releases, fl.f, fl.s);
    assert FlightInv(c, st, fl);
    ReleaseResponds(c, st.releases, fl.f, fl.s);
    ReleaseNoted(c, st.releases, fl.f, fl.s);
    NoteTrusted(c, st, fl, o, next.trusted);
    SetResponds(o.f, Release.ID, Runner.Error(InspectorFailed, if o.error.Some? then o.error.value else ""));
    ReleaseSettles(c, next, fl, o);
  }

  lemma NoteTrusted(c: Config, st: State, fl: Flight, o: Release.Outcome, more: seq<Subject>)
    requires ReleasesInv(c, st) && st.trusted <= more
    requires NotedAsPackages(o.f, fl.s) ==> OnRecord(c, st.releases, fl.s)
    ensures ReleaseNoteInv(c, more, fl.s, o.f)
  {
    if OnRecord(c, st.releases, fl.s) {
      var repo :| repo in st.releases && fl.s.digest in st.releases[repo].files && RepositoryOf(c, fl.s) == Some(repo);
      RecordedVouches(c, st, repo, fl.s, more);
    }
  }

  lemma RecordedVouches(c: Config, st: State, repo: string, x: Subject, more: seq<Subject>)
    requires ReleasesInv(c, st) && st.trusted <= more
    requires repo in st.releases && x.digest in st.releases[repo].files && RepositoryOf(c, x) == Some(repo)
    ensures Vouched(c, more, x)
  {
    var i :| 0 <= i < |st.trusted| && RecordedAs(c, st.trusted[i], repo, st.releases[repo]);
    RecordedLists(c, st.trusted[i], repo, st.releases[repo], x);
    assert more[i] == st.trusted[i];
  }

  lemma RecordedLists(c: Config, r: Subject, repo: string, file: Release.ReleaseFile, x: Subject)
    requires RecordedAs(c, r, repo, file) && x.digest in file.files && RepositoryOf(c, x) == Some(repo)
    ensures ReleaseVouches(c, r, x)
  {
  }

  lemma ReleaseSettles(c: Config, next: State, fl: Flight, o: Release.Outcome)
    requires fl.stage == AtRelease && RequestNotes(fl.s, fl.f) && Foreign(fl.f.response)
    requires Responds(fl.f, o.f, Release.ID) && ReleaseNoteInv(c, next.trusted, fl.s, o.f)
    ensures FlightInv(c, next, Settle(fl, Release.ID, o.f, o.error, AtPackages))
  {
    assert KeepsResponse(fl.f, o.f, AptPackages.ID) && KeepsResponse(fl.f, o.f, DebPackage.ID);
  }

  // The packages inspector

  lemma KnownGrows(c: Config, st: State, next: State)
    requires KnownInv(c, st) && next.known.packages == st.known.packages && st.indexed <= next.indexed
    ensures KnownInv(c, next)
  {
    forall origin, path | origin in next.known.packages && path in next.known.packages[origin]
      ensures SomeIndexed(c, next.indexed, origin, next.known.packages[origin][path])
    {
      IndexedGrows(c, st.indexed, next.indexed, origin, st.known.packages[origin][path]);
    }
  }

  lemma IndexedGrows(c: Config, indexed: seq<Subject>, more: seq<Subject>, origin: string, p: AptPackages.Packages)
    requires indexed <= more && SomeIndexed(c, indexed, origin, p)
    ensures SomeIndexed(c, more, origin, p)
  {
    var j :| 0 <= j < |indexed| && IndexedAs(c, indexed[j], origin, p);
    assert more[j] == indexed[j];
  }

  /** What a Packages file leaves behind: its parse under its own origin, whole or empty, and its
      digest as validated only when the release inspector left its note. */
  ghost predicate Leaves(c: Config, k: AptPackages.Known, f: Findings, s: Subject, after: AptPackages.Known) {
    exists origin: string, path: string, p: AptPackages.Packages ::
      && after.packages == AptPackages.Add(k, origin, path, p).packages && IndexedAs(c, s, origin, p)
      && (after.validated == k.validated
          || (after.validated == k.validated + {s.digest} && Release.TextNote(f.response, Release.ID, "release-file").Some?))
  }

  lemma IndexLeaves(c: Config, k: AptPackages.Known, f: Findings, s: Subject)
    requires RequestNotes(s, f)
    ensures var o := AptPackages.Index(c, k, f, s); o.known != k ==> Leaves(c, k, f, s, o.known)
  {
    if s.url.Some? && AptPackages.Place(c, f, s.url.value).Placed? {
      var u, placed := s.url.value, AptPackages.Place(c, f, s.url.value);
      PlacedOrigin(c, f, s);
      RecordLeaves(c, k, f, s, u.path, AptPackages.WithVendor(placed.meta, Release.TextNote(f.response, Release.ID, "vendor")),
                   placed.suite, placed.origin);
    }
  }

  lemma PlacedOrigin(c: Config, f: Findings, s: Subject)
    requires RequestNotes(s, f) && s.url.Some? && AptPackages.Place(c, f, s.url.value).Placed?
    ensures Origin(c, s) == Some(AptPackages.Place(c, f, s.url.value).origin)
  {
  }

  lemma RecordLeaves(c: Config, k: AptPackages.Known, f: Findings, s: Subject, path: string, md: Meta, suite: string, origin: string)
    requires Origin(c, s) == Some(origin)
    ensures Leaves(c, k, f, s, AptPackages.Record(k, f, s, path, md, suite, origin).known)
  {
    var known := AptPackages.Record(k, f, s, path, md, suite, origin).known;
    var bare := AptPackages.Packages(s.digest, suite, map[]);
    if s.index.None? || Listing.ScanLines(Listing.SCAN_START, s.index.value).None? {
      assert known.packages == AptPackages.Add(k, origin, path, bare).packages && IndexedAs(c, s, origin, bare);
    } else {
      var entries := Listing.ScanLines(Listing.SCAN_START, s.index.value).value.entries;
      var full := AptPackages.Packages(s.digest, suite, entries);
      ParsedListed(s);
      assert known.packages == AptPackages.Add(k, origin, path, full).packages && IndexedAs(c, s, origin, full);
    }
  }

  /** Each parsed entry is what the file says of its digest. */
  lemma ParsedListed(s: Subject)
    requires s.index.Some? && Listing.ScanLines(Listing.SCAN_START, s.index.value).Some?
    ensures var entries := Listing.ScanLines(Listing.SCAN_START, s.index.value).value.entries;
            forall d | d in entries :: ListedEntry(s, d) == Some(entries[d])
  {
    var entries := Listing.ScanLines(Listing.SCAN_START, s.index.value).value.entries;
    forall d | d in entries ensures ListedEntry(s, d) == Some(entries[d]) {
      Listing.EntryIsListed(s.index.value, d);
    }
  }

  predicate Flagless(f: Findings) {
    DebPackage.FlagNote(f.response, AptPackages.ID, "packages-is-valid") == None
  }

  /** A Packages file's inspection says nothing about debs. */
  lemma IndexFlagless(c: Config, k: AptPackages.Known, f: Findings, s: Subject)
    requires AptPackages.ID !in f.response
    ensures Flagless(AptPackages.Index(c, k, f, s).f)
  {
    if s.url.Some? {
      var placing := AptPackages.Place(c, f, s.url.value);
      if placing.Placed? {
        RecordFlagless(k, f, s, s.url.value.path, AptPackages.WithVendor(placing.meta, Release.TextNote(f.response, Release.ID, "vendor")),
                       placing.suite, placing.origin);
      } else {
        PlaceFlagless(c, f, s.url.value);
      }
    }
  }

  lemma PlaceFlagless(c: Config, f: Findings, u: Release.Url)
    requires AptPackages.Place(c, f, u).Misplaced?
    ensures "packages-is-valid" !in AptPackages.Place(c, f, u).verdict.notes
  {
  }

  lemma RecordFlagless(k: AptPackages.Known, f: Findings, s: Subject, path: string, md: Meta, suite: string, origin: string)
    requires AptPackages.ID !in f.response
    ensures Flagless(AptPackages.Record(k, f, s, path, md, suite, origin).f)
  {
  }

  lemma AddedKnown(c: Config, st: State, next: State, s: Subject)
    requires KnownInv(c, st) && next.indexed == st.indexed + [s]
    requires exists origin: string, path: string, p: AptPackages.Packages ::
               next.known.packages == AptPackages.Add(st.known, origin, path, p).packages && IndexedAs(c, s, origin, p)
    ensures KnownInv(c, next)
  {
    var origin: string, path: string, p: AptPackages.Packages :|
      next.known.packages == AptPackages.Add(st.known, origin, path, p).packages && IndexedAs(c, s, origin, p);
    assert next.indexed[|st.indexed|] == s;
    forall o, q | o in next.known.packages && q in next.known.packages[o]
      ensures SomeIndexed(c, next.indexed, o, next.known.packages[o][q])
    {
      if o != origin || q != path {
        IndexedGrows(c, st.indexed, next.indexed, o, st.known.packages[o][q]);
      }
    }
  }

  lemma LeavesKnown(c: Config, st: State, next: State, f: Findings, s: Subject)
    requires KnownInv(c, st) && ValidatedInv(c, st)
    requires next.indexed == st.indexed + [s] && next.trusted == st.trusted && Leaves(c, st.known, f, s, next.known)
    requires Release.TextNote(f.response, Release.ID, "release-file").Some? ==> Vouched(c, st.trusted, s)
    ensures KnownInv(c, next) && ValidatedInv(c, next)
  {
    AddedKnown(c, st, next, s);
    forall d | d in next.known.validated ensures Validated(c, next.trusted, next.indexed, d) {
      if d in st.known.validated {
        ValidatedGrows(c, st, next, d);
      } else {
        assert next.indexed[|st.indexed|] == s;
      }
    }
  }

  lemma PackagesKnown(c: Config, st: State, id: nat, pick: Option<AptPackages.Packages>)
    requires Inv(c, st) && Can(c, st, RunPackages(id, pick))
    ensures KnownInv(c, AfterPackages(c, st, id, pick)) && ValidatedInv(c, AfterPackages(c, st, id, pick))
  {
    var fl := st.flights[id];
    var next := AfterPackages(c, st, id, pick);
    if next.known == st.known {
      KnownGrows(c, st, next);
    } else {
      assert FlightInv(c, st, fl);
      OnlyIndexes(c, st.known, fl.f, fl.s, pick);
      IndexLeaves(c, st.known, fl.f, fl.s);
      LeavesKnown(c, st, next, fl.f, fl.s);
    }
  }

  /** Only a Packages file teaches the inspector anything; a deb does not. */
  lemma OnlyIndexes(c: Config, k: AptPackages.Known, f: Findings, s: Subject, pick: Option<AptPackages.Packages>)
    requires AptPackages.Found(AptPackages.Searched(c, k, f, s), s.digest, pick)
    requires AptPackages.Inspect(c, k, f, s, pick).known != k
    ensures Release.MimetypeIs(f, s, Release.APT_PACKAGES)
    ensures AptPackages.Inspect(c, k, f, s, pick) == AptPackages.Index(c, k, f, s)
  {
  }

  /** What a deb verdict without rejection rests on. */
  predicate Accepts(k: AptPackages.Known, s: Subject, d: Release.DebUrl, p: AptPackages.Packages) {
    && s.digest in p.entries && p.sha256 in k.validated
    && p.entries[s.digest].size == s.size && p.entries[s.digest].architecture == d.architecture
  }

  lemma VerdictAccepts(k: AptPackages.Known, s: Subject, d: Release.DebUrl, pick: Option<AptPackages.Packages>)
    requires pick.Some? ==> s.digest in pick.value.entries
    ensures var v := AptPackages.DebVerdict(k, s, d, pick);
            v.opinion != Rejected ==> pick.Some? && Accepts(k, s, d, pick.value)
  {
  }

  lemma AcceptedChained(c: Config, st: State, s: Subject, origin: string, p: AptPackages.Packages)
    requires KnownInv(c, st) && ValidatedInv(c, st)
    requires s.url.Some? && s.url.value.deb.Some? && Origin(c, s) == Some(origin)
    requires p in AptPackages.At(st.known, origin).Values && Accepts(st.known, s, s.url.value.deb.value, p)
    ensures Chained(c, st, s)
  {
    var path :| path in AptPackages.At(st.known, origin) && AptPackages.At(st.known, origin)[path] == p;
    assert SomeIndexed(c, st.indexed, origin, p);
    var j :| 0 <= j < |st.indexed| && IndexedAs(c, st.indexed[j], origin, p);
    assert ListedEntry(st.indexed[j], s.digest) == Some(p.entries[s.digest]);
    assert DebListed(c, st.indexed[j], s);
  }

  /** Where a deb is searched is its own origin. */
  lemma SearchesOrigin(c: Config, f: Findings, s: Subject)
    requires RequestNotes(s, f) && AptPackages.SearchFor(c, f, s).Search?
    ensures var search := AptPackages.SearchFor(c, f, s);
            Origin(c, s) == Some(search.origin) && s.url.Some? && s.url.value.deb == Some(search.deb)
  {
  }

  /** A deb the packages inspector does not reject is chained; an early end leaves no flag. */
  lemma DebAccepted(c: Config, st: State, f: Findings, s: Subject, pick: Option<AptPackages.Packages>)
    requires KnownInv(c, st) && ValidatedInv(c, st) && RequestNotes(s, f) && AptPackages.ID !in f.response
    requires AptPackages.Found(AptPackages.Searched(c, st.known, f, s), s.digest, pick)
    ensures FlagInv(c, st, s, AptPackages.Deb(c, st.known, f, s, pick).f)
  {
    var search := AptPackages.SearchFor(c, f, s);
    if search.Search? {
      SearchesOrigin(c, f, s);
      SearchAccepted(c, st, f, s, search.origin, search.deb, pick);
    } else if search.Ends? {
      RejectionFlag(c, st, f, s, search.verdict);
    }
  }

  lemma RejectionFlag(c: Config, st: State, f: Findings, s: Subject, v: Verdict)
    requires v.opinion == Rejected
    ensures FlagInv(c, st, s, SetResponse(f, AptPackages.ID, v))
  {
    assert SetResponse(f, AptPackages.ID, v).response[AptPackages.ID].opinion == Rejected;
  }

  lemma SearchAccepted(c: Config, st: State, f: Findings, s: Subject, origin: string, deb: Release.DebUrl, pick: Option<AptPackages.Packages>)
    requires KnownInv(c, st) && ValidatedInv(c, st)
    requires s.url.Some? && s.url.value.deb == Some(deb) && Origin(c, s) == Some(origin)
    requires AptPackages.Found(AptPackages.At(st.known, origin), s.digest, pick)
    ensures FlagInv(c, st, s, SetResponse(f, AptPackages.ID, AptPackages.DebVerdict(st.known, s, deb, pick)))
  {
    var v := AptPackages.DebVerdict(st.known, s, deb, pick);
    VerdictAccepts(st.known, s, deb, pick);
    if v.opinion == Rejected {
      RejectionFlag(c, st, f, s, v);
    } else {
      AcceptedChained(c, st, s, origin, pick.value);
    }
  }

  lemma PackagesResponds(c: Config, k: AptPackages.Known, f: Findings, s: Subject, pick: Option<AptPackages.Packages>)
    requires AptPackages.Found(AptPackages.Searched(c, k, f, s), s.digest, pick)
    ensures Responds(f, AptPackages.Inspect(c, k, f, s, pick).f, AptPackages.ID)
  {
    if Release.MimetypeIs(f, s, AptPackages.DEB) {
      DebResponds(c, k, f, s, pick);
    } else if Release.MimetypeIs(f, s, Release.APT_PACKAGES) {
      PackagesIndexResponds(c, k, f, s);
    }
  }

  lemma DebResponds(c: Config, k: AptPackages.Known, f: Findings, s: Subject, pick: Option<AptPackages.Packages>)
    requires AptPackages.Found(AptPackages.Searched(c, k, f, s), s.digest, pick)
    ensures Responds(f, AptPackages.Deb(c, k, f, s, pick).f, AptPackages.ID)
  {
    match AptPackages.SearchFor(c, f, s)
    case Fails(_) =>
    case Ends(v) => SetResponds(f, AptPackages.ID, v);
    case Search(_, d) => SetResponds(f, AptPackages.ID, AptPackages.DebVerdict(k, s, d, pick));
  }

  lemma PackagesIndexResponds(c: Config, k: AptPackages.Known, f: Findings, s: Subject)
    ensures Responds(f, AptPackages.Index(c, k, f, s).f, AptPackages.ID)
  {
    if s.url.Some? {
      match AptPackages.Place(c, f, s.url.value)
      case Misplaced(v) => SetResponds(f, AptPackages.ID, v);
      case Placed(md, suite, origin) =>
        RecordResponds(k, f, s, s.url.value.path,
                       AptPackages.WithVendor(md, Release.TextNote(f.response, Release.ID, "vendor")), suite, origin);
    }
  }

  lemma RecordResponds(k: AptPackages.Known, f: Findings, s: Subject, path: string, md: Meta, suite: string, origin: string)
    ensures Responds(f, AptPackages.Record(k, f, s, path, md, suite, origin).f, AptPackages.ID)
  {
    if s.index.Some? {
      match Listing.ScanLines(Listing.SCAN_START, s.index.value)
      case None =>
      case Some(scan) =>
        SetResponds(f, AptPackages.ID, AptPackages.ListedVerdict(md, scan.num, Release.TextNote(f.response, Release.ID, "release-file")));
    }
  }

  lemma PackagesStep(c: Config, st: State, id: nat, pick: Option<AptPackages.Packages>)
    requires Inv(c, st) && Can(c, st, RunPackages(id, pick))
    ensures Inv(c, After(c, st, RunPackages(id, pick)))
  {
    var next := AfterPackages(c, st, id, pick);
    PackagesKnown(c, st, id, pick);
    PackagesFlight(c, st, id, pick);
    OneFlight(c, st, next, id);
  }

  lemma PackagesFlag(c: Config, st: State, f: Findings, s: Subject, pick: Option<AptPackages.Packages>)
    requires KnownInv(c, st) && ValidatedInv(c, st) && RequestNotes(s, f) && AptPackages.ID !in f.response
    requires AptPackages.Found(AptPackages.Searched(c, st.known, f, s), s.digest, pick)
    ensures FlagInv(c, st, s, AptPackages.Inspect(c, st.known, f, s, pick).f)
  {
    if Release.MimetypeIs(f, s, AptPackages.DEB) {
      DebAccepted(c, st, f, s, pick);
    } else if Release.MimetypeIs(f, s, Release.APT_PACKAGES) {
      IndexFlagless(c, st.known, f, s);
    }
  }

  lemma PackagesFlight(c: Config, st: State, id: nat, pick: Option<AptPackages.Packages>)
    requires Inv(c, st) && Can(c, st, RunPackages(id, pick))
    ensures var next := AfterPackages(c, st, id, pick); FlightInv(c, next, next.flights[id])
  {
    var fl := st.flights[id];
    var next := AfterPackages(c, st, id, pick);
    var o := AptPackages.Inspect(c, st.known, fl.f, fl.s, pick);
    assert FlightInv(c, st, fl);
    PackagesResponds(c, st.known, fl.f, fl.s, pick);
    PackagesFlag(c, st, fl.f, fl.s, pick);
    if Chained(c, st, fl.s) {
      ChainGrows(c, st, next, fl.s);
    }
    PackagesSettles(c, next, fl, o);
  }

  lemma PackagesSettles(c: Config, next: State, fl: Flight, o: AptPackages.Outcome)
    requires fl.stage == AtPackages && RequestNotes(fl.s, fl.f) && DebPackage.ID !in fl.f.response
    requires Responds(fl.f, o.f, AptPackages.ID) && FlagInv(c, next, fl.s, o.f)
    ensures FlightInv(c, next, Settle(fl, AptPackages.ID, o.f, o.error, AtDeb))
  {
    assert KeepsResponse(fl.f, o.f, DebPackage.ID);
  }

  // The deb inspector and the rest

  /** The deb inspector approves only on the packages inspector's flag. */
  lemma DebInspected(f: Findings, s: Subject)
    requires DebPackage.ID !in f.response
    ensures var g := DebPackage.Inspect(f, s);
            Responds(f, g, DebPackage.ID)
            && (DebApproved(g) ==> DebPackage.FlagNote(f.response, AptPackages.ID, "packages-is-valid") == Some(true))
  {
  }

  lemma DebFlight(c: Config, st: State, fl: Flight)
    requires fl.stage == AtDeb && FlightInv(c, st, fl)
    ensures FlightInv(c, st, fl.(f := DebPackage.Inspect(fl.f, fl.s), stage := PastDeb))
  {
    DebInspected(fl.f, fl.s);
    assert KeepsResponse(fl.f, DebPackage.Inspect(fl.f, fl.s), AptPackages.ID);
  }

  lemma DebStep(c: Config, st: State, id: nat)
    requires Inv(c, st) && Can(c, st, RunDeb(id))
    ensures Inv(c, After(c, st, RunDeb(id)))
  {
    var next := After(c, st, RunDeb(id));
    DebFlight(c, st, st.flights[id]);
    FlightGrows(c, st, next, next.flights[id]);
    KnownGrows(c, st, next);
    OneFlight(c, st, next, id);
  }

  lemma ArriveStep(c: Config, st: State, step: Step)
    requires Inv(c, st) && step.Arrive? && Can(c, st, step)
    ensures Inv(c, After(c, st, step))
  {
    var next := After(c, st, step);
    KnownGrows(c, st, next);
    ArrivesNoted(c, st.releases, step.s, step.kind, step.others);
    OneFlight(c, st, next, step.id);
  }

  lemma ArrivesNoted(c: Config, rs: Release.Releases, s: Subject, kind: string, others: InspectionMap)
    requires Foreign(others)
    ensures RequestNotes(s, Requested(c, rs, s, kind, others)) && Requested(c, rs, s, kind, others).response == map[]
  {
    if s.url.Some? {
      var u := s.url.value;
      var f := FRESH.(request := others, kind := kind);
      var g := Release.RequestOpinion(c, rs, f, u);
      ReleaseRequestNotes(c, rs, f, u);
      PackagesRequestNotes(g, u);
      DebRequestNotes(AptPackages.RequestOpinion(g, u), u);
    }
  }

  lemma ReleaseRequestNotes(c: Config, rs: Release.Releases, f: Findings, u: Release.Url)
    requires Foreign(f.request)
    ensures var g := Release.RequestOpinion(c, rs, f, u);
            && g.response == f.response && AptPackages.ID !in g.request
            && Release.TextNote(g.request, Release.ID, "cfg-name") == CfgName(u)
  {
    if u.inRelease.None? {
      if u.packages.Some? {
        IndexRequestNotes(c, rs, f, u.packages.value);
      } else if u.translation.Some? {
        IndexRequestNotes(c, rs, f, u.translation.value);
      } else if u.commands.Some? {
        IndexRequestNotes(c, rs, f, u.commands.value);
      }
    }
  }

  lemma IndexRequestNotes(c: Config, rs: Release.Releases, f: Findings, u: Release.IndexUrl)
    requires Foreign(f.request)
    ensures var g := Release.RequestIndex(c, rs, f, u);
            && g.response == f.response && AptPackages.ID !in g.request
            && Release.TextNote(g.request, Release.ID, "cfg-name") == Some(u.cfgName)
  {
    assert "cfg-name" in Release.IndexNotes(u) && Release.IndexNotes(u)["cfg-name"] == Text(u.cfgName);
  }

  lemma PackagesRequestNotes(f: Findings, u: Release.Url)
    requires AptPackages.ID !in f.request
    ensures var g := AptPackages.RequestOpinion(f, u);
            && g.response == f.response
            && Release.TextNote(g.request, AptPackages.ID, "cfg-name") == PackagesCfg(u)
            && Release.TextNote(g.request, Release.ID, "cfg-name") == Release.TextNote(f.request, Release.ID, "cfg-name")
  {
  }

  lemma DebRequestNotes(f: Findings, u: Release.Url)
    ensures var g := DebPackage.RequestOpinion(f, u);
            && g.response == f.response
            && forall id | id != DebPackage.ID :: Release.TextNote(g.request, id, "cfg-name") == Release.TextNote(f.request, id, "cfg-name")
  {
  }

  lemma OtherStep(c: Config, st: State, step: Step)
    requires Inv(c, st) && (step.RunOther? || step.Skip?) && Can(c, st, step)
    ensures Inv(c, After(c, st, step))
  {
    var fl := st.flights[step.id];
    var next := After(c, st, step);
    assert FlightInv(c, st, fl);
    FlightGrows(c, st, next, fl);
    KnownGrows(c, st, next);
    OneFlight(c, st, next, step.id);
  }

  lemma StepKeeps(c: Config, st: State, step: Step)
    requires Inv(c, st) && Can(c, st, step)
    ensures Inv(c, After(c, st, step))
  {
    if step.RunRelease? {
      ReleaseStep(c, st, step.id);
    } else if step.RunPackages? {
      PackagesStep(c, st, step.id, step.pick);
    } else if step.RunDeb? {
      DebStep(c, st, step.id);
    } else if step.Arrive? {
      ArriveStep(c, st, step);
    } else {
      OtherStep(c, st, step);
    }
  }

  lemma {:induction false} Always(c: Config, steps: seq<Step>)
    ensures Inv(c, Run(c, steps))
  {
    if steps != [] {
      var n := |steps| - 1;
      Always(c, steps[..n]);
      if Can(c, Run(c, steps[..n]), steps[n]) {
        StepKeeps(c, Run(c, steps[..n]), steps[n]);
      }
    }
  }

  /** In every run: an approved artifact that the deb inspector approved is listed, with its size
      and the architecture of its URL, by a Packages file of its origin recorded in the session; and
      a file with the same digest was downloaded from a repository of which an InRelease is recorded
      in the session, whose signature verified under the key of the repository entry it was
      downloaded for, and which lists that digest. */
  lemma ChainOfTrust(c: Config, steps: seq<Step>, id: nat)
    requires AtStage(Run(c, steps), id, PastDeb)
    requires ArtifactApproved(Run(c, steps).flights[id].f) && DebApproved(Run(c, steps).flights[id].f)
    ensures Chained(c, Run(c, steps), Run(c, steps).flights[id].s)
  {
    Always(c, steps);
  }

  // What the release inspector approves

  predicate ReleaseApproved(f: Findings) {
    Release.ID in f.response && f.response[Release.ID].opinion == Approved
  }

  /** A clearsigned text whose signature verifies under the key of the repository entry it was downloaded for, and
      all of whose section is well-formed. */
  predicate VerifiedRelease(c: Config, s: Subject) {
    && s.url.Some? && CfgName(s.url.value).Some? && s.clearsigned
    && var signed := s.signed(Release.KeyFor(c, CfgName(s.url.value).value));
    && signed.Verified? && Release.HeaderFrom(signed.body, 0, map[]).Some?
    && Release.AllWellFormed(Release.HeaderFrom(signed.body, 0, map[]).value.1)
  }

  ghost predicate ApprovedInv(c: Config, st: State) {
    forall id | id in st.flights && ReleaseApproved(st.flights[id].f) :: VerifiedRelease(c, st.flights[id].s)
  }

  lemma InspectedRelease(c: Config, rs: Release.Releases, f: Findings, s: Subject)
    requires Release.ID !in f.response && RequestNotes(s, f) && ReleaseApproved(Release.Inspect(c, rs, f, s).f)
    ensures VerifiedRelease(c, s)
  {
    Release.ApprovesInRelease(c, rs, f, s);
  }

  /** The flight a step moves. */
  lemma ApprovedFlight(c: Config, st: State, step: Step)
    requires Inv(c, st) && ApprovedInv(c, st) && Can(c, st, step)
    ensures step.id in After(c, st, step).flights
    ensures var fl := After(c, st, step).flights[step.id]; ReleaseApproved(fl.f) ==> VerifiedRelease(c, fl.s)
  {
    if step.Arrive? {
      ArrivesNoted(c, st.releases, step.s, step.kind, step.others);
    } else if step.RunRelease? {
      ApprovedByRelease(c, st, step.id);
    } else {
      OthersApproveNoRelease(c, st, step);
    }
  }

  lemma ApprovedByRelease(c: Config, st: State, id: nat)
    requires Inv(c, st) && Can(c, st, RunRelease(id))
    ensures var fl := AfterRelease(c, st, id).flights[id]; ReleaseApproved(fl.f) ==> VerifiedRelease(c, fl.s)
  {
    var fl := st.flights[id];
    assert FlightInv(c, st, fl);
    if ReleaseApproved(ReleaseOutcome(c, st, fl).f) {
      InspectedRelease(c, st.releases, fl.f, fl.s);
    }
  }

  lemma OthersApproveNoRelease(c: Config, st: State, step: Step)
    requires Inv(c, st) && Can(c, st, step) && !step.Arrive? && !step.RunRelease?
    ensures var fl := After(c, st, step).flights[step.id];
            fl.s == st.flights[step.id].s && (ReleaseApproved(fl.f) ==> ReleaseApproved(st.flights[step.id].f))
  {
    var fl := st.flights[step.id];
    assert FlightInv(c, st, fl);
    if step.RunPackages? {
      PackagesResponds(c, st.known, fl.f, fl.s, step.pick);
      assert KeepsResponse(fl.f, AptPackages.Inspect(c, st.known, fl.f, fl.s, step.pick).f, Release.ID);
    } else if step.RunDeb? {
      DebInspected(fl.f, fl.s);
      assert KeepsResponse(fl.f, DebPackage.Inspect(fl.f, fl.s), Release.ID);
    }
  }

  lemma OnlyFlight(c: Config, st: State, step: Step)
    requires Can(c, st, step)
    ensures forall id | id != step.id && id in After(c, st, step).flights :: id in st.flights && After(c, st, step).flights[id] == st.flights[id]
  {
  }

  /** In every run: what the release inspector approved is an InRelease file whose signature verifies under the
      key of the repository entry it was downloaded for. */
  lemma {:induction false} ApprovedIsVerified(c: Config, steps: seq<Step>)
    ensures ApprovedInv(c, Run(c, steps))
  {
    if steps != [] {
      var n := |steps| - 1;
      var st := Run(c, steps[..n]);
      ApprovedIsVerified(c, steps[..n]);
      Always(c, steps[..n]);
      if Can(c, st, steps[n]) {
        ApprovedFlight(c, st, steps[n]);
        OnlyFlight(c, st, steps[n]);
      }
    }
  }

  /** No digest of a Packages file was recorded from two repositories. */
  ghost predicate OneRepositoryEach(c: Config, st: State) {
    forall j, k | 0 <= j < |st.indexed| && 0 <= k < |st.indexed| && st.indexed[j].digest == st.indexed[k].digest ::
      RepositoryOf(c, st.indexed[j]) == RepositoryOf(c, st.indexed[k])
  }

  /** The chain within one repository: the InRelease is of the repository that the Packages file
      listing the deb came from. */
  ghost predicate ChainedInOne(c: Config, st: State, s: Subject) {
    exists j | 0 <= j < |st.indexed| :: DebListed(c, st.indexed[j], s) && Vouched(c, st.trusted, st.indexed[j])
  }

  /** Then the chain stays within one repository. */
  lemma SameRepositoryChain(c: Config, steps: seq<Step>, id: nat)
    requires AtStage(Run(c, steps), id, PastDeb)
    requires ArtifactApproved(Run(c, steps).flights[id].f) && DebApproved(Run(c, steps).flights[id].f)
    requires OneRepositoryEach(c, Run(c, steps))
    ensures ChainedInOne(c, Run(c, steps), Run(c, steps).flights[id].s)
  {
    ChainOfTrust(c, steps, id);
    ChainInOne(c, Run(c, steps), Run(c, steps).flights[id].s);
  }

  lemma ChainInOne(c: Config, st: State, s: Subject)
    requires Chained(c, st, s) && OneRepositoryEach(c, st)
    ensures ChainedInOne(c, st, s)
  {
    var j :| 0 <= j < |st.indexed| && DebListed(c, st.indexed[j], s) && Validated(c, st.trusted, st.indexed, st.indexed[j].digest);
    ValidatedVouched(c, st, j);
  }

  lemma ValidatedVouched(c: Config, st: State, j: nat)
    requires j < |st.indexed| && Validated(c, st.trusted, st.indexed, st.indexed[j].digest) && OneRepositoryEach(c, st)
    ensures Vouched(c, st.trusted, st.indexed[j])
  {
    var k :| 0 <= k < |st.indexed| && st.indexed[k].digest == st.indexed[j].digest && Vouched(c, st.trusted, st.indexed[k]);
    var i :| 0 <= i < |st.trusted| && ReleaseVouches(c, st.trusted[i], st.indexed[k]);
    VouchesAlike(c, st.trusted[i], st.indexed[k], st.indexed[j]);
  }

  lemma VouchesAlike(c: Config, r: Subject, x: Subject, y: Subject)
    requires ReleaseVouches(c, r, x) && y.digest == x.digest && RepositoryOf(c, y) == RepositoryOf(c, x)
    ensures ReleaseVouches(c, r, y)
  {
  }

  /** The promise is not empty: a deb that every Packages file listing it lists with its size and
      architecture, all of them validated, passes both inspectors. */
  lemma ListedDebPasses(c: Config, k: AptPackages.Known, f: Findings, s: Subject, pick: Option<AptPackages.Packages>)
    requires Release.MimetypeIs(f, s, AptPackages.DEB) && s.control.1.None?
    requires AptPackages.SearchFor(c, f, s).Search?
    requires AptPackages.Found(AptPackages.Searched(c, k, f, s), s.digest, pick)
    requires exists path | path in AptPackages.Searched(c, k, f, s) :: s.digest in AptPackages.Searched(c, k, f, s)[path].entries
    requires forall p | p in AptPackages.Searched(c, k, f, s).Values && s.digest in p.entries ::
               && p.sha256 in k.validated && p.entries[s.digest].size == s.size
               && p.entries[s.digest].architecture == s.url.value.deb.value.architecture
    ensures var g := DebPackage.Inspect(AptPackages.Inspect(c, k, f, s, pick).f, s);
            DebApproved(g) && NotRejected(g, AptPackages.ID)
  {
    var search := AptPackages.SearchFor(c, f, s);
    assert pick.Some?;
    var v := AptPackages.DebVerdict(k, s, search.deb, pick);
    MatchAccepted(k, s, search.deb, pick.value);
    var g := SetResponse(f, AptPackages.ID, v);
    assert AptPackages.Inspect(c, k, f, s, pick).f == g;
    FlaggedDebPasses(g, s);
  }

  lemma MatchAccepted(k: AptPackages.Known, s: Subject, d: Release.DebUrl, p: AptPackages.Packages)
    requires Accepts(k, s, d, p)
    ensures var v := AptPackages.DebVerdict(k, s, d, Some(p));
            && v.opinion == Unknown && v.meta.kind == AptPackages.DEB
            && "packages-is-valid" in v.notes && v.notes["packages-is-valid"] == Flag(true)
  {
  }

  lemma FlaggedDebPasses(f: Findings, s: Subject)
    requires Release.MimetypeIs(f, s, AptPackages.DEB) && s.control.1.None? && NotRejected(f, AptPackages.ID)
    requires DebPackage.FlagNote(f.response, AptPackages.ID, "packages-is-valid") == Some(true)
    ensures DebApproved(DebPackage.Inspect(f, s)) && NotRejected(DebPackage.Inspect(f, s), AptPackages.ID)
  {
  }
}
