/** The inspector of Packages files and of the deb packages they list. */
module AptPackages {
  import opened Basics
  import opened Opinions
  import Release = AptRelease
  import Listing = PackagesFile

  const ID := "apt.packages"
  const DEB := "application/vnd.debian.binary-package"

  type Config = Release.Config
  type Subject = Release.Subject
  type Url = Release.Url

  /** What is kept of one Packages file. */
  datatype Packages = Packages(sha256: string, suite: string, entries: map<string, Listing.Entry>)

  /** Packages files by origin and path, and the digests of those a Release lists. */
  datatype Known = Known(packages: map<string, map<string, Packages>>, validated: set<string>)

  const NOTHING_KNOWN := Known(map[], {})

  function At(k: Known, origin: string): map<string, Packages> {
    if origin in k.packages then k.packages[origin] else map[]
  }

  function Add(k: Known, origin: string, path: string, p: Packages): Known {
    k.(packages := k.packages[origin := At(k, origin)[path := p]])
  }

  /** Adding a file replaces what was known under its origin and path, and nothing else. */
  lemma AddMeans(k: Known, origin: string, path: string, p: Packages, o: string, q: string)
    ensures var added := Add(k, origin, path, p);
            && added.validated == k.validated
            && (o in added.packages <==> o in k.packages || o == origin)
            && (o in added.packages ==>
                  && (q in added.packages[o] <==> (o in k.packages && q in k.packages[o]) || (o == origin && q == path))
                  && (q in added.packages[o] ==> added.packages[o][q] == if o == origin && q == path then p else k.packages[o][q]))
  {
  }

  /** getOriginAlias: None when the configuration entry does not exist. */
  function OriginAlias(c: Config, origin: string, cfgName: string): Option<string> {
    if cfgName !in c.repositories then None
    else if c.repositories[cfgName].alias == "" then Some(origin)
    else Some(c.repositories[cfgName].alias)
  }

  function RequestOpinion(f: Findings, u: Url): Findings {
    if u.packages.Some? then
      SetRequest(f, ID, Verdict(Pending, ValidUrl, NO_METADATA, Release.IndexNotes(u.packages.value)))
    else if u.deb.Some? then
      SetRequest(f, ID, Verdict(Pending, ValidUrl, NO_METADATA, DebNotes(u.deb.value)))
    else f
  }

  function DebNotes(u: Release.DebUrl): Annotation {
    map["cfg-name" := Text(u.cfgName), "component" := Text(u.component), "architecture" := Text(u.architecture)]
  }

  // Packages files

  /** Where an index file belongs: its suite, component, architecture and origin, or the verdict
      that ends its inspection because one of them is not known. */
  datatype Placing = Misplaced(verdict: Verdict) | Placed(meta: Meta, suite: string, origin: string)

  function Place(c: Config, f: Findings, u: Url): Placing {
    match (TextNote(f, "suite"), TextNote(f, "component"), TextNote(f, "architecture"))
    case (None, _, _) => Misplaced(Verdict(Unknown, NotSpecified, NO_METADATA, map[]))
    case (_, None, _) => Misplaced(Verdict(Unknown, NotSpecified, NO_METADATA, map[]))
    case (_, _, None) => Misplaced(Verdict(Unknown, NotSpecified, NO_METADATA, map[]))
    case (Some(suite), Some(component), Some(architecture)) =>
      PlaceOrigin(c, f, u, suite, PackagesMeta(suite, component, architecture))
  }

  function PlaceOrigin(c: Config, f: Findings, u: Url, suite: string, md: Meta): Placing {
    match TextNote(f, "cfg-name")
    case None => Misplaced(Verdict(Rejected, UnknownRepository, md, map[]))
    case Some(name) =>
      match OriginAlias(c, u.origin, name)
      case None => Misplaced(Verdict(Rejected, UnknownConfiguration, md, map["cfg-name" := Text(name)]))
      case Some(origin) => Placed(md, suite, origin)
  }

  /** Everything a Packages file needs to be recorded was noted with its request. */
  predicate Placeable(c: Config, f: Findings) {
    && TextNote(f, "suite").Some? && TextNote(f, "component").Some? && TextNote(f, "architecture").Some?
    && TextNote(f, "cfg-name").Some? && TextNote(f, "cfg-name").value in c.repositories
  }

  /** Suite, component and architecture were noted. */
  predicate Described(f: Findings) {
    TextNote(f, "suite").Some? && TextNote(f, "component").Some? && TextNote(f, "architecture").Some?
  }

  predicate Parses(s: Subject) {
    s.index.Some? && Listing.ScanLines(Listing.SCAN_START, s.index.value).Some?
  }

  predicate ReleaseNoted(f: Findings) {
    Release.TextNote(f.response, Release.ID, "release-file").Some?
  }

  /** The origin a repository's files are kept under: the alias of its configuration entry, if it has one. */
  function AliasedOrigin(c: Config, u: Url, name: string): string
    requires name in c.repositories
  {
    if c.repositories[name].alias == "" then u.origin else c.repositories[name].alias
  }

  /** The metadata recorded with an approved Packages file: what its request noted, and the vendor the release
      inspector noted. */
  lemma IndexDetails(c: Config, k: Known, f: Findings, s: Subject)
    requires ID !in f.response && !Any(f.response, Approved)
    requires var g := Index(c, k, f, s).f; ID in g.response && g.response[ID].opinion == Approved
    ensures Described(f) && ReleaseNoted(f)
    ensures var g, vendor := Index(c, k, f, s).f, Release.TextNote(f.response, Release.ID, "vendor");
            && g.kind == Release.APT_PACKAGES
            && g.details.aptSuite == TextNote(f, "suite").value && g.details.architecture == TextNote(f, "architecture").value
            && g.details.vendor == g.details.author == (if vendor.Some? then vendor.value else "")
            && g.details.name == "Packages"
  {
    IndexOutcomeIff(c, k, f, s);
  }

  /** What becomes of a Packages file, for every state and download. It is approved exactly when its
      request was noted in full under a configured repository, it decompresses and parses, and the
      release inspector vouched for it; exactly then its digest counts as validated. Whenever the
      request was noted in full it is recorded under its origin and path, with its entries as far as
      it parses. */
  lemma IndexOutcomeIff(c: Config, k: Known, f: Findings, s: Subject)
    requires ID !in f.response
    ensures var o := Index(c, k, f, s);
            var good := s.url.Some? && Placeable(c, f) && Parses(s) && ReleaseNoted(f);
            && (ID in o.f.response && o.f.response[ID].opinion == Approved <==> good)
            && o.known.validated == (if good then k.validated + {s.digest} else k.validated)
            && (o.error.Some? <==> s.url.None? || (Placeable(c, f) && s.index.None?))
            && (ID in o.f.response <==> o.error.None?)
            && (ID in o.f.response && !good ==> o.f.response[ID].opinion == if Described(f) then Rejected else Unknown)
    ensures s.url.Some? && Placeable(c, f) ==>
              var u := s.url.value;
              Index(c, k, f, s).known.packages ==
              Add(k, AliasedOrigin(c, u, TextNote(f, "cfg-name").value), u.path,
                  Packages(s.digest, TextNote(f, "suite").value,
                           if Parses(s) then Listing.ScanLines(Listing.SCAN_START, s.index.value).value.entries else map[])).packages
    ensures s.url.None? || !Placeable(c, f) ==> Index(c, k, f, s).known == k
  {
    if s.url.Some? && Place(c, f, s.url.value).Placed? {
      RecordOutcome(k, f, s, s.url.value.path,
                    WithVendor(Place(c, f, s.url.value).meta, Release.TextNote(f.response, Release.ID, "vendor")),
                    Place(c, f, s.url.value).suite, Place(c, f, s.url.value).origin);
    }
  }

  lemma RecordOutcome(k: Known, f: Findings, s: Subject, path: string, md: Meta, suite: string, origin: string)
    requires ID !in f.response
    ensures var o := Record(k, f, s, path, md, suite, origin);
            && (ID in o.f.response && o.f.response[ID].opinion == Approved <==> Parses(s) && ReleaseNoted(f))
            && o.known.validated == (if Parses(s) && ReleaseNoted(f) then k.validated + {s.digest} else k.validated)
            && (o.error.Some? <==> s.index.None?)
            && (ID in o.f.response <==> s.index.Some?)
            && (ID in o.f.response && !(Parses(s) && ReleaseNoted(f)) ==> o.f.response[ID].opinion == Rejected)
            && o.known.packages ==
               Add(k, origin, path, Packages(s.digest, suite,
                   if Parses(s) then Listing.ScanLines(Listing.SCAN_START, s.index.value).value.entries else map[])).packages
  {
  }

  function TextNote(f: Findings, key: string): Option<string> {
    Release.TextNote(f.request, ID, key)
  }

  function PackagesMeta(suite: string, component: string, architecture: string): Meta {
    Meta(Release.APT_PACKAGES, NO_DETAILS.(name := "Packages", description := suite + " " + component + " Packages file",
                                           architecture := architecture, aptSuite := suite))
  }

  function WithVendor(m: Meta, vendor: Option<string>): Meta {
    if vendor.Some? then m.(details := m.details.(author := vendor.value, vendor := vendor.value)) else m
  }

  /** The verdict on a Packages file that parsed: approved when the release inspector vouched. */
  function ListedVerdict(md: Meta, num: nat, release: Option<string>): Verdict {
    match release
    case Some(r) => Verdict(Approved, Parsed, md, map["package-count" := Number(num), "release-file" := Text(r)])
    case None => Verdict(Rejected, NotVerified, md, map["package-count" := Number(num)])
  }

  datatype Outcome = Outcome(known: Known, f: Findings, error: Option<string>)

  function Index(c: Config, k: Known, f: Findings, s: Subject): Outcome {
    match s.url
    case None => Outcome(k, f, Some("cannot parse URL"))
    case Some(u) =>
      match Place(c, f, u)
      case Misplaced(v) => Outcome(k, SetResponse(f, ID, v), None)
      case Placed(md, suite, origin) =>
        var vendor := Release.TextNote(f.response, Release.ID, "vendor");
        Record(k, f, s, u.path, WithVendor(md, vendor), suite, origin)
  }

  /** The second half: from the repository on. */
  function PlacedIndex(c: Config, k: Known, f: Findings, s: Subject, suite: string, meta: Meta): Outcome
    requires s.url.Some?
  {
    var u := s.url.value;
    match PlaceOrigin(c, f, u, suite, meta)
    case Misplaced(v) => Outcome(k, SetResponse(f, ID, v), None)
    case Placed(md, _, origin) =>
      Record(k, f, s, u.path, WithVendor(md, Release.TextNote(f.response, Release.ID, "vendor")), suite, origin)
  }

  function Record(k: Known, f: Findings, s: Subject, path: string, md: Meta, suite: string, origin: string): Outcome {
    var bare := Add(k, origin, path, Packages(s.digest, suite, map[]));
    match s.index
    case None => Outcome(bare, f, Some("cannot decompress"))
    case Some(lines) =>
      match Listing.ScanLines(Listing.SCAN_START, lines)
      case None =>
        Outcome(bare, SetResponse(f, ID, Verdict(Rejected, ParseError, md, map["package-count" := Number(0)])), None)
      case Some(scan) =>
        var release := Release.TextNote(f.response, Release.ID, "release-file");
        var full := Add(k, origin, path, Packages(s.digest, suite, scan.entries));
        Outcome(if release.Some? then full.(validated := full.validated + {s.digest}) else full,
                SetResponse(f, ID, ListedVerdict(md, scan.num, release)), None)
  }

  // Deb packages

  /** The Packages file the search ends with: some one that lists the digest, whichever the map
      yields first, or none when no known file lists it. */
  predicate Found(files: map<string, Packages>, digest: string, pick: Option<Packages>) {
    match pick
    case Some(p) => p in files.Values && digest in p.entries
    case None => forall path | path in files :: digest !in files[path].entries
  }

  function DebVerdict(k: Known, s: Subject, d: Release.DebUrl, pick: Option<Packages>): Verdict
    requires pick.Some? ==> s.digest in pick.value.entries
  {
    match pick
    case None => Verdict(Rejected, NotListed, Meta(DEB, NO_DETAILS), map[])
    case Some(p) =>
      var e := p.entries[s.digest];
      var valid := p.sha256 in k.validated;
      var md := Meta(DEB, NO_DETAILS.(name := e.pkg, version := e.version, architecture := e.architecture, aptSuite := p.suite));
      var notes := map["packages-name" := Text(e.pkg), "packages-version" := Text(e.version),
                       "packages-architecture" := Text(e.architecture), "packages-size" := Number(e.size),
                       "packages-file" := Text(p.sha256), "packages-is-valid" := Flag(valid),
                       "dist" := Text(p.suite), "component" := Text(d.component)];
      if !valid then Verdict(Rejected, InvalidPackages, md, notes)
      else if s.size != e.size then Verdict(Rejected, SizeMismatch, md, notes)
      else if d.architecture != e.architecture then Verdict(Rejected, ArchitectureMismatch, md, notes)
      else Verdict(Unknown, ListedInPackages, md, notes)
  }

  /** What comes before the search: the origin to search and the URL's fields, or an early end. */
  datatype Search = Ends(verdict: Verdict) | Fails(error: string) | Search(origin: string, deb: Release.DebUrl)

  function SearchFor(c: Config, f: Findings, s: Subject): Search {
    var bare := Meta(DEB, NO_DETAILS);
    match s.url
    case None => Fails("cannot parse URL")
    case Some(u) =>
      match TextNote(f, "cfg-name")
      case None => Ends(Verdict(Rejected, UnknownRepository, bare, map[]))
      case Some(name) =>
        match OriginAlias(c, u.origin, name)
        case None => Ends(Verdict(Rejected, UnknownConfiguration, bare, map["cfg-name" := Text(name)]))
        case Some(origin) =>
          if u.deb.None? then Fails("invalid deb package URL") else Search(origin, u.deb.value)
  }

  /** The files searched for a deb package. */
  function Searched(c: Config, k: Known, f: Findings, s: Subject): map<string, Packages> {
    match SearchFor(c, f, s)
    case Search(origin, _) => At(k, origin)
    case _ => map[]
  }

  function Deb(c: Config, k: Known, f: Findings, s: Subject, pick: Option<Packages>): Outcome
    requires Found(Searched(c, k, f, s), s.digest, pick)
  {
    match SearchFor(c, f, s)
    case Fails(e) => Outcome(k, f, Some(e))
    case Ends(v) => Outcome(k, SetResponse(f, ID, v), None)
    case Search(origin, d) => Outcome(k, SetResponse(f, ID, DebVerdict(k, s, d, pick)), None)
  }

  /** The whole inspection, `pick` being the Packages file a deb search ends with. */
  function Inspect(c: Config, k: Known, f: Findings, s: Subject, pick: Option<Packages>): Outcome
    requires Found(Searched(c, k, f, s), s.digest, pick)
  {
    if Release.MimetypeIs(f, s, DEB) then Deb(c, k, f, s, pick)
    else if Release.MimetypeIs(f, s, Release.APT_PACKAGES) then Index(c, k, f, s)
    else Outcome(k, f, None)
  }

  /** The origin and URL of a deb are known: its request was noted under a configured repository, and its URL
      is one of a deb. */
  predicate Searchable(c: Config, f: Findings, s: Subject) {
    s.url.Some? && s.url.value.deb.Some? && TextNote(f, "cfg-name").Some? && TextNote(f, "cfg-name").value in c.repositories
  }

  /** What becomes of a deb, for every state and download. It is never approved; it is not rejected exactly when
      the search among the files of its aliased origin ended with one that was validated and lists it
      with its size and the architecture of its URL, and then it carries the flag the deb inspector
      trusts. The inspector learns nothing from it. */
  lemma DebOutcomeIff(c: Config, k: Known, f: Findings, s: Subject, pick: Option<Packages>)
    requires ID !in f.response && Found(Searched(c, k, f, s), s.digest, pick)
    ensures var o := Deb(c, k, f, s, pick);
            var configured := TextNote(f, "cfg-name").Some? && TextNote(f, "cfg-name").value in c.repositories;
            && (o.error.Some? <==> s.url.None? || (configured && s.url.value.deb.None?))
            && (ID in o.f.response <==> o.error.None?)
            && (ID in o.f.response ==> o.f.response[ID].opinion == if DebMatches(c, k, f, s, pick) then Unknown else Rejected)
            && (DebMatches(c, k, f, s, pick) ==>
                  "packages-is-valid" in o.f.response[ID].notes && o.f.response[ID].notes["packages-is-valid"] == Flag(true))
            && o.known == k
    ensures Searchable(c, f, s) ==>
              var origin := AliasedOrigin(c, s.url.value, TextNote(f, "cfg-name").value);
              Searched(c, k, f, s) == if origin in k.packages then k.packages[origin] else map[]
    ensures !Searchable(c, f, s) ==> Searched(c, k, f, s) == map[]
  {
    if Searchable(c, f, s) {
      VerdictMatches(k, s, s.url.value.deb.value, pick);
    }
  }

  predicate DebMatches(c: Config, k: Known, f: Findings, s: Subject, pick: Option<Packages>) {
    Searchable(c, f, s) && ListsRight(k, s, s.url.value.deb.value, pick)
  }

  /** The file picked is validated and lists the deb with its size and the architecture of its URL. */
  predicate ListsRight(k: Known, s: Subject, d: Release.DebUrl, pick: Option<Packages>) {
    && pick.Some? && pick.value.sha256 in k.validated && s.digest in pick.value.entries
    && pick.value.entries[s.digest].size == s.size && pick.value.entries[s.digest].architecture == d.architecture
  }

  lemma VerdictMatches(k: Known, s: Subject, d: Release.DebUrl, pick: Option<Packages>)
    requires pick.Some? ==> s.digest in pick.value.entries
    ensures var v := DebVerdict(k, s, d, pick);
            && v.opinion == (if ListsRight(k, s, d, pick) then Unknown else Rejected)
            && (ListsRight(k, s, d, pick) ==> "packages-is-valid" in v.notes && v.notes["packages-is-valid"] == Flag(true))
  {
  }

  /** The metadata and notes of a listed deb are what the file listing it says. */
  lemma DebDetails(k: Known, s: Subject, d: Release.DebUrl, p: Packages)
    requires s.digest in p.entries
    ensures var v, e := DebVerdict(k, s, d, Some(p)), p.entries[s.digest];
            && v.meta == Meta(DEB, NO_DETAILS.(name := e.pkg, version := e.version, architecture := e.architecture, aptSuite := p.suite))
            && "packages-file" in v.notes && v.notes["packages-file"] == Text(p.sha256)
            && "packages-size" in v.notes && v.notes["packages-size"] == Number(e.size)
            && "packages-is-valid" in v.notes && v.notes["packages-is-valid"] == Flag(p.sha256 in k.validated)
  {
  }

  /** A deb is looked up even if it passes for a Packages file too, and anything else is passed over. */
  lemma DebsFirst(c: Config, k: Known, f: Findings, s: Subject, pick: Option<Packages>)
    requires Found(Searched(c, k, f, s), s.digest, pick)
    ensures Inspect(c, k, f, s, pick) ==
            if f.kind == DEB || DEB in s.mimes then Deb(c, k, f, s, pick)
            else if f.kind == Release.APT_PACKAGES || Release.APT_PACKAGES in s.mimes then Index(c, k, f, s)
            else Outcome(k, f, None)
  {
  }

  /** The inspector leaves the requests of Packages files and debs pending, and has nothing to say on others. */
  lemma RequestIff(f: Findings, u: Url)
    requires ID !in f.request
    ensures var g := RequestOpinion(f, u);
            && (ID in g.request <==> u.packages.Some? || u.deb.Some?)
            && (ID in g.request ==> g.request[ID].opinion == Pending)
            && g.response == f.response
  {
  }

  class AptPackagesInspector {
    const config: Config
    var packages: map<string, map<string, Packages>>
    var validated: set<string>

    function View(): Known
      reads this
    {
      Known(packages, validated)
    }

    constructor (config: Config)
      ensures this.config == config && View() == NOTHING_KNOWN
    {
      this.config := config;
      packages, validated := map[], {};
    }

    method InspectRequest(a: Artifact, s: Subject) returns (error: Option<string>)
      modifies a
      ensures match s.url
              case None => error.Some? && a.View() == old(a.View())
              case Some(u) => error.None? && a.View() == RequestOpinion(old(a.View()), u)
    {
      if s.url == None {
        return Some("cannot parse URL");
      }
      var u := s.url.value;
      if u.packages.Some? {
        a.SetRequestOpinion(ID, Verdict(Pending, ValidUrl, NO_METADATA, Release.IndexNotes(u.packages.value)));
      } else if u.deb.Some? {
        a.SetRequestOpinion(ID, Verdict(Pending, ValidUrl, NO_METADATA, DebNotes(u.deb.value)));
      }
      error := None;
    }

    method AddPackages(origin: string, path: string, p: Packages)
      modifies this`packages
      ensures View() == Add(old(View()), origin, path, p)
    {
      if origin !in packages {
        packages := packages[origin := map[]];
      }
      packages := packages[origin := packages[origin][path := p]];
    }

    method InspectArtifact(a: Artifact, s: Subject) returns (error: Option<string>, ghost pick: Option<Packages>)
      modifies this, a
      ensures Found(Searched(config, old(View()), old(a.View()), s), s.digest, pick)
      ensures Outcome(View(), a.View(), error) == Inspect(config, old(View()), old(a.View()), s, pick)
    {
      if Release.MimetypeIs(a.View(), s, DEB) {
        error, pick := ValidateDebianPackage(a, s);
        return;
      }
      ghost var arbitrary: Option<Packages> :| Found(Searched(config, View(), a.View(), s), s.digest, arbitrary) by {
        SomeFound(Searched(config, View(), a.View(), s), s.digest);
      }
      pick := arbitrary;
      error := None;
      if Release.MimetypeIs(a.View(), s, Release.APT_PACKAGES) {
        error := InspectIndex(a, s);
      }
    }

    method InspectIndex(a: Artifact, s: Subject) returns (error: Option<string>)
      modifies this, a
      ensures Outcome(View(), a.View(), error) == Index(config, old(View()), old(a.View()), s)
    {
      if s.url == None {
        return Some("cannot parse URL");
      }
      var suite := TextNote(a.View(), "suite");
      if suite == None {
        a.SetResponseOther(ID, Verdict(Unknown, NotSpecified, NO_METADATA, map[]));
        return None;
      }
      var component := TextNote(a.View(), "component");
      if component == None {
        a.SetResponseOther(ID, Verdict(Unknown, NotSpecified, NO_METADATA, map[]));
        return None;
      }
      var architecture := TextNote(a.View(), "architecture");
      if architecture == None {
        a.SetResponseOther(ID, Verdict(Unknown, NotSpecified, NO_METADATA, map[]));
        return None;
      }
      error := PlaceIndex(a, s, suite.value, PackagesMeta(suite.value, component.value, architecture.value));
    }

    /** The rest of the checks: a known repository, and the origin the file is recorded under. */
    method PlaceIndex(a: Artifact, s: Subject, suite: string, meta: Meta) returns (error: Option<string>)
      requires s.url.Some?
      modifies this, a
      ensures Outcome(View(), a.View(), error) == PlacedIndex(config, old(View()), old(a.View()), s, suite, meta)
    {
      var cfgName := TextNote(a.View(), "cfg-name");
      if cfgName == None {
        a.SetResponseOther(ID, Verdict(Rejected, UnknownRepository, meta, map[]));
        return None;
      }
      var origin := OriginAlias(config, s.url.value.origin, cfgName.value);
      if origin == None {
        a.SetResponseOther(ID, Verdict(Rejected, UnknownConfiguration, meta, map["cfg-name" := Text(cfgName.value)]));
        return None;
      }
      var md := WithVendor(meta, Release.TextNote(a.response, Release.ID, "vendor"));
      error := RecordIndex(a, s, s.url.value.path, md, suite, origin.value);
    }

    method RecordIndex(a: Artifact, s: Subject, path: string, md: Meta, suite: string, origin: string)
      returns (error: Option<string>)
      modifies this, a
      ensures Outcome(View(), a.View(), error) == Record(old(View()), old(a.View()), s, path, md, suite, origin)
    {
      AddPackages(origin, path, Packages(s.digest, suite, map[]));
      if s.index == None {
        return Some("cannot decompress");
      }
      var num, entries, ok := Listing.ParsePackages(s.index.value);
      if !ok {
        a.SetResponseOther(ID, Verdict(Rejected, ParseError, md, map["package-count" := Number(num)]));
        return None;
      }
      var release := Release.TextNote(a.response, Release.ID, "release-file");
      if release.Some? {
        validated := validated + {s.digest};
      }
      a.SetResponseVerdict(ID, ListedVerdict(md, num, release));
      SetEntries(origin, path, entries);
      AddTwice(old(View()), origin, path, Packages(s.digest, suite, map[]), Packages(s.digest, suite, entries));
      error := None;
    }

    method SetEntries(origin: string, path: string, entries: map<string, Listing.Entry>)
      requires origin in packages && path in packages[origin]
      modifies this`packages
      ensures View() == Add(old(View()), origin, path, old(packages)[origin][path].(entries := entries))
    {
      packages := packages[origin := packages[origin][path := packages[origin][path].(entries := entries)]];
    }

    /** Search the Packages files of the origin, in whatever order the map yields them. */
    method ValidateDebianPackage(a: Artifact, s: Subject) returns (error: Option<string>, ghost pick: Option<Packages>)
      modifies a
      ensures Found(Searched(config, View(), old(a.View()), s), s.digest, pick)
      ensures Outcome(View(), a.View(), error) == Deb(config, View(), old(a.View()), s, pick)
    {
      pick := None;
      var search := SearchFor(config, a.View(), s);
      if search.Fails? {
        return Some(search.error), None;
      }
      if search.Ends? {
        a.SetResponseOther(ID, search.verdict);
        return None, None;
      }
      var files := At(View(), search.origin);
      var todo := files.Keys;
      while todo != {}
        invariant todo <= files.Keys
        invariant forall path | path in files && path !in todo :: s.digest !in files[path].entries
        invariant a.View() == old(a.View())
      {
        var path :| path in todo;
        todo := todo - {path};
        var p := files[path];
        if s.digest in p.entries {
          a.SetResponseOther(ID, DebVerdict(View(), s, search.deb, Some(p)));
          return None, Some(p);
        }
      }
      a.SetResponseOther(ID, DebVerdict(View(), s, search.deb, None));
      error := None;
    }
  }

  /** A file recorded twice at one path is the second one. */
  lemma AddTwice(k: Known, origin: string, path: string, p: Packages, q: Packages)
    ensures Add(Add(k, origin, path, p), origin, path, q) == Add(k, origin, path, q)
    ensures forall v | v == k.validated + {p.sha256} ::
              Add(Add(k, origin, path, p).(validated := v), origin, path, q) == Add(k, origin, path, q).(validated := v)
  {
    assert At(k, origin)[path := p][path := q] == At(k, origin)[path := q];
    assert Add(Add(k, origin, path, p), origin, path, q).packages == Add(k, origin, path, q).packages;
  }

  /** The search always ends with some file or with none. */
  lemma SomeFound(files: map<string, Packages>, digest: string)
    ensures exists pick: Option<Packages> :: Found(files, digest, pick)
  {
    if path :| path in files && digest in files[path].entries {
      assert Found(files, digest, Some(files[path]));
    } else {
      assert Found(files, digest, None);
    }
  }
}
