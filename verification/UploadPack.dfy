/** The policy on git upload-pack: what a fetch may ask for, and what its response must be. */
module UploadPack {
  import opened Basics
  import opened Opinions
  import opened PktLine
  import Runner

  const ID := "git.upload-pack"

  // What the client's messages say

  const COMMAND := "command="
  const DEEPEN := "deepen "
  const WANT := "want "
  const WANT_REF := "want-ref "

  /** What follows the prefix in the last message that has it. */
  function LastAfter(prefix: string, msgs: seq<string>): Option<string> {
    if msgs == [] then None
    else if HasPrefix(msgs[|msgs| - 1], prefix) then Some(msgs[|msgs| - 1][|prefix|..])
    else LastAfter(prefix, msgs[..|msgs| - 1])
  }

  function AllAfter(prefix: string, msgs: seq<string>): seq<string> {
    if msgs == [] then []
    else AllAfter(prefix, msgs[..|msgs| - 1])
         + (if HasPrefix(msgs[|msgs| - 1], prefix) then [msgs[|msgs| - 1][|prefix|..]] else [])
  }

  /** The elements of `s` in order, each at its first place only. */
  function Distinct(s: seq<string>): seq<string> {
    if s == [] then []
    else
      var front := Distinct(s[..|s| - 1]);
      if s[|s| - 1] in front then front else front + [s[|s| - 1]]
  }

  function TrimAll(msgs: seq<string>): seq<string> {
    if msgs == [] then [] else TrimAll(msgs[..|msgs| - 1]) + [TrimSpace(msgs[|msgs| - 1])]
  }

  function CommandOf(msgs: seq<string>): string {
    match LastAfter(COMMAND, msgs)
    case Some(c) => c
    case None => ""
  }

  predicate IsShallow(msgs: seq<string>) {
    LastAfter(DEEPEN, msgs) == Some("1")
  }

  function Wants(msgs: seq<string>): seq<string> {
    Distinct(AllAfter(WANT, msgs))
  }

  function WantRefs(msgs: seq<string>): seq<string> {
    AllAfter(WANT_REF, msgs)
  }

  // Request inspection

  function FetchNotes(base: Annotation, shallow: bool, wants: seq<string>, wantRefs: seq<string>): Annotation {
    var counted := base["is-shallow" := Flag(shallow)]["num-wants" := Number(|wants| + |wantRefs|)];
    var wanted := if |wants| > 0 then counted["wants" := Texts(wants)] else counted;
    if |wantRefs| > 0 then wanted["want-refs" := Texts(wantRefs)] else wanted
  }

  function FetchRequest(base: Annotation, shallow: bool, wants: seq<string>, wantRefs: seq<string>): Verdict {
    var notes := FetchNotes(base, shallow, wants, wantRefs);
    if !shallow then Verdict(Rejected, NotShallow, NO_METADATA, notes)
    else if |wants| > 1 then Verdict(Rejected, NotSingleRef, NO_METADATA, notes)
    else Verdict(Pending, ValidUrl, NO_METADATA, notes)
  }

  /** The notes kept of any request: the messages and the command beside what is known already. */
  function CommandNotes(known: Annotation, msgs: seq<string>): Annotation {
    known["client-request" := Texts(msgs)]["command" := Text(CommandOf(msgs))]
  }

  function RequestVerdict(known: Annotation, msgs: seq<string>): Verdict {
    var notes := CommandNotes(known, msgs);
    if CommandOf(msgs) == "ls-refs" then Verdict(Pending, ValidUrl, NO_METADATA, notes)
    else if CommandOf(msgs) == "fetch" then FetchRequest(notes, IsShallow(msgs), Wants(msgs), WantRefs(msgs))
    else Verdict(Rejected, CommandNotAllowed, NO_METADATA, notes)
  }

  /** A request as the inspector sees it: what its headers, URL and body say. */
  datatype Request = Request(
    urlParses: bool, contentType: bool, accept: bool, version2: bool, body: string,
    server: string, repository: string, project: string)

  function KnownOf(r: Request): Annotation {
    map["server" := Text(r.server), "repository" := Text(r.repository), "protocol" := Text("version=2"), "project" := Text(r.project)]
  }

  /** The messages of the request body. */
  function MessagesOf(body: string): Option<seq<string>> {
    var d := DecodeStream(body);
    if d.Decoded? then Some(TrimAll(d.msgs)) else None
  }

  /** InspectRequest: at most one opinion, or an error. */
  function RequestOutcome(r: Request): Runner.Outcome {
    if !r.urlParses then Runner.Outcome([], Some("cannot parse URL"))
    else if !r.contentType || !r.accept then Runner.Outcome([], None)
    else if !r.version2 then Runner.Outcome([Verdict(Unknown, UnsupportedVersion, NO_METADATA, map[])], None)
    else match MessagesOf(r.body)
      case None => Runner.Outcome([], Some("cannot decode upload pack request"))
      case Some(msgs) => Runner.Outcome([RequestVerdict(KnownOf(r), msgs)], None)
  }

  // Response inspection

  /** A response; `checkout` unpacks it and checks out a ref, yielding the path or failing. */
  datatype Response = Response(contentType: bool, recognized: bool, plain: bool, body: string, checkout: string -> Option<string>)

  const CHECKOUT := "git-checkout-path"
  const RESULT_META := Meta("application/x.git.upload-pack-result", NO_DETAILS)

  function RequestNote(m: InspectionMap, key: string): Option<Note> {
    if ID in m && key in m[ID].notes then Some(m[ID].notes[key]) else None
  }

  /** The server noted by the request inspection. */
  function VendorOf(m: InspectionMap): string {
    match RequestNote(m, "server")
    case Some(Text(server)) => server
    case _ => ""
  }

  function FetchMeta(m: InspectionMap): Meta {
    Meta("application/x.git.upload-pack-result.fetch",
         NO_DETAILS.(name := "git fetch response", description := "Response to the git 'fetch' command", vendor := VendorOf(m)))
  }

  function LsRefsMeta(m: InspectionMap): Meta {
    Meta("application/x.git.upload-pack-result.ls-ref",
         NO_DETAILS.(name := "git ls-refs response", description := "Response to the git 'ls-refs' command", vendor := VendorOf(m)))
  }

  predicate SomePrefixed(prefix: string, msgs: seq<string>) {
    exists i | 0 <= i < |msgs| :: HasPrefix(msgs[i], prefix)
  }

  /** getRefFromWants: the first want, or why there is none to check out. */
  datatype Ref = Ref(name: string) | Refused(reason: Reason)

  function RefFromWants(m: InspectionMap): Ref {
    match (RequestNote(m, "wants"), RequestNote(m, "want-refs"))
    case (None, None) => Refused(CannotReadWants)
    case (None, Some(_)) => Refused(WantRefsUnsupported)
    case (Some(w), wr) =>
      if !w.Texts? || |w.texts| < 1 then Refused(CannotReadWants)
      else if wr.Some? && (!wr.value.Texts? || |wr.value.texts| < 1) then Refused(CannotReadWants)
      else Ref(w.texts[0])
  }

  function Refuse(m: InspectionMap, reason: Reason): Option<Verdict> {
    Some(Verdict(Rejected, reason, FetchMeta(m), map[]))
  }

  function FetchVerdict(m: InspectionMap, r: Response): Option<Verdict> {
    if !r.recognized then None
    else if RequestNote(m, "num-wants") != Some(Number(1)) then Refuse(m, NotSingleRef)
    else match DecodeStream(r.body)
      case Failed(_, _) => Refuse(m, NotGitProtocol)
      case Decoded(msgs, _) => ShallowVerdict(m, r, msgs)
  }

  function ShallowVerdict(m: InspectionMap, r: Response, msgs: seq<string>): Option<Verdict> {
    if !SomePrefixed("shallow ", msgs) then Refuse(m, NotShallow)
    else if SomePrefixed("unshallow ", msgs) then Refuse(m, Unshallows)
    else match RefFromWants(m)
      case Refused(reason) => Refuse(m, reason)
      case Ref(ref) => CheckoutVerdict(m, r, ref, msgs)
  }

  function CheckoutVerdict(m: InspectionMap, r: Response, ref: string, msgs: seq<string>): Option<Verdict> {
    if ref == "" then None
    else match r.checkout(ref)
      case None => Refuse(m, CannotUnpack)
      case Some(path) =>
        Some(Verdict(Unknown, ContentUnknown, FetchMeta(m),
                     map["server-response" := Texts(TrimAll(msgs)), CHECKOUT := Text(path)]))
  }

  function LsRefsVerdict(m: InspectionMap, r: Response): Option<Verdict> {
    if !r.plain then None
    else match DecodeStream(r.body)
      case Failed(_, _) => Some(Verdict(Rejected, NotGitProtocol, LsRefsMeta(m), map[]))
      case Decoded(msgs, _) => Some(Verdict(Approved, Parsed, LsRefsMeta(m), map["server-response" := Texts(TrimAll(msgs))]))
  }

  /** InspectArtifact, given the request opinions: at most one opinion. */
  function ResponseVerdict(m: InspectionMap, r: Response): Option<Verdict> {
    if !r.contentType then None
    else if RequestNote(m, "repository").None? || !RequestNote(m, "repository").value.Text? then
      Some(Verdict(Rejected, NotInspected, RESULT_META, map[]))
    else match RequestNote(m, "command")
      case None => Some(Verdict(Rejected, NotInspected, RESULT_META, map[]))
      case Some(c) =>
        if c == Text("ls-refs") then LsRefsVerdict(m, r)
        else if c == Text("fetch") then FetchVerdict(m, r)
        else Some(Verdict(Rejected, CommandNotAllowed, RESULT_META, map[]))
  }

  function ResponseOutcome(m: InspectionMap, r: Response): Runner.Outcome {
    match ResponseVerdict(m, r)
    case None => Runner.Outcome([], None)
    case Some(v) => Runner.Outcome([v], None)
  }

  // The heads and tags a repository is known to have

  type RefMap = map<string, map<string, string>>

  datatype Refs = Refs(heads: RefMap, tags: RefMap)

  const TAGS := "refs/tags/"
  const HEADS := "refs/heads/"

  function Ensure(m: RefMap, repo: string): RefMap {
    if repo in m then m else m[repo := map[]]
  }

  function InitRefs(r: Refs, repo: string): Refs {
    Refs(Ensure(r.heads, repo), Ensure(r.tags, repo))
  }

  /** What a server line says: an object id and the tag or head it is of. */
  datatype RefLine = NoRef | TagRef(name: string, id: string) | HeadRef(name: string, id: string)

  function ReadRef(line: string): RefLine {
    var p := Split(line, ' ');
    if |p| < 2 then NoRef
    else if HasPrefix(p[1], TAGS) then TagRef(p[1][|TAGS|..], p[0])
    else if HasPrefix(p[1], HEADS) then HeadRef(p[1][|HEADS|..], p[0])
    else NoRef
  }

  function StoreRef(r: Refs, repo: string, line: string): Refs
    requires repo in r.heads && repo in r.tags
  {
    match ReadRef(line)
    case NoRef => r
    case TagRef(name, id) => r.(tags := r.tags[repo := r.tags[repo][name := id]])
    case HeadRef(name, id) => r.(heads := r.heads[repo := r.heads[repo][name := id]])
  }

  function StoreAll(r: Refs, repo: string, lines: seq<string>): (r': Refs)
    requires repo in r.heads && repo in r.tags
    ensures repo in r'.heads && repo in r'.tags
  {
    if lines == [] then r else StoreRef(StoreAll(r, repo, lines[..|lines| - 1]), repo, lines[|lines| - 1])
  }

  /** The object the last line naming head `name` gives it. */
  function LastHead(lines: seq<string>, name: string): Option<string> {
    if lines == [] then None
    else match ReadRef(lines[|lines| - 1])
      case HeadRef(n, id) => if n == name then Some(id) else LastHead(lines[..|lines| - 1], name)
      case _ => LastHead(lines[..|lines| - 1], name)
  }

  function LastTag(lines: seq<string>, name: string): Option<string> {
    if lines == [] then None
    else match ReadRef(lines[|lines| - 1])
      case TagRef(n, id) => if n == name then Some(id) else LastTag(lines[..|lines| - 1], name)
      case _ => LastTag(lines[..|lines| - 1], name)
  }

  function Known<K, V>(m: map<K, V>, k: K): Option<V> {
    if k in m then Some(m[k]) else None
  }

  /** After storing the lines every head and tag of the repository is at the object of the last line
      that names it, or where it was; other repositories are as they were. */
  lemma {:induction false} RefsStored(r: Refs, repo: string, lines: seq<string>, name: string)
    requires repo in r.heads && repo in r.tags
    ensures var r' := StoreAll(r, repo, lines);
            && Known(r'.heads[repo], name) == (if LastHead(lines, name).Some? then LastHead(lines, name) else Known(r.heads[repo], name))
            && Known(r'.tags[repo], name) == (if LastTag(lines, name).Some? then LastTag(lines, name) else Known(r.tags[repo], name))
            && (forall other | other != repo :: Known(r'.heads, other) == Known(r.heads, other) && Known(r'.tags, other) == Known(r.tags, other))
  {
    if lines != [] {
      RefsStored(r, repo, lines[..|lines| - 1], name);
    }
  }

  /** Initializing a repository makes it known, without refs if it was not, and leaves the others alone. */
  lemma InitMeans(r: Refs, repo: string, other: string)
    ensures var i := InitRefs(r, repo);
            && Known(i.heads, other) == (if other == repo && repo !in r.heads then Some(map[]) else Known(r.heads, other))
            && Known(i.tags, other) == (if other == repo && repo !in r.tags then Some(map[]) else Known(r.tags, other))
  {
  }

  /** A line names a head, or a tag, when its second word is "refs/heads/", or "refs/tags/", and its name; the first
      is the object. */
  lemma ReadRefIff(line: string, name: string, id: string)
    ensures var p := Split(line, ' ');
            && (ReadRef(line) == HeadRef(name, id) <==> |p| >= 2 && p[0] == id && p[1] == "refs/heads/" + name)
            && (ReadRef(line) == TagRef(name, id) <==> |p| >= 2 && p[0] == id && p[1] == "refs/tags/" + name)
  {
    var p := Split(line, ' ');
    if |p| >= 2 {
      PrefixedBy(p[1], HEADS, name);
      PrefixedBy(p[1], TAGS, name);
      NotBoth(p[1]);
    }
  }

  lemma NotBoth(s: string)
    ensures !(HasPrefix(s, TAGS) && HasPrefix(s, HEADS))
  {
    assert TAGS[5] == 't' && HEADS[5] == 'h';
    if |s| >= |HEADS| {
      assert s[..|HEADS|][5] == s[5] == s[..|TAGS|][5];
    }
  }

  lemma PrefixedBy(s: string, p: string, rest: string)
    ensures s == p + rest <==> HasPrefix(s, p) && s[|p|..] == rest
  {
    if HasPrefix(s, p) {
      assert s == s[..|p|] + s[|p|..];
    }
  }

  class RepositoryRefs {
    var heads: RefMap
    var tags: RefMap

    function View(): Refs
      reads this
    {
      Refs(heads, tags)
    }

    constructor ()
      ensures View() == Refs(map[], map[])
    {
      heads, tags := map[], map[];
    }

    method InitRepoState(repo: string)
      modifies this
      ensures View() == InitRefs(old(View()), repo)
    {
      if repo !in heads {
        heads := heads[repo := map[]];
      }
      if repo !in tags {
        tags := tags[repo := map[]];
      }
    }

    method Store(repo: string, lines: seq<string>)
      requires repo in heads && repo in tags
      modifies this
      ensures View() == StoreAll(old(View()), repo, lines)
    {
      for i := 0 to |lines|
        invariant repo in heads && repo in tags
        invariant View() == StoreAll(old(View()), repo, lines[..i])
      {
        assert lines[..i + 1][..i] == lines[..i];
        var p := Split(lines[i], ' ');
        if |p| < 2 {
          continue;
        }
        if HasPrefix(p[1], TAGS) {
          tags := tags[repo := tags[repo][p[1][|TAGS|..] := p[0]]];
        } else if HasPrefix(p[1], HEADS) {
          heads := heads[repo := heads[repo][p[1][|HEADS|..] := p[0]]];
        }
      }
      assert lines[..|lines|] == lines;
    }
  }

  // The loops

  method InspectRequestCommand(a: Artifact, clientMsgs: seq<string>, known: Annotation)
    modifies a
    ensures a.View() == SetRequest(old(a.View()), ID, RequestVerdict(known, clientMsgs))
  {
    var command := "";
    for i := 0 to |clientMsgs|
      invariant command == CommandOf(clientMsgs[..i])
    {
      assert clientMsgs[..i + 1][..i] == clientMsgs[..i];
      if HasPrefix(clientMsgs[i], COMMAND) {
        command := clientMsgs[i][8..];
      }
    }
    assert clientMsgs[..|clientMsgs|] == clientMsgs;
    var notes := known["client-request" := Texts(clientMsgs)]["command" := Text(command)];
    if command == "ls-refs" {
      a.SetRequestOpinion(ID, Verdict(Pending, ValidUrl, NO_METADATA, notes));
    } else if command == "fetch" {
      var isShallow, wants, wantRefs := ReadFetch(clientMsgs);
      a.SetRequestOpinion(ID, FetchRequest(notes, isShallow, wants, wantRefs));
    } else {
      a.SetRequestOpinion(ID, Verdict(Rejected, CommandNotAllowed, NO_METADATA, notes));
    }
  }

  method ReadFetch(clientMsgs: seq<string>) returns (isShallow: bool, wants: seq<string>, wantRefs: seq<string>)
    ensures isShallow == IsShallow(clientMsgs) && wants == Wants(clientMsgs) && wantRefs == WantRefs(clientMsgs)
  {
    isShallow, wants, wantRefs := false, [], [];
    var wantmap: set<string> := {};
    for i := 0 to |clientMsgs|
      invariant isShallow == IsShallow(clientMsgs[..i])
      invariant wants == Wants(clientMsgs[..i]) && wantRefs == WantRefs(clientMsgs[..i])
      invariant forall w :: w in wantmap <==> w in wants
    {
      var msg := clientMsgs[i];
      ReadNext(clientMsgs, i);
      if HasPrefix(msg, DEEPEN) {
        isShallow := msg == "deepen 1";
      } else if HasPrefix(msg, WANT) {
        var ref := msg[5..];
        if ref !in wantmap {
          wantmap := wantmap + {ref};
          wants := wants + [ref];
        }
      } else if HasPrefix(msg, WANT_REF) {
        wantRefs := wantRefs + [msg[9..]];
      }
    }
    assert clientMsgs[..|clientMsgs|] == clientMsgs;
  }

  lemma ReadNext(msgs: seq<string>, i: nat)
    requires i < |msgs|
    ensures var seen, more, msg := msgs[..i], msgs[..i + 1], msgs[i];
            && IsShallow(more) == (if HasPrefix(msg, DEEPEN) then msg == "deepen 1" else IsShallow(seen))
            && Wants(more) == (if !HasPrefix(msg, DEEPEN) && HasPrefix(msg, WANT) && msg[5..] !in Wants(seen) then Wants(seen) + [msg[5..]] else Wants(seen))
            && WantRefs(more) == (if !HasPrefix(msg, DEEPEN) && !HasPrefix(msg, WANT) && HasPrefix(msg, WANT_REF) then WantRefs(seen) + [msg[9..]] else WantRefs(seen))
  {
    assert msgs[..i + 1] == msgs[..i] + [msgs[i]];
    ReadMore(msgs[..i], msgs[i]);
  }

  /** What one more message changes. */
  lemma ReadMore(msgs: seq<string>, msg: string)
    ensures IsShallow(msgs + [msg]) == if HasPrefix(msg, DEEPEN) then msg == "deepen 1" else IsShallow(msgs)
    ensures Wants(msgs + [msg]) == if HasPrefix(msg, WANT) && msg[5..] !in Wants(msgs) then Wants(msgs) + [msg[5..]] else Wants(msgs)
    ensures WantRefs(msgs + [msg]) == if HasPrefix(msg, WANT_REF) then WantRefs(msgs) + [msg[9..]] else WantRefs(msgs)
    ensures HasPrefix(msg, DEEPEN) ==> !HasPrefix(msg, WANT) && !HasPrefix(msg, WANT_REF)
    ensures HasPrefix(msg, WANT) ==> !HasPrefix(msg, WANT_REF)
  {
    assert (msgs + [msg])[..|msgs|] == msgs;
    Prefixes(msg);
    AllAfterMore(WANT, msgs, msg);
    AllAfterMore(WANT_REF, msgs, msg);
    if HasPrefix(msg, WANT) {
      DistinctMore(AllAfter(WANT, msgs), msg[5..]);
    }
  }

  lemma AllAfterMore(prefix: string, msgs: seq<string>, msg: string)
    ensures AllAfter(prefix, msgs + [msg]) == if HasPrefix(msg, prefix) then AllAfter(prefix, msgs) + [msg[|prefix|..]] else AllAfter(prefix, msgs)
  {
    assert (msgs + [msg])[..|msgs|] == msgs;
    assert AllAfter(prefix, msgs) + [] == AllAfter(prefix, msgs);
  }

  lemma DistinctMore(s: seq<string>, x: string)
    ensures Distinct(s + [x]) == if x in Distinct(s) then Distinct(s) else Distinct(s) + [x]
  {
    assert (s + [x])[..|s|] == s;
  }

  /** No message has two of the prefixes. */
  lemma Prefixes(msg: string)
    ensures HasPrefix(msg, DEEPEN) ==> !HasPrefix(msg, WANT) && !HasPrefix(msg, WANT_REF)
    ensures HasPrefix(msg, WANT) ==> !HasPrefix(msg, WANT_REF)
    ensures HasPrefix(msg, DEEPEN) ==> (msg == "deepen 1" <==> msg[7..] == "1")
  {
    FirstChar(msg, DEEPEN);
    FirstChar(msg, WANT);
    FirstChar(msg, WANT_REF);
    if HasPrefix(msg, DEEPEN) {
      assert msg == DEEPEN + msg[7..];
      assert "deepen 1" == DEEPEN + "1";
    }
    if HasPrefix(msg, WANT) {
      assert msg[..5][4] == ' ';
      assert |msg| >= 9 ==> msg[..9][4] == ' ';
    }
  }

  lemma OtherPrefix(msg: string, p: string, q: string)
    requires HasPrefix(msg, p) && p != "" && q != "" && p[0] != q[0]
    ensures !HasPrefix(msg, q)
  {
    FirstChar(msg, p);
    FirstChar(msg, q);
  }

  lemma FirstChar(msg: string, p: string)
    requires p != ""
    ensures HasPrefix(msg, p) ==> msg != "" && msg[0] == p[0]
  {
    if HasPrefix(msg, p) {
      assert msg[..|p|][0] == msg[0];
    }
  }

  method FetchResponseIsShallow(msgs: seq<string>) returns (isShallow: bool, isUnshallow: bool, serverMsgs: seq<string>)
    ensures isShallow == SomePrefixed("shallow ", msgs) && isUnshallow == SomePrefixed("unshallow ", msgs)
    ensures serverMsgs == TrimAll(msgs)
  {
    isShallow, isUnshallow, serverMsgs := false, false, [];
    for i := 0 to |msgs|
      invariant isShallow == exists j | 0 <= j < i :: HasPrefix(msgs[j], "shallow ")
      invariant isUnshallow == exists j | 0 <= j < i :: HasPrefix(msgs[j], "unshallow ")
      invariant serverMsgs == TrimAll(msgs[..i])
    {
      var msg := msgs[i];
      assert msgs[..i + 1][..i] == msgs[..i];
      if HasPrefix(msg, "shallow ") {
        OtherPrefix(msg, "shallow ", "unshallow ");
        isShallow := true;
      } else if HasPrefix(msg, "unshallow ") {
        isUnshallow := true;
      }
      serverMsgs := serverMsgs + [TrimSpace(msg)];
    }
    assert msgs[..|msgs|] == msgs;
  }

  method InspectFetchResponse(f: Reader, a: Artifact, r: Response)
    requires f.Valid() && f.Rest() == r.body
    modifies f, a
    ensures match FetchVerdict(old(a.request), r)
            case None => a.View() == old(a.View())
            case Some(v) => a.View() == SetResponse(old(a.View()), ID, v)
  {
    if !r.recognized {
      return;
    }
    if RequestNote(a.request, "num-wants") != Some(Number(1)) {
      a.SetResponseOther(ID, Verdict(Rejected, NotSingleRef, FetchMeta(a.request), map[]));
      return;
    }
    var msgs, ok := DecodeGitProtocol(f);
    if !ok {
      a.SetResponseOther(ID, Verdict(Rejected, NotGitProtocol, FetchMeta(a.request), map[]));
      return;
    }
    var isShallow, isUnshallow, serverMsgs := FetchResponseIsShallow(msgs);
    if !isShallow {
      a.SetResponseOther(ID, Verdict(Rejected, NotShallow, FetchMeta(a.request), map[]));
      return;
    }
    if isUnshallow {
      a.SetResponseOther(ID, Verdict(Rejected, Unshallows, FetchMeta(a.request), map[]));
      return;
    }
    var ref := RefFromWants(a.request);
    if ref.Refused? {
      a.SetResponseOther(ID, Verdict(Rejected, ref.reason, FetchMeta(a.request), map[]));
      return;
    }
    if ref.name == "" {
      return;
    }
    var path := r.checkout(ref.name);
    if path == None {
      a.SetResponseOther(ID, Verdict(Rejected, CannotUnpack, FetchMeta(a.request), map[]));
      return;
    }
    a.SetResponseOther(ID, Verdict(Unknown, ContentUnknown, FetchMeta(a.request),
                                   map["server-response" := Texts(serverMsgs), CHECKOUT := Text(path.value)]));
  }

  method TrimEach(msgs: seq<string>) returns (trimmed: seq<string>)
    ensures trimmed == TrimAll(msgs)
  {
    trimmed := [];
    for i := 0 to |msgs|
      invariant trimmed == TrimAll(msgs[..i])
    {
      assert msgs[..i + 1][..i] == msgs[..i];
      trimmed := trimmed + [TrimSpace(msgs[i])];
    }
    assert msgs[..|msgs|] == msgs;
  }

  method InspectRequest(a: Artifact, refs: RepositoryRefs, q: Request) returns (error: Option<string>)
    modifies a, refs
    ensures refs.View() == if q.urlParses then InitRefs(old(refs.View()), q.repository) else old(refs.View())
    ensures error == RequestOutcome(q).error
    ensures a.View() == Runner.SetRequests(old(a.View()), ID, RequestOutcome(q).verdicts)
  {
    OneRequest(a.View());
    error := None;
    if !q.urlParses {
      return Some("cannot parse URL");
    }
    refs.InitRepoState(q.repository);
    if !q.contentType || !q.accept {
      return;
    }
    if !q.version2 {
      a.SetRequestOpinion(ID, Verdict(Unknown, UnsupportedVersion, NO_METADATA, map[]));
      return;
    }
    var f := new Reader(q.body);
    var msgs, ok := DecodeGitProtocol(f);
    if !ok {
      return Some("cannot decode upload pack request");
    }
    var clientMsgs := TrimEach(msgs);
    InspectRequestCommand(a, clientMsgs, KnownOf(q));
  }

  lemma OneRequest(f: Findings)
    ensures Runner.SetRequests(f, ID, []) == f
    ensures forall v: Verdict :: Runner.SetRequests(f, ID, [v]) == SetRequest(f, ID, v)
  {
    forall v: Verdict ensures Runner.SetRequests(f, ID, [v]) == SetRequest(f, ID, v) {
      assert [v][..0] == [];
    }
  }

  /** The repository's refs after a response: a decoded ls-refs response is stored. */
  function RefsAfter(m: InspectionMap, r: Response, refs: Refs): Refs {
    match RequestNote(m, "repository")
    case Some(Text(repo)) =>
      if !r.contentType then refs
      else if RequestNote(m, "command") != Some(Text("ls-refs")) then InitRefs(refs, repo)
      else LsRefsAfter(r, repo, InitRefs(refs, repo))
    case _ => refs
  }

  function LsRefsAfter(r: Response, repo: string, refs: Refs): Refs
    requires repo in refs.heads && repo in refs.tags
  {
    match DecodeStream(r.body)
    case Decoded(msgs, _) => if r.plain then StoreAll(refs, repo, TrimAll(msgs)) else refs
    case Failed(_, _) => refs
  }

  /** When the refs of a repository change: exactly after an ls-refs response in plain text that decodes, whose trimmed
      messages are stored; any other response to a request whose repository was noted makes sure the
      repository is known. */
  lemma RefsAfterIff(m: InspectionMap, r: Response, refs: Refs, repo: string)
    requires r.contentType && RequestNote(m, "repository") == Some(Text(repo))
    requires repo in refs.heads && repo in refs.tags
    ensures RefsAfter(m, r, refs) ==
            if RequestNote(m, "command") == Some(Text("ls-refs")) && r.plain && DecodeStream(r.body).Decoded?
            then StoreAll(refs, repo, TrimAll(DecodeStream(r.body).msgs)) else refs
  {
  }

  method InspectArtifact(f: Reader, a: Artifact, refs: RepositoryRefs, r: Response)
    requires f.Valid() && f.Rest() == r.body
    modifies f, a, refs
    ensures refs.View() == RefsAfter(old(a.request), r, old(refs.View()))
    ensures a.View() == match ResponseVerdict(old(a.request), r)
                        case None => old(a.View())
                        case Some(v) => SetResponse(old(a.View()), ID, v)
  {
    if !r.contentType {
      return;
    }
    var repo := RequestNote(a.request, "repository");
    if repo == None || !repo.value.Text? {
      a.SetResponseOther(ID, Verdict(Rejected, NotInspected, RESULT_META, map[]));
      return;
    }
    refs.InitRepoState(repo.value.text);
    var command := RequestNote(a.request, "command");
    if command == None {
      a.SetResponseOther(ID, Verdict(Rejected, NotInspected, RESULT_META, map[]));
      return;
    }
    if command.value == Text("ls-refs") {
      InspectLsRefsResponse(f, a, refs, repo.value.text, r);
    } else if command.value == Text("fetch") {
      InspectFetchResponse(f, a, r);
    } else {
      a.SetResponseOther(ID, Verdict(Rejected, CommandNotAllowed, RESULT_META, map[]));
    }
  }

  method InspectLsRefsResponse(f: Reader, a: Artifact, refs: RepositoryRefs, repo: string, r: Response)
    requires f.Valid() && f.Rest() == r.body && repo in refs.heads && repo in refs.tags
    modifies f, a, refs
    ensures refs.View() == LsRefsAfter(r, repo, old(refs.View()))
    ensures a.View() == match LsRefsVerdict(old(a.request), r)
                        case None => old(a.View())
                        case Some(v) => SetResponse(old(a.View()), ID, v)
  {
    if !r.plain {
      return;
    }
    var md := LsRefsMeta(a.request);
    var msgs, ok := DecodeGitProtocol(f);
    if !ok {
      a.SetResponseOther(ID, Verdict(Rejected, NotGitProtocol, md, map[]));
      return;
    }
    var lines := TrimEach(msgs);
    refs.Store(repo, lines);
    a.SetResponseApproved(ID, Parsed, md, map["server-response" := Texts(lines)]);
  }

  // The policy, said of the messages themselves

  /** `rest` follows the prefix in the last message that has it. */
  predicate LastIs(prefix: string, msgs: seq<string>, rest: string) {
    exists i | 0 <= i < |msgs| :: msgs[i] == prefix + rest && NoneFrom(prefix, msgs, i + 1)
  }

  predicate NoneFrom(prefix: string, msgs: seq<string>, i: nat) {
    forall j | i <= j < |msgs| :: !HasPrefix(msgs[j], prefix)
  }

  /** The messages name `rest` after the prefix, and nothing else after it. */
  predicate OnlyNames(prefix: string, msgs: seq<string>, rest: string) {
    && prefix + rest in msgs
    && forall j | 0 <= j < |msgs| && HasPrefix(msgs[j], prefix) :: msgs[j] == prefix + rest
  }

  /** A single shallow ref is fetched: `ref`. */
  predicate SingleShallowFetch(msgs: seq<string>, ref: string) {
    && LastIs(COMMAND, msgs, "fetch") && LastIs(DEEPEN, msgs, "1")
    && OnlyNames(WANT, msgs, ref) && NoneFrom(WANT_REF, msgs, 0)
  }

  /** The response decodes, some of its messages begins with "shallow " and none with "unshallow ". */
  predicate ShallowResponse(body: string) {
    && DecodeStream(body).Decoded?
    && (exists i | 0 <= i < |DecodeStream(body).msgs| :: HasPrefix(DecodeStream(body).msgs[i], "shallow "))
    && forall i | 0 <= i < |DecodeStream(body).msgs| :: !HasPrefix(DecodeStream(body).msgs[i], "unshallow ")
  }

  lemma {:induction false} LastAfterIff(prefix: string, msgs: seq<string>, rest: string)
    ensures LastAfter(prefix, msgs) == Some(rest) <==> LastIs(prefix, msgs, rest)
  {
    if msgs != [] {
      var n := |msgs| - 1;
      var front := msgs[..n];
      LastAfterIff(prefix, front, rest);
      if HasPrefix(msgs[n], prefix) {
        assert msgs[n] == prefix + msgs[n][|prefix|..];
        assert msgs[n] == prefix + rest ==> msgs[n][|prefix|..] == rest;
        if msgs[n] == prefix + rest {
          assert NoneFrom(prefix, msgs, n + 1);
        }
      } else {
        if i :| 0 <= i < |front| && front[i] == prefix + rest && NoneFrom(prefix, front, i + 1) {
          assert forall j | i + 1 <= j < n :: msgs[j] == front[j];
          assert msgs[i] == prefix + rest && NoneFrom(prefix, msgs, i + 1);
        }
        if i :| 0 <= i < |msgs| && msgs[i] == prefix + rest && NoneFrom(prefix, msgs, i + 1) {
          PrefixOf(prefix, rest);
          assert forall j | i + 1 <= j < n :: msgs[j] == front[j];
          assert front[i] == prefix + rest && NoneFrom(prefix, front, i + 1);
        }
      }
    }
  }

  lemma PrefixOf(prefix: string, rest: string)
    ensures HasPrefix(prefix + rest, prefix) && (prefix + rest)[|prefix|..] == rest
  {
  }

  lemma {:induction false} AllAfterNames(prefix: string, msgs: seq<string>, rest: string)
    ensures rest in AllAfter(prefix, msgs) <==> prefix + rest in msgs
  {
    if msgs != [] {
      var n := |msgs| - 1;
      AllAfterNames(prefix, msgs[..n], rest);
      PrefixOf(prefix, rest);
      if HasPrefix(msgs[n], prefix) {
        assert msgs[n] == prefix + msgs[n][|prefix|..];
      }
      assert msgs == msgs[..n] + [msgs[n]];
    }
  }

  lemma {:induction false} NoneAfterIff(prefix: string, msgs: seq<string>)
    ensures AllAfter(prefix, msgs) == [] <==> NoneFrom(prefix, msgs, 0)
  {
    if msgs != [] {
      var n := |msgs| - 1;
      NoneAfterIff(prefix, msgs[..n]);
      if NoneFrom(prefix, msgs[..n], 0) && !HasPrefix(msgs[n], prefix) {
        assert forall j | 0 <= j < n :: msgs[j] == msgs[..n][j];
      }
    }
  }

  lemma {:induction false} DistinctSame(s: seq<string>, x: string)
    ensures x in Distinct(s) <==> x in s
  {
    if s != [] {
      DistinctSame(s[..|s| - 1], x);
      assert s == s[..|s| - 1] + [s[|s| - 1]];
    }
  }

  lemma {:induction false} DistinctOnce(s: seq<string>)
    ensures forall i, j | 0 <= i < j < |Distinct(s)| :: Distinct(s)[i] != Distinct(s)[j]
  {
    if s != [] {
      DistinctOnce(s[..|s| - 1]);
    }
  }

  /** The list of wants is the single ref exactly when the messages want it and no other. */
  lemma WantsIff(msgs: seq<string>, ref: string)
    ensures Wants(msgs) == [ref] <==> OnlyNames(WANT, msgs, ref)
  {
    var refs := AllAfter(WANT, msgs);
    if Wants(msgs) == [ref] {
      DistinctSame(refs, ref);
      AllAfterNames(WANT, msgs, ref);
      forall j | 0 <= j < |msgs| && HasPrefix(msgs[j], WANT) ensures msgs[j] == WANT + ref {
        var x := msgs[j][|WANT|..];
        assert msgs[j] == WANT + x;
        AllAfterNames(WANT, msgs, x);
        DistinctSame(refs, x);
      }
    }
    if OnlyNames(WANT, msgs, ref) {
      AllAfterNames(WANT, msgs, ref);
      DistinctSame(refs, ref);
      DistinctOnce(refs);
      forall x | x in Wants(msgs) ensures x == ref {
        DistinctSame(refs, x);
        AllAfterNames(WANT, msgs, x);
        var j :| 0 <= j < |msgs| && msgs[j] == WANT + x;
        PrefixOf(WANT, x);
        PrefixOf(WANT, ref);
      }
      SingleElement(Wants(msgs), ref);
    }
  }

  lemma TwoElements(s: seq<string>, x: string)
    requires |s| > 1 && s[0] != s[1]
    ensures exists y | y in s :: y != x
  {
    assert s[0] in s && s[1] in s;
    assert s[0] != x || s[1] != x;
  }

  lemma SingleElement(s: seq<string>, x: string)
    requires x in s && (forall y | y in s :: y == x)
    requires forall i, j | 0 <= i < j < |s| :: s[i] != s[j]
    ensures s == [x]
  {
    if |s| > 1 {
      TwoElements(s, x);
      assert false;
    }
  }

  /** The last command is ls-refs; or it is fetch, the last deepen line asks for depth 1 and at most one distinct
      object is wanted. */
  predicate Allowed(msgs: seq<string>) {
    || LastIs(COMMAND, msgs, "ls-refs")
    || (LastIs(COMMAND, msgs, "fetch") && LastIs(DEEPEN, msgs, "1")
        && (NoneFrom(WANT, msgs, 0) || exists i | 0 <= i < |msgs| :: HasPrefix(msgs[i], WANT) && OnlyNames(WANT, msgs, msgs[i][|WANT|..])))
  }

  /** Exactly these requests stay pending, and the others are rejected, for every list of messages. */
  lemma RequestPendingIff(known: Annotation, msgs: seq<string>)
    ensures RequestVerdict(known, msgs).opinion == if Allowed(msgs) then Pending else Rejected
  {
    LastAfterIff(COMMAND, msgs, "ls-refs");
    LastAfterIff(COMMAND, msgs, "fetch");
    LastAfterIff(DEEPEN, msgs, "1");
    AtMostOneWant(msgs);
  }

  lemma AtMostOneWant(msgs: seq<string>)
    ensures |Wants(msgs)| <= 1 <==>
            NoneFrom(WANT, msgs, 0) || exists i | 0 <= i < |msgs| :: HasPrefix(msgs[i], WANT) && OnlyNames(WANT, msgs, msgs[i][|WANT|..])
  {
    NoneAfterIff(WANT, msgs);
    var refs := AllAfter(WANT, msgs);
    if |Wants(msgs)| == 1 {
      var ref := Wants(msgs)[0];
      assert Wants(msgs) == [ref];
      WantsIff(msgs, ref);
      var i :| 0 <= i < |msgs| && msgs[i] == WANT + ref;
      PrefixOf(WANT, ref);
    } else if |Wants(msgs)| == 0 {
      if refs != [] {
        DistinctSame(refs, refs[0]);
      }
    }
    forall i | 0 <= i < |msgs| && HasPrefix(msgs[i], WANT) && OnlyNames(WANT, msgs, msgs[i][|WANT|..]) ensures |Wants(msgs)| == 1 {
      WantsIff(msgs, msgs[i][|WANT|..]);
    }
  }

  /** The notes the request inspection of `msgs` leaves. */
  predicate NotedBy(m: InspectionMap, known: Annotation, msgs: seq<string>) {
    ID in m && m[ID].notes == RequestVerdict(known, msgs).notes
  }

  predicate ChecksOut(v: Option<Verdict>) {
    v.Some? && CHECKOUT in v.value.notes
  }

  /** The notes of a fetch read back. */
  lemma FetchNotesRead(m: InspectionMap, known: Annotation, msgs: seq<string>)
    requires NotedBy(m, known, msgs) && CommandOf(msgs) == "fetch" && "wants" !in known && "want-refs" !in known
    ensures RequestNote(m, "command") == Some(Text("fetch"))
    ensures RequestNote(m, "num-wants") == Some(Number(|Wants(msgs)| + |WantRefs(msgs)|))
    ensures RequestNote(m, "wants") == if |Wants(msgs)| > 0 then Some(Texts(Wants(msgs))) else None
    ensures RequestNote(m, "want-refs") == if |WantRefs(msgs)| > 0 then Some(Texts(WantRefs(msgs))) else None
  {
    FetchNotesKept(CommandNotes(known, msgs), IsShallow(msgs), Wants(msgs), WantRefs(msgs));
  }

  lemma FetchNotesKept(base: Annotation, shallow: bool, wants: seq<string>, wantRefs: seq<string>)
    requires "wants" !in base && "want-refs" !in base
    ensures var n := FetchNotes(base, shallow, wants, wantRefs);
            && "num-wants" in n && n["num-wants"] == Number(|wants| + |wantRefs|)
            && ("wants" in n <==> |wants| > 0) && (|wants| > 0 ==> n["wants"] == Texts(wants))
            && ("want-refs" in n <==> |wantRefs| > 0) && (|wantRefs| > 0 ==> n["want-refs"] == Texts(wantRefs))
            && forall k | k != "is-shallow" && k != "num-wants" && k != "wants" && k != "want-refs" ::
                 (k in n <==> k in base) && (k in base ==> n[k] == base[k])
  {
  }

  /** When a fetch response ends with a checkout, and of which ref: for every request and response. */
  lemma WantedRef(m: InspectionMap, known: Annotation, msgs: seq<string>)
    requires NotedBy(m, known, msgs) && CommandOf(msgs) == "fetch" && "wants" !in known && "want-refs" !in known
    ensures RequestNote(m, "num-wants") == Some(Number(1)) && RefFromWants(m).Ref?
            <==> |Wants(msgs)| == 1 && WantRefs(msgs) == []
    ensures |Wants(msgs)| > 0 ==> RefFromWants(m) == Ref(Wants(msgs)[0])
  {
    FetchNotesRead(m, known, msgs);
  }

  lemma {:induction false} FetchChecksOutIff(m: InspectionMap, known: Annotation, msgs: seq<string>, r: Response)
    requires NotedBy(m, known, msgs) && CommandOf(msgs) == "fetch" && "wants" !in known && "want-refs" !in known
    ensures ChecksOut(FetchVerdict(m, r)) <==>
            && r.recognized && ShallowResponse(r.body) && |Wants(msgs)| == 1 && WantRefs(msgs) == []
            && Wants(msgs)[0] != "" && r.checkout(Wants(msgs)[0]).Some?
    ensures ChecksOut(FetchVerdict(m, r)) ==>
            FetchVerdict(m, r).value.notes[CHECKOUT] == Text(r.checkout(Wants(msgs)[0]).value)
  {
    WantedRef(m, known, msgs);
    FetchReads(m, r);
  }

  /** A fetch response read with any request notes. */
  lemma FetchReads(m: InspectionMap, r: Response)
    ensures ChecksOut(FetchVerdict(m, r)) <==>
            && r.recognized && ShallowResponse(r.body) && RequestNote(m, "num-wants") == Some(Number(1))
            && RefFromWants(m).Ref? && RefFromWants(m).name != "" && r.checkout(RefFromWants(m).name).Some?
    ensures ChecksOut(FetchVerdict(m, r)) ==>
            FetchVerdict(m, r).value.notes[CHECKOUT] == Text(r.checkout(RefFromWants(m).name).value)
  {
  }

  /** Whatever the request noted, a fetch response is never approved and never left pending; there is no opinion
      on one of an unrecognised type, and one that is recognised but not shallow is rejected. */
  lemma FetchRefuses(m: InspectionMap, r: Response)
    ensures var v := FetchVerdict(m, r);
            && (v.Some? ==> v.value.opinion == Unknown || v.value.opinion == Rejected)
            && (!r.recognized ==> v == None)
            && (r.recognized && !ShallowResponse(r.body) ==> v.Some? && v.value.opinion == Rejected)
  {
  }

  /** The messages want `ref` and no other object, and no ref by name. */
  predicate WantsOnly(msgs: seq<string>, ref: string) {
    OnlyNames(WANT, msgs, ref) && NoneFrom(WANT_REF, msgs, 0)
  }

  lemma WantsOnlyIff(msgs: seq<string>, ref: string)
    ensures WantsOnly(msgs, ref) <==> Wants(msgs) == [ref] && WantRefs(msgs) == []
  {
    WantsIff(msgs, ref);
    NoneAfterIff(WANT_REF, msgs);
  }

  /** The opinion on a fetch response, for every request and response. None: its type is not recognised, or it is
      shallow and what is wanted is the empty name. Unknown: it is shallow, one object and no ref is wanted,
      and checking that object out works. Otherwise it is rejected; it is never approved. */
  lemma {:induction false} FetchOutcomeIff(m: InspectionMap, known: Annotation, msgs: seq<string>, r: Response)
    requires NotedBy(m, known, msgs) && LastIs(COMMAND, msgs, "fetch") && "wants" !in known && "want-refs" !in known
    ensures var v := FetchVerdict(m, r);
            && (v == None <==> !r.recognized || (ShallowResponse(r.body) && WantsOnly(msgs, "")))
            && (v.Some? && v.value.opinion == Unknown <==>
                  r.recognized && ShallowResponse(r.body) && exists ref: string :: WantsOnly(msgs, ref) && ref != "" && r.checkout(ref).Some?)
            && (v.Some? ==> v.value.opinion == Unknown || v.value.opinion == Rejected)
  {
    LastAfterIff(COMMAND, msgs, "fetch");
    WantedRef(m, known, msgs);
    FetchReads(m, r);
    UnknownIsCheckout(m, r);
    WantsOnlyIff(msgs, "");
    WantedWorks(msgs, r);
  }

  lemma WantedWorks(msgs: seq<string>, r: Response)
    ensures (exists ref: string :: WantsOnly(msgs, ref) && ref != "" && r.checkout(ref).Some?)
            <==> |Wants(msgs)| == 1 && WantRefs(msgs) == [] && Wants(msgs)[0] != "" && r.checkout(Wants(msgs)[0]).Some?
  {
    if |Wants(msgs)| == 1 && WantRefs(msgs) == [] {
      assert Wants(msgs) == [Wants(msgs)[0]];
      WantsOnlyIff(msgs, Wants(msgs)[0]);
    }
    forall ref: string | WantsOnly(msgs, ref) ensures Wants(msgs) == [ref] && WantRefs(msgs) == [] {
      WantsOnlyIff(msgs, ref);
    }
  }

  lemma UnknownIsCheckout(m: InspectionMap, r: Response)
    ensures var v := FetchVerdict(m, r);
            && (v.Some? && v.value.opinion == Unknown <==> ChecksOut(v))
            && (v == None <==> !r.recognized || (ShallowResponse(r.body) && RequestNote(m, "num-wants") == Some(Number(1))
                                                 && RefFromWants(m) == Ref("")))
  {
  }

  /** The opinion on an ls-refs response: none when it is not plain text; otherwise approval if it decodes, with
      the trimmed messages noted, and rejection if not. */
  lemma LsRefsOutcomeIff(m: InspectionMap, r: Response)
    ensures var v := LsRefsVerdict(m, r);
            && (v == None <==> !r.plain)
            && (v.Some? && v.value.opinion == Approved <==> r.plain && DecodeStream(r.body).Decoded?)
            && (v.Some? && v.value.opinion == Rejected <==> r.plain && DecodeStream(r.body).Failed?)
            && (r.plain && DecodeStream(r.body).Decoded? ==>
                  var msgs := DecodeStream(r.body).msgs;
                  && "server-response" in v.value.notes && v.value.notes["server-response"].Texts?
                  && var lines := v.value.notes["server-response"].texts;
                     |lines| == |msgs| && forall i | 0 <= i < |msgs| :: lines[i] == TrimSpace(msgs[i]))
  {
    if r.plain && DecodeStream(r.body).Decoded? {
      TrimAllIs(DecodeStream(r.body).msgs);
    }
  }

  lemma {:induction false} TrimAllIs(msgs: seq<string>)
    ensures |TrimAll(msgs)| == |msgs| && forall i | 0 <= i < |msgs| :: TrimAll(msgs)[i] == TrimSpace(msgs[i])
  {
    if msgs != [] {
      TrimAllIs(msgs[..|msgs| - 1]);
    }
  }

  /** Which check a response gets: none unless it is an upload-pack result; it is rejected when the request left
      no repository or no command, or another one than the two allowed. */
  lemma ResponseMeans(m: InspectionMap, r: Response)
    ensures var v, command := ResponseVerdict(m, r), RequestNote(m, "command");
            var noted := RequestNote(m, "repository").Some? && RequestNote(m, "repository").value.Text?;
            && (!r.contentType ==> v == None)
            && (r.contentType && noted && command == Some(Text("ls-refs")) ==> v == LsRefsVerdict(m, r))
            && (r.contentType && noted && command == Some(Text("fetch")) ==> v == FetchVerdict(m, r))
            && (r.contentType && !(noted && (command == Some(Text("ls-refs")) || command == Some(Text("fetch"))))
                ==> v.Some? && v.value.opinion == Rejected)
            && (v.Some? && v.value.opinion == Approved ==> command == Some(Text("ls-refs")) && r.plain && DecodeStream(r.body).Decoded?)
  {
  }

  /** What the inspector says of a request: it returns an error exactly when the URL is bad or the body of a
      version 2 upload-pack request does not decode; it has no opinion on anything but an upload-pack
      request, calls other versions unknown, and on version 2 leaves ls-refs and depth-1 fetches of at most
      one object pending and rejects the rest. */
  lemma RequestOutcomeIff(q: Request)
    ensures var o, ours := RequestOutcome(q), q.urlParses && q.contentType && q.accept;
            && (o.error.Some? <==> !q.urlParses || (ours && q.version2 && DecodeStream(q.body).Failed?))
            && (o.verdicts == [] <==> o.error.Some? || !ours)
            && |o.verdicts| <= 1
            && (o.verdicts != [] ==>
                  && (o.verdicts[0].opinion == Unknown <==> !q.version2)
                  && (q.version2 ==>
                        var msgs := TrimAll(DecodeStream(q.body).msgs);
                        o.verdicts[0].opinion == if Allowed(msgs) then Pending else Rejected))
  {
    if q.version2 && DecodeStream(q.body).Decoded? {
      RequestPendingIff(KnownOf(q), TrimAll(DecodeStream(q.body).msgs));
    }
  }

  /** Whatever is said of the response to an ls-refs or fetch, its vendor is the server of the request. */
  lemma VendorIsServer(q: Request, msgs: seq<string>, m: InspectionMap, r: Response)
    requires NotedBy(m, KnownOf(q), msgs)
    ensures FetchVerdict(m, r).Some? ==> FetchVerdict(m, r).value.meta.details.vendor == q.server
    ensures LsRefsVerdict(m, r).Some? ==> LsRefsVerdict(m, r).value.meta.details.vendor == q.server
    ensures RequestNote(m, "repository") == Some(Text(q.repository)) && RequestNote(m, "client-request") == Some(Texts(msgs))
  {
    NotesKept(KnownOf(q), msgs);
    KnownRead(q);
    VendorRead(m, r);
  }

  lemma KnownRead(q: Request)
    ensures var n := KnownOf(q);
            && "server" in n && n["server"] == Text(q.server)
            && "repository" in n && n["repository"] == Text(q.repository)
  {
  }

  lemma VendorRead(m: InspectionMap, r: Response)
    requires RequestNote(m, "server").Some? && RequestNote(m, "server").value.Text?
    ensures FetchVerdict(m, r).Some? ==> FetchVerdict(m, r).value.meta.details.vendor == RequestNote(m, "server").value.text
    ensures LsRefsVerdict(m, r).Some? ==> LsRefsVerdict(m, r).value.meta.details.vendor == RequestNote(m, "server").value.text
  {
  }

  /** The request's verdict keeps what was known of it. */
  lemma NotesKept(known: Annotation, msgs: seq<string>)
    ensures var n := RequestVerdict(known, msgs).notes;
            && "client-request" in n && n["client-request"] == Texts(msgs)
            && forall k | k in {"server", "repository", "protocol", "project"} && k in known :: k in n && n[k] == known[k]
  {
    KnownKept(known, msgs);
    if CommandOf(msgs) == "fetch" {
      FetchBaseKept(CommandNotes(known, msgs), IsShallow(msgs), Wants(msgs), WantRefs(msgs));
    }
  }

  lemma KnownKept(known: Annotation, msgs: seq<string>)
    ensures var n := CommandNotes(known, msgs);
            && "client-request" in n && n["client-request"] == Texts(msgs)
            && forall k | k in {"server", "repository", "protocol", "project"} && k in known :: k in n && n[k] == known[k]
  {
  }

  lemma FetchBaseKept(base: Annotation, shallow: bool, wants: seq<string>, wantRefs: seq<string>)
    ensures var n := FetchNotes(base, shallow, wants, wantRefs);
            forall k | k in {"server", "repository", "protocol", "project", "client-request", "command"} && k in base :: k in n && n[k] == base[k]
  {
  }

  // End to end, among any other inspectors

  function Noted(v: Verdict): Inspection {
    Inspection(v.opinion, v.reason, v.notes)
  }

  /** The inspection is the inspector's single opinion, or records its error. */
  predicate OpinionOf(i: Inspection, o: Runner.Outcome) {
    if o.error.Some? then i == Noted(Runner.Error(InspectorFailed, o.error.value))
    else |o.verdicts| == 1 && i == Noted(o.verdicts[0])
  }

  predicate Scripted(turns: seq<Runner.Turn>, o: Runner.Outcome) {
    forall i | 0 <= i < |turns| && turns[i].id == ID :: turns[i].outcome == o
  }

  lemma {:induction false} OthersKeepRequest(f: Findings, id: string, vs: seq<Verdict>)
    requires id != ID
    ensures var g := Runner.SetRequests(f, id, vs);
            (ID in g.request <==> ID in f.request) && (ID in f.request ==> g.request[ID] == f.request[ID])
  {
    if vs != [] {
      OthersKeepRequest(f, id, vs[..|vs| - 1]);
    }
  }

  predicate RequestOurs(f: Findings, o: Runner.Outcome) {
    ID in f.request ==> OpinionOf(f.request[ID], o)
  }

  lemma RequestTurnOurs(f: Findings, t: Runner.Turn, o: Runner.Outcome)
    requires RequestOurs(f, o) && (t.id == ID ==> t.outcome == o) && |o.verdicts| <= 1
    ensures RequestOurs(Runner.RequestTurn(f, t).0, o)
  {
    if t.id == ID {
      assert Runner.SetRequests(f, ID, []) == f;
      if |o.verdicts| == 1 {
        assert o.verdicts[..0] == [];
      }
    } else if t.id != Runner.DEFAULT {
      OthersKeepRequest(f, t.id, t.outcome.verdicts);
    }
  }

  lemma {:induction false} RequestRunOurs(f: Findings, turns: seq<Runner.Turn>, o: Runner.Outcome)
    requires RequestOurs(f, o) && Scripted(turns, o) && |o.verdicts| <= 1
    ensures RequestOurs(Runner.RequestRun(f, turns).0, o)
    decreases turns
  {
    if turns != [] {
      RequestTurnOurs(f, turns[0], o);
      RequestRunOurs(Runner.RequestTurn(f, turns[0]).0, turns[1..], o);
    }
  }

  predicate ResponseOurs(f: Findings, o: Runner.Outcome) {
    ID in f.response ==> OpinionOf(f.response[ID], o)
  }

  lemma ArtifactTurnOurs(f: Findings, permissive: bool, t: Runner.Turn, o: Runner.Outcome)
    requires ResponseOurs(f, o) && (t.id == ID ==> t.outcome == o)
    requires |o.verdicts| <= 1 && (|o.verdicts| == 1 ==> o.verdicts[0].opinion != Pending)
    ensures ResponseOurs(Runner.ArtifactTurn(f, permissive, t).0, o)
  {
    if t.id == ID {
      assert Runner.SetResponses(f, ID, []) == f;
      if |o.verdicts| == 1 {
        assert o.verdicts[..0] == [];
      }
    } else {
      Runner.TurnOwnId(f, permissive, t);
      assert KeepsResponse(f, Runner.ArtifactTurn(f, permissive, t).0, ID);
    }
  }

  lemma {:induction false} ArtifactTurnsOurs(f: Findings, permissive: bool, turns: seq<Runner.Turn>, o: Runner.Outcome)
    requires ResponseOurs(f, o) && Scripted(turns, o)
    requires |o.verdicts| <= 1 && (|o.verdicts| == 1 ==> o.verdicts[0].opinion != Pending)
    ensures ResponseOurs(Runner.ArtifactTurns(f, permissive, turns).0, o)
    decreases turns
  {
    if turns != [] {
      ArtifactTurnOurs(f, permissive, turns[0], o);
      ArtifactTurnsOurs(Runner.ArtifactTurn(f, permissive, turns[0]).0, permissive, turns[1..], o);
    }
  }

  lemma NeverPending(m: InspectionMap, r: Response)
    ensures var v := ResponseVerdict(m, r); v.Some? ==> v.value.opinion != Pending
  {
  }

  lemma LsRefsNoCheckout(m: InspectionMap, r: Response)
    requires RequestNote(m, "command") == Some(Text("ls-refs"))
    ensures !ChecksOut(ResponseVerdict(m, r))
  {
  }

  /** A response opinion that names a checkout rests on the notes of a fetch request. */
  lemma CheckoutMeansFetch(q: Request, m: InspectionMap, r: Response)
    requires ID in m && OpinionOf(m[ID], RequestOutcome(q)) && m[ID].opinion != Rejected
    requires ChecksOut(ResponseVerdict(m, r))
    ensures MessagesOf(q.body).Some?
    ensures var msgs := MessagesOf(q.body).value;
            && NotedBy(m, KnownOf(q), msgs) && CommandOf(msgs) == "fetch" && IsShallow(msgs)
            && ChecksOut(FetchVerdict(m, r)) && ResponseVerdict(m, r) == FetchVerdict(m, r)
  {
    CheckoutNamesCommand(m, r);
    NotesMeanRequest(q, m);
    var msgs := MessagesOf(q.body).value;
    if CommandOf(msgs) == "ls-refs" {
      LsRefsNoCheckout(m, r);
      assert false;
    } else {
      NoWantsKnown(q);
      FetchNotesRead(m, KnownOf(q), msgs);
      FetchAnswers(m, r);
    }
  }

  lemma NoWantsKnown(q: Request)
    ensures "wants" !in KnownOf(q) && "want-refs" !in KnownOf(q)
  {
  }

  lemma CheckoutNamesCommand(m: InspectionMap, r: Response)
    requires ChecksOut(ResponseVerdict(m, r))
    ensures RequestNote(m, "command").Some?
  {
  }

  lemma FetchAnswers(m: InspectionMap, r: Response)
    requires RequestNote(m, "command") == Some(Text("fetch")) && ChecksOut(ResponseVerdict(m, r))
    ensures ResponseVerdict(m, r) == FetchVerdict(m, r)
  {
  }

  /** A request opinion that notes the command, and rejects nothing, is that of a valid command. */
  lemma NotesMeanRequest(q: Request, m: InspectionMap)
    requires ID in m && OpinionOf(m[ID], RequestOutcome(q)) && m[ID].opinion != Rejected && RequestNote(m, "command").Some?
    ensures MessagesOf(q.body).Some?
    ensures var msgs := MessagesOf(q.body).value;
            && NotedBy(m, KnownOf(q), msgs)
            && ((CommandOf(msgs) == "ls-refs" && RequestNote(m, "command") == Some(Text("ls-refs")))
                || (CommandOf(msgs) == "fetch" && IsShallow(msgs)))
  {
    assert q.version2;
    var msgs := MessagesOf(q.body).value;
    var v := RequestVerdict(KnownOf(q), msgs);
    assert m[ID] == Noted(v);
  }

  lemma CheckoutMeansPolicy(q: Request, m: InspectionMap, r: Response)
    requires ID in m && OpinionOf(m[ID], RequestOutcome(q)) && m[ID].opinion != Rejected
    requires ChecksOut(ResponseVerdict(m, r))
    ensures MessagesOf(q.body).Some? && ShallowResponse(r.body)
    ensures exists ref: string ::
              && SingleShallowFetch(MessagesOf(q.body).value, ref) && r.checkout(ref).Some?
              && ResponseVerdict(m, r).value.notes[CHECKOUT] == Text(r.checkout(ref).value)
  {
    CheckoutMeansFetch(q, m, r);
    NoWantsKnown(q);
    var msgs := MessagesOf(q.body).value;
    FetchChecksOutIff(m, KnownOf(q), msgs, r);
    var ref := Wants(msgs)[0];
    assert Wants(msgs) == [ref];
    LastAfterIff(COMMAND, msgs, "fetch");
    LastAfterIff(DEEPEN, msgs, "1");
    WantsIff(msgs, ref);
    NoneAfterIff(WANT_REF, msgs);
    assert SingleShallowFetch(msgs, ref);
  }

  /** Among any other inspectors, in a strict or permissive session: an approved artifact whose
      upload-pack opinion names a checkout was fetched by a request whose last command is fetch,
      whose last deepen line is "deepen 1", that wants one distinct object and no want-ref; the
      response has a shallow and no unshallow line, and the checkout is of the wanted object. */
  lemma FetchPolicy(q: Request, r: Response, asked: seq<Runner.Turn>, permissive: bool, kind: Option<string>, answered: seq<Runner.Turn>)
    requires Scripted(asked, RequestOutcome(q))
    requires Scripted(answered, ResponseOutcome(Runner.RequestRun(FRESH, asked).0.request, r))
    requires var g := Runner.ArtifactRun(Runner.RequestRun(FRESH, asked).0, permissive, kind, answered).0;
             ArtifactApproved(g) && ID in g.response && CHECKOUT in g.response[ID].notes
    ensures MessagesOf(q.body).Some? && ShallowResponse(r.body)
    ensures var g := Runner.ArtifactRun(Runner.RequestRun(FRESH, asked).0, permissive, kind, answered).0;
            exists ref: string ::
              && SingleShallowFetch(MessagesOf(q.body).value, ref) && r.checkout(ref).Some?
              && g.response[ID].notes[CHECKOUT] == Text(r.checkout(ref).value)
  {
    var f := Runner.RequestRun(FRESH, asked).0;
    var m := f.request;
    RequestRunOurs(FRESH, asked, RequestOutcome(q));
    NeverPending(m, r);
    Runner.RequestRunKeepsResponse(FRESH, asked);
    var start := if kind.Some? then f.(kind := kind.value) else f;
    ArtifactTurnsOurs(start, permissive, answered, ResponseOutcome(m, r));
    Runner.SetResponsesKeepsRequest(start, permissive, answered);
    var g := Runner.ArtifactRun(f, permissive, kind, answered).0;
    assert g.request == m;
    assert g.response[ID].opinion != Rejected;
    assert ChecksOut(ResponseVerdict(m, r));
    assert ID in m;
    CheckoutMeansPolicy(q, m, r);
  }

  lemma RunsOurs(q: Request, r: Response, asked: seq<Runner.Turn>, permissive: bool, kind: Option<string>, answered: seq<Runner.Turn>)
    requires Scripted(asked, RequestOutcome(q))
    requires Scripted(answered, ResponseOutcome(Runner.RequestRun(FRESH, asked).0.request, r))
    ensures var m, g := Runner.RequestRun(FRESH, asked).0.request, Runner.ArtifactRun(Runner.RequestRun(FRESH, asked).0, permissive, kind, answered).0;
            && (ID in m ==> OpinionOf(m[ID], RequestOutcome(q)))
            && (ID in g.response ==> OpinionOf(g.response[ID], ResponseOutcome(m, r)))
  {
    var f := Runner.RequestRun(FRESH, asked).0;
    RequestRunOurs(FRESH, asked, RequestOutcome(q));
    NeverPending(f.request, r);
    Runner.RequestRunKeepsResponse(FRESH, asked);
    var start := if kind.Some? then f.(kind := kind.value) else f;
    ArtifactTurnsOurs(start, permissive, answered, ResponseOutcome(f.request, r));
  }

  /** The command noted, if any, is that of the request's messages. */
  lemma CommandNoted(q: Request, m: InspectionMap)
    requires ID in m ==> OpinionOf(m[ID], RequestOutcome(q))
    ensures var c := RequestNote(m, "command");
            c.Some? ==> MessagesOf(q.body).Some? && c == Some(Text(CommandOf(MessagesOf(q.body).value)))
  {
    if RequestNote(m, "command").Some? {
      assert q.version2;
      VerdictCommand(KnownOf(q), MessagesOf(q.body).value);
    }
  }

  lemma VerdictCommand(known: Annotation, msgs: seq<string>)
    ensures var n := RequestVerdict(known, msgs).notes; "command" in n && n["command"] == Text(CommandOf(msgs))
  {
  }

  /** Among any other inspectors, in a strict or permissive session: the inspector approves a response only if
      the last command of the request was ls-refs and the response is plain text that decodes. So it
      never approves the response to a fetch. */
  lemma {:induction false} OnlyLsRefsApproved(q: Request, r: Response, asked: seq<Runner.Turn>, permissive: bool, kind: Option<string>, answered: seq<Runner.Turn>)
    requires Scripted(asked, RequestOutcome(q))
    requires Scripted(answered, ResponseOutcome(Runner.RequestRun(FRESH, asked).0.request, r))
    requires var g := Runner.ArtifactRun(Runner.RequestRun(FRESH, asked).0, permissive, kind, answered).0;
             ID in g.response && g.response[ID].opinion == Approved
    ensures MessagesOf(q.body).Some? && LastIs(COMMAND, MessagesOf(q.body).value, "ls-refs")
    ensures r.contentType && r.plain && DecodeStream(r.body).Decoded?
  {
    var m := Runner.RequestRun(FRESH, asked).0.request;
    RunsOurs(q, r, asked, permissive, kind, answered);
    ResponseMeans(m, r);
    CommandNoted(q, m);
    LastAfterIff(COMMAND, MessagesOf(q.body).value, "ls-refs");
  }

  lemma RefusedVerdict(q: Request, m: InspectionMap, r: Response)
    requires ID in m ==> OpinionOf(m[ID], RequestOutcome(q))
    requires MessagesOf(q.body).Some? && LastIs(COMMAND, MessagesOf(q.body).value, "fetch")
    requires r.contentType && r.recognized && !ShallowResponse(r.body)
    ensures ResponseVerdict(m, r).Some? && ResponseVerdict(m, r).value.opinion == Rejected
  {
    CommandNoted(q, m);
    LastAfterIff(COMMAND, MessagesOf(q.body).value, "fetch");
    ResponseMeans(m, r);
    FetchRefuses(m, r);
  }

  /** The response to a fetch that does not decode, has no shallow line or has an unshallow one is rejected, and
      the artifact is not approved, in every run that calls the inspector and returns no error. */
  lemma {:induction false} RefusedUnapproved(q: Request, r: Response, asked: seq<Runner.Turn>, permissive: bool, kind: Option<string>, answered: seq<Runner.Turn>, i: nat)
    requires Scripted(asked, RequestOutcome(q))
    requires Scripted(answered, ResponseOutcome(Runner.RequestRun(FRESH, asked).0.request, r))
    requires MessagesOf(q.body).Some? && LastIs(COMMAND, MessagesOf(q.body).value, "fetch")
    requires r.contentType && r.recognized && !ShallowResponse(r.body)
    requires i < |answered| && answered[i].id == ID && forall j | 0 <= j < |answered| :: answered[j].id != ID || j == i
    requires Runner.Called(Runner.RequestRun(FRESH, asked).0, permissive, ID)
    requires Runner.ArtifactRun(Runner.RequestRun(FRESH, asked).0, permissive, kind, answered).1 == None
    ensures var g := Runner.ArtifactRun(Runner.RequestRun(FRESH, asked).0, permissive, kind, answered).0;
            ID in g.response && g.response[ID].opinion == Rejected && !ArtifactApproved(g)
  {
    var f := Runner.RequestRun(FRESH, asked).0;
    RunsOurs(q, r, asked, permissive, kind, answered);
    RefusedVerdict(q, f.request, r);
    Runner.ResponseLeft(f.(kind := kind.value), permissive, answered, i, 0);
  }
}
