/** The artifact record, the opinions inspectors leave on it, and how metadata is chosen. */
module Opinions {
  import opened Basics

  datatype Opinion = Unknown | Rejected | Approved | Pending

  /** A free-form annotation value. */
  datatype Note = Text(text: string) | Flag(flag: bool) | Number(number: int) | Texts(texts: seq<string>)

  type Annotation = map<string, Note>

  /** Why an inspector has its opinion: what its message to the user says. */
  datatype Reason =
    | NoReason | Other(text: string) | NotRecognized | InspectorFailed | ValidUrl
    // index files, Packages files and debs
    | BeforeRelease | ReleaseValidated | ParseError | InvalidPath | InvalidDigest | DigestMismatch
    | UnknownRepository | UnknownConfiguration | NoRelease | NotListed | SizeMismatch | ListedInRelease
    | NotSpecified | Parsed | NotVerified | InvalidPackages | ArchitectureMismatch | ListedInPackages
    // git
    | UnsupportedVersion | CommandNotAllowed | NotShallow | NotSingleRef | NotInspected | NotGitProtocol
    | Unshallows | CannotReadWants | WantRefsUnsupported | CannotUnpack | ContentUnknown
    // wheels
    | RequirementsNotMet | IntegrityFailed

  datatype Inspection = Inspection(opinion: Opinion, reason: Reason, notes: Annotation)

  type InspectionMap = map<string, Inspection>

  /** Every metadata field an inspector can provide, apart from the type. */
  datatype Details = Details(
    name: string, version: string, vendor: string, description: string, author: string,
    authorEmail: string, architecture: string, license: string, copyright: string,
    sourcePackage: string, storeRevision: string, aptSuite: string, contentID: string)

  const NO_DETAILS := Details("", "", "", "", "", "", "", "", "", "", "", "", "")

  datatype Meta = Meta(kind: string, details: Details)

  const NO_METADATA := Meta("", NO_DETAILS)

  /** The part of an artifact that inspectors read and write. */
  datatype Findings = Findings(request: InspectionMap, response: InspectionMap, kind: string, details: Details)

  const FRESH := Findings(map[], map[], "", NO_DETAILS)

  predicate Any(m: InspectionMap, o: Opinion) {
    exists id | id in m :: m[id].opinion == o
  }

  predicate PendingRequest(f: Findings) {
    !Any(f.request, Rejected) && Any(f.request, Pending)
  }

  predicate ApprovedResponse(f: Findings) {
    !Any(f.response, Rejected) && Any(f.response, Approved)
  }

  predicate ArtifactApproved(f: Findings) {
    PendingRequest(f) && ApprovedResponse(f)
  }

  /** What an inspector says about a response in one call. */
  datatype Verdict = Verdict(opinion: Opinion, reason: Reason, meta: Meta, notes: Annotation)

  function SetRequest(f: Findings, id: string, v: Verdict): Findings {
    f.(request := f.request[id := Inspection(v.opinion, v.reason, v.notes)])
  }

  /** Whether a call replaces the recorded metadata. */
  predicate Takes(f: Findings, v: Verdict) {
    v.meta != NO_METADATA && (v.opinion == Approved || !Any(f.response, Approved))
  }

  function SetMetadata(f: Findings, m: Meta): Findings {
    f.(kind := if m.kind != "" then m.kind else f.kind, details := m.details)
  }

  function SetResponse(f: Findings, id: string, v: Verdict): Findings {
    var g := if Takes(f, v) then SetMetadata(f, v.meta) else f;
    g.(response := f.response[id := Inspection(v.opinion, v.reason, v.notes)])
  }

  /** `g` differs from `f` in the response opinion of `id` and the metadata only. */
  ghost predicate Responds(f: Findings, g: Findings, id: string) {
    g.request == f.request && forall k | k != id :: KeepsResponse(f, g, k)
  }

  predicate KeepsResponse(f: Findings, g: Findings, k: string) {
    (k in g.response <==> k in f.response) && (k in f.response ==> g.response[k] == f.response[k])
  }

  lemma SetResponds(f: Findings, id: string, v: Verdict)
    ensures Responds(f, SetResponse(f, id, v), id)
  {
  }

  lemma RespondsTwice(f: Findings, g: Findings, h: Findings, id: string)
    requires Responds(f, g, id) && Responds(g, h, id)
    ensures Responds(f, h, id)
  {
    forall k | k != id ensures KeepsResponse(f, h, k) {
      assert KeepsResponse(f, g, k) && KeepsResponse(g, h, k);
    }
  }

  /** The artifact object: the Set calls update it in place, the verdict methods loop over the
      opinions in whatever order the map yields them. */
  class Artifact {
    var request: InspectionMap
    var response: InspectionMap
    var kind: string
    var details: Details

    function View(): Findings
      reads this
    {
      Findings(request, response, kind, details)
    }

    constructor ()
      ensures View() == FRESH
    {
      request, response, kind, details := map[], map[], "", NO_DETAILS;
    }

    method SetArtifactMetadata(m: Meta)
      modifies this`kind, this`details
      ensures View() == SetMetadata(old(View()), m)
    {
      if m.kind != "" {
        kind := m.kind;
      }
      details := m.details;
    }

    method SetRequestOpinion(id: string, v: Verdict)
      modifies this`request
      ensures View() == SetRequest(old(View()), id, v)
    {
      request := request[id := Inspection(v.opinion, v.reason, v.notes)];
    }

    method SetResponseApproved(id: string, reason: Reason, m: Meta, notes: Annotation)
      modifies this
      ensures View() == SetResponse(old(View()), id, Verdict(Approved, reason, m, notes))
    {
      if m != NO_METADATA {
        SetArtifactMetadata(m);
      }
      response := response[id := Inspection(Approved, reason, notes)];
    }

    /** SetResponseRejected and SetResponseUnknown: metadata counts only while nobody approved. */
    method SetResponseOther(id: string, v: Verdict)
      requires v.opinion == Rejected || v.opinion == Unknown
      modifies this
      ensures View() == SetResponse(old(View()), id, v)
    {
      var approved := false;
      var todo := response.Keys;
      while todo != {} && !approved
        invariant todo <= response.Keys
        invariant approved ==> Any(response, Approved)
        invariant !approved ==> forall k | k in response && k !in todo :: response[k].opinion != Approved
        invariant View() == old(View())
        decreases |todo|
      {
        var k :| k in todo;
        todo := todo - {k};
        if response[k].opinion == Approved {
          approved := true;
        }
      }
      if !approved && v.meta != NO_METADATA {
        SetArtifactMetadata(v.meta);
      }
      response := response[id := Inspection(v.opinion, v.reason, v.notes)];
    }

    method SetResponseVerdict(id: string, v: Verdict)
      modifies this
      ensures v.opinion != Pending ==> View() == SetResponse(old(View()), id, v)
      ensures v.opinion == Pending ==> View() == old(View())
    {
      match v.opinion
      case Approved => SetResponseApproved(id, v.reason, v.meta, v.notes);
      case Pending =>
      case _ => SetResponseOther(id, v);
    }

    method RequestRejected() returns (res: bool)
      ensures res <==> Any(request, Rejected)
    {
      res := Contains(request, Rejected);
    }

    method ResponseRejected() returns (res: bool)
      ensures res <==> Any(response, Rejected)
    {
      res := Contains(response, Rejected);
    }

    method RequestPending() returns (res: bool)
      ensures res <==> PendingRequest(View())
      ensures res <==> && (forall k | k in request :: request[k].opinion != Rejected)
                       && (exists k | k in request :: request[k].opinion == Pending)
    {
      res := NoneRejectedSome(request, Pending);
    }

    method ResponseApproved() returns (res: bool)
      ensures res <==> ApprovedResponse(View())
      ensures res <==> && (forall k | k in response :: response[k].opinion != Rejected)
                       && (exists k | k in response :: response[k].opinion == Approved)
    {
      res := NoneRejectedSome(response, Approved);
    }

    method IsApproved() returns (res: bool)
      ensures res <==> ArtifactApproved(View())
      ensures res <==> && (forall k | k in request :: request[k].opinion != Rejected)
                       && (exists k | k in request :: request[k].opinion == Pending)
                       && (forall k | k in response :: response[k].opinion != Rejected)
                       && (exists k | k in response :: response[k].opinion == Approved)
    {
      res := RequestPending();
      if !res {
        return false;
      }
      res := ResponseApproved();
    }
  }

  method Contains(m: InspectionMap, o: Opinion) returns (found: bool)
    ensures found <==> Any(m, o)
    ensures found <==> exists k | k in m :: m[k].opinion == o
  {
    var todo := m.Keys;
    while todo != {}
      invariant todo <= m.Keys
      invariant forall k | k in m && k !in todo :: m[k].opinion != o
    {
      var k :| k in todo;
      if m[k].opinion == o {
        return true;
      }
      todo := todo - {k};
    }
    return false;
  }

  /** The verdict loop: one rejection decides at once, otherwise one `o` is enough. */
  method NoneRejectedSome(m: InspectionMap, o: Opinion) returns (res: bool)
    requires o != Rejected
    ensures res <==> !Any(m, Rejected) && Any(m, o)
    ensures res <==> (forall k | k in m :: m[k].opinion != Rejected) && exists k | k in m :: m[k].opinion == o
  {
    res := false;
    var todo := m.Keys;
    while todo != {}
      invariant todo <= m.Keys
      invariant forall k | k in m && k !in todo :: m[k].opinion != Rejected
      invariant res <==> exists k | k in m && k !in todo :: m[k].opinion == o
    {
      var k :| k in todo;
      if m[k].opinion == Rejected {
        return false;
      }
      if m[k].opinion == o {
        res := true;
      }
      todo := todo - {k};
    }
  }

  // Which metadata survives a sequence of calls

  datatype Call = Call(id: string, verdict: Verdict)

  function SetAll(f: Findings, calls: seq<Call>): Findings {
    if calls == [] then f
    else
      var n := |calls| - 1;
      SetResponse(SetAll(f, calls[..n]), calls[n].id, calls[n].verdict)
  }

  predicate Approves(c: Call) {
    c.verdict.opinion == Approved
  }

  /** Some approval among the calls was not replaced by a later call of the same inspector. */
  predicate StandingApproval(calls: seq<Call>) {
    exists i | 0 <= i < |calls| :: Standing(calls, i)
  }

  predicate Standing(calls: seq<Call>, i: nat)
    requires i < |calls|
  {
    Approves(calls[i]) && forall j | i < j < |calls| :: calls[j].id != calls[i].id
  }

  lemma StandingExtends(calls: seq<Call>, c: Call)
    ensures StandingApproval(calls + [c]) <==>
            Approves(c) || exists i | 0 <= i < |calls| :: Standing(calls, i) && calls[i].id != c.id
  {
    var all := calls + [c];
    if Approves(c) {
      assert Standing(all, |calls|);
    }
    forall i | 0 <= i < |calls| && Standing(calls, i) && calls[i].id != c.id
      ensures Standing(all, i)
    {
    }
    forall i | 0 <= i < |calls| && Standing(all, i)
      ensures Standing(calls, i) && calls[i].id != c.id
    {
      assert all[|calls|] == c;
      forall j | i < j < |calls| ensures calls[j].id != calls[i].id {
        assert all[j] == calls[j];
      }
    }
  }

  /** The recorded map shows an approval by `id` exactly when a standing call made it. */
  lemma {:induction false} RecordedApproval(f: Findings, calls: seq<Call>, id: string)
    requires f.response == map[]
    ensures (id in SetAll(f, calls).response && SetAll(f, calls).response[id].opinion == Approved)
            <==> exists i | 0 <= i < |calls| :: Standing(calls, i) && calls[i].id == id
  {
    if calls != [] {
      var n := |calls| - 1;
      var front := calls[..n];
      RecordedApproval(f, front, id);
      forall i | 0 <= i < n ensures Standing(calls, i) <==> Standing(front, i) && calls[i].id != calls[n].id {
        if Standing(calls, i) {
          forall j | i < j < n ensures front[j].id != front[i].id { assert front[j] == calls[j]; }
        }
      }
      assert Standing(calls, n) <==> Approves(calls[n]);
    }
  }

  lemma ApprovalRecorded(f: Findings, calls: seq<Call>)
    requires f.response == map[]
    ensures Any(SetAll(f, calls).response, Approved) <==> StandingApproval(calls)
  {
    var m := SetAll(f, calls).response;
    if Any(m, Approved) {
      var id :| id in m && m[id].opinion == Approved;
      RecordedApproval(f, calls, id);
    }
    if StandingApproval(calls) {
      var i :| 0 <= i < |calls| && Standing(calls, i);
      RecordedApproval(f, calls, calls[i].id);
    }
  }

  /** Call `i` brought metadata, and either approved or found no standing approval before it. */
  predicate TookEffect(calls: seq<Call>, i: nat)
    requires i < |calls|
  {
    calls[i].verdict.meta != NO_METADATA && (Approves(calls[i]) || !StandingApproval(calls[..i]))
  }

  /** The details of the last call in effect, else what was there before. */
  function LastDetails(calls: seq<Call>, base: Details): Details {
    if calls == [] then base
    else if TookEffect(calls, |calls| - 1) then calls[|calls| - 1].verdict.meta.details
    else LastDetails(calls[..|calls| - 1], base)
  }

  /** The last non-empty type among the calls in effect, else what was there before. */
  function LastKind(calls: seq<Call>, base: string): string {
    if calls == [] then base
    else if TookEffect(calls, |calls| - 1) && calls[|calls| - 1].verdict.meta.kind != ""
      then calls[|calls| - 1].verdict.meta.kind
    else LastKind(calls[..|calls| - 1], base)
  }

  /** For every sequence of calls, which call's metadata ends up recorded. */
  lemma {:induction false} MetadataOutcome(f: Findings, calls: seq<Call>)
    requires f.response == map[]
    ensures SetAll(f, calls).details == LastDetails(calls, f.details)
    ensures SetAll(f, calls).kind == LastKind(calls, f.kind)
  {
    if calls != [] {
      MetadataOutcome(f, calls[..|calls| - 1]);
      ApprovalRecorded(f, calls[..|calls| - 1]);
    }
  }

  /** No inspector replaces its own approval by something else. */
  predicate ApprovalsKept(calls: seq<Call>) {
    forall i, j | 0 <= i < j < |calls| && Approves(calls[i]) && calls[j].id == calls[i].id :: Approves(calls[j])
  }

  predicate SomeApproval(calls: seq<Call>) {
    exists i | 0 <= i < |calls| :: Approves(calls[i])
  }

  lemma {:induction false} KeptApprovalStands(calls: seq<Call>)
    requires ApprovalsKept(calls)
    ensures StandingApproval(calls) <==> SomeApproval(calls)
  {
    if calls != [] {
      var n := |calls| - 1;
      var front, c := calls[..n], calls[n];
      assert calls == front + [c];
      KeptApprovalStands(front);
      StandingExtends(front, c);
      if SomeApproval(front) && !Approves(c) {
        var i :| 0 <= i < n && Standing(front, i);
        assert calls[i] == front[i];
      }
    }
  }

  /** The details of the last call that brought metadata, else `base`. */
  function LastMetadata(calls: seq<Call>, base: Details): Details {
    if calls == [] then base
    else if calls[|calls| - 1].verdict.meta != NO_METADATA then calls[|calls| - 1].verdict.meta.details
    else LastMetadata(calls[..|calls| - 1], base)
  }

  function BeforeApproval(calls: seq<Call>): seq<Call> {
    if calls == [] || Approves(calls[0]) then [] else [calls[0]] + BeforeApproval(calls[1..])
  }

  lemma {:induction false} BeforeApprovalAppend(calls: seq<Call>, c: Call)
    ensures BeforeApproval(calls + [c]) ==
            if SomeApproval(calls) then BeforeApproval(calls)
            else if Approves(c) then calls else calls + [c]
    ensures !SomeApproval(calls) ==> BeforeApproval(calls) == calls
  {
    if calls == [] {
      assert calls + [c] == [c] && [c][1..] == [];
    } else if !Approves(calls[0]) {
      BeforeApprovalAppend(calls[1..], c);
      assert (calls + [c])[1..] == calls[1..] + [c];
      assert SomeApproval(calls) <==> SomeApproval(calls[1..]) by {
        if SomeApproval(calls) {
          var i :| 0 <= i < |calls| && Approves(calls[i]);
          assert Approves(calls[1..][i - 1]);
        }
      }
    }
  }

  lemma {:induction false} NoApprovalFilter(calls: seq<Call>)
    requires !SomeApproval(calls)
    ensures Filter(Approves, calls) == []
  {
    if calls != [] {
      assert forall i | 0 <= i < |calls| - 1 :: calls[..|calls| - 1][i] == calls[i];
      NoApprovalFilter(calls[..|calls| - 1]);
    }
  }

  lemma LastAppend(calls: seq<Call>, c: Call, base: Details)
    ensures LastMetadata(calls + [c], base)
            == if c.verdict.meta != NO_METADATA then c.verdict.meta.details else LastMetadata(calls, base)
  {
    assert (calls + [c])[..|calls|] == calls;
  }

  lemma FilterAppend(calls: seq<Call>, c: Call)
    ensures Filter(Approves, calls + [c]) == if Approves(c) then Filter(Approves, calls) + [c] else Filter(Approves, calls)
  {
    assert (calls + [c])[..|calls|] == calls;
  }

  /** What one more call changes. */
  lemma PriorityAppend(calls: seq<Call>, c: Call, base: Details)
    ensures LastMetadata(Filter(Approves, calls + [c]), LastMetadata(BeforeApproval(calls + [c]), base))
            == if c.verdict.meta != NO_METADATA && (Approves(c) || !SomeApproval(calls)) then c.verdict.meta.details
               else LastMetadata(Filter(Approves, calls), LastMetadata(BeforeApproval(calls), base))
  {
    FilterAppend(calls, c);
    BeforeApprovalAppend(calls, c);
    if Approves(c) {
      LastAppend(Filter(Approves, calls), c, LastMetadata(BeforeApproval(calls), base));
    } else if !SomeApproval(calls) {
      NoApprovalFilter(calls);
      LastAppend(calls, c, base);
      assert LastMetadata(Filter(Approves, calls), LastMetadata(calls, base)) == LastMetadata(calls, base);
    }
  }

  /** Approval metadata takes priority, whatever the order of the calls: the details recorded are
      those of the last approving call with metadata; failing that, of the last call with
      metadata before the first approval; failing that, what was there before. */
  lemma {:induction false} MetadataPriority(f: Findings, calls: seq<Call>)
    requires f.response == map[] && ApprovalsKept(calls)
    ensures SetAll(f, calls).details ==
            LastMetadata(Filter(Approves, calls), LastMetadata(BeforeApproval(calls), f.details))
  {
    if calls != [] {
      var n := |calls| - 1;
      var front, c := calls[..n], calls[n];
      assert calls == front + [c];
      MetadataPriority(f, front);
      PriorityAppend(front, c, f.details);
      ApprovalRecorded(f, front);
      KeptApprovalStands(front);
    }
  }

  /** Why approvals must be kept: an inspector that approves and then withdraws lets a later
      rejection replace the approval's metadata. */
  lemma OverwrittenApproval()
    ensures var approved, other := Meta("a", NO_DETAILS.(name := "approved")), Meta("", NO_DETAILS.(name := "other"));
            var calls := [Call("x", Verdict(Approved, NoReason, approved, map[])),
                          Call("x", Verdict(Unknown, NoReason, NO_METADATA, map[])),
                          Call("y", Verdict(Rejected, NoReason, other, map[]))];
            SetAll(FRESH, calls).details == other.details && !ApprovalsKept(calls)
  {
    var approved, other := Meta("a", NO_DETAILS.(name := "approved")), Meta("", NO_DETAILS.(name := "other"));
    var c0 := Call("x", Verdict(Approved, NoReason, approved, map[]));
    var c1 := Call("x", Verdict(Unknown, NoReason, NO_METADATA, map[]));
    var c2 := Call("y", Verdict(Rejected, NoReason, other, map[]));
    var calls := [c0, c1, c2];
    assert calls[..2] == [c0, c1] && [c0, c1][..1] == [c0] && [c0][..0] == [];
    assert SetAll(FRESH, []) == FRESH;
    var f1 := SetAll(FRESH, [c0]);
    var f2 := SetAll(FRESH, [c0, c1]);
    assert f2.response == map["x" := Inspection(Unknown, NoReason, map[])];
    assert !Any(f2.response, Approved);
    assert Approves(calls[0]) && calls[1].id == calls[0].id && !Approves(calls[1]);
  }
}
