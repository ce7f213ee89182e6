/** Running the registered inspectors over a request and over a downloaded artifact. */
module Runner {
  import opened Basics
  import opened Opinions

  /** What one inspector does when it is called: the opinions it sets, under its own id, and
      whether it returns an error. Arbitrary scripts stand for arbitrary stateful inspectors. */
  datatype Outcome = Outcome(verdicts: seq<Verdict>, error: Option<string>)

  /** One outcome per registered inspector, and whether rewinding the file before it worked. */
  datatype Turn = Turn(id: string, outcome: Outcome, rewound: bool)

  const DEFAULT := "default"

  function Error(reason: Reason, message: string): Verdict {
    Verdict(Rejected, reason, NO_METADATA, map["error-message" := Text(message)])
  }

  function SetRequests(f: Findings, id: string, vs: seq<Verdict>): Findings {
    if vs == [] then f else SetRequest(SetRequests(f, id, vs[..|vs| - 1]), id, vs[|vs| - 1])
  }

  function SetResponses(f: Findings, id: string, vs: seq<Verdict>): Findings {
    if vs == [] then f
    else
      var g := SetResponses(f, id, vs[..|vs| - 1]);
      if vs[|vs| - 1].opinion == Pending then g else SetResponse(g, id, vs[|vs| - 1])
  }

  function DefaultRequest(f: Findings): Findings {
    if Any(f.request, Rejected) || PendingRequest(f) then f
    else SetRequest(f, DEFAULT,
                    Verdict(Unknown, NotRecognized, NO_METADATA, map[]))
  }

  function DefaultResponse(f: Findings): Findings {
    if Any(f.response, Rejected) || ApprovedResponse(f) then f
    else SetResponse(f, DEFAULT,
                     Verdict(Unknown, NotRecognized, NO_METADATA, map[]))
  }

  /** Findings after a run, and the error that cut it short. */
  type Result = (Findings, Option<string>)

  function RequestTurn(f: Findings, t: Turn): Result {
    if t.id == DEFAULT then (DefaultRequest(f), None)
    else
      var g := SetRequests(f, t.id, t.outcome.verdicts);
      match t.outcome.error
      case None => (g, None)
      case Some(e) => (SetRequest(g, t.id, Error(InspectorFailed, e)), Some(e))
  }

  function RequestRun(f: Findings, turns: seq<Turn>): Result
    decreases turns
  {
    if turns == [] then (f, None)
    else
      var (g, err) := RequestTurn(f, turns[0]);
      if err.Some? then (g, err) else RequestRun(g, turns[1..])
  }

  /** Whether the runner skips this inspector: in a strict session only the default inspector and
      those that left the request pending are called. */
  predicate Skips(f: Findings, permissive: bool, id: string) {
    !permissive && id != DEFAULT && !(id in f.request && f.request[id].opinion == Pending)
  }

  function ArtifactTurn(f: Findings, permissive: bool, t: Turn): Result {
    if Skips(f, permissive, t.id) then (f, None)
    else if !t.rewound then (f, Some("cannot rewind"))
    else if t.id == DEFAULT then (DefaultResponse(f), None)
    else
      var g := SetResponses(f, t.id, t.outcome.verdicts);
      match t.outcome.error
      case None => (g, None)
      case Some(e) => (SetResponse(g, t.id, Error(InspectorFailed, e)), Some(e))
  }

  function ArtifactTurns(f: Findings, permissive: bool, turns: seq<Turn>): Result
    decreases turns
  {
    if turns == [] then (f, None)
    else
      var (g, err) := ArtifactTurn(f, permissive, turns[0]);
      if err.Some? then (g, err) else ArtifactTurns(g, permissive, turns[1..])
  }

  /** A whole artifact run; `kind` is the detected file type, when the file could be read. */
  function ArtifactRun(f: Findings, permissive: bool, kind: Option<string>, turns: seq<Turn>): Result {
    match kind
    case None => (f, Some("cannot open or detect"))
    case Some(k) => ArtifactTurns(f.(kind := k), permissive, turns)
  }

  method RunRequestInspectors(a: Artifact, turns: seq<Turn>) returns (err: Option<string>)
    modifies a
    ensures (a.View(), err) == RequestRun(old(a.View()), turns)
  {
    for i := 0 to |turns|
      invariant RequestRun(old(a.View()), turns) == RequestRun(a.View(), turns[i..])
    {
      err := InspectRequest(a, turns[i]);
      assert turns[i..][1..] == turns[i + 1..];
      if err.Some? {
        return;
      }
    }
    err := None;
  }

  method InspectRequest(a: Artifact, t: Turn) returns (err: Option<string>)
    modifies a
    ensures (a.View(), err) == RequestTurn(old(a.View()), t)
  {
    if t.id == DEFAULT {
      var pending := false;
      var rejected := a.RequestRejected();
      if !rejected {
        pending := a.RequestPending();
      }
      if !rejected && !pending {
        a.SetRequestOpinion(DEFAULT,
          Verdict(Unknown, NotRecognized, NO_METADATA, map[]));
      }
      return None;
    }
    var vs := t.outcome.verdicts;
    for i := 0 to |vs|
      invariant a.View() == SetRequests(old(a.View()), t.id, vs[..i])
    {
      assert vs[..i + 1][..i] == vs[..i];
      a.SetRequestOpinion(t.id, vs[i]);
    }
    assert vs[..|vs|] == vs;
    err := t.outcome.error;
    if err.Some? {
      a.SetRequestOpinion(t.id, Error(InspectorFailed, err.value));
    }
  }

  method RunArtifactInspectors(a: Artifact, permissive: bool, kind: Option<string>, turns: seq<Turn>)
    returns (err: Option<string>)
    modifies a
    ensures (a.View(), err) == ArtifactRun(old(a.View()), permissive, kind, turns)
  {
    if kind == None {
      return Some("cannot open or detect");
    }
    a.kind := kind.value;
    ghost var start := a.View();
    for i := 0 to |turns|
      invariant ArtifactTurns(start, permissive, turns) == ArtifactTurns(a.View(), permissive, turns[i..])
    {
      var id := turns[i].id;
      assert turns[i..][1..] == turns[i + 1..];
      if !permissive && id != DEFAULT && !(id in a.request && a.request[id].opinion == Pending) {
        continue;
      }
      if !turns[i].rewound {
        return Some("cannot rewind");
      }
      err := InspectArtifact(a, turns[i]);
      if err.Some? {
        return;
      }
    }
    err := None;
  }

  method InspectArtifact(a: Artifact, t: Turn) returns (err: Option<string>)
    requires t.rewound
    modifies a
    ensures (a.View(), err) == ArtifactTurn(old(a.View()), true, t)
  {
    if t.id == DEFAULT {
      var approved := false;
      var rejected := a.ResponseRejected();
      if !rejected {
        approved := a.ResponseApproved();
      }
      if !rejected && !approved {
        a.SetResponseVerdict(DEFAULT,
          Verdict(Unknown, NotRecognized, NO_METADATA, map[]));
      }
      return None;
    }
    var vs := t.outcome.verdicts;
    for i := 0 to |vs|
      invariant a.View() == SetResponses(old(a.View()), t.id, vs[..i])
    {
      assert vs[..i + 1][..i] == vs[..i];
      a.SetResponseVerdict(t.id, vs[i]);
    }
    assert vs[..|vs|] == vs;
    err := t.outcome.error;
    if err.Some? {
      a.SetResponseVerdict(t.id, Error(InspectorFailed, err.value));
    }
  }

  // Gating

  /** One inspector both left the request pending and approved the response. */
  predicate Vouched(f: Findings) {
    exists id | id in f.response :: VouchedBy(f, id)
  }

  predicate VouchedBy(f: Findings, id: string) {
    && id in f.request && f.request[id].opinion == Pending
    && id in f.response && f.response[id].opinion == Approved
  }

  lemma {:induction false} SetResponsesOwnId(f: Findings, id: string, vs: seq<Verdict>)
    ensures Responds(f, SetResponses(f, id, vs), id)
  {
    if vs != [] {
      var g, v := SetResponses(f, id, vs[..|vs| - 1]), vs[|vs| - 1];
      SetResponsesOwnId(f, id, vs[..|vs| - 1]);
      SetResponds(g, id, v);
      RespondsTwice(f, g, SetResponse(g, id, v), id);
    }
  }

  /** A turn writes response opinions under the inspector's own id only. */
  lemma TurnOwnId(f: Findings, permissive: bool, t: Turn)
    ensures Responds(f, ArtifactTurn(f, permissive, t).0, t.id)
  {
    var g := SetResponses(f, t.id, t.outcome.verdicts);
    SetResponsesOwnId(f, t.id, t.outcome.verdicts);
    if t.outcome.error.Some? {
      var v := Error(InspectorFailed, t.outcome.error.value);
      SetResponds(g, t.id, v);
      RespondsTwice(f, g, SetResponse(g, t.id, v), t.id);
    }
    DefaultOwnId(f);
  }

  lemma DefaultOwnId(f: Findings)
    ensures Responds(f, DefaultResponse(f), DEFAULT)
  {
  }

  /** A strict turn changes no request opinion, and any approval it adds is by an inspector whose
      request opinion is pending. */
  lemma StrictTurn(f: Findings, t: Turn)
    ensures var g := ArtifactTurn(f, false, t).0;
            && g.request == f.request
            && forall k | k in g.response && g.response[k].opinion == Approved ::
                 VouchedBy(g, k) || (k in f.response && f.response[k].opinion == Approved)
  {
    var g := ArtifactTurn(f, false, t).0;
    TurnOwnId(f, false, t);
    if Skips(f, false, t.id) || t.id == DEFAULT {
      QuietTurn(f, t);
    } else {
      forall k | k in g.response && g.response[k].opinion == Approved && k != t.id
        ensures k in f.response && f.response[k].opinion == Approved
      {
        assert KeepsResponse(f, g, k);
      }
    }
  }

  /** Neither a skipped inspector nor the default one approves. */
  lemma QuietTurn(f: Findings, t: Turn)
    requires Skips(f, false, t.id) || t.id == DEFAULT
    ensures var g := ArtifactTurn(f, false, t).0;
            forall k | k in g.response && g.response[k].opinion == Approved :: k in f.response && f.response[k].opinion == Approved
  {
  }

  lemma {:induction false} StrictTurns(f: Findings, turns: seq<Turn>)
    requires forall k | k in f.response && f.response[k].opinion == Approved :: VouchedBy(f, k)
    ensures var g := ArtifactTurns(f, false, turns).0;
            && g.request == f.request
            && forall k | k in g.response && g.response[k].opinion == Approved :: VouchedBy(g, k)
    decreases turns
  {
    if turns != [] {
      StrictTurn(f, turns[0]);
      var (g, err) := ArtifactTurn(f, false, turns[0]);
      if err.None? {
        StrictTurns(g, turns[1..]);
      }
    }
  }

  /** For any inspectors: after a strict artifact run that starts without response opinions, an
      approved artifact was vouched for by one inspector end to end, and nobody rejected it. */
  lemma StrictGating(f: Findings, kind: Option<string>, turns: seq<Turn>)
    requires f.response == map[]
    ensures var g := ArtifactRun(f, false, kind, turns).0;
            && g.request == f.request
            && (ArtifactApproved(g) ==> Vouched(g) && !Any(g.request, Rejected) && !Any(g.response, Rejected))
  {
    if kind.Some? {
      StrictTurns(f.(kind := kind.value), turns);
    }
  }

  // From an empty artifact through both runs

  lemma {:induction false} SetRequestsKeepsResponse(f: Findings, id: string, vs: seq<Verdict>)
    ensures SetRequests(f, id, vs).response == f.response
    ensures forall k | k != id :: k in SetRequests(f, id, vs).request <==> k in f.request
  {
    if vs != [] {
      SetRequestsKeepsResponse(f, id, vs[..|vs| - 1]);
    }
  }

  lemma RequestTurnOwnId(f: Findings, t: Turn)
    ensures RequestTurn(f, t).0.response == f.response
    ensures forall k | k != t.id :: k in RequestTurn(f, t).0.request <==> k in f.request
  {
    SetRequestsKeepsResponse(f, t.id, t.outcome.verdicts);
  }

  lemma {:induction false} RequestRunKeepsResponse(f: Findings, turns: seq<Turn>)
    ensures RequestRun(f, turns).0.response == f.response
    ensures forall k | k in RequestRun(f, turns).0.request :: k in f.request || Registered(turns, k)
    decreases turns
  {
    if turns != [] {
      RequestTurnOwnId(f, turns[0]);
      RequestRunKeepsResponse(RequestTurn(f, turns[0]).0, turns[1..]);
      RegisteredFirst(turns);
    }
  }

  predicate Registered(turns: seq<Turn>, id: string) {
    exists i | 0 <= i < |turns| :: turns[i].id == id
  }

  lemma RegisteredFirst(turns: seq<Turn>)
    requires turns != []
    ensures Registered(turns, turns[0].id)
    ensures forall k | Registered(turns[1..], k) :: Registered(turns, k)
  {
    forall k | Registered(turns[1..], k) ensures Registered(turns, k) {
      var i :| 0 <= i < |turns[1..]| && turns[1..][i].id == k;
      assert turns[i + 1].id == k;
    }
  }

  lemma {:induction false} ArtifactTurnsRegistered(f: Findings, permissive: bool, turns: seq<Turn>)
    ensures forall k | k in ArtifactTurns(f, permissive, turns).0.response :: k in f.response || Registered(turns, k)
    decreases turns
  {
    if turns != [] {
      var g := ArtifactTurn(f, permissive, turns[0]).0;
      TurnOwnId(f, permissive, turns[0]);
      assert forall k | k in g.response && k != turns[0].id :: KeepsResponse(f, g, k);
      ArtifactTurnsRegistered(g, permissive, turns[1..]);
      RegisteredFirst(turns);
    }
  }

  /** Strict gating end to end: an artifact that starts empty and ends approved was left pending
      and then approved by one inspector, called in both runs. */
  lemma StrictEndToEnd(asked: seq<Turn>, kind: Option<string>, answered: seq<Turn>)
    requires ArtifactApproved(ArtifactRun(RequestRun(FRESH, asked).0, false, kind, answered).0)
    ensures var g := ArtifactRun(RequestRun(FRESH, asked).0, false, kind, answered).0;
            exists id | id in g.response :: VouchedBy(g, id) && Registered(asked, id) && Registered(answered, id)
  {
    var f := RequestRun(FRESH, asked).0;
    var g := ArtifactRun(f, false, kind, answered).0;
    RequestRunKeepsResponse(FRESH, asked);
    StrictGating(f, kind, answered);
    ArtifactTurnsRegistered(f.(kind := if kind.Some? then kind.value else ""), false, answered);
    var id :| id in g.response && VouchedBy(g, id);
    assert Registered(asked, id) && Registered(answered, id);
  }

  lemma SetResponsesKeepsRequest(f: Findings, permissive: bool, turns: seq<Turn>)
    ensures ArtifactTurns(f, permissive, turns).0.request == f.request
    decreases turns
  {
    if turns != [] {
      TurnOwnId(f, permissive, turns[0]);
      SetResponsesKeepsRequest(ArtifactTurn(f, permissive, turns[0]).0, permissive, turns[1..]);
    }
  }

  // Which errors a run returns, and what opinions it ends with, told from the scripts alone

  /** The default inspector has no script; any other fails by returning an error. */
  predicate Fails(t: Turn) {
    t.id != "default" && t.outcome.error.Some?
  }

  /** A request run ends with an error exactly when some inspector fails. */
  lemma {:induction false} RequestErrorIff(f: Findings, turns: seq<Turn>)
    ensures RequestRun(f, turns).1.Some? <==> exists i | 0 <= i < |turns| :: Fails(turns[i])
    decreases turns
  {
    if turns != [] {
      RequestErrorIff(RequestTurn(f, turns[0]).0, turns[1..]);
      if i :| 0 <= i < |turns[1..]| && Fails(turns[1..][i]) {
        assert Fails(turns[i + 1]);
      }
      if i :| 0 < i < |turns| && Fails(turns[i]) {
        assert Fails(turns[1..][i - 1]);
      }
    }
  }

  /** Who is called on a response: in a permissive session everybody, in a strict one the default inspector
      and whoever left the request pending. */
  predicate Called(f: Findings, permissive: bool, id: string) {
    permissive || id == "default" || (id in f.request && f.request[id].opinion == Pending)
  }

  /** The file cannot be rewound for an inspector that is called, or it fails. */
  predicate FailsCalled(f: Findings, permissive: bool, t: Turn) {
    Called(f, permissive, t.id) && (!t.rewound || Fails(t))
  }

  lemma {:induction false} TurnsErrorIff(f: Findings, permissive: bool, turns: seq<Turn>)
    ensures ArtifactTurns(f, permissive, turns).1.Some? <==> exists i | 0 <= i < |turns| :: FailsCalled(f, permissive, turns[i])
    decreases turns
  {
    if turns != [] {
      var g := ArtifactTurn(f, permissive, turns[0]).0;
      TurnOwnId(f, permissive, turns[0]);
      TurnsErrorIff(g, permissive, turns[1..]);
      if i :| 0 <= i < |turns[1..]| && FailsCalled(g, permissive, turns[1..][i]) {
        assert FailsCalled(f, permissive, turns[i + 1]);
      }
      if i :| 0 < i < |turns| && FailsCalled(f, permissive, turns[i]) {
        assert FailsCalled(g, permissive, turns[1..][i - 1]);
      }
    }
  }

  /** A response run ends with an error exactly when the file cannot be read or typed, cannot be rewound for
      an inspector that is called, or one that is called fails. */
  lemma ArtifactErrorIff(f: Findings, permissive: bool, kind: Option<string>, turns: seq<Turn>)
    ensures ArtifactRun(f, permissive, kind, turns).1.Some? <==>
            kind == None || exists i | 0 <= i < |turns| :: FailsCalled(f, permissive, turns[i])
  {
    if kind.Some? {
      var g := f.(kind := kind.value);
      TurnsErrorIff(g, permissive, turns);
      assert forall t: Turn :: FailsCalled(f, permissive, t) <==> FailsCalled(g, permissive, t);
    }
  }

  /** The opinion an inspector's script leaves on the request: its last one. */
  predicate Leaves(t: Turn, o: Opinion) {
    t.id != "default" && t.outcome.verdicts != [] && t.outcome.verdicts[|t.outcome.verdicts| - 1].opinion == o
  }

  lemma {:induction false} LastRequest(f: Findings, id: string, vs: seq<Verdict>)
    ensures vs == [] ==> SetRequests(f, id, vs) == f
    ensures vs != [] ==>
              var v := vs[|vs| - 1];
              SetRequests(f, id, vs).request == f.request[id := Inspection(v.opinion, v.reason, v.notes)]
  {
    if vs != [] {
      SetRequestsKeepsResponse(f, id, vs[..|vs| - 1]);
      LastRequest(f, id, vs[..|vs| - 1]);
    }
  }

  /** Likewise for a response, where a pending opinion is none. */
  lemma {:induction false} LastResponse(f: Findings, id: string, vs: seq<Verdict>, i: nat)
    requires i < |vs| && vs[i].opinion != Pending && forall j | i < j < |vs| :: vs[j].opinion == Pending
    ensures SetResponses(f, id, vs).response == f.response[id := Inspection(vs[i].opinion, vs[i].reason, vs[i].notes)]
  {
    var n := |vs| - 1;
    if i < n {
      LastResponse(f, id, vs[..n], i);
    } else {
      SetResponsesOwnId(f, id, vs[..n]);
      SameButFor(f, SetResponses(f, id, vs[..n]), id, Inspection(vs[n].opinion, vs[n].reason, vs[n].notes));
    }
  }

  lemma SameButFor(f: Findings, g: Findings, id: string, x: Inspection)
    requires Responds(f, g, id)
    ensures g.response[id := x] == f.response[id := x]
  {
    var a, b := f.response[id := x], g.response[id := x];
    forall k ensures (k in a <==> k in b) && (k in a ==> a[k] == b[k]) {
      assert k != id ==> KeepsResponse(f, g, k);
    }
    assert a == b;
  }

  /** A request turn leaves the other inspectors' opinions alone. */
  lemma OthersRequest(f: Findings, t: Turn, id: string)
    requires t.id != id
    ensures id in RequestTurn(f, t).0.request <==> id in f.request
    ensures id in f.request ==> RequestTurn(f, t).0.request[id] == f.request[id]
  {
    if t.id != DEFAULT {
      LastRequest(f, t.id, t.outcome.verdicts);
    }
  }

  lemma {:induction false} OthersRequests(f: Findings, turns: seq<Turn>, id: string)
    requires forall j | 0 <= j < |turns| :: turns[j].id != id
    ensures id in RequestRun(f, turns).0.request <==> id in f.request
    ensures id in f.request ==> RequestRun(f, turns).0.request[id] == f.request[id]
    decreases turns
  {
    if turns != [] {
      OthersRequest(f, turns[0], id);
      OthersRequests(RequestTurn(f, turns[0]).0, turns[1..], id);
    }
  }

  /** After a request run in which nobody failed, the opinion of each inspector is its last one, and those that
      said nothing have none. */
  lemma {:induction false} RequestLeft(f: Findings, turns: seq<Turn>, i: nat)
    requires i < |turns| && turns[i].id != "default" && turns[i].id !in f.request
    requires forall j | 0 <= j < |turns| :: turns[j].id != turns[i].id || j == i
    requires forall j | 0 <= j < |turns| :: !Fails(turns[j])
    ensures var m, vs := RequestRun(f, turns).0.request, turns[i].outcome.verdicts;
            && (turns[i].id in m <==> vs != [])
            && (vs != [] ==> var v := vs[|vs| - 1]; m[turns[i].id] == Inspection(v.opinion, v.reason, v.notes))
    decreases turns
  {
    var g, rest, id := RequestTurn(f, turns[0]).0, turns[1..], turns[i].id;
    assert !Fails(turns[0]) && !Fails(turns[i]);
    if i == 0 {
      LastRequest(f, id, turns[0].outcome.verdicts);
      OthersRequests(g, rest, id);
    } else {
      OthersRequest(f, turns[0], id);
      assert rest[i - 1] == turns[i];
      RequestLeft(g, rest, i - 1);
    }
  }

  /** After a response run without an error, the opinion of an inspector that was called is its last one that is
      not pending. */
  lemma {:induction false} ResponseLeft(f: Findings, permissive: bool, turns: seq<Turn>, i: nat, j: nat)
    requires i < |turns| && turns[i].id != "default" && Called(f, permissive, turns[i].id)
    requires forall k | 0 <= k < |turns| :: turns[k].id != turns[i].id || k == i
    requires ArtifactTurns(f, permissive, turns).1 == None
    requires j < |turns[i].outcome.verdicts| && turns[i].outcome.verdicts[j].opinion != Pending
    requires forall k | j < k < |turns[i].outcome.verdicts| :: turns[i].outcome.verdicts[k].opinion == Pending
    ensures var m, v := ArtifactTurns(f, permissive, turns).0.response, turns[i].outcome.verdicts[j];
            turns[i].id in m && m[turns[i].id] == Inspection(v.opinion, v.reason, v.notes)
    decreases turns
  {
    var g, rest, id := ArtifactTurn(f, permissive, turns[0]).0, turns[1..], turns[i].id;
    TurnOwnId(f, permissive, turns[0]);
    if i == 0 {
      LastResponse(f, id, turns[0].outcome.verdicts, j);
      OthersResponses(g, permissive, rest, id);
    } else {
      assert rest[i - 1] == turns[i];
      ResponseLeft(g, permissive, rest, i - 1, j);
    }
  }

  lemma {:induction false} OthersResponses(f: Findings, permissive: bool, turns: seq<Turn>, id: string)
    requires forall k | 0 <= k < |turns| :: turns[k].id != id
    ensures KeepsResponse(f, ArtifactTurns(f, permissive, turns).0, id)
    decreases turns
  {
    if turns != [] {
      var g := ArtifactTurn(f, permissive, turns[0]).0;
      TurnOwnId(f, permissive, turns[0]);
      assert KeepsResponse(f, g, id);
      OthersResponses(g, permissive, turns[1..], id);
    }
  }

  /** What the default inspector says of a request: unknown, when nobody rejects it or left it pending. */
  lemma DefaultRequestMeans(f: Findings)
    ensures var silent := forall k | k in f.request :: f.request[k].opinion !in {Rejected, Pending};
            RequestTurn(f, Turn("default", Outcome([], None), true)).0
            == if silent then f.(request := f.request["default" := Inspection(Unknown, NotRecognized, map[])]) else f
  {
    if !Any(f.request, Rejected) && !Any(f.request, Pending) {
      forall k | k in f.request ensures f.request[k].opinion !in {Rejected, Pending} {
      }
    }
  }

  /** And of a response: unknown, when nobody rejects or approved it. */
  lemma DefaultResponseMeans(f: Findings)
    ensures var silent := forall k | k in f.response :: f.response[k].opinion !in {Rejected, Approved};
            DefaultResponse(f)
            == if silent then f.(response := f.response["default" := Inspection(Unknown, NotRecognized, map[])]) else f
  {
    if !Any(f.response, Rejected) && !Any(f.response, Approved) {
      forall k | k in f.response ensures f.response[k].opinion !in {Rejected, Approved} {
      }
    }
  }

  lemma PendingTurn(f: Findings, t: Turn, id: string)
    requires id in RequestTurn(f, t).0.request && RequestTurn(f, t).0.request[id].opinion == Pending
    ensures (id in f.request && f.request[id].opinion == Pending) || (t.id == id && Leaves(t, Pending))
  {
    if t.id != DEFAULT {
      LastRequest(f, t.id, t.outcome.verdicts);
    }
  }

  /** A request opinion that is pending after a run was so before, or some inspector other than the default one
      left it there. */
  lemma {:induction false} PendingLeft(f: Findings, turns: seq<Turn>, id: string)
    requires var g := RequestRun(f, turns).0; id in g.request && g.request[id].opinion == Pending
    ensures (id in f.request && f.request[id].opinion == Pending) || exists i | 0 <= i < |turns| :: turns[i].id == id && Leaves(turns[i], Pending)
    decreases turns
  {
    if turns != [] {
      var (g, err) := RequestTurn(f, turns[0]);
      if err.None? {
        PendingLeft(g, turns[1..], id);
        if i :| 0 <= i < |turns[1..]| && turns[1..][i].id == id && Leaves(turns[1..][i], Pending) {
          assert turns[i + 1].id == id && Leaves(turns[i + 1], Pending);
        }
      }
      if id in g.request && g.request[id].opinion == Pending {
        PendingTurn(f, turns[0], id);
      }
    }
  }

  // What an error leaves behind

  /** Rewinding before turn `i` fails, and the artifact was approved by then. */
  predicate RewindFailsApproved(f: Findings, permissive: bool, turns: seq<Turn>, i: nat)
    requires i < |turns|
  {
    var (h, err) := ArtifactTurns(f, permissive, turns[..i]);
    err.None? && ArtifactApproved(h) && !Skips(h, permissive, turns[i].id) && !turns[i].rewound
  }

  lemma RewindAfterFirst(f: Findings, permissive: bool, turns: seq<Turn>, i: nat)
    requires 0 < i < |turns|
    ensures RewindFailsApproved(f, permissive, turns, i) <==>
            && ArtifactTurn(f, permissive, turns[0]).1.None?
            && RewindFailsApproved(ArtifactTurn(f, permissive, turns[0]).0, permissive, turns[1..], i - 1)
  {
    assert turns[..i][0] == turns[0] && turns[..i][1..] == turns[1..][..i - 1];
  }

  /** An inspector's own error is recorded as its rejection. */
  lemma ErrorUnapproves(f: Findings, permissive: bool, t: Turn)
    requires ArtifactTurn(f, permissive, t).1.Some? && t.rewound
    ensures !ArtifactApproved(ArtifactTurn(f, permissive, t).0)
  {
    assert ArtifactTurn(f, permissive, t).0.response[t.id].opinion == Rejected;
  }

  /** A run that returns an error leaves an approved artifact exactly when it was a rewind that
      failed, and the artifact was approved by then. */
  lemma {:induction false} FailedApprovedIff(f: Findings, permissive: bool, turns: seq<Turn>)
    ensures ArtifactTurns(f, permissive, turns).1.Some? && ArtifactApproved(ArtifactTurns(f, permissive, turns).0)
            <==> exists i | 0 <= i < |turns| :: RewindFailsApproved(f, permissive, turns, i)
    decreases turns
  {
    if turns != [] {
      var (g, err) := ArtifactTurn(f, permissive, turns[0]);
      assert turns[..0] == [];
      forall i | 0 < i < |turns| ensures RewindFailsApproved(f, permissive, turns, i) <==>
          err.None? && RewindFailsApproved(g, permissive, turns[1..], i - 1)
      {
        RewindAfterFirst(f, permissive, turns, i);
      }
      if err.Some? {
        if turns[0].rewound {
          ErrorUnapproves(f, permissive, turns[0]);
        }
        assert RewindFailsApproved(f, permissive, turns, 0) <==> ArtifactApproved(g);
      } else {
        FailedApprovedIff(g, permissive, turns[1..]);
        if i :| 0 <= i < |turns[1..]| && RewindFailsApproved(g, permissive, turns[1..], i) {
          assert RewindFailsApproved(f, permissive, turns, i + 1);
        }
      }
    }
  }

  /** When every rewind works, a failed run leaves the artifact unapproved. */
  lemma FailedTurnsUnapproved(f: Findings, permissive: bool, turns: seq<Turn>)
    requires forall i | 0 <= i < |turns| :: turns[i].rewound
    ensures var (g, err) := ArtifactTurns(f, permissive, turns);
            err.Some? ==> !ArtifactApproved(g)
  {
    FailedApprovedIff(f, permissive, turns);
  }

  /** The other case: one inspector approves, and the file cannot be rewound for the next. */
  lemma RewindExample(f: Findings)
    requires f.request == map["x" := Inspection(Pending, NoReason, map[])] && f.response == map[]
    ensures var turns := [Turn("x", Outcome([Verdict(Approved, NoReason, NO_METADATA, map[])], None), true), Turn("y", Outcome([], None), false)];
            var (g, err) := ArtifactTurns(f, true, turns);
            err.Some? && ArtifactApproved(g)
  {
    var v := Verdict(Approved, NoReason, NO_METADATA, map[]);
    var t, u := Turn("x", Outcome([v], None), true), Turn("y", Outcome([], None), false);
    assert [v][..0] == [];
    assert SetResponses(f, "x", []) == f;
    var g := SetResponses(f, "x", [v]);
    assert g.response["x"].opinion == Approved && g.request["x"].opinion == Pending;
    assert [t, u][1..] == [u];
    assert ArtifactTurns(f, true, [t, u]) == ArtifactTurns(g, true, [u]) == (g, Some("cannot rewind"));
  }

  /** In a permissive session the same guarantee fails: the pending request and the approval may
      come from different inspectors. */
  lemma PermissiveUnvouched()
    ensures var f := FRESH.(request := map["x" := Inspection(Pending, NoReason, map[])]);
            var turns := [Turn("y", Outcome([Verdict(Approved, NoReason, NO_METADATA, map[])], None), true)];
            var g := ArtifactRun(f, true, Some("t"), turns).0;
            ArtifactApproved(g) && !Vouched(g)
  {
    var v := Verdict(Approved, NoReason, NO_METADATA, map[]);
    var f := FRESH.(request := map["x" := Inspection(Pending, NoReason, map[])]);
    var t := Turn("y", Outcome([v], None), true);
    var f0 := f.(kind := "t");
    assert [v][..0] == [];
    assert SetResponses(f0, "y", []) == f0;
    var g := SetResponses(f0, "y", [v]);
    assert g.response == map["y" := Inspection(Approved, NoReason, map[])];
    assert ArtifactTurn(f0, true, t) == (g, None);
    assert [t][1..] == [];
    assert ArtifactTurns(f0, true, [t]) == ArtifactTurns(g, true, []);
    assert g.request["x"].opinion == Pending;
    assert g.response["y"].opinion == Approved;
  }
}
