/** What the dispatcher's handlers do, as functions on session values. */
module Protocol {
  import opened Basics
  import opened Opinions
  import opened Runner

  type SessionId = string
  type Digest = string

  datatype Download = Download(url: string, digest: Digest)

  /** An artifact as it travels with the messages. `current` is the download in progress. */
  datatype Record = Record(
    sessionId: SessionId, digest: Digest, size: nat, findings: Findings, result: Opinion,
    current: Download, downloads: seq<Download>)

  datatype Failure =
    | InactiveSession
    | NotSaved
    | RejectedArtifact
    | RejectedRequest
    | InspectionFailed
    | SessionNotFound
    | SessionActive
    | SessionNotFinished
    | InvalidToken
    | NotWritten

  /** The value sent on an error reply channel. */
  datatype Reply = Nil | Err(failure: Failure)

  datatype SessionState = SessionState(token: string, permissive: bool, artifacts: map<Digest, Record>, revoked: bool)

  type Table = map<SessionId, SessionState>

  function NewSession(token: string, permissive: bool): SessionState {
    SessionState(token, permissive, map[], false)
  }

  function AddArtifact(s: SessionState, a: Record): SessionState {
    if a.digest in s.artifacts then s else s.(artifacts := s.artifacts[a.digest := a])
  }

  function AddDownload(s: SessionState, dl: Download): SessionState {
    if dl.digest in s.artifacts then
      var a := s.artifacts[dl.digest];
      s.(artifacts := s.artifacts[dl.digest := a.(downloads := a.downloads + [dl])])
    else s
  }

  function ArtifactResult(s: SessionState, d: Digest): Opinion {
    if d in s.artifacts then s.artifacts[d].result else Rejected
  }

  /** The reply when a previous inspection of the same digest is reused. */
  function ReuseReply(s: SessionState, d: Digest): Reply {
    if !s.permissive && ArtifactResult(s, d) == Rejected then Err(RejectedArtifact) else Nil
  }

  /** What a finished inspection leaves on the artifact, and the reply it will produce. */
  function Evaluate(permissive: bool, run: Result): (Opinion, Reply) {
    if run.1.Some? then (Rejected, Err(InspectionFailed))
    else if ArtifactApproved(run.0) then (Approved, Nil)
    else (Rejected, if permissive then Nil else Err(RejectedArtifact))
  }

  function EvaluateRequest(permissive: bool, run: Result): Reply {
    if run.1.Some? then Err(InspectionFailed)
    else if PendingRequest(run.0) || permissive then Nil
    else Err(RejectedRequest)
  }

  /** The reply to a request: nil exactly when no inspector failed, and in a strict session no request
      opinion rejects and one is pending. */
  lemma RequestReplyIff(f: Findings, permissive: bool, turns: seq<Turn>)
    ensures var run := RequestRun(f, turns); var reply := EvaluateRequest(permissive, run);
            var failed := exists i | 0 <= i < |turns| :: turns[i].id != "default" && turns[i].outcome.error.Some?;
            var pending := (forall k | k in run.0.request :: run.0.request[k].opinion != Rejected)
                           && exists k | k in run.0.request :: run.0.request[k].opinion == Pending;
            && (reply == Nil <==> !failed && (permissive || pending))
            && (reply == Err(InspectionFailed) <==> failed)
            && (reply == Err(RejectedRequest) <==> !failed && !permissive && !pending)
  {
    RequestErrorIff(f, turns);
    if exists i | 0 <= i < |turns| :: turns[i].id != "default" && turns[i].outcome.error.Some? {
      var i :| 0 <= i < |turns| && turns[i].id != "default" && turns[i].outcome.error.Some?;
      assert Fails(turns[i]);
    }
  }

  /** A strict session lets a request through only if some registered inspector other than the default one
      left it pending, and nobody rejected it. */
  lemma StrictRequestVouched(turns: seq<Turn>)
    requires EvaluateRequest(false, RequestRun(FRESH, turns)) == Nil
    ensures var g := RequestRun(FRESH, turns).0;
            && (forall k | k in g.request :: g.request[k].opinion != Rejected)
            && exists i | 0 <= i < |turns| ::
                 && Leaves(turns[i], Pending)
                 && turns[i].id in g.request && g.request[turns[i].id].opinion == Pending
  {
    var g := RequestRun(FRESH, turns).0;
    RequestReplyIff(FRESH, false, turns);
    var id :| id in g.request && g.request[id].opinion == Pending;
    PendingLeft(FRESH, turns, id);
  }

  /** A request nobody has an opinion on is unknown to the default inspector; a strict session rejects it, a
      permissive one lets it through. */
  lemma {:induction false} UnrecognizedRequest(turns: seq<Turn>, permissive: bool)
    requires forall i | 0 <= i < |turns| :: turns[i].id == "default" || turns[i].outcome == Outcome([], None)
    requires exists i | 0 <= i < |turns| :: turns[i].id == "default"
    ensures RequestRun(FRESH, turns) == (FRESH.(request := map["default" := Inspection(Unknown, NotRecognized, map[])]), None)
    ensures EvaluateRequest(permissive, RequestRun(FRESH, turns)) == if permissive then Nil else Err(RejectedRequest)
  {
    SilentRun(FRESH, turns);
  }

  lemma {:induction false} SilentRun(f: Findings, turns: seq<Turn>)
    requires forall i | 0 <= i < |turns| :: turns[i].id == "default" || turns[i].outcome == Outcome([], None)
    requires f == FRESH || f == FRESH.(request := map["default" := Inspection(Unknown, NotRecognized, map[])])
    ensures RequestRun(f, turns) == ((if exists i | 0 <= i < |turns| :: turns[i].id == "default"
                                      then FRESH.(request := map["default" := Inspection(Unknown, NotRecognized, map[])]) else f), None)
    decreases turns
  {
    if turns != [] {
      SilentRun(RequestTurn(f, turns[0]).0, turns[1..]);
      if i :| 0 <= i < |turns[1..]| && turns[1..][i].id == "default" {
        assert turns[i + 1].id == "default";
      }
      if i :| 0 < i < |turns| && turns[i].id == "default" {
        assert turns[1..][i - 1].id == "default";
      }
    }
  }

  /** What a response run comes to: approved exactly when nothing failed, no opinion of either kind rejects,
      a request opinion is pending and a response opinion approves; the reply is nil exactly when that, or
      in a permissive session when nothing failed. */
  lemma ResponseReplyIff(f: Findings, permissive: bool, kind: Option<string>, turns: seq<Turn>)
    ensures var run := ArtifactRun(f, permissive, kind, turns);
            var result, reply := Evaluate(permissive, run).0, Evaluate(permissive, run).1;
            var failed := kind == None || exists i | 0 <= i < |turns| :: FailsCalled(f, permissive, turns[i]);
            var approved :=
              && (forall k | k in run.0.request :: run.0.request[k].opinion != Rejected)
              && (exists k | k in run.0.request :: run.0.request[k].opinion == Pending)
              && (forall k | k in run.0.response :: run.0.response[k].opinion != Rejected)
              && (exists k | k in run.0.response :: run.0.response[k].opinion == Approved);
            && result == (if !failed && approved then Approved else Rejected)
            && (reply == Nil <==> !failed && (permissive || approved))
            && (reply == Err(InspectionFailed) <==> failed)
            && (reply == Err(RejectedArtifact) <==> !failed && !permissive && !approved)
  {
    ArtifactErrorIff(f, permissive, kind, turns);
  }

  function CompleteOn(s: SessionState, a: Record): SessionState {
    AddDownload(AddArtifact(s, a), a.current)
  }

  function RevokeToken(s: SessionState, token: string): SessionState {
    if token == s.token then s.(revoked := true) else s
  }

  predicate Authorized(table: Table, id: SessionId, pw: string) {
    id in table && !table[id].revoked && table[id].token == pw
  }

  /** A session report: the artifacts of a revoked session, else nothing. */
  function Report(table: Table, id: SessionId): Option<map<Digest, Record>> {
    if id in table && table[id].revoked then Some(table[id].artifacts) else None
  }
}
