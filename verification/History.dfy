/** How states along a run relate: what a session keeps, who may authenticate, what reports say. */
module History {
  import opened Basics
  import opened Opinions
  import opened Runner
  import opened Protocol
  import opened Interleavings
  import opened Invariants
  import opened Guarantees

  /** The later record is the earlier one, with downloads possibly appended. */
  ghost predicate RecordGrows(a: Record, a': Record) {
    a'.(downloads := a.downloads) == a && a.downloads <= a'.downloads
  }

  ghost predicate ArtifactsGrow(m: map<Digest, Record>, m': map<Digest, Record>) {
    forall d | d in m :: d in m' && RecordGrows(m[d], m'[d])
  }

  ghost predicate SessionGrows(s: SessionState, s': SessionState) {
    && s'.token == s.token && s'.permissive == s.permissive && (s.revoked ==> s'.revoked)
    && ArtifactsGrow(s.artifacts, s'.artifacts)
  }

  ghost predicate Grows(st: State, st': State) {
    && st.ever <= st'.ever
    && (forall id | id in st.sessions && id in st'.sessions :: SessionGrows(st.sessions[id], st'.sessions[id]))
    && (forall id | id in st.ever && id !in st.sessions :: id !in st'.sessions)
  }

  lemma CompleteOnGrows(s: SessionState, a: Record)
    ensures SessionGrows(s, CompleteOn(s, a)) && SessionGrows(s, AddDownload(s, a.current))
  {
  }

  lemma StepGrows(st: State, step: Step)
    requires BooksInv(st) && Can(st, step)
    ensures Grows(st, Do(st, step))
  {
    if TaskStep(step) {
      TaskGrows(st, step);
    } else if step.Create? {
      CreateGrows(st, step);
    } else if step.Revoke? {
      RevokeGrows(st, step);
    } else {
      OtherGrows(st, step);
    }
  }

  lemma CreateGrows(st: State, step: Step)
    requires BooksInv(st) && Can(st, step) && step.Create?
    ensures Grows(st, Do(st, step))
  {
    CreateAddsOne(st, step);
  }

  lemma RevokeGrows(st: State, step: Step)
    requires Can(st, step) && step.Revoke?
    ensures Grows(st, Do(st, step))
  {
  }

  lemma OtherGrows(st: State, step: Step)
    requires Can(st, step) && !TaskStep(step) && !step.Create? && !step.Revoke?
    ensures Grows(st, Do(st, step))
  {
    OthersAddNothing(st, step);
  }

  lemma TaskGrows(st: State, step: Step)
    requires Can(st, step) && TaskStep(step)
    ensures Grows(st, Do(st, step))
  {
    TaskFrame(st, step);
    TaskStepGrows(st, step);
  }

  lemma TaskStepGrows(st: State, step: Step)
    requires Can(st, step) && TaskStep(step)
    ensures forall id | id in st.sessions && id in Do(st, step).sessions ::
              SessionGrows(st.sessions[id], Do(st, step).sessions[id])
  {
    if step.Respond? {
      RespondGrows(st, step.t, step.saved);
    } else if step.Complete? {
      CompleteGrows(st, step.t);
    } else {
      QuietTask(st, step);
    }
  }

  lemma RespondGrows(st: State, t: nat, saved: bool)
    requires t in st.tasks
    ensures forall id | id in st.sessions && id in DoRespond(st, t, saved).sessions ::
              SessionGrows(st.sessions[id], DoRespond(st, t, saved).sessions[id])
  {
    var a := st.tasks[t].a;
    SameGrows(st.sessions);
    if OnRecord(st.sessions, st.tasks[t]) {
      CompleteOnGrows(st.sessions[a.sessionId], a);
    }
  }

  lemma SameGrows(sessions: Table)
    ensures forall id | id in sessions :: SessionGrows(sessions[id], sessions[id])
  {
  }

  lemma CompleteGrows(st: State, t: nat)
    requires t in st.tasks && st.tasks[t].phase.Completing?
    ensures forall id | id in st.sessions && id in DoComplete(st, t).sessions ::
              SessionGrows(st.sessions[id], DoComplete(st, t).sessions[id])
  {
    var a := st.tasks[t].a;
    if a.sessionId in st.sessions {
      CompleteOnGrows(st.sessions[a.sessionId], a);
    }
  }

  lemma QuietTask(st: State, step: Step)
    requires Can(st, step) && TaskStep(step) && !step.Respond? && !step.Complete?
    ensures Do(st, step).sessions == st.sessions
  {
  }

  lemma GrowsTransitive(a: State, b: State, c: State)
    requires Grows(a, b) && Grows(b, c) && a.sessions.Keys <= a.ever
    ensures Grows(a, c)
  {
    forall id | id in a.sessions && id in c.sessions ensures SessionGrows(a.sessions[id], c.sessions[id]) {
      assert id in b.sessions;
      assert SessionGrows(a.sessions[id], b.sessions[id]) && SessionGrows(b.sessions[id], c.sessions[id]);
    }
  }

  /** A run that goes on is a run, and so is each of its beginnings. */
  lemma {:induction false} Prefix(steps: seq<Step>, n: nat)
    requires Run(steps) && n <= |steps|
    ensures Run(steps[..n])
  {
    if n < |steps| {
      assert steps[..|steps| - 1][..n] == steps[..n];
      Prefix(steps[..|steps| - 1], n);
    } else {
      assert steps[..n] == steps;
    }
  }

  /** First completion wins: between any two moments of a run, a live session keeps every
      artifact it recorded, unchanged but for appended downloads; and an ended one stays ended. */
  lemma {:induction false} RunGrows(steps: seq<Step>, n: nat)
    requires Run(steps) && n <= |steps| && Run(steps[..n])
    ensures Grows(After(steps[..n]), After(steps))
  {
    if n == |steps| {
      assert steps[..n] == steps;
    } else {
      var front := steps[..|steps| - 1];
      assert front[..n] == steps[..n];
      RunGrows(front, n);
      BooksAlways(front);
      StepGrows(After(front), steps[|steps| - 1]);
      BooksAlways(steps[..n]);
      GrowsTransitive(After(steps[..n]), After(front), After(steps));
    }
  }

  /** Every later successful report extends every earlier one. */
  lemma {:induction false} ReportsAreMonotone(steps: seq<Step>, n: nat, id: SessionId)
    requires Run(steps) && n <= |steps| && Run(steps[..n])
    requires Report(After(steps[..n]).sessions, id).Some? && Report(After(steps).sessions, id).Some?
    ensures ArtifactsGrow(Report(After(steps[..n]).sessions, id).value, Report(After(steps).sessions, id).value)
  {
    RunGrows(steps, n);
  }

  // Session lifecycle

  /** Step `k` presents the live session's own token for revocation. */
  ghost predicate RevokesAt(steps: seq<Step>, k: nat, id: SessionId)
    requires Run(steps)
  {
    && k < |steps| && Run(steps[..k]) && id in After(steps[..k]).sessions
    && steps[k] == Revoke(id, After(steps[..k]).sessions[id].token)
  }

  ghost predicate EverRevoked(steps: seq<Step>, id: SessionId)
    requires Run(steps)
  {
    exists k: nat :: RevokesAt(steps, k, id)
  }

  lemma RevokesAtPrefix(steps: seq<Step>, k: nat, id: SessionId)
    requires Run(steps) && steps != []
    ensures k < |steps| - 1 ==> (RevokesAt(steps, k, id) <==> RevokesAt(steps[..|steps| - 1], k, id))
  {
    if k < |steps| - 1 {
      assert steps[..|steps| - 1][..k] == steps[..k];
    }
  }

  /** A live session is revoked exactly when its token was presented for revocation earlier. */
  lemma {:induction false} RevokedIff(steps: seq<Step>, id: SessionId)
    requires Run(steps) && id in After(steps).sessions
    ensures After(steps).sessions[id].revoked <==> EverRevoked(steps, id)
  {
    var n := |steps| - 1;
    if steps != [] {
      var front := steps[..n];
      var st := After(front);
      BooksAlways(front);
      if id in st.sessions {
        RevokedIff(front, id);
        LastStepRevokes(st, steps[n], id);
        LastRevocation(steps, id);
      } else {
        NewSessionUnrevoked(st, steps[n], id);
        NeverRevokedBefore(steps, id);
      }
    }
  }

  /** A revocation is an earlier one or the last step. */
  lemma LastRevocation(steps: seq<Step>, id: SessionId)
    requires Run(steps) && steps != [] && id in After(steps[..|steps| - 1]).sessions
    ensures EverRevoked(steps, id) <==>
            EverRevoked(steps[..|steps| - 1], id)
            || steps[|steps| - 1] == Revoke(id, After(steps[..|steps| - 1]).sessions[id].token)
  {
    var n := |steps| - 1;
    if k: nat :| RevokesAt(steps, k, id) {
      RevokesAtPrefix(steps, k, id);
    }
    if k: nat :| RevokesAt(steps[..n], k, id) {
      RevokesAtPrefix(steps, k, id);
      assert RevokesAt(steps, k, id);
    }
    if steps[n] == Revoke(id, After(steps[..n]).sessions[id].token) {
      assert RevokesAt(steps, n, id);
    }
  }

  /** A session created by the last step was live at no earlier moment. */
  lemma NeverRevokedBefore(steps: seq<Step>, id: SessionId)
    requires Run(steps) && steps != [] && id !in After(steps[..|steps| - 1]).ever && steps[|steps| - 1].Create?
    ensures forall k: nat :: !RevokesAt(steps, k, id)
  {
    var front := steps[..|steps| - 1];
    forall k: nat ensures !RevokesAt(steps, k, id) {
      if k < |front| && RevokesAt(steps, k, id) {
        assert front[..k] == steps[..k];
        LiveWasSeen(front, k, id);
      }
    }
  }

  /** An id that was live at some moment has been seen ever after. */
  lemma LiveWasSeen(steps: seq<Step>, n: nat, id: SessionId)
    requires Run(steps) && n <= |steps| && Run(steps[..n]) && id in After(steps[..n]).sessions
    ensures id in After(steps).ever
  {
    RunGrows(steps, n);
    BooksAlways(steps[..n]);
  }

  lemma LastStepRevokes(st: State, step: Step, id: SessionId)
    requires BooksInv(st) && Can(st, step) && id in st.sessions && id in Do(st, step).sessions
    ensures Do(st, step).sessions[id].revoked
            <==> st.sessions[id].revoked || step == Revoke(id, st.sessions[id].token)
  {
    if TaskStep(step) {
      TaskStepKeepsFlags(st, step, id);
    } else if step.Create? {
      CreateAddsOne(st, step);
    } else if step.Revoke? {
      RevokeStep(st, step.id, step.token, id);
    } else {
      OthersAddNothing(st, step);
    }
  }

  lemma RevokeStep(st: State, at: SessionId, token: string, id: SessionId)
    requires id in st.sessions
    ensures var st' := Do(st, Revoke(at, token));
            id in st'.sessions
            && (st'.sessions[id].revoked <==> st.sessions[id].revoked || (at == id && token == st.sessions[id].token))
  {
  }

  lemma TaskStepKeepsFlags(st: State, step: Step, id: SessionId)
    requires Can(st, step) && TaskStep(step) && id in st.sessions && id in Do(st, step).sessions
    ensures Do(st, step).sessions[id].revoked == st.sessions[id].revoked
  {
    if step.Respond? {
      RespondKeepsFlags(st, step.t, step.saved, id);
    } else if step.Complete? {
      CompleteKeepsFlags(st, step.t, id);
    } else {
      assert Do(st, step).sessions == st.sessions;
    }
  }

  lemma RespondKeepsFlags(st: State, t: nat, saved: bool, id: SessionId)
    requires t in st.tasks && id in st.sessions
    ensures var st' := DoRespond(st, t, saved); id in st'.sessions && st'.sessions[id].revoked == st.sessions[id].revoked
  {
  }

  lemma CompleteKeepsFlags(st: State, t: nat, id: SessionId)
    requires t in st.tasks && st.tasks[t].phase.Completing? && id in st.sessions
    ensures var st' := DoComplete(st, t); id in st'.sessions && st'.sessions[id].revoked == st.sessions[id].revoked
  {
  }

  /** A step puts a session in the table only by creating it, under an id never used before. */
  lemma NewSessionUnrevoked(st: State, step: Step, id: SessionId)
    requires BooksInv(st) && Can(st, step) && id !in st.sessions && id in Do(st, step).sessions
    ensures step.Create? && id !in st.ever
    ensures Do(st, step).sessions[id] == NewSession(step.token, step.permissive)
  {
    if TaskStep(step) {
      TaskFrame(st, step);
    } else if step.Create? {
      CreateAddsOne(st, step);
    } else {
      OthersAddNothing(st, step);
    }
  }

  lemma OthersAddNothing(st: State, step: Step)
    requires Can(st, step) && !TaskStep(step) && !step.Create?
    ensures Do(st, step).sessions.Keys <= st.sessions.Keys && Do(st, step).ever == st.ever
    ensures !step.Revoke? ==> forall id | id in Do(st, step).sessions :: Do(st, step).sessions[id] == st.sessions[id]
  {
    if step.End? || step.Expire? {
      FinishAddsNothing(st, step);
    }
  }

  lemma FinishAddsNothing(st: State, step: Step)
    requires Can(st, step) && (step.End? || step.Expire?)
    ensures Do(st, step).sessions.Keys <= st.sessions.Keys && Do(st, step).ever == st.ever
    ensures forall id | id in Do(st, step).sessions :: Do(st, step).sessions[id] == st.sessions[id]
  {
    if step.End? {
      if step.id in st.sessions {
        FinishRemoves(st, step.id, step.writes);
      }
    } else if st.handling.value in st.sessions {
      FinishRemoves(st.(handling := None), st.handling.value, step.writes);
    }
  }

  lemma FinishRemoves(st: State, id: SessionId, w: Writes)
    requires id in st.sessions && Permutes(w.order, st.sessions[id].artifacts.Keys)
    ensures var st' := DoFinish(st, id, w);
            && st'.ever == st.ever
            && st'.sessions == (if w.good >= |w.order| + 2 then st.sessions - {id} else st.sessions)
            && (w.good >= |w.order| + 2 ==> id in st'.ended && st'.ended[id] == st.sessions[id])
  {
  }

  ghost function CreatedId(st: State, step: Step): SessionId
    requires step.Create?
  {
    if step.requested.Some? && step.requested.value !in st.sessions then step.requested.value else step.newId
  }

  lemma CreateAddsOne(st: State, step: Step)
    requires BooksInv(st) && Can(st, step) && step.Create?
    ensures var id, st' := CreatedId(st, step), Do(st, step);
            && id !in st.ever && id !in st.sessions && st'.ever == st.ever + {id}
            && st'.sessions == st.sessions[id := NewSession(step.token, step.permissive)]
  {
  }

  /** Authentication succeeds exactly for a live session, with its token, when that token was
      never presented for revocation. */
  lemma AuthorizedIff(steps: seq<Step>, id: SessionId, pw: string)
    requires Run(steps)
    ensures Authorized(After(steps).sessions, id, pw)
            <==> id in After(steps).sessions && After(steps).sessions[id].token == pw
                 && !EverRevoked(steps, id)
  {
    if id in After(steps).sessions {
      RevokedIff(steps, id);
    }
  }

  /** Revocation is permanent: once a session's token is revoked, no later moment of the run lets
      anyone authenticate under that id. */
  lemma RevocationIsPermanent(steps: seq<Step>, k: nat, id: SessionId, pw: string)
    requires Run(steps) && RevokesAt(steps, k, id)
    ensures !Authorized(After(steps).sessions, id, pw)
  {
    AuthorizedIff(steps, id, pw);
  }

  /** A successful report implies an earlier revocation. */
  lemma ReportNeedsRevocation(steps: seq<Step>, id: SessionId)
    requires Run(steps) && Report(After(steps).sessions, id).Some?
    ensures EverRevoked(steps, id)
  {
    RevokedIff(steps, id);
  }

  /** The report has the digest exactly when some inspection recorded it in that session, with what the first
      of these found and the downloads of all of them, in the order of recording. */
  ghost predicate Reported(st: State, id: SessionId, report: map<Digest, Record>, d: Digest) {
    match FirstOf(st.tasks, st.recorded, id, d)
    case None => d !in report && forall t | t in st.tasks && Contributed(st.tasks[t]) :: !Matches(st.tasks, t, id, d)
    case Some(t) =>
      && t in st.tasks && Inspected(st.tasks[t]) && d in report
      && report[d] == st.tasks[t].a.(downloads := DownloadsOf(st.tasks, st.recorded, id, d))
      && |report[d].downloads| == |Contributors(st, id, d)|
  }

  lemma DigestReported(steps: seq<Step>, id: SessionId, d: Digest)
    requires Run(steps) && id in After(steps).sessions
    ensures Reported(After(steps), id, After(steps).sessions[id].artifacts, d)
  {
    var st := After(steps);
    TasksAlways(steps);
    assert Entry(st, id, d);
    FirstIsRecorded(st.tasks, st.recorded, id, d);
    Conservation(steps, id, d);
  }

  /** What reports say: there is one exactly for a live session whose token was presented for revocation, and it
      holds exactly what was recorded. */
  lemma {:induction false} ReportContents(steps: seq<Step>, id: SessionId)
    requires Run(steps)
    ensures var st := After(steps); var report := Report(st.sessions, id);
            && (report.Some? <==> id in st.sessions && EverRevoked(steps, id))
            && (report.Some? ==> forall d :: Reported(st, id, report.value, d))
  {
    if id in After(steps).sessions {
      RevokedIff(steps, id);
      forall d ensures Reported(After(steps), id, After(steps).sessions[id].artifacts, d) {
        DigestReported(steps, id, d);
      }
    }
  }

  /** Creating a session leaves every live one as it was, whatever id was asked for. */
  lemma {:induction false} CreationOverwritesNothing(steps: seq<Step>, step: Step)
    requires Run(steps) && step.Create? && Can(After(steps), step)
    ensures var st, st' := After(steps), Do(After(steps), step);
            && (forall id | id in st.sessions :: id in st'.sessions && st'.sessions[id] == st.sessions[id])
            && |st'.sessions| == |st.sessions| + 1
            && st'.total == |st'.ever|
  {
    var st := After(steps);
    BooksAlways(steps);
    BooksStep(st, step);
    CreateAddsOne(st, step);
    OneMore(st.sessions, CreatedId(st, step), NewSession(step.token, step.permissive));
  }

  lemma OneMore(m: Table, id: SessionId, s: SessionState)
    requires id !in m
    ensures |m[id := s]| == |m| + 1
  {
    assert m[id := s].Keys == m.Keys + {id};
  }

  /** A session leaves the table only through a Finish whose every write succeeded, and then its
      metadata files hold all its final artifacts; otherwise it stays live, unchanged. */
  lemma {:induction false} LeavingMeansFlushed(steps: seq<Step>, step: Step, id: SessionId)
    requires Run(steps) && Can(After(steps), step) && id in After(steps).sessions
    ensures var st, st' := After(steps), Do(After(steps), step);
            if id in st'.sessions then
              step.End? || step.Expire? ==> st'.sessions[id] == st.sessions[id]
            else
              && (step.End? || step.Expire?) && step.writes.good >= |step.writes.order| + 2
              && st'.ended[id] == st.sessions[id] && Flushed(st', id)
  {
    var st := After(steps);
    BooksAlways(steps);
    if step.End? {
      if step.id in st.sessions {
        FinishLeaves(st, step.id, step.writes, id);
      }
    } else if step.Expire? {
      if st.handling.value in st.sessions {
        FinishLeaves(st.(handling := None), st.handling.value, step.writes, id);
      }
    } else {
      StaysLive(st, step, id);
    }
  }

  lemma FinishLeaves(st: State, gone: SessionId, w: Writes, id: SessionId)
    requires gone in st.sessions && Permutes(w.order, st.sessions[gone].artifacts.Keys) && id in st.sessions
    ensures var st' := DoFinish(st, gone, w);
            if id in st'.sessions then st'.sessions[id] == st.sessions[id]
            else w.good >= |w.order| + 2 && id in st'.ended && st'.ended[id] == st.sessions[id] && Flushed(st', id)
  {
    FinishRemoves(st, gone, w);
    if w.good >= |w.order| + 2 {
      FinishFlushes(st, gone, w);
    }
  }

  lemma StaysLive(st: State, step: Step, id: SessionId)
    requires BooksInv(st) && Can(st, step) && !step.End? && !step.Expire? && id in st.sessions
    ensures id in Do(st, step).sessions
  {
    if step.Create? {
      CreateAddsOne(st, step);
    } else {
      SameFrame(st, step);
    }
  }

  /** In every reachable state, each session that is gone has its files written in full. */
  lemma {:induction false} GoneMeansFlushed(steps: seq<Step>, id: SessionId)
    requires Run(steps) && id in After(steps).ever && id !in After(steps).sessions
    ensures Flushed(After(steps), id)
  {
    BooksAlways(steps);
  }
}
