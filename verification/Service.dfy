/** The session objects and the dispatcher's handlers, each proved to take the matching step. */
module Service {
  import opened Basics
  import opened Opinions
  import opened Runner
  import opened Protocol
  import opened Interleavings

  const SECOND := 1_000_000_000
  const DEFAULT_TIMEOUT := 6 * 3600 * SECOND

  /** A timeout in seconds as a 64-bit duration, which wraps around. */
  function Duration(seconds: nat): int {
    var n := (seconds * SECOND) % 0x1_0000_0000_0000_0000;
    if n < 0x8000_0000_0000_0000 then n else n - 0x1_0000_0000_0000_0000
  }

  /** It is the number of nanoseconds when that fits, and otherwise the 64-bit number that agrees with it
      modulo 2^64. */
  lemma DurationWraps(seconds: nat, n: int)
    requires -0x8000_0000_0000_0000 <= n < 0x8000_0000_0000_0000
    ensures Duration(seconds) == n <==> exists k: int :: n == seconds * 1_000_000_000 + k * 0x1_0000_0000_0000_0000
  {
    var x, m := seconds * 1_000_000_000, 0x1_0000_0000_0000_0000;
    var d := Duration(seconds);
    assert d == x + (if x % m < 0x8000_0000_0000_0000 then -(x / m) else -(x / m) - 1) * m;
    if k: int :| n == x + k * m {
      assert n - d == (k + (if x % m < 0x8000_0000_0000_0000 then x / m else x / m + 1)) * m;
    }
  }

  class Session {
    const id: SessionId
    const token: string
    const permissive: bool
    const timeout: int // in nanoseconds
    var artifacts: map<Digest, Record>
    var revoked: bool
    var timerRunning: bool
    var done: nat // values in the timer's one-slot done channel

    constructor (id: SessionId, token: string, permissive: bool, timeout: int)
      ensures View() == NewSession(token, permissive)
      ensures this.id == id && this.timeout == timeout && done == 0 && timerRunning
    {
      this.id, this.token, this.permissive, this.timeout := id, token, permissive, timeout;
      artifacts, revoked, timerRunning, done := map[], false, true, 0;
    }

    ghost function View(): SessionState
      reads this
    {
      SessionState(token, permissive, artifacts, revoked)
    }

    predicate HasArtifact(d: Digest)
      reads this
    {
      d in artifacts
    }

    method AddArtifact(a: Record)
      modifies this`artifacts
      ensures View() == Protocol.AddArtifact(old(View()), a)
    {
      if a.digest !in artifacts {
        artifacts := artifacts[a.digest := a];
      }
    }

    method AddDownload(dl: Download)
      modifies this`artifacts
      ensures View() == Protocol.AddDownload(old(View()), dl)
    {
      if HasArtifact(dl.digest) {
        var a := artifacts[dl.digest];
        artifacts := artifacts[dl.digest := a.(downloads := a.downloads + [dl])];
      }
    }

    method ArtifactResult(d: Digest) returns (o: Opinion)
      ensures o == Protocol.ArtifactResult(View(), d)
    {
      if d !in artifacts {
        return Rejected;
      }
      return artifacts[d].result;
    }

    method Revoke(token: string) returns (ok: bool)
      modifies this`revoked
      ensures View() == RevokeToken(old(View()), token)
      ensures ok <==> token == this.token
    {
      if token != this.token {
        return false;
      }
      revoked := true;
      return true;
    }

    /** Cancel the timer: stop it and fill the done slot, which must be empty not to block. */
    method CancelTimer()
      requires done == 0
      modifies this`timerRunning, this`done
      ensures !timerRunning && done == 1
    {
      timerRunning := false;
      done := done + 1;
    }
  }

  /** A finish of session `id` with the writes `w` leads from one table to the other. */
  ghost predicate Finishes(before: Table, id: SessionId, w: Writes, after: Table) {
    && id in before && Permutes(w.order, before[id].artifacts.Keys)
    && after == if WritesAll(w) then before - {id} else before
  }

  /** The expiry step leads from one table to the other, whatever else the service holds. */
  ghost predicate Expires(before: Table, id: SessionId, w: Writes, after: Table) {
    forall st: State | st.sessions == before && st.handling == Some(id) ::
      Can(st, Expire(w)) && after == Do(st, Expire(w)).sessions
  }

  lemma EndTakes(before: Table, id: SessionId, w: Writes, after: Table)
    requires Finishes(before, id, w, after)
    ensures forall st: State | st.sessions == before :: Can(st, End(id, w)) && after == Do(st, End(id, w)).sessions
  {
  }

  lemma ExpireTakes(before: Table, id: SessionId, w: Writes, after: Table)
    requires if id in before then Finishes(before, id, w, after) else after == before
    ensures Expires(before, id, w, after)
  {
  }

  type Files = map<(SessionId, Digest), Record>

  /** The operations of a finish in the order of `w`: `w.good` of them succeed, and then one fails
      or all are done. */
  ghost predicate Got(w: Writes, disk: nat -> bool) {
    && (forall i: nat | i < w.good :: disk(i))
    && w.good <= |w.order| + 2 && (w.good < |w.order| + 2 ==> !disk(w.good))
  }

  /** The artifacts whose files are written by then. */
  ghost function Reached(w: Writes): seq<Digest> {
    w.order[..if w.good < |w.order| then w.good else |w.order|]
  }

  /** The only files that changed are those of session `id` for the digests `done`, which hold its artifacts. */
  ghost predicate Wrote(before: Files, after: Files, id: SessionId, artifacts: map<Digest, Record>, done: seq<Digest>) {
    && (forall k | k in before :: k in after)
    && (forall d | d in done :: (id, d) in after)
    && forall k | k in after ::
         if k.0 == id && k.1 in done then k.1 in artifacts && after[k] == artifacts[k.1]
         else k in before && after[k] == before[k]
  }

  lemma AllWritten(before: Files, after: Files, id: SessionId, artifacts: map<Digest, Record>, w: Writes)
    requires Permutes(w.order, artifacts.Keys) && w.good >= |w.order|
    requires Wrote(before, after, id, artifacts, Reached(w))
    ensures forall d | d in artifacts :: (id, d) in after && after[(id, d)] == artifacts[d]
  {
    assert Reached(w) == w.order;
    forall d | d in artifacts ensures d in w.order {
      assert d in (set e | e in w.order);
    }
  }

  /** Files of other sessions are not touched. */
  lemma OthersKept(before: Files, after: Files, id: SessionId, artifacts: map<Digest, Record>, done: seq<Digest>)
    requires Wrote(before, after, id, artifacts, done)
    ensures OthersFiles(after, id) == OthersFiles(before, id)
  {
  }

  lemma {:induction false} PermutesSize(order: seq<Digest>, keys: set<Digest>)
    requires Permutes(order, keys)
    ensures |order| == |keys|
  {
    if order != [] {
      var n := |order| - 1;
      var front, d := order[..n], order[n];
      assert forall e | e in order :: e in (set f | f in order);
      assert d in keys && d !in front;
      forall e ensures e in (set f | f in front) <==> e in keys - {d} {
        assert e in order <==> e == d || e in front by {
          assert order == front + [d];
        }
      }
      PermutesSize(front, keys - {d});
    } else {
      assert keys == {};
    }
  }

  class Service {
    var sessions: map<SessionId, Session>
    var totalSessions: nat
    var written: Files                            // artifact metadata files
    var reports: set<SessionId>                   // session.json files

    ghost predicate Valid()
      reads this`sessions, sessions.Values
    {
      forall id | id in sessions :: sessions[id].id == id && sessions[id].done == 0
    }

    ghost function Table(): Table
      reads this`sessions, sessions.Values
    {
      map id | id in sessions :: sessions[id].View()
    }

    constructor ()
      ensures Valid() && Table() == map[] && totalSessions == 0
    {
      sessions, totalSessions, written, reports := map[], 0, map[], {};
    }

    /** NewWithID: an id already in use is replaced by a generated one, and no timeout by the default. */
    method NewWithID(id: SessionId, generated: SessionId, token: string, timeout: int, permissive: bool)
      returns (s: Session)
      requires Valid() && generated !in sessions
      modifies this`sessions
      ensures Valid() && s.id in sessions && sessions[s.id] == s
      ensures s.id == (if id in old(sessions) then generated else id)
      ensures s.timeout == (if timeout == 0 then DEFAULT_TIMEOUT else timeout) && s.timerRunning
      ensures Table() == old(Table())[s.id := NewSession(token, permissive)]
    {
      var sid := id;
      if id in sessions {
        sid := generated;
      }
      var t := timeout;
      if timeout == 0 {
        t := DEFAULT_TIMEOUT;
      }
      s := new Session(sid, token, permissive, t);
      sessions := sessions[sid := s];
    }

    /** The dispatcher's part of a response inspection; no reply means the goroutine was started. */
    method HandleResponseInspection(a: Record, saved: bool, ghost st: State, ghost t: nat)
      returns (reply: Option<Reply>)
      requires Valid() && st.sessions == Table()
      requires t in st.tasks && st.tasks[t].a == a && st.tasks[t].sent == []
      modifies sessions.Values
      ensures Valid() && sessions == old(sessions)
      ensures Table() == DoRespond(st, t, saved).sessions
      ensures DoRespond(st, t, saved).tasks[t].sent == (if reply.Some? then [reply.value] else [])
      ensures reply.None? <==> DoRespond(st, t, saved).tasks[t].phase == Inspecting
      ensures reply == if a.sessionId !in sessions then Some(Err(InactiveSession))
                       else
                         var s := sessions[a.sessionId];
                         if a.digest in old(s.artifacts) then
                           Some(if s.permissive || old(s.artifacts)[a.digest].result != Rejected then Nil else Err(RejectedArtifact))
                         else if saved then None else Some(Err(NotSaved))
    {
      RespondCases(st, t, saved);
      var id := a.sessionId;
      if id !in sessions {
        return Some(Err(InactiveSession));
      }
      var s := sessions[id];
      if s.HasArtifact(a.digest) {
        reply := Reuse(s, a);
      } else if !saved {
        reply := Some(Err(NotSaved));
      } else {
        reply := None;
      }
    }

    /** The reuse path: record the download, and answer from the recorded verdict. */
    method Reuse(s: Session, a: Record) returns (reply: Option<Reply>)
      requires Valid() && s.id in sessions && sessions[s.id] == s
      modifies s`artifacts
      ensures Valid()
      ensures Table() == old(Table())[s.id := Protocol.AddDownload(old(s.View()), a.current)]
      ensures reply == Some(ReuseReply(old(s.View()), a.digest))
    {
      s.AddDownload(a.current);
      assert Table() == old(Table())[s.id := s.View()];
      var result := s.ArtifactResult(a.digest);
      assert result == Protocol.ArtifactResult(old(s.View()), a.digest);
      if !s.permissive && result == Rejected {
        return Some(Err(RejectedArtifact));
      } else {
        return Some(Nil);
      }
    }

    method HandleCompleteInspection(a: Record, ghost st: State, ghost t: nat) returns (reply: Reply)
      requires Valid() && st.sessions == Table()
      requires t in st.tasks && st.tasks[t].a == a && st.tasks[t].phase.Completing?
      modifies sessions.Values
      ensures Valid() && sessions == old(sessions)
      ensures Table() == DoComplete(st, t).sessions
      ensures DoComplete(st, t).tasks[t].phase.completion == reply
      ensures reply == if a.sessionId in sessions then Nil else Err(InactiveSession)
    {
      var id := a.sessionId;
      if id !in sessions {
        return Err(InactiveSession);
      }
      var s := sessions[id];
      if !s.HasArtifact(a.digest) {
        s.AddArtifact(a);
      }
      s.AddDownload(a.current);
      assert s.View() == CompleteOn(old(s.View()), a);
      assert Table() == old(Table())[id := s.View()];
      return Nil;
    }

    method HandleRevokeToken(id: SessionId, token: string) returns (reply: Reply)
      requires Valid()
      modifies sessions.Values
      ensures Valid() && sessions == old(sessions)
      ensures forall st: State | st.sessions == old(Table()) :: Table() == Do(st, Interleavings.Revoke(id, token)).sessions
      ensures reply == if id !in sessions then Err(SessionNotFound)
                       else if token != sessions[id].token then Err(InvalidToken) else Nil
    {
      if id !in sessions {
        return Err(SessionNotFound);
      }
      var s := sessions[id];
      var ok := s.Revoke(token);
      assert Table() == old(Table())[id := s.View()];
      if !ok {
        return Err(InvalidToken);
      }
      return Nil;
    }

    method HandleSessionReport(id: SessionId) returns (artifacts: map<Digest, Record>, reply: Reply)
      requires Valid()
      ensures reply == if id !in sessions then Err(SessionNotFound)
                       else if !sessions[id].revoked then Err(SessionActive) else Nil
      ensures artifacts == if id in sessions && sessions[id].revoked then sessions[id].artifacts else map[]
      ensures Report(Table(), id) == if reply == Nil then Some(artifacts) else None
    {
      if id !in sessions {
        return map[], Err(SessionNotFound);
      }
      if !sessions[id].revoked {
        return map[], Err(SessionActive);
      }
      return sessions[id].artifacts, Nil;
    }

    method CheckAuth(id: SessionId, pw: string) returns (ok: bool)
      requires Valid()
      ensures ok <==> Authorized(Table(), id, pw)
    {
      if id !in sessions {
        return false;
      }
      if sessions[id].revoked {
        return false;
      }
      if sessions[id].token != pw {
        return false;
      }
      return true;
    }

    /** Write every artifact's metadata, in whatever order the map yields it, up to the first
        failure. */
    method SaveAll(s: Session, disk: nat -> bool) returns (ok: bool, order: seq<Digest>, good: nat)
      modifies this`written
      ensures Permutes(order, s.artifacts.Keys) && good <= |order|
      ensures ok <==> good == |order|
      ensures (forall i: nat | i < good :: disk(i)) && (!ok ==> !disk(good))
      ensures Wrote(old(written), written, s.id, s.artifacts, order[..good])
    {
      order := AnyOrder(s.artifacts.Keys);
      good := 0;
      assert forall d | d in order :: d in (set e | e in order);
      while good < |order|
        invariant good <= |order|
        invariant forall i: nat | i < good :: disk(i)
        invariant Wrote(old(written), written, s.id, s.artifacts, order[..good])
      {
        if !disk(good) {
          return false, order, good;
        }
        assert order[..good + 1] == order[..good] + [order[good]];
        written := written[(s.id, order[good]) := s.artifacts[order[good]]];
        good := good + 1;
      }
      ok := true;
    }

    /** Write a session's files: the artifacts' metadata, session.json, and the cache clean-up. */
    method WriteFiles(s: Session, disk: nat -> bool) returns (ok: bool, ghost w: Writes)
      modifies this`written, this`reports
      ensures Permutes(w.order, s.artifacts.Keys) && Got(w, disk)
      ensures ok <==> w.good == |w.order| + 2
      ensures Wrote(old(written), written, s.id, s.artifacts, Reached(w))
      ensures reports == if w.good > |w.order| then old(reports) + {s.id} else old(reports)
    {
      var order, good;
      ok, order, good := SaveAll(s, disk);
      if ok {
        ok := disk(good);
        if ok {
          reports := reports + {s.id};
          good := good + 1;
          ok := disk(good);
          good := if ok then good + 1 else good;
        }
      }
      w := Writes(order, good);
    }

    /** Finish: stop the timer, write the session's files, and only then discard. `disk` says,
        operation by operation, what succeeds. */
    method Finish(s: Session, disk: nat -> bool) returns (ok: bool, ghost w: Writes)
      requires Valid() && s.id in sessions && sessions[s.id] == s
      modifies this`sessions, this`written, this`reports, s`timerRunning, s`done
      ensures Valid() && s.artifacts == old(s.artifacts)
      ensures Finishes(old(Table()), s.id, w, Table())
      ensures ok <==> forall i: nat | i < |s.artifacts| + 2 :: disk(i)
      ensures ok <==> WritesAll(w)
      ensures ok <==> s.id !in sessions
      ensures Got(w, disk)
      ensures Wrote(old(written), written, s.id, s.artifacts, Reached(w))
      ensures reports == if w.good > |w.order| then old(reports) + {s.id} else old(reports)
      ensures s.done == (if ok then 1 else 0) && !s.timerRunning
    {
      s.timerRunning := false;
      assert Table() == old(Table());
      ok, w := WriteFiles(s, disk);
      PermutesSize(w.order, s.artifacts.Keys);
      if !ok {
        return;
      }
      sessions := sessions - {s.id};
      s.CancelTimer();
      assert Table() == old(Table()) - {s.id};
    }

    /** Ending a session. An unknown id changes nothing. Otherwise the reply is nil, and the session gone with
        its timer cancelled and its files written, exactly when writing each artifact and session.json
        and cleaning up all succeed. */
    method HandleEndSession(id: SessionId, disk: nat -> bool) returns (reply: Reply, ghost w: Writes)
      requires Valid()
      modifies this, sessions.Values
      ensures Valid()
      ensures forall st: State | st.sessions == old(Table()) ::
                Can(st, End(id, w)) && Table() == Do(st, End(id, w)).sessions
      ensures id !in old(sessions) ==>
                && reply == Err(SessionNotFound) && Table() == old(Table())
                && written == old(written) && reports == old(reports)
      ensures id in old(sessions) ==>
                var s := old(sessions[id]); var all := forall i: nat | i < |old(s.artifacts)| + 2 :: disk(i);
                && reply == (if all then Nil else Err(NotWritten))
                && Table() == (if all then old(Table()) - {id} else old(Table()))
                && !s.timerRunning && s.done == (if all then 1 else 0)
                && Permutes(w.order, old(s.artifacts).Keys) && Got(w, disk)
                && Wrote(old(written), written, id, old(s.artifacts), Reached(w))
                && reports == (if w.good > |w.order| then old(reports) + {id} else old(reports))
                && (all ==> id in reports && forall d | d in old(s.artifacts) :: (id, d) in written && written[(id, d)] == old(s.artifacts)[d])
    {
      if id !in sessions {
        return Err(SessionNotFound), Writes([], 0);
      }
      var ok;
      ok, w := Finish(sessions[id], disk);
      EndTakes(old(Table()), id, w, Table());
      if ok {
        AllWritten(old(written), written, id, old(sessions[id].artifacts), w);
      }
      reply := if ok then Nil else Err(NotWritten);
    }

    /** Delete a session's directory, if the file system lets us: all it had written is gone. */
    method RemoveResources(id: SessionId, removes: bool)
      requires Valid()
      modifies this`written, this`reports
      ensures Valid() && Table() == old(Table())
      ensures reports == if removes then old(reports) - {id} else old(reports)
      ensures written == if removes then OthersFiles(old(written), id) else old(written)
    {
      if removes {
        written := OthersFiles(written, id);
        reports := reports - {id};
      }
    }

    /** The dispatcher's expiry step. A session already ended is passed over; otherwise it is finished,
        and its files are removed even when that failed, in which case the session stays. */
    method HandleExpired(id: SessionId, disk: nat -> bool, removes: bool) returns (ghost w: Writes)
      requires Valid()
      modifies this, sessions.Values
      ensures Valid()
      ensures Expires(old(Table()), id, w, Table())
      ensures id !in old(sessions) ==> Table() == old(Table()) && written == old(written) && reports == old(reports)
      ensures id in old(sessions) ==>
                var s := old(sessions[id]); var all := forall i: nat | i < |old(s.artifacts)| + 2 :: disk(i);
                && Table() == (if all then old(Table()) - {id} else old(Table()))
                && !s.timerRunning && s.done == (if all then 1 else 0)
                && Permutes(w.order, old(s.artifacts).Keys) && Got(w, disk)
                && (removes ==> reports == old(reports) - {id} && written == OthersFiles(old(written), id))
                && (!removes ==> Wrote(old(written), written, id, old(s.artifacts), Reached(w))
                                 && reports == if w.good > |w.order| then old(reports) + {id} else old(reports))
    {
      w := Writes([], 0);
      if id !in sessions {
        ExpireTakes(Table(), id, w, Table());
        return;
      }
      w := FinishExpired(id, disk);
      RemoveResources(id, removes);
    }

    method FinishExpired(id: SessionId, disk: nat -> bool) returns (ghost w: Writes)
      requires Valid() && id in sessions
      modifies this, sessions.Values
      ensures Valid()
      ensures Expires(old(Table()), id, w, Table())
      ensures var s := old(sessions[id]); var all := forall i: nat | i < |old(s.artifacts)| + 2 :: disk(i);
              && Table() == (if all then old(Table()) - {id} else old(Table()))
              && !s.timerRunning && s.done == (if all then 1 else 0)
              && Permutes(w.order, old(s.artifacts).Keys) && Got(w, disk)
              && Wrote(old(written), written, id, old(s.artifacts), Reached(w))
              && reports == if w.good > |w.order| then old(reports) + {id} else old(reports)
      ensures OthersFiles(written, id) == OthersFiles(old(written), id) && reports - {id} == old(reports) - {id}
    {
      var ok;
      ok, w := Finish(sessions[id], disk);
      OthersKept(old(written), written, id, old(sessions[id].artifacts), Reached(w));
      ExpireTakes(old(Table()), id, w, Table());
    }

    /** The dispatcher's part of a request inspection or of a deletion: it answers at once, or
        starts a goroutine that will. */
    method HandleAsk(kind: AskKind, id: SessionId, ghost st: State, ghost q: nat) returns (reply: Option<Reply>)
      requires Valid() && st.sessions == Table()
      requires q in st.asks && st.asks[q].kind == kind && st.asks[q].sessionId == id && st.asks[q].phase == Waiting
      ensures DoHandle(st, q).asks[q].phase == (if reply.Some? then Answered else Working)
      ensures DoHandle(st, q).asks[q].sent == st.asks[q].sent + (if reply.Some? then 1 else 0)
      ensures kind == RequestCheck ==> reply == if id in sessions then None else Some(Err(InactiveSession))
      ensures kind == Deletion ==> reply == if id in sessions then Some(Err(SessionNotFinished)) else None
    {
      match kind
      case RequestCheck => reply := if id !in sessions then Some(Err(InactiveSession)) else None;
      case Deletion => reply := if id in sessions then Some(Err(SessionNotFinished)) else None;
    }

    /** Creating a session: a permissive one only when the service allows it, and only with valid
        secrets; the total of sessions goes up. `fresh1` and `fresh2` are what the id generator yields. */
    method HandleCreateSession(wantsPermissive: bool, permissiveMode: bool, seconds: nat, validSecrets: bool,
                               fresh1: SessionId, fresh2: SessionId, token: string)
      returns (created: Option<(SessionId, string)>, ghost step: Step)
      requires Valid() && fresh2 !in sessions
      modifies this`sessions, this`totalSessions
      ensures Valid()
      ensures created.Some? <==> validSecrets && (wantsPermissive ==> permissiveMode)
      ensures created.None? ==> Table() == old(Table()) && totalSessions == old(totalSessions)
      ensures match created
              case None => true
              case Some((id, tok)) =>
                && id !in old(Table()) && tok == token && totalSessions == old(totalSessions) + 1
                && Table() == old(Table())[id := NewSession(token, wantsPermissive)]
                && id in sessions && sessions[id].timeout == (if Duration(seconds) == 0 then DEFAULT_TIMEOUT else Duration(seconds))
      ensures step == Create(Some(fresh1), fresh2, token, wantsPermissive)
      ensures created.Some? ==>
                forall st: State | st.sessions == old(Table()) && Can(st, step) && st.total == old(totalSessions) ::
                  Table() == Do(st, step).sessions && totalSessions == Do(st, step).total
    {
      step := Create(Some(fresh1), fresh2, token, wantsPermissive);
      created := None;
      if wantsPermissive && !permissiveMode {
        return;
      }
      var timeout := Duration(seconds);
      if !validSecrets {
        return;
      }
      var s := NewWithID(fresh1, fresh2, token, timeout, wantsPermissive);
      totalSessions := totalSessions + 1;
      created := Some((s.id, token));
    }
  }

  /** The metadata files of all sessions but one. */
  function OthersFiles(written: Files, id: SessionId): Files {
    map k | k in written && k.0 != id :: written[k]
  }

  lemma RespondCases(st: State, t: nat, saved: bool)
    requires t in st.tasks && st.tasks[t].sent == []
    ensures var task, st' := st.tasks[t], DoRespond(st, t, saved);
            var id := task.a.sessionId;
            if id !in st.sessions then
              st'.sessions == st.sessions && st'.tasks[t].sent == [Err(InactiveSession)]
              && st'.tasks[t].phase == Done(Inactive)
            else if task.a.digest in st.sessions[id].artifacts then
              st'.sessions == st.sessions[id := Protocol.AddDownload(st.sessions[id], task.a.current)]
              && st'.tasks[t].sent == [ReuseReply(st.sessions[id], task.a.digest)] && st'.tasks[t].phase == Done(Reused)
            else
              st'.sessions == st.sessions
              && (if saved then st'.tasks[t].sent == [] && st'.tasks[t].phase == Inspecting
                  else st'.tasks[t].sent == [Err(NotSaved)] && st'.tasks[t].phase == Done(Unsaved))
  {
    assert forall r: Reply :: [] + [r] == [r];
  }

  lemma PermuteOne(order: seq<Digest>, keys: set<Digest>, d: Digest)
    requires Permutes(order, keys) && d !in keys
    ensures Permutes(order + [d], keys + {d})
  {
    assert d !in (set e | e in order);
    assert (set e | e in order + [d]) == (set e | e in order) + {d};
  }

  /** The order in which a `range` over a map visits its keys: any will do. */
  method AnyOrder(keys: set<Digest>) returns (order: seq<Digest>)
    ensures Permutes(order, keys)
  {
    order := [];
    var todo := keys;
    while todo != {}
      invariant todo <= keys
      invariant Permutes(order, keys - todo)
      decreases |todo|
    {
      var d :| d in todo;
      PermuteOne(order, keys - todo, d);
      assert keys - (todo - {d}) == keys - todo + {d};
      order, todo := order + [d], todo - {d};
    }
    assert keys - todo == keys;
  }

  // The inspection goroutines

  method RunResponseInspection(a: Artifact, permissive: bool, kind: Option<string>, turns: seq<Turn>)
    returns (result: Opinion, reply: Reply)
    modifies a
    ensures a.View() == ArtifactRun(old(a.View()), permissive, kind, turns).0
    ensures (result, reply) == Evaluate(permissive, ArtifactRun(old(a.View()), permissive, kind, turns))
    ensures var approved :=
              && (forall k | k in a.request :: a.request[k].opinion != Rejected)
              && (exists k | k in a.request :: a.request[k].opinion == Pending)
              && (forall k | k in a.response :: a.response[k].opinion != Rejected)
              && (exists k | k in a.response :: a.response[k].opinion == Approved);
            var failed := kind == None || exists i | 0 <= i < |turns| :: FailsCalled(old(a.View()), permissive, turns[i]);
            && result == (if !failed && approved then Approved else Rejected)
            && reply == if failed then Err(InspectionFailed)
                        else if permissive || approved then Nil else Err(RejectedArtifact)
  {
    ResponseReplyIff(a.View(), permissive, kind, turns);
    var err := RunArtifactInspectors(a, permissive, kind, turns);
    if err.Some? {
      return Rejected, Err(InspectionFailed);
    }
    var approved := a.IsApproved();
    if !approved {
      result := Rejected;
      if !permissive {
        return result, Err(RejectedArtifact);
      }
    } else {
      result := Approved;
    }
    return result, Nil;
  }

  method RunRequestInspection(a: Artifact, permissive: bool, turns: seq<Turn>) returns (reply: Reply)
    modifies a
    ensures a.View() == RequestRun(old(a.View()), turns).0
    ensures reply == EvaluateRequest(permissive, RequestRun(old(a.View()), turns))
    ensures var failed := exists i | 0 <= i < |turns| :: turns[i].id != "default" && turns[i].outcome.error.Some?;
            var pending := (forall k | k in a.request :: a.request[k].opinion != Rejected)
                           && exists k | k in a.request :: a.request[k].opinion == Pending;
            reply == if failed then Err(InspectionFailed)
                     else if permissive || pending then Nil else Err(RejectedRequest)
  {
    RequestReplyIff(a.View(), permissive, turns);
    var err := RunRequestInspectors(a, turns);
    if err.Some? {
      return Err(InspectionFailed);
    }
    var pending := a.RequestPending();
    if !pending && !permissive {
      return Err(RejectedRequest);
    }
    return Nil;
  }
}
