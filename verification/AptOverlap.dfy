/** When the chain of trust stays within one repository: whenever no two inspections of one digest are
    under way in a session at the same time, because then the inspectors see each digest once. */
module AptOverlap {
  import opened Basics
  import opened Opinions
  import opened Protocol
  import opened Invariants
  import opened Overlap
  import opened AptDelivery
  import Guarantees
  import Interleavings
  import Pipeline
  import AptChain

  /** Packages file `x` was recorded in the inspection of task `t`. */
  ghost predicate Recorder(chain: AptChain.State, tasks: Tasks, id: SessionId, x: AptChain.Subject, t: nat) {
    && t in chain.flights && chain.flights[t].s == x
    && t in tasks && Started(tasks[t].phase) && tasks[t].a.sessionId == id && tasks[t].a.digest == x.digest
  }

  ghost predicate Recorded(chain: AptChain.State, tasks: Tasks, id: SessionId, x: AptChain.Subject) {
    exists t: nat :: Recorder(chain, tasks, id, x, t)
  }

  ghost predicate ChainRecorded(chain: AptChain.State, tasks: Tasks, id: SessionId) {
    forall k | 0 <= k < |chain.indexed| :: Recorded(chain, tasks, id, chain.indexed[k])
  }

  ghost predicate RecordersInv(j: Joint, tasks: Tasks) {
    forall id | id in j.chains :: ChainRecorded(j.chains[id], tasks, id)
  }

  /** Tasks only go on: a started inspection stays one, of the same digest and session. */
  ghost predicate TasksGoOn(tasks: Tasks, next: Tasks) {
    forall t | t in tasks && Started(tasks[t].phase) :: t in next && Started(next[t].phase) && SameFile(tasks[t], next[t])
  }

  lemma TasksGoOnRecorded(chain: AptChain.State, tasks: Tasks, next: Tasks, id: SessionId)
    requires TasksGoOn(tasks, next) && ChainRecorded(chain, tasks, id)
    ensures ChainRecorded(chain, next, id)
  {
    forall k | 0 <= k < |chain.indexed| ensures Recorded(chain, next, id, chain.indexed[k]) {
      var t: nat :| Recorder(chain, tasks, id, chain.indexed[k], t);
      assert Recorder(chain, next, id, chain.indexed[k], t);
    }
  }

  /** An apt step keeps every download's subject, and only the packages inspector records one: that of
      the download it works on. */
  lemma FlightsStay(c: AptChain.Config, chain: AptChain.State, step: AptChain.Step)
    requires AptChain.Can(c, chain, step)
    ensures var next := AptChain.After(c, chain, step);
            && (forall t | t in chain.flights :: t in next.flights && next.flights[t].s == chain.flights[t].s)
            && (next.indexed == chain.indexed || (step.RunPackages? && next.indexed == chain.indexed + [chain.flights[step.id].s]))
  {
  }

  lemma StepRecorded(c: AptChain.Config, chain: AptChain.State, tasks: Tasks, id: SessionId, step: AptChain.Step)
    requires AptChain.Can(c, chain, step) && ChainRecorded(chain, tasks, id)
    requires step.Arrive? || Recorder(chain, tasks, id, chain.flights[step.id].s, step.id)
    ensures ChainRecorded(AptChain.After(c, chain, step), tasks, id)
  {
    var next := AptChain.After(c, chain, step);
    FlightsStay(c, chain, step);
    forall k | 0 <= k < |next.indexed| ensures Recorded(next, tasks, id, next.indexed[k]) {
      if k < |chain.indexed| {
        var t: nat :| Recorder(chain, tasks, id, chain.indexed[k], t);
        assert Recorder(next, tasks, id, next.indexed[k], t);
      } else {
        assert Recorder(next, tasks, id, next.indexed[k], step.id);
      }
    }
  }

  lemma AptRecorded(c: AptChain.Config, j: Joint, id: SessionId, step: AptChain.Step, st: Interleavings.State)
    requires AptChain.Can(c, ChainOf(j, id), step) && RecordersInv(j, st.tasks)
    requires !step.Arrive? ==> AtWork(st, ChainOf(j, id), id, step.id)
    ensures RecordersInv(Flown(c, j, id, step), st.tasks)
  {
    StepRecorded(c, ChainOf(j, id), st.tasks, id, step);
  }

  lemma ServiceGoesOn(st: Interleavings.State, step: Interleavings.Step)
    requires Interleavings.Can(st, step)
    ensures TasksGoOn(st.tasks, Interleavings.Do(st, step).tasks)
  {
    forall t | t in st.tasks && Started(st.tasks[t].phase)
      ensures t in Interleavings.Do(st, step).tasks && Started(Interleavings.Do(st, step).tasks[t].phase)
              && SameFile(st.tasks[t], Interleavings.Do(st, step).tasks[t])
    {
      StartedStays(st, step, t);
    }
  }

  lemma PipeGoesOn(sys: Pipeline.System, p: Pipeline.Move, sha256: Hash)
    requires Pipeline.Inv(sys, sha256) && Pipeline.Can(sys, p) && Interleavings.Run(Pipeline.Do(sys, p, sha256).service)
    ensures TasksGoOn(Pipeline.Now(sys).tasks, Pipeline.Now(Pipeline.Do(sys, p, sha256)).tasks)
  {
    ServiceMoves(sys, p, sha256);
    var step := StepIn(sys, p);
    if step.Some? {
      Pipeline.ServiceStep(sys, step.value);
      ServiceGoesOn(Pipeline.Now(sys), step.value);
    }
  }

  lemma PipeRecorded(j: Joint, next: Joint, tasks: Tasks, tasks': Tasks)
    requires RecordersInv(j, tasks) && next.chains == j.chains && TasksGoOn(tasks, tasks')
    ensures RecordersInv(next, tasks')
  {
    forall id | id in next.chains ensures ChainRecorded(next.chains[id], tasks', id) {
      TasksGoOnRecorded(j.chains[id], tasks, tasks', id);
    }
  }

  lemma MoveRecorded(c: AptChain.Config, j: Joint, m: Move, sha256: Hash)
    requires Inv(c, j, sha256) && CanMove(c, j, m) && RecordersInv(j, Pipeline.Now(j.sys).tasks)
    ensures Inv(c, Moved(c, j, m, sha256), sha256)
    ensures RecordersInv(Moved(c, j, m, sha256), Pipeline.Now(Moved(c, j, m, sha256).sys).tasks)
  {
    match m
    case Pipe(p) =>
      PipeKeeps(c, j, p, sha256);
      PipeGoesOn(j.sys, p, sha256);
      PipeRecorded(j, Moved(c, j, m, sha256), Pipeline.Now(j.sys).tasks, Pipeline.Now(Moved(c, j, m, sha256).sys).tasks);
    case Apt(id, step) =>
      AptKeeps(c, j, id, step, sha256);
      AptRecorded(c, j, id, step, Pipeline.Now(j.sys));
  }

  lemma {:induction false} RecordedAlways(c: AptChain.Config, from: Joint, moves: seq<Move>, to: Joint, sha256: Hash)
    requires Inv(c, from, sha256) && RecordersInv(from, Pipeline.Now(from.sys).tasks) && Leads(c, from, moves, to, sha256)
    ensures Inv(c, to, sha256) && RecordersInv(to, Pipeline.Now(to.sys).tasks)
    decreases |moves|
  {
    if moves != [] {
      MoveRecorded(c, from, moves[0], sha256);
      RecordedAlways(c, Moved(c, from, moves[0], sha256), moves[1..], to, sha256);
    }
  }

  lemma ReachedRecorded(c: AptChain.Config, moves: seq<Move>, j: Joint, sha256: Hash)
    requires Leads(c, BOOT, moves, j, sha256)
    ensures Inv(c, j, sha256) && RecordersInv(j, Pipeline.Now(j.sys).tasks)
  {
    Pipeline.ReachableInv([], Pipeline.BOOT, sha256);
    RecordedAlways(c, BOOT, moves, j, sha256);
  }

  /** Inspected once each, every digest was recorded from one repository. */
  lemma OnceIsOneRepository(c: AptChain.Config, chain: AptChain.State, st: Interleavings.State, id: SessionId)
    requires ChainRecorded(chain, st.tasks, id) && OnceEach(st)
    ensures AptChain.OneRepositoryEach(c, chain)
  {
    forall k, l | 0 <= k < |chain.indexed| && 0 <= l < |chain.indexed| && chain.indexed[k].digest == chain.indexed[l].digest
      ensures chain.indexed[k] == chain.indexed[l]
    {
      assert Recorded(chain, st.tasks, id, chain.indexed[k]) && Recorded(chain, st.tasks, id, chain.indexed[l]);
      var t: nat :| Recorder(chain, st.tasks, id, chain.indexed[k], t);
      var u: nat :| Recorder(chain, st.tasks, id, chain.indexed[l], u);
      assert SameFile(st.tasks[t], st.tasks[u]);
    }
  }

  /** In every run without overlapping inspections of one digest, each session recorded every digest of
      a Packages file from one repository. */
  lemma ApartIsOneRepository(c: AptChain.Config, moves: seq<Move>, j: Joint, id: SessionId, sha256: Hash)
    requires Leads(c, BOOT, moves, j, sha256) && Interleavings.Run(j.sys.service) && AlwaysApart(j.sys.service)
    ensures AptChain.OneRepositoryEach(c, ChainOf(j, id))
  {
    ReachedRecorded(c, moves, j, sha256);
    OnceIffApart(j.sys.service);
    OnceIsOneRepository(c, ChainOf(j, id), Pipeline.Now(j.sys), id);
  }

  /** The download of task `f` is chained within one repository, in the session it belongs to. */
  ghost predicate DownloadInOne(c: AptChain.Config, j: Joint, f: nat, a: Record) {
    && f in ChainOf(j, a.sessionId).flights
    && ChainOf(j, a.sessionId).flights[f].s.digest == a.digest && ChainOf(j, a.sessionId).flights[f].s.size == a.size
    && AptChain.ChainedInOne(c, ChainOf(j, a.sessionId), ChainOf(j, a.sessionId).flights[f].s)
  }

  lemma InOne(c: AptChain.Config, moves: seq<Move>, j: Joint, f: nat, a: Record, sha256: Hash)
    requires Leads(c, BOOT, moves, j, sha256) && Interleavings.Run(j.sys.service) && AlwaysApart(j.sys.service)
    requires ChainedDownload(c, j, f, a)
    ensures DownloadInOne(c, j, f, a)
  {
    ApartIsOneRepository(c, moves, j, a.sessionId, sha256);
    AptChain.ChainInOne(c, ChainOf(j, a.sessionId), ChainOf(j, a.sessionId).flights[f].s);
  }

  /** The whole way within one repository: when no two inspections of one digest were ever under way in
      a session at once, a client of a strict session that has received bytes has them from an approved
      inspection, and if the deb inspector was among those who approved it, a Packages file of its origin
      lists it, and a verified InRelease of the very repository that Packages file came from lists that. */
  lemma DeliveredInOne(c: AptChain.Config, moves: seq<Move>, j: Joint, t: nat, sha256: Hash)
    requires Leads(c, BOOT, moves, j, sha256) && Interleavings.Run(j.sys.service) && AlwaysApart(j.sys.service)
    requires t in j.sys.clients && j.sys.clients[t].race.copied != ""
    ensures t in Pipeline.Now(j.sys).tasks
    ensures var st := Pipeline.Now(j.sys);
            !st.tasks[t].permissive ==>
              exists f :: Guarantees.ApprovedBy(st, t, f)
                          && (AptChain.DebApproved(st.tasks[f].a.findings) ==> DownloadInOne(c, j, f, st.tasks[f].a))
  {
    DebDelivered(c, moves, j, t, sha256);
    var st := Pipeline.Now(j.sys);
    if !st.tasks[t].permissive {
      var f :| Guarantees.ApprovedBy(st, t, f)
               && (AptChain.DebApproved(st.tasks[f].a.findings) ==> ChainedDownload(c, j, f, st.tasks[f].a));
      if AptChain.DebApproved(st.tasks[f].a.findings) {
        InOne(c, moves, j, f, st.tasks[f].a, sha256);
      }
    }
  }
}
