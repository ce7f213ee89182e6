/** The whole way of a deb: the pipeline from request to bytes, with the apt inspectors of each
    session at work in its inspections. */
module AptDelivery {
  import opened Basics
  import opened Opinions
  import opened Runner
  import opened Protocol
  import opened Invariants
  import opened Guarantees
  import opened Spool
  import Interleavings
  import Pipeline
  import AptChain

  type Hash = string -> Digest

  /** The pipeline, and the state of the apt inspectors of each session. */
  datatype Joint = Joint(sys: Pipeline.System, chains: map<SessionId, AptChain.State>)

  const BOOT := Joint(Pipeline.BOOT, map[])

  datatype Move = Pipe(m: Pipeline.Move) | Apt(id: SessionId, step: AptChain.Step)

  function ChainOf(j: Joint, id: SessionId): AptChain.State {
    if id in j.chains then j.chains[id] else AptChain.START
  }

  /** The inspectors have run over the task. */
  predicate Ran(phase: Interleavings.Phase) {
    phase.Completing? || phase.Completed? || (phase.Done? && (phase.how == Interleavings.Kept || phase.how == Interleavings.Lost))
  }

  /** The task's findings are those its download ended with past the apt inspectors. */
  ghost predicate Matches(chain: AptChain.State, t: nat, a: Record) {
    && AptChain.AtStage(chain, t, AptChain.PastDeb)
    && chain.flights[t].f == a.findings && chain.flights[t].s.digest == a.digest && chain.flights[t].s.size == a.size
  }

  /** Inspection `t` of session `id` is with the inspectors, and its download is the one that flies
      under its number in the session's chain. */
  predicate AtWork(st: Interleavings.State, chain: AptChain.State, id: SessionId, t: nat) {
    && t in st.tasks && st.tasks[t].phase == Interleavings.Inspecting && st.tasks[t].a.sessionId == id
    && t in chain.flights && chain.flights[t].s.digest == st.tasks[t].a.digest
  }

  /** An inspection ends with the findings of its download. The request opinions may be there before
      the inspection starts; the inspectors work on the download only while it is under way. Downloads
      go by the number of their task. */
  ghost predicate CanMove(c: AptChain.Config, j: Joint, m: Move)
    requires Interleavings.Run(j.sys.service)
  {
    match m
    case Pipe(p) =>
      && Pipeline.Can(j.sys, p)
      && (p.Serve? && p.step.Inspect? ==>
            var task := Interleavings.Do(Pipeline.Now(j.sys), p.step).tasks[p.step.t];
            Matches(ChainOf(j, task.a.sessionId), p.step.t, task.a))
    case Apt(id, step) =>
      && AptChain.Can(c, ChainOf(j, id), step)
      && (if step.Arrive? then step.id in Pipeline.Now(j.sys).tasks ==> !Ran(Pipeline.Now(j.sys).tasks[step.id].phase)
          else AtWork(Pipeline.Now(j.sys), ChainOf(j, id), id, step.id))
  }

  ghost function Moved(c: AptChain.Config, j: Joint, m: Move, sha256: Hash): Joint
    requires Interleavings.Run(j.sys.service) && CanMove(c, j, m)
  {
    match m
    case Pipe(p) => j.(sys := Pipeline.Do(j.sys, p, sha256))
    case Apt(id, step) => Flown(c, j, id, step)
  }

  ghost predicate TaskMatches(j: Joint, t: nat, task: Interleavings.Task) {
    Ran(task.phase) ==> Matches(ChainOf(j, task.a.sessionId), t, task.a)
  }

  ghost predicate ChainsInv(c: AptChain.Config, j: Joint) {
    forall id | id in j.chains :: AptChain.Inv(c, j.chains[id])
  }

  ghost predicate MatchInv(j: Joint, tasks: Tasks) {
    forall t | t in tasks :: TaskMatches(j, t, tasks[t])
  }

  ghost predicate Inv(c: AptChain.Config, j: Joint, sha256: Hash) {
    Pipeline.Inv(j.sys, sha256) && ChainsInv(c, j) && MatchInv(j, Pipeline.Now(j.sys).tasks)
  }

  /** A step leaves an inspection whose inspectors have run alone, but for its own run. */
  lemma RanBefore(st: Interleavings.State, step: Interleavings.Step, t: nat)
    requires Interleavings.Can(st, step) && t in Interleavings.Do(st, step).tasks && Ran(Interleavings.Do(st, step).tasks[t].phase)
    requires !(step.Inspect? && step.t == t)
    ensures t in st.tasks && Ran(st.tasks[t].phase) && st.tasks[t].a == Interleavings.Do(st, step).tasks[t].a
  {
    if TaskStep(step) {
      if step.Submit? {
      } else if step.t != t {
        OtherTaskFrame(st, step);
      } else if step.Respond? {
        RespondEnds(st, t, step.saved);
      }
    } else {
      NoTaskFrame(st, step);
    }
  }

  lemma RespondEnds(st: Interleavings.State, t: nat, saved: bool)
    requires Interleavings.Can(st, Interleavings.Respond(t, saved))
    ensures !Ran(Interleavings.DoRespond(st, t, saved).tasks[t].phase)
  {
  }

  /** The step of the service in a move of the pipeline, if any. */
  ghost function StepIn(sys: Pipeline.System, p: Pipeline.Move): Option<Interleavings.Step>
    requires Interleavings.Run(sys.service) && Pipeline.Can(sys, p)
  {
    match p
    case Serve(step) => Some(step)
    case Respond(t, disk) =>
      var st := Pipeline.Now(sys);
      var ok := if Pipeline.Saves(st, t) then Save(sys.files, Temp(t), Pipeline.Home(st.tasks[t].a), disk).1 else true;
      Some(Interleavings.Respond(t, ok))
    case Ask(t) => Some(Interleavings.Submit(t, sys.clients[t].a))
    case _ => None
  }

  lemma ServiceMoves(sys: Pipeline.System, p: Pipeline.Move, sha256: Hash)
    requires Pipeline.Inv(sys, sha256) && Pipeline.Can(sys, p)
    ensures var next := Pipeline.Do(sys, p, sha256);
            match StepIn(sys, p)
            case None => next.service == sys.service
            case Some(s) => Interleavings.Can(Pipeline.Now(sys), s) && next.service == sys.service + [s]
  {
    if p.Ask? {
      assert Pipeline.ClientInv(sys, p.t, sha256);
    }
  }

  /** What a step of the service leaves, for the tasks whose inspectors have run. */
  lemma StepTask(j: Joint, st: Interleavings.State, step: Interleavings.Step, t: nat)
    requires Interleavings.Can(st, step) && t in Interleavings.Do(st, step).tasks
    requires MatchInv(j, st.tasks)
    requires step.Inspect? ==>
               var task := Interleavings.Do(st, step).tasks[step.t];
               Matches(ChainOf(j, task.a.sessionId), step.t, task.a)
    ensures TaskMatches(j, t, Interleavings.Do(st, step).tasks[t])
  {
    if Ran(Interleavings.Do(st, step).tasks[t].phase) && !(step.Inspect? && step.t == t) {
      RanBefore(st, step, t);
      assert TaskMatches(j, t, st.tasks[t]);
    }
  }

  lemma PipeTasks(j: Joint, p: Pipeline.Move, sha256: Hash)
    requires Pipeline.Inv(j.sys, sha256) && Pipeline.Can(j.sys, p) && MatchInv(j, Pipeline.Now(j.sys).tasks)
    requires p.Serve? && p.step.Inspect? ==>
               var task := Interleavings.Do(Pipeline.Now(j.sys), p.step).tasks[p.step.t];
               Matches(ChainOf(j, task.a.sessionId), p.step.t, task.a)
    requires Interleavings.Run(Pipeline.Do(j.sys, p, sha256).service)
    ensures MatchInv(j, Pipeline.Now(Pipeline.Do(j.sys, p, sha256)).tasks)
  {
    ServiceMoves(j.sys, p, sha256);
    var step, st := StepIn(j.sys, p), Pipeline.Now(j.sys);
    if step.Some? {
      Pipeline.ServiceStep(j.sys, step.value);
      assert step.value.Inspect? ==> p == Pipeline.Serve(step.value);
      StepTasks(j, st, step.value);
    }
  }

  lemma StepTasks(j: Joint, st: Interleavings.State, step: Interleavings.Step)
    requires Interleavings.Can(st, step) && MatchInv(j, st.tasks)
    requires step.Inspect? ==>
               var task := Interleavings.Do(st, step).tasks[step.t];
               Matches(ChainOf(j, task.a.sessionId), step.t, task.a)
    ensures MatchInv(j, Interleavings.Do(st, step).tasks)
  {
    forall t | t in Interleavings.Do(st, step).tasks ensures TaskMatches(j, t, Interleavings.Do(st, step).tasks[t]) {
      StepTask(j, st, step, t);
    }
  }

  lemma SameChains(j: Joint, next: Joint, tasks: Tasks)
    requires next.chains == j.chains && MatchInv(j, tasks)
    ensures MatchInv(next, tasks)
  {
    forall t | t in tasks ensures TaskMatches(next, t, tasks[t]) {
      assert TaskMatches(j, t, tasks[t]);
    }
  }

  lemma PipeKeeps(c: AptChain.Config, j: Joint, p: Pipeline.Move, sha256: Hash)
    requires Inv(c, j, sha256) && CanMove(c, j, Pipe(p))
    ensures Inv(c, Moved(c, j, Pipe(p), sha256), sha256)
  {
    var next := Moved(c, j, Pipe(p), sha256);
    Pipeline.MoveKeeps(j.sys, p, sha256);
    PipeTasks(j, p, sha256);
    SameChains(j, next, Pipeline.Now(next.sys).tasks);
  }

  /** Apt steps leave every other download alone. */
  lemma OtherFlights(c: AptChain.Config, chain: AptChain.State, step: AptChain.Step, t: nat)
    requires AptChain.Can(c, chain, step) && t != step.id
    ensures var after := AptChain.After(c, chain, step);
            (t in after.flights <==> t in chain.flights) && (t in chain.flights ==> after.flights[t] == chain.flights[t])
  {
  }

  lemma AptTask(c: AptChain.Config, j: Joint, id: SessionId, step: AptChain.Step, t: nat, task: Interleavings.Task)
    requires AptChain.Can(c, ChainOf(j, id), step) && TaskMatches(j, t, task) && (t == step.id ==> !Ran(task.phase))
    ensures TaskMatches(Flown(c, j, id, step), t, task)
  {
    if t != step.id {
      OtherFlights(c, ChainOf(j, id), step, t);
    }
  }

  lemma AptChainsKeep(c: AptChain.Config, j: Joint, id: SessionId, step: AptChain.Step)
    requires ChainsInv(c, j) && AptChain.Can(c, ChainOf(j, id), step)
    ensures ChainsInv(c, Flown(c, j, id, step))
  {
    AptChain.Always(c, []);
    AptChain.StepKeeps(c, ChainOf(j, id), step);
  }

  function Flown(c: AptChain.Config, j: Joint, id: SessionId, step: AptChain.Step): Joint
    requires AptChain.Can(c, ChainOf(j, id), step)
  {
    j.(chains := j.chains[id := AptChain.After(c, ChainOf(j, id), step)])
  }

  lemma AptTasks(c: AptChain.Config, j: Joint, id: SessionId, step: AptChain.Step, tasks: Tasks)
    requires AptChain.Can(c, ChainOf(j, id), step) && MatchInv(j, tasks) && (step.id in tasks ==> !Ran(tasks[step.id].phase))
    ensures MatchInv(Flown(c, j, id, step), tasks)
  {
    forall t | t in tasks ensures TaskMatches(Flown(c, j, id, step), t, tasks[t]) {
      AptTask(c, j, id, step, t, tasks[t]);
    }
  }

  lemma AptKeeps(c: AptChain.Config, j: Joint, id: SessionId, step: AptChain.Step, sha256: Hash)
    requires Inv(c, j, sha256) && CanMove(c, j, Apt(id, step))
    ensures Inv(c, Moved(c, j, Apt(id, step), sha256), sha256)
  {
    AptChainsKeep(c, j, id, step);
    AptTasks(c, j, id, step, Pipeline.Now(j.sys).tasks);
  }

  /** Where the moves lead, if each of them is possible in its turn. */
  ghost function Target(c: AptChain.Config, from: Joint, moves: seq<Move>, sha256: Hash): Option<Joint>
    decreases |moves|
  {
    if moves == [] then Some(from)
    else if Interleavings.Run(from.sys.service) && CanMove(c, from, moves[0])
      then Target(c, Moved(c, from, moves[0], sha256), moves[1..], sha256)
    else None
  }

  ghost predicate Leads(c: AptChain.Config, from: Joint, moves: seq<Move>, to: Joint, sha256: Hash) {
    Target(c, from, moves, sha256) == Some(to)
  }

  lemma {:induction false} LeadsKeeps(c: AptChain.Config, from: Joint, moves: seq<Move>, to: Joint, sha256: Hash)
    requires Inv(c, from, sha256) && Leads(c, from, moves, to, sha256)
    ensures Inv(c, to, sha256)
    decreases |moves|
  {
    if moves != [] {
      match moves[0] {
        case Pipe(p) => PipeKeeps(c, from, p, sha256);
        case Apt(id, step) => AptKeeps(c, from, id, step, sha256);
      }
      LeadsKeeps(c, Moved(c, from, moves[0], sha256), moves[1..], to, sha256);
    }
  }

  lemma Reached(c: AptChain.Config, moves: seq<Move>, j: Joint, sha256: Hash)
    requires Leads(c, BOOT, moves, j, sha256)
    ensures Inv(c, j, sha256)
  {
    Pipeline.ReachableInv([], Pipeline.BOOT, sha256);
    LeadsKeeps(c, BOOT, moves, j, sha256);
  }

  /** The download of task `f` is chained, in the session it belongs to. */
  ghost predicate ChainedDownload(c: AptChain.Config, j: Joint, f: nat, a: Record) {
    && f in ChainOf(j, a.sessionId).flights
    && ChainOf(j, a.sessionId).flights[f].s.digest == a.digest && ChainOf(j, a.sessionId).flights[f].s.size == a.size
    && AptChain.Chained(c, ChainOf(j, a.sessionId), ChainOf(j, a.sessionId).flights[f].s)
  }

  lemma ApprovedDebChained(c: AptChain.Config, j: Joint, f: nat, sha256: Hash)
    requires Inv(c, j, sha256) && f in Pipeline.Now(j.sys).tasks && Ran(Pipeline.Now(j.sys).tasks[f].phase)
    requires ArtifactApproved(Pipeline.Now(j.sys).tasks[f].a.findings) && AptChain.DebApproved(Pipeline.Now(j.sys).tasks[f].a.findings)
    ensures ChainedDownload(c, j, f, Pipeline.Now(j.sys).tasks[f].a)
  {
    var task := Pipeline.Now(j.sys).tasks[f];
    var chain := ChainOf(j, task.a.sessionId);
    assert TaskMatches(j, f, task);
    assert AptChain.Inv(c, chain);
    assert AptChain.FlightInv(c, chain, chain.flights[f]);
  }

  /** The whole way: in a strict session a client that has received bytes has received a prefix of
      content with the digest of its artifact, of which some completed inspection in the session was
      approved; and if the deb inspector was among those who approved it, that download is chained:
      a Packages file of its origin lists it, and a verified InRelease lists that Packages file. */
  lemma DebDelivered(c: AptChain.Config, moves: seq<Move>, j: Joint, t: nat, sha256: Hash)
    requires Leads(c, BOOT, moves, j, sha256)
    requires t in j.sys.clients && j.sys.clients[t].race.copied != ""
    ensures Interleavings.Run(j.sys.service) && t in Pipeline.Now(j.sys).tasks
    ensures var client, st := j.sys.clients[t], Pipeline.Now(j.sys);
            && client.race.copied <= client.race.content && sha256(client.race.content) == client.a.digest
            && (!st.tasks[t].permissive ==>
                  exists f :: ApprovedBy(st, t, f)
                              && (AptChain.DebApproved(st.tasks[f].a.findings) ==> ChainedDownload(c, j, f, st.tasks[f].a)))
  {
    Reached(c, moves, j, sha256);
    Pipeline.BytesApproved(j.sys, t, sha256);
    var st := Pipeline.Now(j.sys);
    if !st.tasks[t].permissive {
      var f :| ApprovedBy(st, t, f);
      if AptChain.DebApproved(st.tasks[f].a.findings) {
        ApprovedDebChained(c, j, f, sha256);
      }
    }
  }
}
