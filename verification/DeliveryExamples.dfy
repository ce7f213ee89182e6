/** Runs of the joint system up to the bytes of a deb at the client: one within one repository, and one
    in which the chain of trust crosses repositories because two inspections of one digest overlap. */
module DeliveryExamples {
  import opened Basics
  import opened Opinions
  import opened Protocol
  import opened Runner
  import opened Spool
  import opened Overlap
  import opened AptDelivery
  import opened AptExamples
  import opened DownloadExample
  import AptChain
  import AptOverlap
  import AptPackages
  import DebPackage
  import Interleavings
  import Pipeline
  import Race
  import Release = AptRelease

  type Config = AptChain.Config

  // Sequences of moves

  lemma {:induction false} JointTwice(c: Config, a: Joint, m: seq<Move>, n: seq<Move>, sha256: AptDelivery.Hash)
    requires AptDelivery.Target(c, a, m, sha256).Some?
    ensures AptDelivery.Target(c, a, m + n, sha256) == AptDelivery.Target(c, AptDelivery.Target(c, a, m, sha256).value, n, sha256)
    decreases |m|
  {
    if m == [] {
      assert m + n == n;
    } else {
      assert (m + n)[1..] == m[1..] + n;
      JointTwice(c, Moved(c, a, m[0], sha256), m[1..], n, sha256);
    }
  }

  lemma Then(c: Config, a: Joint, m: seq<Move>, b: Joint, n: seq<Move>, d: Joint, sha256: AptDelivery.Hash)
    requires AptDelivery.Leads(c, a, m, b, sha256) && AptDelivery.Leads(c, b, n, d, sha256)
    ensures AptDelivery.Leads(c, a, m + n, d, sha256)
  {
    JointTwice(c, a, m, n, sha256);
  }

  lemma Once(c: Config, a: Joint, m: Move, sha256: AptDelivery.Hash)
    requires Interleavings.Run(a.sys.service) && CanMove(c, a, m)
    ensures AptDelivery.Leads(c, a, [m], Moved(c, a, m, sha256), sha256)
  {
    assert [m][1..] == [];
  }

  function Lift(ps: seq<Pipeline.Move>): seq<Move> {
    if ps == [] then [] else [Pipe(ps[0])] + Lift(ps[1..])
  }

  predicate NoInspect(ps: seq<Pipeline.Move>) {
    forall i | 0 <= i < |ps| :: !(ps[i].Serve? && ps[i].step.Inspect?)
  }

  /** Moves of the pipeline that end no inspection are moves of the joint system. */
  lemma {:induction false} Lifts(c: Config, j: Joint, ps: seq<Pipeline.Move>, to: Pipeline.System, sha256: AptDelivery.Hash)
    requires Pipeline.Leads(j.sys, ps, to, sha256) && NoInspect(ps)
    ensures AptDelivery.Leads(c, j, Lift(ps), j.(sys := to), sha256)
    decreases |ps|
  {
    if ps != [] {
      var next := j.(sys := Pipeline.Do(j.sys, ps[0], sha256));
      Lifts(c, next, ps[1..], to, sha256);
      assert Lift(ps)[1..] == Lift(ps[1..]);
    }
  }

  function LiftApt(id: SessionId, steps: seq<AptChain.Step>): seq<Move> {
    if steps == [] then [] else [Apt(id, steps[0])] + LiftApt(id, steps[1..])
  }

  lemma PutTwice<K, V>(m: map<K, V>, k: K, x: V, y: V)
    ensures m[k := x][k := y] == m[k := y]
  {
  }

  function With(j: Joint, id: SessionId, chain: AptChain.State): Joint {
    j.(chains := j.chains[id := chain])
  }

  /** The inspectors' work on a download whose inspection is under way. */
  lemma {:induction false} Flies(c: Config, j: Joint, id: SessionId, from: AptChain.State, steps: seq<AptChain.Step>, to: AptChain.State, t: nat,
                                 sha256: AptDelivery.Hash)
    requires Interleavings.Run(j.sys.service) && AtWork(Pipeline.Now(j.sys), from, id, t)
    requires AptExamples.Leads(c, from, steps, to) && ByInspectors(steps, t)
    ensures AptDelivery.Leads(c, With(j, id, from), LiftApt(id, steps), With(j, id, to), sha256)
    decreases |steps|
  {
    if steps != [] {
      var after := FirstStep(c, from, steps, to, t);
      FliesOne(c, j, id, from, steps[0], t, sha256);
      Flies(c, j, id, after, steps[1..], to, t, sha256);
      Then(c, With(j, id, from), [Apt(id, steps[0])], With(j, id, after), LiftApt(id, steps[1..]), With(j, id, to), sha256);
    }
  }

  lemma FirstStep(c: Config, from: AptChain.State, steps: seq<AptChain.Step>, to: AptChain.State, t: nat) returns (after: AptChain.State)
    requires steps != [] && AptExamples.Leads(c, from, steps, to) && ByInspectors(steps, t) && t in from.flights
    ensures AptChain.Can(c, from, steps[0]) && after == AptChain.After(c, from, steps[0]) && !steps[0].Arrive? && steps[0].id == t
    ensures AptExamples.Leads(c, after, steps[1..], to) && ByInspectors(steps[1..], t)
    ensures t in after.flights && after.flights[t].s == from.flights[t].s
  {
    assert AptChain.Can(c, from, steps[0]);
    after := AptChain.After(c, from, steps[0]);
    AptOverlap.FlightsStay(c, from, steps[0]);
  }

  lemma FliesOne(c: Config, j: Joint, id: SessionId, from: AptChain.State, step: AptChain.Step, t: nat, sha256: AptDelivery.Hash)
    requires Interleavings.Run(j.sys.service) && AtWork(Pipeline.Now(j.sys), from, id, t)
    requires AptChain.Can(c, from, step) && !step.Arrive? && step.id == t
    ensures AptDelivery.Leads(c, With(j, id, from), [Apt(id, step)], With(j, id, AptChain.After(c, from, step)), sha256)
  {
    var at := With(j, id, from);
    Once(c, at, Apt(id, step), sha256);
    PutTwice(j.chains, id, from, AptChain.After(c, from, step));
  }

  // One session

  const S: SessionId := "s"

  ghost predicate Sits(j: Joint, chain: AptChain.State, n: nat, held: set<Digest>, contents: map<Digest, string>) {
    Ground(j.sys, S, n, held, contents) && ChainOf(j, S) == chain
  }

  /** The request opinions of the three inspectors. */
  function Asked(c: Config, chain: AptChain.State, v: Visit): InspectionMap {
    AptChain.Requested(c, chain.releases, v.s, v.kind, map[]).request
  }

  /** Nothing but the request opinions and the type is set when the response arrives. */
  lemma AskedOnly(c: Config, rs: Release.Releases, s: AptChain.Subject, kind: string)
    ensures var f := AptChain.Requested(c, rs, s, kind, map[]); f == FRESH.(request := f.request, kind := kind)
  {
    var f := FRESH.(request := map[], kind := kind);
    if s.url.Some? {
      var u := s.url.value;
      var g := Release.RequestOpinion(c, rs, f, u);
      ReleaseAsks(c, rs, f, u);
      PackagesAsks(g, u);
    }
  }

  lemma ReleaseAsks(c: Config, rs: Release.Releases, f: Findings, u: Release.Url)
    ensures var g := Release.RequestOpinion(c, rs, f, u); g == f.(request := g.request)
  {
  }

  lemma PackagesAsks(f: Findings, u: Release.Url)
    ensures var g := AptPackages.RequestOpinion(f, u); g == f.(request := g.request)
    ensures var g := DebPackage.RequestOpinion(AptPackages.RequestOpinion(f, u), u); g == f.(request := g.request)
  {
  }

  /** The task of a download with the inspectors, and after they are done and it is forwarded. */
  function TaskOf(c: Config, chain: AptChain.State, v: Visit, url: string, content: string, sha256: AptDelivery.Hash): Interleavings.Task {
    Interleavings.Task(RecordOf(S, url, Asked(c, chain, v), content, sha256), false, Interleavings.Inspecting, [])
  }

  predicate Fits(v: Visit, content: string, contents: map<Digest, string>, sha256: AptDelivery.Hash) {
    && v.s.digest == sha256(content) && v.s.size == |content|
    && v.s.digest in contents && contents[v.s.digest] == content
  }

  function VisitMoves(c: Config, chain: AptChain.State, n: nat, v: Visit, url: string, content: string): seq<Move> {
    Lift(BeginMoves(S, n, url, Asked(c, chain, v), content)) + ([Apt(S, AptChain.Arrive(n, v.s, v.kind, map[]))] + LiftApt(S, v.runs))
  }

  function Visited(c: Config, j: Joint, chain: AptChain.State, n: nat, v: Visit, url: string, content: string, to: AptChain.State, sha256: AptDelivery.Hash): Joint {
    Joint(Begun(j.sys, S, n, url, Asked(c, chain, v), content, sha256), j.chains[S := to])
  }

  lemma Arrives(c: Config, j: Joint, chain: AptChain.State, n: nat, s: AptChain.Subject, kind: string, sha256: AptDelivery.Hash)
    requires Interleavings.Run(j.sys.service) && ChainOf(j, S) == chain && n !in chain.flights
    requires n in Pipeline.Now(j.sys).tasks && Pipeline.Now(j.sys).tasks[n].phase == Interleavings.Inspecting
    ensures AptDelivery.Leads(c, j, [Apt(S, AptChain.Arrive(n, s, kind, map[]))], With(j, S, Arrived(c, chain, n, s, kind)), sha256)
  {
    Once(c, j, Apt(S, AptChain.Arrive(n, s, kind, map[])), sha256);
  }

  /** The inspectors' part of a download. */
  lemma InspectorsLead(c: Config, j: Joint, chain: AptChain.State, n: nat, v: Visit, next: AptChain.State, sha256: AptDelivery.Hash)
    requires Interleavings.Run(j.sys.service) && ChainOf(j, S) == chain && Visits(c, chain, n, v, next)
    requires n in Pipeline.Now(j.sys).tasks && Pipeline.Now(j.sys).tasks[n].phase == Interleavings.Inspecting
    requires Pipeline.Now(j.sys).tasks[n].a.sessionId == S && Pipeline.Now(j.sys).tasks[n].a.digest == v.s.digest
    ensures AptDelivery.Leads(c, j, [Apt(S, AptChain.Arrive(n, v.s, v.kind, map[]))] + LiftApt(S, v.runs), With(j, S, next), sha256)
  {
    var arrived := Arrived(c, chain, n, v.s, v.kind);
    Arrives(c, j, chain, n, v.s, v.kind, sha256);
    Flies(c, j, S, arrived, v.runs, next, n, sha256);
    Then(c, j, [Apt(S, AptChain.Arrive(n, v.s, v.kind, map[]))], With(j, S, arrived), LiftApt(S, v.runs), With(j, S, next), sha256);
  }

  lemma EndsNone(n: nat, url: string, request: InspectionMap, content: string)
    ensures NoInspect(BeginMoves(S, n, url, request, content))
  {
  }

  /** A download from the client's request until the inspectors are done with it. */
  lemma VisitLeads(c: Config, j: Joint, chain: AptChain.State, n: nat, held: set<Digest>, contents: map<Digest, string>,
                   v: Visit, next: AptChain.State, url: string, content: string, sha256: AptDelivery.Hash)
    requires Sits(j, chain, n, held, contents) && Visits(c, chain, n, v, next)
    requires Fits(v, content, contents, sha256) && v.s.digest !in held
    ensures var k := Visited(c, j, chain, n, v, url, content, next, sha256);
            && AptDelivery.Leads(c, j, VisitMoves(c, chain, n, v, url, content), k, sha256)
            && Sits(k, next, n + 1, held, contents)
            && Pipeline.Now(k.sys).tasks == Pipeline.Now(j.sys).tasks[n := TaskOf(c, chain, v, url, content, sha256)]
            && k.sys.clients[n] == Waiting(RecordOf(S, url, Asked(c, chain, v), content, sha256))
            && Holds(k.sys.files, Asset(S, v.s.digest), content)
  {
    var request := Asked(c, chain, v);
    GroundBegins(j.sys, S, n, held, contents, url, request, content, sha256);
    var begun := j.(sys := Begun(j.sys, S, n, url, request, content, sha256));
    EndsNone(n, url, request, content);
    Lifts(c, j, BeginMoves(S, n, url, request, content), begun.sys, sha256);
    InspectorsLead(c, begun, chain, n, v, next, sha256);
    Then(c, j, Lift(BeginMoves(S, n, url, request, content)), begun,
         [Apt(S, AptChain.Arrive(n, v.s, v.kind, map[]))] + LiftApt(S, v.runs), With(begun, S, next), sha256);
  }

  // The end of an inspection

  /** The task with the findings of its flight, at the end of the inspectors' run. */
  function JudgedTask(task: Interleavings.Task, g: Findings): Interleavings.Task {
    var (result, verdict) := Evaluate(false, (g, None));
    Interleavings.Task(task.a.(findings := g, result := result), false, Interleavings.Completing(verdict), [])
  }

  /** The task of a visit is still with the inspectors, and `g` is what they came to. */
  ghost predicate Running(c: Config, st: Interleavings.State, t: nat, from: AptChain.State, v: Visit, url: string, content: string, g: Findings,
                          sha256: AptDelivery.Hash) {
    && t in st.tasks && st.tasks[t] == TaskOf(c, from, v, url, content, sha256)
    && v.s.digest == sha256(content) && v.s.size == |content|
    && ArtifactTurns(AptChain.Requested(c, from.releases, v.s, v.kind, map[]), false, v.turns) == (g, None)
  }

  lemma InspectedTask(c: Config, st: Interleavings.State, t: nat, from: AptChain.State, v: Visit, url: string, content: string, g: Findings,
                      sha256: AptDelivery.Hash)
    requires Running(c, st, t, from, v, url, content, g, sha256)
    ensures Interleavings.DoInspect(st, t, Some(v.kind), v.turns) == st.(tasks := st.tasks[t := JudgedTask(st.tasks[t], g)])
  {
    AskedOnly(c, from.releases, v.s, v.kind);
    assert ArtifactRun(st.tasks[t].a.findings, false, Some(v.kind), v.turns) == (g, None);
  }

  function InspectStep(t: nat, v: Visit): Interleavings.Step {
    Interleavings.Inspect(t, Some(v.kind), v.turns)
  }

  lemma InspectLeads(c: Config, j: Joint, chain: AptChain.State, n: nat, held: set<Digest>, contents: map<Digest, string>, t: nat,
                     from: AptChain.State, v: Visit, url: string, content: string, sha256: AptDelivery.Hash)
    requires Sits(j, chain, n, held, contents) && t < n && AptChain.AtStage(chain, t, AptChain.PastDeb) && chain.flights[t].s == v.s
    requires Running(c, Pipeline.Now(j.sys), t, from, v, url, content, chain.flights[t].f, sha256)
    ensures var k := j.(sys := j.sys.(service := j.sys.service + [InspectStep(t, v)]));
            && AptDelivery.Leads(c, j, [Pipe(Pipeline.Serve(InspectStep(t, v)))], k, sha256) && Sits(k, chain, n, held, contents)
            && Pipeline.Now(k.sys).tasks == Pipeline.Now(j.sys).tasks[t := JudgedTask(Pipeline.Now(j.sys).tasks[t], chain.flights[t].f)]
  {
    GroundInspects(j.sys, S, n, held, contents, t, v.kind, v.turns, sha256);
    InspectedTask(c, Pipeline.Now(j.sys), t, from, v, url, content, chain.flights[t].f, sha256);
    Once(c, j, Pipe(Pipeline.Serve(InspectStep(t, v))), sha256);
  }

  lemma EndLeads(c: Config, j: Joint, chain: AptChain.State, n: nat, held: set<Digest>, contents: map<Digest, string>, t: nat, sha256: AptDelivery.Hash)
    requires Sits(j, chain, n, held, contents) && t < n && Pipeline.Now(j.sys).tasks[t].phase.Completing? && Pipeline.Now(j.sys).tasks[t].sent == []
    requires Pipeline.Now(j.sys).tasks[t].a.sessionId == S
    ensures var k := j.(sys := Ended(j.sys, t));
            && AptDelivery.Leads(c, j, Lift(EndMoves(t)), k, sha256)
            && Sits(k, chain, n, held + {Pipeline.Now(j.sys).tasks[t].a.digest}, contents)
            && Pipeline.Now(k.sys).tasks == Pipeline.Now(j.sys).tasks[t := Closed(Pipeline.Now(j.sys).tasks[t])]
  {
    GroundEnds(j.sys, S, n, held, contents, t, sha256);
    Lifts(c, j, EndMoves(t), Ended(j.sys, t), sha256);
  }

  function ConcludeMoves(t: nat, v: Visit): seq<Move> {
    [Pipe(Pipeline.Serve(InspectStep(t, v)))] + Lift(EndMoves(t))
  }

  function Concluded(j: Joint, t: nat, v: Visit): Joint {
    j.(sys := Ended(j.sys.(service := j.sys.service + [InspectStep(t, v)]), t))
  }

  /** The findings are the task's, its completion is recorded and its reply sent. */
  lemma ConcludeLeads(c: Config, j: Joint, chain: AptChain.State, n: nat, held: set<Digest>, contents: map<Digest, string>, t: nat,
                      from: AptChain.State, v: Visit, url: string, content: string, sha256: AptDelivery.Hash)
    requires Sits(j, chain, n, held, contents) && t < n && AptChain.AtStage(chain, t, AptChain.PastDeb) && chain.flights[t].s == v.s
    requires Running(c, Pipeline.Now(j.sys), t, from, v, url, content, chain.flights[t].f, sha256)
    ensures var k := Concluded(j, t, v);
            && AptDelivery.Leads(c, j, ConcludeMoves(t, v), k, sha256) && Sits(k, chain, n, held + {v.s.digest}, contents)
            && Pipeline.Now(k.sys).tasks == Pipeline.Now(j.sys).tasks[t := Closed(JudgedTask(Pipeline.Now(j.sys).tasks[t], chain.flights[t].f))]
  {
    InspectLeads(c, j, chain, n, held, contents, t, from, v, url, content, sha256);
    var middle := j.(sys := j.sys.(service := j.sys.service + [InspectStep(t, v)]));
    EndLeads(c, middle, chain, n, held, contents, t, sha256);
    Then(c, j, [Pipe(Pipeline.Serve(InspectStep(t, v)))], middle, Lift(EndMoves(t)), Concluded(j, t, v), sha256);
    PutTwice(Pipeline.Now(j.sys).tasks, t, JudgedTask(Pipeline.Now(j.sys).tasks[t], chain.flights[t].f),
             Closed(JudgedTask(Pipeline.Now(j.sys).tasks[t], chain.flights[t].f)));
  }

  // Whole sessions

  predicate ClosedAs(tasks: map<nat, Interleavings.Task>, t: nat, d: Digest) {
    && t in tasks && tasks[t].phase == Interleavings.Done(Interleavings.Kept)
    && tasks[t].a.sessionId == S && tasks[t].a.digest == d && !tasks[t].permissive
  }

  /** The client waits for the reply that its inspection sent, and the spool holds its file. */
  ghost predicate AtClient(sys: Pipeline.System, n: nat, content: string, g: Findings)
  {
    && Interleavings.Run(sys.service) && n in sys.clients && n in Pipeline.Now(sys).tasks
    && sys.clients[n].race == Race.START.(pc := Race.Awaiting) && Holds(sys.files, Pipeline.Home(sys.clients[n].a), content)
    && Pipeline.Now(sys).tasks[n].sent == [Evaluate(false, (g, None)).1] && Pipeline.Now(sys).tasks[n].a.findings == g
    && !Pipeline.Now(sys).tasks[n].permissive
  }

  /** A download from the client's request to the reply. */
  lemma WholeVisit(c: Config, j: Joint, chain: AptChain.State, n: nat, held: set<Digest>, contents: map<Digest, string>,
                   v: Visit, next: AptChain.State, content: string, sha256: AptDelivery.Hash) returns (moves: seq<Move>, k: Joint)
    requires Sits(j, chain, n, held, contents) && Visits(c, chain, n, v, next)
    requires Fits(v, content, contents, sha256) && v.s.digest !in held
    ensures AptDelivery.Leads(c, j, moves, k, sha256) && Sits(k, next, n + 1, held + {v.s.digest}, contents)
    ensures n in Pipeline.Now(k.sys).tasks && Pipeline.Now(k.sys).tasks == Pipeline.Now(j.sys).tasks[n := Pipeline.Now(k.sys).tasks[n]]
    ensures ClosedAs(Pipeline.Now(k.sys).tasks, n, v.s.digest) && AtClient(k.sys, n, content, next.flights[n].f)
  {
    VisitLeads(c, j, chain, n, held, contents, v, next, "u", content, sha256);
    var middle := Visited(c, j, chain, n, v, "u", content, next, sha256);
    ConcludeLeads(c, middle, next, n + 1, held, contents, n, chain, v, "u", content, sha256);
    k := Concluded(middle, n, v);
    moves := VisitMoves(c, chain, n, v, "u", content) + ConcludeMoves(n, v);
    Then(c, j, VisitMoves(c, chain, n, v, "u", content), middle, ConcludeMoves(n, v), k, sha256);
    PutTwice(Pipeline.Now(j.sys).tasks, n, TaskOf(c, chain, v, "u", content, sha256), Pipeline.Now(k.sys).tasks[n]);
  }

  /** The digests of the first `k` downloads. */
  function Digests(vs: seq<Visit>, k: nat): set<Digest>
    requires k <= |vs|
  {
    set i | 0 <= i < k :: vs[i].s.digest
  }

  predicate Differ(vs: seq<Visit>) {
    forall i, k | 0 <= i < k < |vs| :: vs[i].s.digest != vs[k].s.digest
  }

  ghost predicate AllFit(vs: seq<Visit>, cs: seq<string>, contents: map<Digest, string>, sha256: AptDelivery.Hash) {
    |cs| == |vs| && Differ(vs) && forall i | 0 <= i < |vs| :: Fits(vs[i], cs[i], contents, sha256)
  }

  /** The first `k` downloads were inspected and answered, and there are no others. */
  predicate AllClosed(tasks: map<nat, Interleavings.Task>, vs: seq<Visit>, k: nat)
    requires k <= |vs|
  {
    (forall t | 0 <= t < k :: ClosedAs(tasks, t, vs[t].s.digest)) && forall t | t in tasks :: t < k
  }

  const CREATE := Interleavings.Create(None, S, "token", false)

  lemma Starts(c: Config, contents: map<Digest, string>, sha256: AptDelivery.Hash) returns (moves: seq<Move>, j: Joint)
    ensures AptDelivery.Leads(c, AptDelivery.BOOT, moves, j, sha256) && Sits(j, AptChain.START, 0, {}, contents)
  {
    Creates(S, contents, sha256);
    var create := [Pipeline.Serve(CREATE)];
    Lifts(c, AptDelivery.BOOT, create, OneSession(S), sha256);
    moves, j := Lift(create), AptDelivery.BOOT.(sys := OneSession(S));
  }

  lemma NextDigest(vs: seq<Visit>, k: nat)
    requires k < |vs| && Differ(vs)
    ensures vs[k].s.digest !in Digests(vs, k) && Digests(vs, k + 1) == Digests(vs, k) + {vs[k].s.digest}
  {
  }

  lemma ClosedMore(tasks: map<nat, Interleavings.Task>, next: map<nat, Interleavings.Task>, vs: seq<Visit>, k: nat)
    requires k < |vs| && AllClosed(tasks, vs, k) && k in next && next == tasks[k := next[k]] && ClosedAs(next, k, vs[k].s.digest)
    ensures AllClosed(next, vs, k + 1)
  {
    forall t | 0 <= t < k + 1 ensures ClosedAs(next, t, vs[t].s.digest) {
      assert t < k ==> ClosedAs(tasks, t, vs[t].s.digest);
    }
  }

  /** The first `k` downloads one after the other, each inspected and answered before the next one comes. */
  lemma {:induction false} InTurn(c: Config, vs: seq<Visit>, sts: seq<AptChain.State>, cs: seq<string>, contents: map<Digest, string>, k: nat,
                                  sha256: AptDelivery.Hash) returns (moves: seq<Move>, j: Joint)
    requires AllVisit(c, vs, sts) && AllFit(vs, cs, contents, sha256) && k <= |vs|
    ensures AptDelivery.Leads(c, AptDelivery.BOOT, moves, j, sha256) && Sits(j, sts[k], k, Digests(vs, k), contents)
    ensures AllClosed(Pipeline.Now(j.sys).tasks, vs, k)
    ensures k > 0 ==> k - 1 in sts[k].flights && AtClient(j.sys, k - 1, cs[k - 1], sts[k].flights[k - 1].f)
  {
    if k == 0 {
      moves, j := Starts(c, contents, sha256);
      assert Digests(vs, 0) == {};
      return;
    }
    var n := k - 1;
    var before, i := InTurn(c, vs, sts, cs, contents, n, sha256);
    assert Visits(c, sts[n], n, vs[n], sts[n + 1]) && Fits(vs[n], cs[n], contents, sha256);
    NextDigest(vs, n);
    var more;
    more, j := WholeVisit(c, i, sts[n], n, Digests(vs, n), contents, vs[n], sts[n + 1], cs[n], sha256);
    ClosedMore(Pipeline.Now(i.sys).tasks, Pipeline.Now(j.sys).tasks, vs, n);
    moves := before + more;
    Then(c, AptDelivery.BOOT, before, i, more, j, sha256);
  }

  /** The reply is nil, and the first byte of the file reaches the client. */
  lemma Receives(c: Config, j: Joint, t: nat, content: string, g: Findings, sha256: AptDelivery.Hash) returns (moves: seq<Move>, k: Joint)
    requires AtClient(j.sys, t, content, g) && Evaluate(false, (g, None)).1 == Nil && content != ""
    ensures AptDelivery.Leads(c, j, moves, k, sha256) && k.sys.service == j.sys.service && k.chains == j.chains
    ensures t in k.sys.clients && k.sys.clients[t].race.copied == content[..1]
  {
    var sys := Delivers(j.sys, t, content, sha256);
    Lifts(c, j, BytesMoves(t), sys, sha256);
    moves, k := Lift(BytesMoves(t)), j.(sys := sys);
  }

  /** The digests and sizes of the files are those of their content. */
  predicate ServedAs(x: Served, ra: string, p: string, rb: string, d: string, sha256: AptDelivery.Hash) {
    && x.releaseA == Item(sha256(ra), |ra|) && x.packages == Item(sha256(p), |p|)
    && x.releaseB == Item(sha256(rb), |rb|) && x.deb == Item(sha256(d), |d|)
  }

  /** A client that has received bytes of a deb the deb inspector approved. */
  ghost predicate HasDeb(j: Joint, t: nat, content: string)
    requires content != ""
  {
    && t in j.sys.clients && j.sys.clients[t].race.copied == content[..1] && j.sys.clients[t].race.copied != ""
    && Interleavings.Run(j.sys.service) && t in Pipeline.Now(j.sys).tasks && !Pipeline.Now(j.sys).tasks[t].permissive
    && ArtifactApproved(Pipeline.Now(j.sys).tasks[t].a.findings) && AptChain.DebApproved(Pipeline.Now(j.sys).tasks[t].a.findings)
  }

  // Within one repository

  lemma ClosedOnce(st: Interleavings.State, vs: seq<Visit>)
    requires AllClosed(st.tasks, vs, |vs|) && Differ(vs)
    ensures OnceEach(st)
  {
    forall t, u | t in st.tasks && u in st.tasks && t != u && Started(st.tasks[t].phase) && Started(st.tasks[u].phase)
      ensures !SameFile(st.tasks[t], st.tasks[u])
    {
      assert ClosedAs(st.tasks, t, vs[t].s.digest) && ClosedAs(st.tasks, u, vs[u].s.digest);
    }
  }

  function ContentsOf(ra: string, p: string, rb: string, d: string, sha256: AptDelivery.Hash): map<Digest, string> {
    map[sha256(ra) := ra, sha256(p) := p, sha256(rb) := rb, sha256(d) := d]
  }

  /** The findings of the last visit are the task's, and its reply was nil. */
  lemma ApprovedReply(g: Findings)
    requires ArtifactApproved(g)
    ensures Evaluate(false, (g, None)) == (Approved, Nil)
  {
  }

  /** The visits of the session are those of the files served. */
  lemma ChainFits(vs: seq<Visit>, x: Served, ra: string, p: string, rb: string, d: string, sha256: AptDelivery.Hash)
    requires Distinct(x) && ServedAs(x, ra, p, rb, d, sha256) && |vs| == 3
    requires vs[0].s.digest == x.releaseA.digest && vs[1].s.digest == x.packages.digest && vs[2].s.digest == x.deb.digest
    requires vs[0].s.size == x.releaseA.size && vs[1].s.size == x.packages.size && vs[2].s.size == x.deb.size
    ensures AllFit(vs, [ra, p, d], ContentsOf(ra, p, rb, d, sha256), sha256)
  {
  }

  /** Downloads in turn are never under way at once. */
  lemma InTurnApart(j: Joint, vs: seq<Visit>)
    requires Interleavings.Run(j.sys.service) && AllClosed(Pipeline.Now(j.sys).tasks, vs, |vs|) && Differ(vs)
    ensures AlwaysApart(j.sys.service)
  {
    ClosedOnce(Pipeline.Now(j.sys), vs);
    OnceIffApart(j.sys.service);
  }

  /** An InRelease, a Packages file and a deb, one after the other: the client receives the first byte of
      the deb, and no two inspections of one digest were ever under way at once. */
  lemma DebExample(c: Config, at: Place, x: Served, ra: string, p: string, rb: string, d: string, sha256: AptDelivery.Hash)
    returns (moves: seq<Move>, j: Joint)
    requires Plain(c, at.name) && Usable(x) && ServedAs(x, ra, p, rb, d, sha256) && d != ""
    ensures AptDelivery.Leads(c, AptDelivery.BOOT, moves, j, sha256) && HasDeb(j, 2, d) && AlwaysApart(j.sys.service)
  {
    var vs, sts := ChainVisits(c, at, x);
    ChainFits(vs, x, ra, p, rb, d, sha256);
    var before, i := InTurn(c, vs, sts, [ra, p, d], ContentsOf(ra, p, rb, d, sha256), 3, sha256);
    InTurnApart(i, vs);
    var more;
    more, j := TakesDeb(c, i, 2, d, sts[3].flights[2].f, sha256);
    moves := before + more;
    Then(c, AptDelivery.BOOT, before, i, more, j, sha256);
  }

  lemma TakesDeb(c: Config, j: Joint, t: nat, content: string, g: Findings, sha256: AptDelivery.Hash) returns (moves: seq<Move>, k: Joint)
    requires AtClient(j.sys, t, content, g) && content != "" && ArtifactApproved(g) && AptChain.DebApproved(g)
    ensures AptDelivery.Leads(c, j, moves, k, sha256) && k.sys.service == j.sys.service && k.chains == j.chains && HasDeb(k, t, content)
  {
    ApprovedReply(g);
    moves, k := Receives(c, j, t, content, g, sha256);
  }

  // Across repositories

  /** A flight past the inspectors stays as it is. */
  lemma {:induction false} FlightsKept(c: Config, vs: seq<Visit>, sts: seq<AptChain.State>, t: nat, k: nat)
    requires AllVisit(c, vs, sts) && t < k <= |vs|
    ensures t in sts[k].flights && t in sts[t + 1].flights && sts[k].flights[t] == sts[t + 1].flights[t]
    ensures AptChain.AtStage(sts[k], t, AptChain.PastDeb) && sts[k].flights[t].s == vs[t].s
  {
    assert Visits(c, sts[k - 1], k - 1, vs[k - 1], sts[k]);
    if t < k - 1 {
      FlightsKept(c, vs, sts, t, k - 1);
    }
  }

  /** The third visit brings the file of the first one again; all others differ. */
  ghost predicate OneTwice(vs: seq<Visit>, cs: seq<string>, contents: map<Digest, string>, sha256: AptDelivery.Hash) {
    && |vs| == |cs| == 5 && (forall i | 0 <= i < 5 :: Fits(vs[i], cs[i], contents, sha256))
    && vs[3].s.digest == vs[1].s.digest
    && vs[0].s.digest != vs[1].s.digest && vs[0].s.digest != vs[2].s.digest && vs[1].s.digest != vs[2].s.digest
    && vs[4].s.digest != vs[0].s.digest && vs[4].s.digest != vs[1].s.digest && vs[4].s.digest != vs[2].s.digest
  }

  /** A visit leaves its task with the inspectors, who have come to its findings. */
  lemma LeftRunning(c: Config, st: Interleavings.State, t: nat, from: AptChain.State, v: Visit, next: AptChain.State, content: string, sha256: AptDelivery.Hash)
    requires t in st.tasks && st.tasks[t] == TaskOf(c, from, v, "u", content, sha256)
    requires Visits(c, from, t, v, next) && v.s.digest == sha256(content) && v.s.size == |content|
    ensures Running(c, st, t, from, v, "u", content, next.flights[t].f, sha256)
  {
  }

  /** What the session holds when each visit begins. */
  function HeldFirst(vs: seq<Visit>): set<Digest>
    requires |vs| == 5
  {
    {vs[0].s.digest}
  }

  function HeldSecond(vs: seq<Visit>): set<Digest>
    requires |vs| == 5
  {
    HeldFirst(vs) + {vs[2].s.digest}
  }

  function HeldThen(vs: seq<Visit>): set<Digest>
    requires |vs| == 5
  {
    HeldSecond(vs) + {vs[1].s.digest} + {vs[3].s.digest}
  }

  lemma NotHeld(vs: seq<Visit>, cs: seq<string>, contents: map<Digest, string>, sha256: AptDelivery.Hash)
    requires OneTwice(vs, cs, contents, sha256)
    ensures vs[1].s.digest !in HeldFirst(vs) && vs[2].s.digest !in HeldFirst(vs)
    ensures vs[3].s.digest !in HeldSecond(vs) && vs[4].s.digest !in HeldThen(vs)
    ensures Fits(vs[0], cs[0], contents, sha256) && Fits(vs[1], cs[1], contents, sha256) && Fits(vs[2], cs[2], contents, sha256)
    ensures Fits(vs[3], cs[3], contents, sha256) && Fits(vs[4], cs[4], contents, sha256)
  {
  }

  lemma RunningStays(c: Config, st: Interleavings.State, next: Interleavings.State, t: nat, u: nat, from: AptChain.State, v: Visit, content: string,
                     g: Findings, sha256: AptDelivery.Hash)
    requires Running(c, st, t, from, v, "u", content, g, sha256) && u in next.tasks && next.tasks == st.tasks[u := next.tasks[u]] && u != t
    ensures Running(c, next, t, from, v, "u", content, g, sha256)
  {
  }

  /** The run so far, and a download that stays with the inspectors. */
  lemma AddVisit(c: Config, moves: seq<Move>, j: Joint, chain: AptChain.State, n: nat, held: set<Digest>, contents: map<Digest, string>,
                 v: Visit, next: AptChain.State, content: string, sha256: AptDelivery.Hash) returns (moves': seq<Move>, k: Joint)
    requires AptDelivery.Leads(c, AptDelivery.BOOT, moves, j, sha256) && Sits(j, chain, n, held, contents) && Visits(c, chain, n, v, next)
    requires Fits(v, content, contents, sha256) && v.s.digest !in held
    ensures AptDelivery.Leads(c, AptDelivery.BOOT, moves', k, sha256) && Sits(k, next, n + 1, held, contents)
    ensures Running(c, Pipeline.Now(k.sys), n, chain, v, "u", content, next.flights[n].f, sha256)
    ensures Pipeline.Now(k.sys).tasks == Pipeline.Now(j.sys).tasks[n := Pipeline.Now(k.sys).tasks[n]]
  {
    VisitLeads(c, j, chain, n, held, contents, v, next, "u", content, sha256);
    k := Visited(c, j, chain, n, v, "u", content, next, sha256);
    moves' := moves + VisitMoves(c, chain, n, v, "u", content);
    Then(c, AptDelivery.BOOT, moves, j, VisitMoves(c, chain, n, v, "u", content), k, sha256);
    LeftRunning(c, Pipeline.Now(k.sys), n, chain, v, next, content, sha256);
  }

  /** The run so far, and a download up to its reply. */
  lemma AddWhole(c: Config, moves: seq<Move>, j: Joint, chain: AptChain.State, n: nat, held: set<Digest>, contents: map<Digest, string>,
                 v: Visit, next: AptChain.State, content: string, sha256: AptDelivery.Hash) returns (moves': seq<Move>, k: Joint)
    requires AptDelivery.Leads(c, AptDelivery.BOOT, moves, j, sha256) && Sits(j, chain, n, held, contents) && Visits(c, chain, n, v, next)
    requires Fits(v, content, contents, sha256) && v.s.digest !in held
    ensures AptDelivery.Leads(c, AptDelivery.BOOT, moves', k, sha256) && Sits(k, next, n + 1, held + {v.s.digest}, contents)
    ensures n in Pipeline.Now(k.sys).tasks && Pipeline.Now(k.sys).tasks == Pipeline.Now(j.sys).tasks[n := Pipeline.Now(k.sys).tasks[n]]
    ensures ClosedAs(Pipeline.Now(k.sys).tasks, n, v.s.digest) && AtClient(k.sys, n, content, next.flights[n].f)
  {
    var more;
    more, k := WholeVisit(c, j, chain, n, held, contents, v, next, content, sha256);
    moves' := moves + more;
    Then(c, AptDelivery.BOOT, moves, j, more, k, sha256);
  }

  /** The run so far, and the reply to a download that was with the inspectors. */
  lemma AddReply(c: Config, moves: seq<Move>, j: Joint, chain: AptChain.State, n: nat, held: set<Digest>, contents: map<Digest, string>, t: nat,
                 from: AptChain.State, v: Visit, content: string, sha256: AptDelivery.Hash) returns (moves': seq<Move>, k: Joint)
    requires AptDelivery.Leads(c, AptDelivery.BOOT, moves, j, sha256) && Sits(j, chain, n, held, contents) && t < n
    requires AptChain.AtStage(chain, t, AptChain.PastDeb) && chain.flights[t].s == v.s
    requires Running(c, Pipeline.Now(j.sys), t, from, v, "u", content, chain.flights[t].f, sha256)
    ensures AptDelivery.Leads(c, AptDelivery.BOOT, moves', k, sha256) && Sits(k, chain, n, held + {v.s.digest}, contents)
    ensures t in Pipeline.Now(k.sys).tasks && Pipeline.Now(k.sys).tasks == Pipeline.Now(j.sys).tasks[t := Pipeline.Now(k.sys).tasks[t]]
    ensures ClosedAs(Pipeline.Now(k.sys).tasks, t, v.s.digest)
  {
    ConcludeLeads(c, j, chain, n, held, contents, t, from, v, "u", content, sha256);
    k := Concluded(j, t, v);
    moves' := moves + ConcludeMoves(t, v);
    Then(c, AptDelivery.BOOT, moves, j, ConcludeMoves(t, v), k, sha256);
  }

  /** The session starts with one download, up to its reply. */
  lemma FirstWhole(c: Config, contents: map<Digest, string>, v: Visit, next: AptChain.State, content: string, sha256: AptDelivery.Hash)
    returns (moves: seq<Move>, j: Joint)
    requires Visits(c, AptChain.START, 0, v, next) && Fits(v, content, contents, sha256)
    ensures AptDelivery.Leads(c, AptDelivery.BOOT, moves, j, sha256) && Sits(j, next, 1, {v.s.digest}, contents)
  {
    var none: set<Digest> := {};
    moves, j := StartsWith(c, none, contents, v, next, content, sha256);
    HeldOne(j, next, none, v.s.digest, contents);
  }

  lemma StartsWith(c: Config, none: set<Digest>, contents: map<Digest, string>, v: Visit, next: AptChain.State, content: string, sha256: AptDelivery.Hash)
    returns (moves: seq<Move>, j: Joint)
    requires none == {} && Visits(c, AptChain.START, 0, v, next) && Fits(v, content, contents, sha256)
    ensures AptDelivery.Leads(c, AptDelivery.BOOT, moves, j, sha256) && Sits(j, next, 1, none + {v.s.digest}, contents)
  {
    var m0, j0 := Starts(c, contents, sha256);
    var m1;
    m1, j := WholeVisit(c, j0, AptChain.START, 0, none, contents, v, next, content, sha256);
    moves := m0 + m1;
    Then(c, AptDelivery.BOOT, m0, j0, m1, j, sha256);
  }

  lemma HeldOne(j: Joint, chain: AptChain.State, none: set<Digest>, d: Digest, contents: map<Digest, string>)
    requires none == {} && Sits(j, chain, 1, none + {d}, contents)
    ensures Sits(j, chain, 1, {d}, contents)
  {
    assert none + {d} == {d};
  }

  /** The first release is done. */
  lemma ToRelease(c: Config, vs: seq<Visit>, sts: seq<AptChain.State>, cs: seq<string>, contents: map<Digest, string>, sha256: AptDelivery.Hash)
    returns (moves: seq<Move>, j: Joint)
    requires AllVisit(c, vs, sts) && OneTwice(vs, cs, contents, sha256)
    ensures AptDelivery.Leads(c, AptDelivery.BOOT, moves, j, sha256) && Sits(j, sts[1], 1, HeldFirst(vs), contents)
  {
    assert Visits(c, sts[0], 0, vs[0], sts[1]);
    NotHeld(vs, cs, contents, sha256);
    moves, j := FirstWhole(c, contents, vs[0], sts[1], cs[0], sha256);
  }

  /** The first Packages file is with the inspectors. */
  lemma ToPackages(c: Config, vs: seq<Visit>, sts: seq<AptChain.State>, cs: seq<string>, contents: map<Digest, string>, sha256: AptDelivery.Hash)
    returns (moves: seq<Move>, j: Joint)
    requires AllVisit(c, vs, sts) && OneTwice(vs, cs, contents, sha256)
    ensures AptDelivery.Leads(c, AptDelivery.BOOT, moves, j, sha256) && Sits(j, sts[2], 2, HeldFirst(vs), contents)
    ensures Running(c, Pipeline.Now(j.sys), 1, sts[1], vs[1], "u", cs[1], sts[2].flights[1].f, sha256)
  {
    NotHeld(vs, cs, contents, sha256);
    assert Visits(c, sts[1], 1, vs[1], sts[2]);
    moves, j := ToRelease(c, vs, sts, cs, contents, sha256);
    moves, j := AddVisit(c, moves, j, sts[1], 1, HeldFirst(vs), contents, vs[1], sts[2], cs[1], sha256);
  }

  /** It still is when the second release is done. */
  lemma ToSecondRelease(c: Config, vs: seq<Visit>, sts: seq<AptChain.State>, cs: seq<string>, contents: map<Digest, string>, sha256: AptDelivery.Hash)
    returns (moves: seq<Move>, j: Joint)
    requires AllVisit(c, vs, sts) && OneTwice(vs, cs, contents, sha256)
    ensures AptDelivery.Leads(c, AptDelivery.BOOT, moves, j, sha256) && Sits(j, sts[3], 3, HeldSecond(vs), contents)
    ensures Running(c, Pipeline.Now(j.sys), 1, sts[1], vs[1], "u", cs[1], sts[2].flights[1].f, sha256)
  {
    NotHeld(vs, cs, contents, sha256);
    var before, i := ToPackages(c, vs, sts, cs, contents, sha256);
    assert Visits(c, sts[2], 2, vs[2], sts[3]);
    moves, j := AddWhole(c, before, i, sts[2], 2, HeldFirst(vs), contents, vs[2], sts[3], cs[2], sha256);
    RunningStays(c, Pipeline.Now(i.sys), Pipeline.Now(j.sys), 1, 2, sts[1], vs[1], cs[1], sts[2].flights[1].f, sha256);
  }

  /** Both Packages files are with the inspectors. */
  lemma ToBoth(c: Config, vs: seq<Visit>, sts: seq<AptChain.State>, cs: seq<string>, contents: map<Digest, string>, sha256: AptDelivery.Hash)
    returns (moves: seq<Move>, j: Joint)
    requires AllVisit(c, vs, sts) && OneTwice(vs, cs, contents, sha256)
    ensures AptDelivery.Leads(c, AptDelivery.BOOT, moves, j, sha256) && Sits(j, sts[4], 4, HeldSecond(vs), contents)
    ensures Running(c, Pipeline.Now(j.sys), 1, sts[1], vs[1], "u", cs[1], sts[2].flights[1].f, sha256)
    ensures Running(c, Pipeline.Now(j.sys), 3, sts[3], vs[3], "u", cs[3], sts[4].flights[3].f, sha256)
  {
    NotHeld(vs, cs, contents, sha256);
    var before, i := ToSecondRelease(c, vs, sts, cs, contents, sha256);
    assert Visits(c, sts[3], 3, vs[3], sts[4]);
    moves, j := AddVisit(c, before, i, sts[3], 3, HeldSecond(vs), contents, vs[3], sts[4], cs[3], sha256);
    RunningStays(c, Pipeline.Now(i.sys), Pipeline.Now(j.sys), 1, 3, sts[1], vs[1], cs[1], sts[2].flights[1].f, sha256);
  }

  /** Both are answered. */
  lemma ToAnswers(c: Config, vs: seq<Visit>, sts: seq<AptChain.State>, cs: seq<string>, contents: map<Digest, string>, sha256: AptDelivery.Hash)
    returns (moves: seq<Move>, j: Joint)
    requires AllVisit(c, vs, sts) && OneTwice(vs, cs, contents, sha256)
    ensures AptDelivery.Leads(c, AptDelivery.BOOT, moves, j, sha256) && Sits(j, sts[4], 4, HeldThen(vs), contents)
    ensures ClosedAs(Pipeline.Now(j.sys).tasks, 1, vs[1].s.digest) && ClosedAs(Pipeline.Now(j.sys).tasks, 3, vs[1].s.digest)
  {
    var m0, j0 := ToBoth(c, vs, sts, cs, contents, sha256);
    var held := HeldSecond(vs);
    FlightsKept(c, vs, sts, 1, 4);
    FlightsKept(c, vs, sts, 3, 4);
    var m1, j1 := AddReply(c, m0, j0, sts[4], 4, held, contents, 1, sts[1], vs[1], cs[1], sha256);
    RunningStays(c, Pipeline.Now(j0.sys), Pipeline.Now(j1.sys), 3, 1, sts[3], vs[3], cs[3], sts[4].flights[3].f, sha256);
    moves, j := AddReply(c, m1, j1, sts[4], 4, held + {vs[1].s.digest}, contents, 3, sts[3], vs[3], cs[3], sha256);
  }

  /** Two inspections of one digest were started, so at some moment both were under way. */
  lemma TwiceOverlaps(j: Joint, t: nat, u: nat, d: Digest)
    requires Interleavings.Run(j.sys.service) && t != u
    requires ClosedAs(Pipeline.Now(j.sys).tasks, t, d) && ClosedAs(Pipeline.Now(j.sys).tasks, u, d)
    ensures !AlwaysApart(j.sys.service)
  {
    OnceIffApart(j.sys.service);
    assert SameFile(Pipeline.Now(j.sys).tasks[t], Pipeline.Now(j.sys).tasks[u]);
  }

  lemma CrossingFits(vs: seq<Visit>, x: Served, ra: string, p: string, rb: string, d: string, sha256: AptDelivery.Hash)
    requires Distinct(x) && ServedAs(x, ra, p, rb, d, sha256) && |vs| == 5
    requires vs[0].s.digest == x.releaseA.digest && vs[1].s.digest == vs[3].s.digest == x.packages.digest
    requires vs[2].s.digest == x.releaseB.digest && vs[4].s.digest == x.deb.digest
    requires vs[0].s.size == x.releaseA.size && vs[1].s.size == vs[3].s.size == x.packages.size
    requires vs[2].s.size == x.releaseB.size && vs[4].s.size == x.deb.size
    ensures OneTwice(vs, [ra, p, rb, p, d], ContentsOf(ra, p, rb, d, sha256), sha256)
  {
  }

  lemma ToDeb(c: Config, vs: seq<Visit>, sts: seq<AptChain.State>, cs: seq<string>, contents: map<Digest, string>, sha256: AptDelivery.Hash)
    returns (moves: seq<Move>, j: Joint)
    requires AllVisit(c, vs, sts) && OneTwice(vs, cs, contents, sha256)
    ensures AptDelivery.Leads(c, AptDelivery.BOOT, moves, j, sha256) && ChainOf(j, S) == sts[5] && 4 in sts[5].flights
    ensures AtClient(j.sys, 4, cs[4], sts[5].flights[4].f) && Pipeline.Now(j.sys).tasks[4].a.digest == vs[4].s.digest
    ensures !AlwaysApart(j.sys.service)
  {
    NotHeld(vs, cs, contents, sha256);
    var before, i := ToAnswers(c, vs, sts, cs, contents, sha256);
    assert Visits(c, sts[4], 4, vs[4], sts[5]);
    moves, j := AddWhole(c, before, i, sts[4], 4, HeldThen(vs), contents, vs[4], sts[5], cs[4], sha256);
    TwiceOverlaps(j, 1, 3, vs[1].s.digest);
  }

  lemma CrossingBytes(c: Config, vs: seq<Visit>, sts: seq<AptChain.State>, cs: seq<string>, contents: map<Digest, string>, sha256: AptDelivery.Hash)
    returns (moves: seq<Move>, j: Joint)
    requires AllVisit(c, vs, sts) && OneTwice(vs, cs, contents, sha256) && cs[4] != "" && 4 in sts[5].flights
    requires ArtifactApproved(sts[5].flights[4].f) && AptChain.DebApproved(sts[5].flights[4].f) && Unvouched(c, sts[5], vs[4].s)
    ensures AptDelivery.Leads(c, AptDelivery.BOOT, moves, j, sha256) && HasDeb(j, 4, cs[4]) && !AlwaysApart(j.sys.service)
    ensures CrossesTo(c, j, 4)
  {
    var before, i := ToDeb(c, vs, sts, cs, contents, sha256);
    FlightsKept(c, vs, sts, 4, 5);
    var more;
    more, j := TakesDeb(c, i, 4, cs[4], sts[5].flights[4].f, sha256);
    moves := before + more;
    Then(c, AptDelivery.BOOT, before, i, more, j, sha256);
  }

  /** No InRelease vouches for any Packages file that lists the download of task `t` for its origin. */
  ghost predicate CrossesTo(c: Config, j: Joint, t: nat)
    requires Interleavings.Run(j.sys.service) && t in Pipeline.Now(j.sys).tasks
  {
    && AptChain.AtStage(ChainOf(j, S), t, AptChain.PastDeb)
    && ChainOf(j, S).flights[t].s.digest == Pipeline.Now(j.sys).tasks[t].a.digest
    && Unvouched(c, ChainOf(j, S), ChainOf(j, S).flights[t].s)
  }

  /** The chain can cross repositories: the second repository's Packages file is downloaded while the same
      file from the first one is still under inspection, so it is inspected too instead of being answered
      from the record. The client receives the first byte of a deb that only this second file lists for
      its origin, although no InRelease of the second repository vouches for it. */
  lemma CrossingDelivered(c: Config, a: Place, b: Place, x: Served, ra: string, p: string, rb: string, d: string, sha256: AptDelivery.Hash)
    returns (moves: seq<Move>, j: Joint)
    requires Plain(c, a.name) && Plain(c, b.name) && Usable(x) && a.origin != b.origin && BaseOf(a) != BaseOf(b)
    requires ServedAs(x, ra, p, rb, d, sha256) && d != ""
    ensures AptDelivery.Leads(c, AptDelivery.BOOT, moves, j, sha256) && HasDeb(j, 4, d) && !AlwaysApart(j.sys.service)
    ensures CrossesTo(c, j, 4)
  {
    var vs, sts := CrossingVisits(c, a, b, x);
    CrossingFits(vs, x, ra, p, rb, d, sha256);
    moves, j := CrossingBytes(c, vs, sts, [ra, p, rb, p, d], ContentsOf(ra, p, rb, d, sha256), sha256);
  }
}
