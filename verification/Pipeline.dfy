/** Everything together: clients downloading through the proxy, the dispatcher, and the spool. */
module Pipeline {
  import opened Basics
  import opened Opinions
  import opened Runner
  import opened Protocol
  import opened Invariants
  import opened Guarantees
  import opened Spool
  import Interleavings
  import Race

  /** One client request being served; `a.digest` is known once the download is complete. */
  datatype Client = Client(race: Race.State, a: Record)

  /** `service` lists the steps the service has taken so far. */
  datatype System = System(service: seq<Interleavings.Step>, clients: map<nat, Client>, files: Files)

  const BOOT := System([], map[], map[])

  datatype Move =
    | Serve(step: Interleavings.Step)
    | Respond(t: nat, disk: Disk)
    | Start(t: nat, sessionId: SessionId, url: string, request: InspectionMap)
    | Fetch(t: nat, content: string)
    | Ask(t: nat)
    | Hear(t: nat)
    | Open(t: nat)
    | Local(t: nat, race: Race.Step)
    | Purge(gone: set<Path>)

  ghost predicate Quiet(step: Race.Step) {
    !step.Downloaded? && !step.Requested? && !step.Replied? && !step.Opened?
  }

  ghost function Now(sys: System): Interleavings.State
    requires Interleavings.Run(sys.service)
  {
    Interleavings.After(sys.service)
  }

  /** The task needs its file saved: its session is live and does not hold the digest. */
  ghost predicate Saves(st: Interleavings.State, t: nat)
    requires t in st.tasks
  {
    && st.tasks[t].a.sessionId in st.sessions
    && st.tasks[t].a.digest !in st.sessions[st.tasks[t].a.sessionId].artifacts
  }

  ghost function Home(a: Record): Path {
    Asset(a.sessionId, a.digest)
  }

  ghost predicate Can(sys: System, m: Move)
    requires Interleavings.Run(sys.service)
  {
    match m
    case Serve(step) => Interleavings.Can(Now(sys), step) && !step.Submit? && !step.Respond?
    case Respond(t, disk) =>
      && Interleavings.Can(Now(sys), Interleavings.Respond(t, true))
      && !Torn(sys.files, Temp(t), disk)
    case Start(t, _, _, _) => t !in sys.clients && t !in Now(sys).tasks
    case Fetch(t, _) => t in sys.clients && Race.Can(sys.clients[t].race, Race.Downloaded)
    case Ask(t) => t in sys.clients && Race.Can(sys.clients[t].race, Race.Requested) && t !in Now(sys).tasks
    case Hear(t) =>
      && t in sys.clients && sys.clients[t].race.pc == Race.Awaiting
      && t in Now(sys).tasks && |Now(sys).tasks[t].sent| == 1
    case Open(t) =>
      t in sys.clients && sys.clients[t].race.pc == Race.Opening && Home(sys.clients[t].a) in sys.files
    case Local(t, step) => t in sys.clients && Quiet(step) && Race.Can(sys.clients[t].race, step)
    case Purge(_) => true
  }

  ghost function RaceStep(sys: System, t: nat, step: Race.Step): System
    requires t in sys.clients && Race.Can(sys.clients[t].race, step)
  {
    sys.(clients := sys.clients[t := sys.clients[t].(race := Race.Do(sys.clients[t].race, step))])
  }

  ghost function Do(sys: System, m: Move, sha256: string -> Digest): System
    requires Interleavings.Run(sys.service) && Can(sys, m)
  {
    match m
    case Serve(step) => sys.(service := sys.service + [step])
    case Respond(t, disk) =>
      if Saves(Now(sys), t) then
        var (files, ok) := Save(sys.files, Temp(t), Home(Now(sys).tasks[t].a), disk);
        sys.(service := sys.service + [Interleavings.Respond(t, ok)], files := files)
      else
        sys.(service := sys.service + [Interleavings.Respond(t, true)])
    case Start(t, id, url, request) =>
      var a := Record(id, "", 0, FRESH.(request := request), Unknown, Download(url, ""), []);
      sys.(clients := sys.clients[t := Client(Race.START, a)])
    case Fetch(t, content) =>
      var next := RaceStep(sys, t, Race.Downloaded);
      var d := sha256(content);
      var a := sys.clients[t].a;
      next.(clients := next.clients[t := next.clients[t].(
                a := a.(digest := d, size := |content|, current := a.current.(digest := d)))],
            files := sys.files[Temp(t) := content])
    case Ask(t) =>
      RaceStep(sys, t, Race.Requested).(service := sys.service + [Interleavings.Submit(t, sys.clients[t].a)])
    case Hear(t) => RaceStep(sys, t, Race.Replied(Now(sys).tasks[t].sent[0]))
    case Open(t) => RaceStep(sys, t, Race.Opened(sys.files[Home(sys.clients[t].a)]))
    case Local(t, step) => RaceStep(sys, t, step)
    case Purge(gone) => sys.(files := sys.files - gone)
  }

  /** What ties one client to its inspection. */
  ghost predicate ClientInv(sys: System, t: nat, sha256: string -> Digest)
    requires Interleavings.Run(sys.service) && t in sys.clients
  {
    var c, st := sys.clients[t], Now(sys);
    && Race.Inv(c.race)
    && c.a.current.digest == c.a.digest && c.a.downloads == []
    && c.a.findings.response == map[] && c.a.result == Unknown
    && (c.race.pc == Race.Downloading || c.race.pc == Race.Requesting ==> t !in st.tasks)
    && (t in st.tasks ==> SameSubject(c.a, st.tasks[t].a))
    && (c.race.reply.Some? ==> t in st.tasks && st.tasks[t].sent == [c.race.reply.value])
    && (Temp(t) in sys.files && (t in st.tasks ==> st.tasks[t].phase == Interleavings.Posted)
        ==> c.race.pc != Race.Downloading && sha256(sys.files[Temp(t)]) == c.a.digest)
    && (c.race.pc == Race.Announcing || c.race.sent == [Race.Good] ==> sha256(c.race.content) == c.a.digest)
  }

  ghost predicate Inv(sys: System, sha256: string -> Digest) {
    && Interleavings.Run(sys.service)
    && TasksInv(Now(sys))
    && Addressed(sys.files, sha256)
    && (forall t | t in sys.clients :: ClientInv(sys, t, sha256))
    && (forall t | t in Now(sys).tasks :: t in sys.clients)
    && (forall t: nat | Temp(t) in sys.files :: t in sys.clients)
  }

  lemma ServiceStep(sys: System, step: Interleavings.Step)
    requires Interleavings.Run(sys.service) && Interleavings.Can(Now(sys), step)
    ensures Interleavings.Run(sys.service + [step])
    ensures Interleavings.After(sys.service + [step]) == Interleavings.Do(Now(sys), step)
  {
    assert (sys.service + [step])[..|sys.service|] == sys.service;
  }

  /** A service step on tasks already there keeps a client's ties, when its temporary file only
      shrinks away. */
  lemma ClientThroughService(sys: System, step: Interleavings.Step, files: Files, t: nat, sha256: string -> Digest)
    requires Interleavings.Run(sys.service) && Interleavings.Can(Now(sys), step) && !step.Submit?
    requires TasksInv(Now(sys)) && t in sys.clients && ClientInv(sys, t, sha256)
    requires Temp(t) in files ==> Temp(t) in sys.files && files[Temp(t)] == sys.files[Temp(t)]
    ensures Interleavings.Run(sys.service + [step])
    ensures ClientInv(sys.(service := sys.service + [step], files := files), t, sha256)
  {
    ServiceStep(sys, step);
    var st := Now(sys);
    if t in st.tasks {
      StepsAreBounded(st, step, t);
      assert TaskInv(st.tasks[t]);
    } else {
      NoNewTasks(st, step);
    }
  }

  lemma NoNewTasks(st: Interleavings.State, step: Interleavings.Step)
    requires Interleavings.Can(st, step) && !step.Submit?
    ensures Interleavings.Do(st, step).tasks.Keys == st.tasks.Keys
  {
    if TaskStep(step) {
      match step
      case Respond(t, saved) => RespondOnly(st, t, saved);
      case Inspect(t, kind, turns) => InspectOnly(st, t, kind, turns);
      case Complete(t) => CompleteOnly(st, t);
      case Forward(t) => ForwardOnly(st, t);
    } else {
      assert Interleavings.Do(st, step).tasks == st.tasks;
    }
  }

  lemma ServeKeeps(sys: System, step: Interleavings.Step, files: Files, sha256: string -> Digest)
    requires Inv(sys, sha256) && Interleavings.Can(Now(sys), step) && !step.Submit?
    requires Addressed(files, sha256)
    requires forall t: nat | Temp(t) in files :: Temp(t) in sys.files && files[Temp(t)] == sys.files[Temp(t)]
    ensures Inv(sys.(service := sys.service + [step], files := files), sha256)
  {
    var sys' := sys.(service := sys.service + [step], files := files);
    ServiceStep(sys, step);
    TasksStep(Now(sys), step);
    NoNewTasks(Now(sys), step);
    forall t | t in sys'.clients ensures ClientInv(sys', t, sha256) {
      ClientThroughService(sys, step, files, t, sha256);
    }
  }

  lemma RespondKeepsAll(sys: System, t: nat, disk: Disk, sha256: string -> Digest)
    requires Inv(sys, sha256) && Can(sys, Respond(t, disk))
    ensures Inv(Do(sys, Respond(t, disk), sha256), sha256)
  {
    if Saves(Now(sys), t) {
      RespondSaves(sys, t, disk, sha256);
    } else {
      ServeKeeps(sys, Interleavings.Respond(t, true), sys.files, sha256);
      assert sys.(service := sys.service + [Interleavings.Respond(t, true)], files := sys.files)
          == sys.(service := sys.service + [Interleavings.Respond(t, true)]);
    }
  }

  lemma RespondSaves(sys: System, t: nat, disk: Disk, sha256: string -> Digest)
    requires Inv(sys, sha256) && Can(sys, Respond(t, disk)) && Saves(Now(sys), t)
    ensures Inv(Do(sys, Respond(t, disk), sha256), sha256)
  {
    SpoolAfterSave(sys, t, disk, sha256);
    var (files, ok) := Save(sys.files, Temp(t), Home(Now(sys).tasks[t].a), disk);
    ServeKeeps(sys, Interleavings.Respond(t, ok), files, sha256);
  }

  lemma SpoolAfterSave(sys: System, t: nat, disk: Disk, sha256: string -> Digest)
    requires Inv(sys, sha256) && Can(sys, Respond(t, disk)) && Saves(Now(sys), t)
    ensures var files := Save(sys.files, Temp(t), Home(Now(sys).tasks[t].a), disk).0;
            && Addressed(files, sha256)
            && forall u: nat | Temp(u) in files :: Temp(u) in sys.files && files[Temp(u)] == sys.files[Temp(u)]
  {
    var a := Now(sys).tasks[t].a;
    assert ClientInv(sys, t, sha256);
    SaveKeepsAddressed(sys.files, t, a.sessionId, a.digest, disk, sha256);
  }

  /** A move of client `t` alone: the others, the tasks and the files stay as they are. */
  lemma ClientMoves(sys: System, t: nat, c: Client, sha256: string -> Digest)
    requires Inv(sys, sha256)
    requires t in sys.clients || (t !in Now(sys).tasks && Temp(t) !in sys.files)
    requires ClientInv(sys.(clients := sys.clients[t := c]), t, sha256)
    ensures Inv(sys.(clients := sys.clients[t := c]), sha256)
  {
    var sys' := sys.(clients := sys.clients[t := c]);
    forall u | u in sys'.clients ensures ClientInv(sys', u, sha256) {
      if u != t {
        assert ClientInv(sys, u, sha256);
      }
    }
  }

  lemma RaceKeeps(sys: System, t: nat, step: Race.Step, sha256: string -> Digest)
    requires Inv(sys, sha256) && t in sys.clients && Race.Can(sys.clients[t].race, step)
    requires Quiet(step)
             || (step.Replied? && t in Now(sys).tasks && Now(sys).tasks[t].sent == [step.reply])
             || (step.Opened? && sha256(step.content) == sys.clients[t].a.digest)
    ensures Inv(RaceStep(sys, t, step), sha256)
  {
    var c := sys.clients[t];
    assert ClientInv(sys, t, sha256);
    Race.StepKeeps(c.race, step);
    var c' := c.(race := Race.Do(c.race, step));
    ClientMoves(sys, t, c', sha256);
  }

  lemma FetchKeeps(sys: System, t: nat, content: string, sha256: string -> Digest)
    requires Inv(sys, sha256) && Can(sys, Fetch(t, content))
    ensures Inv(Do(sys, Fetch(t, content), sha256), sha256)
  {
    FetchOwn(sys, t, content, sha256);
    FetchOthers(sys, t, content, sha256);
  }

  lemma FetchOwn(sys: System, t: nat, content: string, sha256: string -> Digest)
    requires Inv(sys, sha256) && Can(sys, Fetch(t, content))
    ensures ClientInv(Do(sys, Fetch(t, content), sha256), t, sha256)
  {
    assert ClientInv(sys, t, sha256);
    Race.StepKeeps(sys.clients[t].race, Race.Downloaded);
  }

  lemma FetchOthers(sys: System, t: nat, content: string, sha256: string -> Digest)
    requires Inv(sys, sha256) && Can(sys, Fetch(t, content))
    ensures var sys' := Do(sys, Fetch(t, content), sha256);
            forall u | u in sys'.clients && u != t :: ClientInv(sys', u, sha256)
  {
    var sys' := Do(sys, Fetch(t, content), sha256);
    forall u | u in sys'.clients && u != t ensures ClientInv(sys', u, sha256) {
      assert ClientInv(sys, u, sha256);
    }
  }

  /** Asking submits an artifact as it comes from the download. */
  lemma AskSubmits(sys: System, t: nat, sha256: string -> Digest)
    requires Inv(sys, sha256) && Can(sys, Ask(t))
    ensures var sys' := Do(sys, Ask(t), sha256);
            && Interleavings.Can(Now(sys), Interleavings.Submit(t, sys.clients[t].a))
            && Interleavings.Run(sys'.service)
            && Now(sys') == Interleavings.Do(Now(sys), Interleavings.Submit(t, sys.clients[t].a))
  {
    assert ClientInv(sys, t, sha256);
    ServiceStep(sys, Interleavings.Submit(t, sys.clients[t].a));
  }

  lemma AskKeeps(sys: System, t: nat, sha256: string -> Digest)
    requires Inv(sys, sha256) && Can(sys, Ask(t))
    ensures Inv(Do(sys, Ask(t), sha256), sha256)
  {
    AskSubmits(sys, t, sha256);
    TasksStep(Now(sys), Interleavings.Submit(t, sys.clients[t].a));
    AskOwn(sys, t, sha256);
    AskOthers(sys, t, sha256);
  }

  lemma AskOwn(sys: System, t: nat, sha256: string -> Digest)
    requires Inv(sys, sha256) && Can(sys, Ask(t)) && Interleavings.Run(Do(sys, Ask(t), sha256).service)
    ensures ClientInv(Do(sys, Ask(t), sha256), t, sha256)
  {
    assert ClientInv(sys, t, sha256);
    AskSubmits(sys, t, sha256);
    Race.StepKeeps(sys.clients[t].race, Race.Requested);
  }

  lemma AskOthers(sys: System, t: nat, sha256: string -> Digest)
    requires Inv(sys, sha256) && Can(sys, Ask(t)) && Interleavings.Run(Do(sys, Ask(t), sha256).service)
    ensures var sys' := Do(sys, Ask(t), sha256); forall u | u in sys'.clients && u != t :: ClientInv(sys', u, sha256)
  {
    var sys' := Do(sys, Ask(t), sha256);
    forall u | u in sys'.clients && u != t ensures ClientInv(sys', u, sha256) {
      AskOther(sys, t, u, sha256);
    }
  }

  lemma AskOther(sys: System, t: nat, u: nat, sha256: string -> Digest)
    requires Inv(sys, sha256) && Can(sys, Ask(t)) && Interleavings.Run(Do(sys, Ask(t), sha256).service)
    requires u in sys.clients && u != t
    ensures ClientInv(Do(sys, Ask(t), sha256), u, sha256)
  {
    AskSubmits(sys, t, sha256);
    assert ClientInv(sys, u, sha256);
  }

  lemma StartKeeps(sys: System, t: nat, id: SessionId, url: string, request: InspectionMap, sha256: string -> Digest)
    requires Inv(sys, sha256) && Can(sys, Start(t, id, url, request))
    ensures Inv(Do(sys, Start(t, id, url, request), sha256), sha256)
  {
    var a := Record(id, "", 0, FRESH.(request := request), Unknown, Download(url, ""), []);
    ClientMoves(sys, t, Client(Race.START, a), sha256);
  }

  lemma PurgeKeeps(sys: System, gone: set<Path>, sha256: string -> Digest)
    requires Inv(sys, sha256)
    ensures Inv(sys.(files := sys.files - gone), sha256)
  {
    var sys' := sys.(files := sys.files - gone);
    forall u | u in sys'.clients ensures ClientInv(sys', u, sha256) {
      assert ClientInv(sys, u, sha256);
    }
  }

  lemma HearKeeps(sys: System, t: nat, sha256: string -> Digest)
    requires Inv(sys, sha256) && Can(sys, Hear(t))
    ensures Inv(Do(sys, Hear(t), sha256), sha256)
  {
    var sent := Now(sys).tasks[t].sent;
    assert sent == [sent[0]];
    RaceKeeps(sys, t, Race.Replied(sent[0]), sha256);
  }

  lemma OpenKeeps(sys: System, t: nat, sha256: string -> Digest)
    requires Inv(sys, sha256) && Can(sys, Open(t))
    ensures Inv(Do(sys, Open(t), sha256), sha256)
  {
    RaceKeeps(sys, t, Race.Opened(sys.files[Home(sys.clients[t].a)]), sha256);
  }

  lemma StepServed(sys: System, step: Interleavings.Step, sha256: string -> Digest)
    requires Inv(sys, sha256) && Can(sys, Serve(step))
    ensures Inv(Do(sys, Serve(step), sha256), sha256)
  {
    ServeKeeps(sys, step, sys.files, sha256);
    assert sys.(service := sys.service + [step], files := sys.files) == sys.(service := sys.service + [step]);
  }

  lemma MoveKeeps(sys: System, m: Move, sha256: string -> Digest)
    requires Inv(sys, sha256) && Can(sys, m)
    ensures Inv(Do(sys, m, sha256), sha256)
  {
    match m
    case Serve(step) => StepServed(sys, step, sha256);
    case Respond(t, disk) => RespondKeepsAll(sys, t, disk, sha256);
    case Start(t, id, url, request) => StartKeeps(sys, t, id, url, request, sha256);
    case Fetch(t, content) => FetchKeeps(sys, t, content, sha256);
    case Ask(t) => AskKeeps(sys, t, sha256);
    case Hear(t) => HearKeeps(sys, t, sha256);
    case Open(t) => OpenKeeps(sys, t, sha256);
    case Local(t, step) => RaceKeeps(sys, t, step, sha256);
    case Purge(gone) => PurgeKeeps(sys, gone, sha256);
  }

  /** The systems reachable by a list of moves. */
  /** Where the moves lead, if each of them is possible in its turn. */
  ghost function Target(from: System, moves: seq<Move>, sha256: string -> Digest): Option<System>
    decreases |moves|
  {
    if moves == [] then Some(from)
    else if Interleavings.Run(from.service) && Can(from, moves[0]) then Target(Do(from, moves[0], sha256), moves[1..], sha256)
    else None
  }

  ghost predicate Leads(from: System, moves: seq<Move>, to: System, sha256: string -> Digest) {
    Target(from, moves, sha256) == Some(to)
  }

  ghost predicate Reaches(moves: seq<Move>, sys: System, sha256: string -> Digest) {
    Leads(BOOT, moves, sys, sha256)
  }

  lemma {:induction false} TargetTwice(a: System, m: seq<Move>, n: seq<Move>, sha256: string -> Digest)
    requires Target(a, m, sha256).Some?
    ensures Target(a, m + n, sha256) == Target(Target(a, m, sha256).value, n, sha256)
    decreases |m|
  {
    if m == [] {
      assert m + n == n;
    } else {
      assert (m + n)[1..] == m[1..] + n;
      TargetTwice(Do(a, m[0], sha256), m[1..], n, sha256);
    }
  }

  lemma LeadsTwice(a: System, m: seq<Move>, b: System, n: seq<Move>, c: System, sha256: string -> Digest)
    requires Leads(a, m, b, sha256) && Leads(b, n, c, sha256)
    ensures Leads(a, m + n, c, sha256)
  {
    TargetTwice(a, m, n, sha256);
  }

  lemma LeadsOne(a: System, m: Move, b: System, sha256: string -> Digest)
    requires Interleavings.Run(a.service) && Can(a, m) && Do(a, m, sha256) == b
    ensures Leads(a, [m], b, sha256)
  {
    assert [m][1..] == [];
  }

  lemma {:induction false} LeadsKeeps(from: System, moves: seq<Move>, to: System, sha256: string -> Digest)
    requires Inv(from, sha256) && Leads(from, moves, to, sha256)
    ensures Inv(to, sha256)
    decreases |moves|
  {
    if moves != [] {
      MoveKeeps(from, moves[0], sha256);
      LeadsKeeps(Do(from, moves[0], sha256), moves[1..], to, sha256);
    }
  }

  lemma ReachableInv(moves: seq<Move>, sys: System, sha256: string -> Digest)
    requires Reaches(moves, sys, sha256)
    ensures Inv(sys, sha256)
  {
    LeadsKeeps(BOOT, moves, sys, sha256);
  }

  /** Every asset in the spool has the digest in its name, in every reachable system. */
  lemma SpoolAlwaysAddressed(moves: seq<Move>, sys: System, sha256: string -> Digest)
    requires Reaches(moves, sys, sha256)
    ensures Addressed(sys.files, sha256)
  {
    ReachableInv(moves, sys, sha256);
  }

  /** What a client has received, in any state that keeps the invariant. */
  lemma BytesApproved(sys: System, t: nat, sha256: string -> Digest)
    requires Inv(sys, sha256) && t in sys.clients && sys.clients[t].race.copied != ""
    ensures t in Now(sys).tasks
    ensures var c, task := sys.clients[t], Now(sys).tasks[t];
            && c.race.copied <= c.race.content && sha256(c.race.content) == c.a.digest
            && SameSubject(c.a, task.a) && task.sent == [Nil]
            && (!task.permissive ==> exists f :: ApprovedBy(Now(sys), t, f))
  {
    assert ClientInv(sys, t, sha256);
    if !Now(sys).tasks[t].permissive {
      NilMeansApproved(sys.service, t);
    }
  }

  /** End to end: whatever the interleaving, bytes handed to a client are a prefix of a file with
      the digest of the artifact that was inspected for it, its inspection replied nil, and in a
      strict session some completed inspection of that digest in that session was approved by an
      inspector that had left its own request pending. */
  lemma OnlyApprovedBytes(moves: seq<Move>, sys: System, t: nat, sha256: string -> Digest)
    requires Reaches(moves, sys, sha256) && t in sys.clients && sys.clients[t].race.copied != ""
    ensures Interleavings.Run(sys.service) && t in Now(sys).tasks
    ensures var c, task := sys.clients[t], Now(sys).tasks[t];
            && c.race.copied <= c.race.content && sha256(c.race.content) == c.a.digest
            && SameSubject(c.a, task.a) && task.sent == [Nil]
            && (!task.permissive ==> exists f :: ApprovedBy(Now(sys), t, f))
  {
    ReachableInv(moves, sys, sha256);
    BytesApproved(sys, t, sha256);
  }
}
