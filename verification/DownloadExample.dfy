/** One download from the client's request to the bytes it receives, in a strict session. */
module DownloadExample {
  import opened Basics
  import opened Opinions
  import opened Runner
  import opened Protocol
  import opened Invariants
  import opened Spool
  import opened Pipeline
  import Interleavings
  import Race

  type Hash = string -> Digest

  /** A file system without failures. */
  const WORKS := Disk(true, true, true, true, true, true, 0, true, true)

  /** The record of a client's download of `content`. */
  function RecordOf(id: SessionId, url: string, request: InspectionMap, content: string, sha256: Hash): Record {
    var d := sha256(content);
    Record(id, d, |content|, FRESH.(request := request), Unknown, Download(url, d), [])
  }

  function Waiting(a: Record): Client {
    Client(Race.START.(pc := Race.Awaiting), a)
  }

  /** The spool after a download was kept. */
  function SpoolWith(files: Files, t: nat, id: SessionId, d: Digest, content: string): Files {
    Save(files[Temp(t) := content], Temp(t), Asset(id, d), WORKS).0
  }

  predicate Holds(files: Files, p: Path, content: string) {
    p in files && files[p] == content
  }

  lemma SpoolHolds(files: Files, t: nat, id: SessionId, d: Digest, content: string)
    requires Asset(id, d) in files ==> files[Asset(id, d)] == content
    ensures !Torn(files[Temp(t) := content], Temp(t), WORKS)
    ensures Save(files[Temp(t) := content], Temp(t), Asset(id, d), WORKS).1
    ensures Holds(SpoolWith(files, t, id, d, content), Asset(id, d), content)
    ensures var g := SpoolWith(files, t, id, d, content);
            forall p: Path | p.Asset? && p in g :: p == Asset(id, d) || Holds(files, p, g[p])
  {
  }

  /** A live strict session that does not hold the digest. */
  ghost predicate Wants(st: Interleavings.State, id: SessionId, d: Digest) {
    id in st.sessions && !st.sessions[id].permissive && d !in st.sessions[id].artifacts
  }

  /** Handing a download to the inspectors. */
  lemma Accepted(st: Interleavings.State, t: nat, a: Record)
    requires t !in st.tasks && Interleavings.FreshArtifact(a) && Wants(st, a.sessionId, a.digest)
    ensures var s1 := Interleavings.Submit(t, a);
            Interleavings.Can(st, s1) && Interleavings.Can(Interleavings.Do(st, s1), Interleavings.Respond(t, true))
    ensures Interleavings.Do(Interleavings.Do(st, Interleavings.Submit(t, a)), Interleavings.Respond(t, true))
            == st.(tasks := st.tasks[t := Interleavings.Task(a, false, Interleavings.Inspecting, [])])
  {
  }

  function BeginMoves(id: SessionId, t: nat, url: string, request: InspectionMap, content: string): seq<Move> {
    [Start(t, id, url, request), Fetch(t, content)] + ([Ask(t)] + [Respond(t, WORKS)])
  }

  function Fetched(sys: System, id: SessionId, t: nat, url: string, request: InspectionMap, content: string, sha256: Hash): System {
    var a := RecordOf(id, url, request, content, sha256);
    sys.(clients := sys.clients[t := Client(Race.START.(pc := Race.Requesting), a)], files := sys.files[Temp(t) := content])
  }

  lemma Fetches(sys: System, id: SessionId, t: nat, url: string, request: InspectionMap, content: string, sha256: Hash)
    requires Interleavings.Run(sys.service) && t !in sys.clients && t !in Now(sys).tasks
    ensures Leads(sys, [Start(t, id, url, request), Fetch(t, content)], Fetched(sys, id, t, url, request, content, sha256), sha256)
  {
    var start := Start(t, id, url, request);
    var started := Do(sys, start, sha256);
    LeadsOne(sys, start, started, sha256);
    FetchesOne(started, t, content, sha256);
    LeadsTwice(sys, [start], started, [Fetch(t, content)], Do(started, Fetch(t, content), sha256), sha256);
    assert Do(started, Fetch(t, content), sha256).clients == Fetched(sys, id, t, url, request, content, sha256).clients;
    assert [start] + [Fetch(t, content)] == [start, Fetch(t, content)];
  }

  lemma FetchesOne(sys: System, t: nat, content: string, sha256: Hash)
    requires Interleavings.Run(sys.service) && t in sys.clients && sys.clients[t].race == Race.START
    ensures Can(sys, Fetch(t, content)) && Leads(sys, [Fetch(t, content)], Do(sys, Fetch(t, content), sha256), sha256)
  {
    LeadsOne(sys, Fetch(t, content), Do(sys, Fetch(t, content), sha256), sha256);
  }

  lemma Asks(sys: System, t: nat, sha256: Hash)
    requires Interleavings.Run(sys.service) && t in sys.clients && t !in Now(sys).tasks
    requires sys.clients[t].race == Race.START.(pc := Race.Requesting) && Interleavings.FreshArtifact(sys.clients[t].a)
    ensures var next := sys.(service := sys.service + [Interleavings.Submit(t, sys.clients[t].a)], clients := sys.clients[t := Waiting(sys.clients[t].a)]);
            && Interleavings.Run(next.service) && Leads(sys, [Ask(t)], next, sha256)
            && Now(next) == Interleavings.Do(Now(sys), Interleavings.Submit(t, sys.clients[t].a))
  {
    var a := sys.clients[t].a;
    ServiceStep(sys, Interleavings.Submit(t, a));
    var next := Do(sys, Ask(t), sha256);
    assert next.clients == sys.clients[t := Waiting(a)];
    LeadsOne(sys, Ask(t), next, sha256);
  }

  lemma Responds(sys: System, t: nat, content: string, files: Files, sha256: Hash)
    requires Interleavings.Run(sys.service) && Interleavings.Can(Now(sys), Interleavings.Respond(t, true)) && Saves(Now(sys), t)
    requires sys.files == files[Temp(t) := content]
    requires var p := Home(Now(sys).tasks[t].a); p in files ==> files[p] == content
    ensures var a := Now(sys).tasks[t].a;
            Leads(sys, [Respond(t, WORKS)],
                  sys.(service := sys.service + [Interleavings.Respond(t, true)], files := SpoolWith(files, t, a.sessionId, a.digest, content)),
                  sha256)
  {
    var a := Now(sys).tasks[t].a;
    SpoolHolds(files, t, a.sessionId, a.digest, content);
    LeadsOne(sys, Respond(t, WORKS), Do(sys, Respond(t, WORKS), sha256), sha256);
  }

  function HandedOver(sys: System, t: nat, files: Files, content: string): System
    requires t in sys.clients
  {
    var a := sys.clients[t].a;
    System(sys.service + [Interleavings.Submit(t, a)] + [Interleavings.Respond(t, true)], sys.clients[t := Waiting(a)],
           SpoolWith(files, t, a.sessionId, a.digest, content))
  }

  /** From the download's end until it is with the inspectors. */
  lemma HandsOver(sys: System, t: nat, files: Files, content: string, sha256: Hash)
    requires Interleavings.Run(sys.service) && t in sys.clients && t !in Now(sys).tasks
    requires sys.clients[t].race == Race.START.(pc := Race.Requesting) && Interleavings.FreshArtifact(sys.clients[t].a)
    requires Wants(Now(sys), sys.clients[t].a.sessionId, sys.clients[t].a.digest) && sys.files == files[Temp(t) := content]
    requires var p := Home(sys.clients[t].a); p in files ==> files[p] == content
    ensures var next := HandedOver(sys, t, files, content);
            && Leads(sys, [Ask(t)] + [Respond(t, WORKS)], next, sha256) && Interleavings.Run(next.service)
            && Now(next) == Now(sys).(tasks := Now(sys).tasks[t := Interleavings.Task(sys.clients[t].a, false, Interleavings.Inspecting, [])])
  {
    var a := sys.clients[t].a;
    Accepted(Now(sys), t, a);
    Asks(sys, t, sha256);
    var asked := sys.(service := sys.service + [Interleavings.Submit(t, a)], clients := sys.clients[t := Waiting(a)]);
    Responds(asked, t, content, files, sha256);
    ServiceStep(asked, Interleavings.Respond(t, true));
    LeadsTwice(sys, [Ask(t)], asked, [Respond(t, WORKS)], HandedOver(sys, t, files, content), sha256);
  }

  /** The client has its file, and the inspection is under way. */
  function Begun(sys: System, id: SessionId, t: nat, url: string, request: InspectionMap, content: string, sha256: Hash): System {
    HandedOver(Fetched(sys, id, t, url, request, content, sha256), t, sys.files, content)
  }

  /** From a client's request until its download is with the inspectors. */
  lemma Begins(sys: System, id: SessionId, t: nat, url: string, request: InspectionMap, content: string, sha256: Hash)
    requires Interleavings.Run(sys.service) && t !in sys.clients && t !in Now(sys).tasks && Wants(Now(sys), id, sha256(content))
    requires Asset(id, sha256(content)) in sys.files ==> sys.files[Asset(id, sha256(content))] == content
    ensures var next := Begun(sys, id, t, url, request, content, sha256);
            && Leads(sys, BeginMoves(id, t, url, request, content), next, sha256) && Interleavings.Run(next.service)
            && Now(next) == Now(sys).(tasks := Now(sys).tasks[t := Interleavings.Task(RecordOf(id, url, request, content, sha256), false, Interleavings.Inspecting, [])])
  {
    var fetched := Fetched(sys, id, t, url, request, content, sha256);
    Fetches(sys, id, t, url, request, content, sha256);
    HandsOver(fetched, t, sys.files, content, sha256);
    LeadsTwice(sys, [Start(t, id, url, request), Fetch(t, content)], fetched, [Ask(t)] + [Respond(t, WORKS)],
               Begun(sys, id, t, url, request, content, sha256), sha256);
  }

  lemma BegunState(sys: System, id: SessionId, t: nat, url: string, request: InspectionMap, content: string, sha256: Hash)
    requires Asset(id, sha256(content)) in sys.files ==> sys.files[Asset(id, sha256(content))] == content
    ensures var next := Begun(sys, id, t, url, request, content, sha256);
            && next.clients == sys.clients[t := Waiting(RecordOf(id, url, request, content, sha256))]
            && Holds(next.files, Asset(id, sha256(content)), content)
            && forall p: Path | p.Asset? && p in next.files :: p == Asset(id, sha256(content)) || Holds(sys.files, p, next.files[p])
  {
    SpoolHolds(sys.files, t, id, sha256(content), content);
  }

  lemma Serves(sys: System, step: Interleavings.Step, sha256: Hash)
    requires Interleavings.Run(sys.service) && Interleavings.Can(Now(sys), step) && !step.Submit? && !step.Respond?
    ensures var next := sys.(service := sys.service + [step]);
            && Leads(sys, [Serve(step)], next, sha256) && Interleavings.Run(next.service)
            && Now(next) == Interleavings.Do(Now(sys), step)
  {
    ServiceStep(sys, step);
    LeadsOne(sys, Serve(step), sys.(service := sys.service + [step]), sha256);
  }

  function BytesMoves(t: nat): seq<Move> {
    [Hear(t), Open(t)] + [Local(t, Race.Announce), Local(t, Race.Copy(1))]
  }

  function WithRace(sys: System, t: nat, race: Race.State): System
    requires t in sys.clients
  {
    sys.(clients := sys.clients[t := sys.clients[t].(race := race)])
  }

  lemma Opens(sys: System, t: nat, content: string, sha256: Hash)
    requires Interleavings.Run(sys.service) && t in sys.clients && t in Now(sys).tasks && Now(sys).tasks[t].sent == [Nil]
    requires sys.clients[t].race == Race.START.(pc := Race.Awaiting) && Holds(sys.files, Home(sys.clients[t].a), content)
    ensures Leads(sys, [Hear(t), Open(t)],
                  WithRace(sys, t, Race.START.(pc := Race.Announcing, reply := Some(Nil), content := content)), sha256)
  {
    var heard := WithRace(sys, t, Race.START.(pc := Race.Opening, reply := Some(Nil)));
    LeadsOne(sys, Hear(t), heard, sha256);
    var ready := Do(heard, Open(t), sha256);
    LeadsOne(heard, Open(t), ready, sha256);
    LeadsTwice(sys, [Hear(t)], heard, [Open(t)], ready, sha256);
    assert [Hear(t)] + [Open(t)] == [Hear(t), Open(t)];
    assert ready.clients == WithRace(sys, t, Race.START.(pc := Race.Announcing, reply := Some(Nil), content := content)).clients;
  }

  lemma Copies(sys: System, t: nat, content: string, sha256: Hash) returns (next: System)
    requires Interleavings.Run(sys.service) && t in sys.clients && content != ""
    requires sys.clients[t].race == Race.START.(pc := Race.Announcing, reply := Some(Nil), content := content)
    ensures Leads(sys, [Local(t, Race.Announce), Local(t, Race.Copy(1))], next, sha256)
    ensures next.service == sys.service && t in next.clients && next.clients[t].race.copied == content[..1]
  {
    var announce, copy := Local(t, Race.Announce), Local(t, Race.Copy(1));
    var announced := Do(sys, announce, sha256);
    LeadsOne(sys, announce, announced, sha256);
    next := Do(announced, copy, sha256);
    LeadsOne(announced, copy, next, sha256);
    LeadsTwice(sys, [announce], announced, [copy], next, sha256);
    assert [announce] + [copy] == [announce, copy];
  }

  /** From the nil reply to the first byte of the file at the client. */
  lemma Delivers(sys: System, t: nat, content: string, sha256: Hash) returns (next: System)
    requires Interleavings.Run(sys.service) && t in sys.clients && t in Now(sys).tasks && Now(sys).tasks[t].sent == [Nil]
    requires sys.clients[t].race == Race.START.(pc := Race.Awaiting) && Holds(sys.files, Home(sys.clients[t].a), content) && content != ""
    ensures Leads(sys, BytesMoves(t), next, sha256)
    ensures next.service == sys.service && t in next.clients && next.clients[t].race.copied == content[..1]
  {
    Opens(sys, t, content, sha256);
    var ready := WithRace(sys, t, Race.START.(pc := Race.Announcing, reply := Some(Nil), content := content));
    next := Copies(ready, t, content, sha256);
    LeadsTwice(sys, [Hear(t), Open(t)], ready, [Local(t, Race.Announce), Local(t, Race.Copy(1))], next, sha256);
  }

  // The example

  const ASKED: InspectionMap := map["x" := Inspection(Pending, NoReason, map[])]
  const APPROVES := Turn("x", Outcome([Verdict(Approved, NoReason, NO_METADATA, map[])], None), true)

  /** The one inspector approves. */
  lemma RunApproves(f: Findings)
    requires f == FRESH.(request := ASKED)
    ensures var (g, err) := ArtifactRun(f, false, Some("k"), [APPROVES]);
            err.None? && ArtifactApproved(g) && Evaluate(false, (g, err)) == (Approved, Nil)
  {
    var v := Verdict(Approved, NoReason, NO_METADATA, map[]);
    var f0 := f.(kind := "k");
    assert [v][..0] == [] && SetResponses(f0, "x", []) == f0;
    var g := SetResponses(f0, "x", [v]);
    assert g.response == map["x" := Inspection(Approved, NoReason, map[])] && g.request["x"].opinion == Pending;
    assert [APPROVES][1..] == [];
    assert ArtifactTurns(f0, false, [APPROVES]) == ArtifactTurns(g, false, []) == (g, None);
    assert g.response["x"].opinion == Approved;
  }

  /** An inspection that ran to its end and was forwarded. */
  function Closed(task: Interleavings.Task): Interleavings.Task
    requires task.phase.Completing?
  {
    Interleavings.Task(task.a, task.permissive, Interleavings.Done(Interleavings.Kept), [task.phase.verdict])
  }

  /** The rest of an inspection: recorded, and answered. */
  lemma Finishes(st: Interleavings.State, t: nat)
    requires t in st.tasks && st.tasks[t].phase.Completing? && st.tasks[t].sent == [] && st.tasks[t].a.sessionId in st.sessions
    ensures Interleavings.Can(st, Interleavings.Complete(t))
    ensures var next := Interleavings.Do(st, Interleavings.Complete(t));
            && Interleavings.Can(next, Interleavings.Forward(t))
            && var last := Interleavings.Do(next, Interleavings.Forward(t));
            && last.tasks == st.tasks[t := Closed(st.tasks[t])]
            && last.sessions == st.sessions[st.tasks[t].a.sessionId := CompleteOn(st.sessions[st.tasks[t].a.sessionId], st.tasks[t].a)]
  {
    assert [] + [st.tasks[t].phase.verdict] == [st.tasks[t].phase.verdict];
  }

  function EndMoves(t: nat): seq<Move> {
    [Serve(Interleavings.Complete(t))] + [Serve(Interleavings.Forward(t))]
  }

  function Ended(sys: System, t: nat): System {
    sys.(service := sys.service + [Interleavings.Complete(t)] + [Interleavings.Forward(t)])
  }

  /** Complete and forward. */
  lemma Ends(sys: System, t: nat, sha256: Hash)
    requires Interleavings.Run(sys.service) && t in Now(sys).tasks && Now(sys).tasks[t].phase.Completing?
    requires Now(sys).tasks[t].sent == [] && Now(sys).tasks[t].a.sessionId in Now(sys).sessions
    ensures Leads(sys, EndMoves(t), Ended(sys, t), sha256) && Interleavings.Run(Ended(sys, t).service)
    ensures Now(Ended(sys, t)).tasks == Now(sys).tasks[t := Closed(Now(sys).tasks[t])]
    ensures var a := Now(sys).tasks[t].a;
            Now(Ended(sys, t)).sessions == Now(sys).sessions[a.sessionId := CompleteOn(Now(sys).sessions[a.sessionId], a)]
  {
    Finishes(Now(sys), t);
    Serves(sys, Interleavings.Complete(t), sha256);
    var middle := sys.(service := sys.service + [Interleavings.Complete(t)]);
    Serves(middle, Interleavings.Forward(t), sha256);
    LeadsTwice(sys, [Serve(Interleavings.Complete(t))], middle, [Serve(Interleavings.Forward(t))], Ended(sys, t), sha256);
  }

  // One strict session and its downloads

  /** What the spool holds is what `contents` says. */
  predicate Stored(files: Files, contents: map<Digest, string>) {
    forall p: Path | p in files && p.Asset? :: p.digest in contents && files[p] == contents[p.digest]
  }

  /** The session is live and strict and holds the digests `held`; downloads and tasks are those below `n`. */
  ghost predicate Ground(sys: System, id: SessionId, n: nat, held: set<Digest>, contents: map<Digest, string>) {
    && Interleavings.Run(sys.service) && Stored(sys.files, contents)
    && (forall t: nat :: t in sys.clients <==> t < n) && (forall t: nat :: t in Now(sys).tasks <==> t < n)
    && id in Now(sys).sessions && !Now(sys).sessions[id].permissive && Now(sys).sessions[id].artifacts.Keys == held
  }

  /** One more download, up to its inspection. */
  lemma GroundBegins(sys: System, id: SessionId, n: nat, held: set<Digest>, contents: map<Digest, string>, url: string,
                     request: InspectionMap, content: string, sha256: Hash)
    requires Ground(sys, id, n, held, contents)
    requires sha256(content) !in held && sha256(content) in contents && contents[sha256(content)] == content
    ensures var next := Begun(sys, id, n, url, request, content, sha256);
            && Leads(sys, BeginMoves(id, n, url, request, content), next, sha256) && Ground(next, id, n + 1, held, contents)
            && Now(next) == Now(sys).(tasks := Now(sys).tasks[n := Interleavings.Task(RecordOf(id, url, request, content, sha256), false, Interleavings.Inspecting, [])])
            && next.clients[n] == Waiting(RecordOf(id, url, request, content, sha256)) && Holds(next.files, Asset(id, sha256(content)), content)
  {
    Begins(sys, id, n, url, request, content, sha256);
    BegunState(sys, id, n, url, request, content, sha256);
  }

  /** The inspectors' run over task `t` of the session. */
  lemma GroundInspects(sys: System, id: SessionId, n: nat, held: set<Digest>, contents: map<Digest, string>, t: nat, kind: string,
                       turns: seq<Turn>, sha256: Hash)
    requires Ground(sys, id, n, held, contents) && t < n && Now(sys).tasks[t].phase == Interleavings.Inspecting
    ensures var step := Interleavings.Inspect(t, Some(kind), turns);
            var next := sys.(service := sys.service + [step]);
            && Interleavings.Can(Now(sys), step) && Interleavings.Run(next.service) && Ground(next, id, n, held, contents)
            && Now(next) == Interleavings.DoInspect(Now(sys), t, Some(kind), turns)
  {
    Serves(sys, Interleavings.Inspect(t, Some(kind), turns), sha256);
  }

  /** And the rest of it. */
  lemma GroundEnds(sys: System, id: SessionId, n: nat, held: set<Digest>, contents: map<Digest, string>, t: nat, sha256: Hash)
    requires Ground(sys, id, n, held, contents) && t < n && Now(sys).tasks[t].phase.Completing? && Now(sys).tasks[t].sent == []
    requires Now(sys).tasks[t].a.sessionId == id
    ensures Leads(sys, EndMoves(t), Ended(sys, t), sha256) && Ground(Ended(sys, t), id, n, held + {Now(sys).tasks[t].a.digest}, contents)
    ensures Now(Ended(sys, t)).tasks == Now(sys).tasks[t := Closed(Now(sys).tasks[t])]
  {
    Ends(sys, t, sha256);
    KeysOfComplete(Now(sys).sessions[id], Now(sys).tasks[t].a);
  }

  lemma KeysOfComplete(s: SessionState, a: Record)
    ensures CompleteOn(s, a).artifacts.Keys == s.artifacts.Keys + {a.digest} && CompleteOn(s, a).permissive == s.permissive
  {
  }

  /** A live strict session, and nothing else yet. */
  function OneSession(id: SessionId): System {
    System([] + [Interleavings.Create(None, id, "token", false)], map[], map[])
  }

  lemma Creates(id: SessionId, contents: map<Digest, string>, sha256: Hash)
    ensures Leads(BOOT, [Serve(Interleavings.Create(None, id, "token", false))], OneSession(id), sha256)
    ensures Ground(OneSession(id), id, 0, {}, contents) && Now(OneSession(id)).tasks == map[]
  {
    Serves(BOOT, Interleavings.Create(None, id, "token", false), sha256);
    assert NewSession("token", false).artifacts.Keys == {};
  }

  /** A strict session, an approving inspector, and the first byte of the file at the client. */
  lemma BytesExample(content: string, sha256: Hash) returns (moves: seq<Move>, sys: System)
    requires |content| > 0
    ensures Reaches(moves, sys, sha256)
    ensures 0 in sys.clients && sys.clients[0].race.copied == content[..1] && sys.clients[0].race.copied != ""
    ensures Interleavings.Run(sys.service) && 0 in Now(sys).tasks && !Now(sys).tasks[0].permissive
  {
    var contents := map[sha256(content) := content];
    var create := [Serve(Interleavings.Create(None, "s", "token", false))];
    Creates("s", contents, sha256);
    GroundBegins(OneSession("s"), "s", 0, {}, contents, "u", ASKED, content, sha256);
    var begun := Begun(OneSession("s"), "s", 0, "u", ASKED, content, sha256);
    LeadsTwice(BOOT, create, OneSession("s"), BeginMoves("s", 0, "u", ASKED, content), begun, sha256);
    var rest;
    rest, sys := FromInspection(begun, contents, content, sha256);
    moves := create + BeginMoves("s", 0, "u", ASKED, content) + rest;
    LeadsTwice(BOOT, create + BeginMoves("s", 0, "u", ASKED, content), begun, rest, sys, sha256);
  }

  lemma FromInspection(sys: System, contents: map<Digest, string>, content: string, sha256: Hash) returns (moves: seq<Move>, next: System)
    requires Ground(sys, "s", 1, {}, contents) && content != ""
    requires Now(sys).tasks[0] == Interleavings.Task(RecordOf("s", "u", ASKED, content, sha256), false, Interleavings.Inspecting, [])
    requires sys.clients[0] == Waiting(RecordOf("s", "u", ASKED, content, sha256)) && Holds(sys.files, Asset("s", sha256(content)), content)
    ensures Leads(sys, moves, next, sha256) && Interleavings.Run(next.service)
    ensures 0 in next.clients && next.clients[0].race.copied == content[..1] && 0 in Now(next).tasks && !Now(next).tasks[0].permissive
  {
    var inspect := Interleavings.Inspect(0, Some("k"), [APPROVES]);
    RunApproves(Now(sys).tasks[0].a.findings);
    GroundInspects(sys, "s", 1, {}, contents, 0, "k", [APPROVES], sha256);
    Serves(sys, inspect, sha256);
    var inspected := sys.(service := sys.service + [inspect]);
    GroundEnds(inspected, "s", 1, {}, contents, 0, sha256);
    LeadsTwice(sys, [Serve(inspect)], inspected, EndMoves(0), Ended(inspected, 0), sha256);
    next := Delivers(Ended(inspected, 0), 0, content, sha256);
    moves := [Serve(inspect)] + EndMoves(0) + BytesMoves(0);
    LeadsTwice(sys, [Serve(inspect)] + EndMoves(0), Ended(inspected, 0), BytesMoves(0), next, sha256);
  }
}
