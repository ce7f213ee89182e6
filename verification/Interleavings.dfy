/** The service as a step system: the dispatcher's handlers, the inspection goroutines and the
    session timers, in any order the scheduler chooses. */
module Interleavings {
  import opened Basics
  import opened Opinions
  import opened Runner
  import opened Protocol

  /** How a response inspection ended. */
  datatype How = Inactive | Unsaved | Reused | Lost | Kept

  datatype Phase =
    | Posted
    | Inspecting
    | Completing(verdict: Reply)
    | Completed(verdict: Reply, completion: Reply)
    | Done(how: How)

  /** One response inspection. `sent` lists every value ever put on its one-slot reply channel;
      `permissive` is the policy of the session object its goroutine captured. */
  datatype Task = Task(a: Record, permissive: bool, phase: Phase, sent: seq<Reply>)

  datatype AskKind = RequestCheck | Deletion

  datatype AskPhase = Waiting | Working | Answered

  /** A request inspection or a deletion; `sent` counts the replies. */
  datatype Ask = Ask(kind: AskKind, sessionId: SessionId, phase: AskPhase, sent: nat)

  datatype Watcher = Watching | Sending | Gone

  /** A session timer. `ticked`: a value waits on its time channel; `done` is the number of
      values in the one-slot done channel and `fills` how often one was put there. */
  datatype Timer = Timer(running: bool, ticked: bool, watcher: Watcher, done: nat, fills: nat)

  /** The metadata files written for a session so far, and whether session.json was. */
  datatype Flush = Flush(records: map<Digest, Record>, json: bool)

  datatype State = State(
    sessions: Table,
    ever: set<SessionId>,
    total: nat,
    tasks: map<nat, Task>,
    recorded: seq<nat>,
    asks: map<nat, Ask>,
    timers: map<SessionId, Timer>,
    expired: Option<SessionId>,  // the one-slot channel of expired ids
    handling: Option<SessionId>, // an expired id the dispatcher has taken
    flushed: map<SessionId, Flush>,
    ended: Table)

  const INITIAL := State(map[], {}, 0, map[], [], map[], map[], None, None, map[], map[])

  /** How far a Finish gets: the order in which it visits the artifacts, and the number of
      file-system operations that succeed (each artifact, session.json, the cache clean-up). */
  datatype Writes = Writes(order: seq<Digest>, good: nat)

  datatype Step =
    | Create(requested: Option<SessionId>, newId: SessionId, token: string, permissive: bool)
    | Revoke(id: SessionId, token: string)
    | End(id: SessionId, writes: Writes)
    | TakeExpired
    | Expire(writes: Writes)
    | TimerFires(id: SessionId)
    | WatcherWakes(id: SessionId)
    | WatcherSends(id: SessionId)
    | WatcherQuits(id: SessionId)
    | Submit(t: nat, a: Record)
    | Respond(t: nat, saved: bool)
    | Inspect(t: nat, kind: Option<string>, turns: seq<Turn>)
    | Complete(t: nat)
    | Forward(t: nat)
    | Post(q: nat, askKind: AskKind, about: SessionId)
    | Handle(q: nat)
    | Answer(q: nat)

  /** An artifact fresh from a successful local download, before response inspection. */
  predicate FreshArtifact(a: Record) {
    a.current.digest == a.digest && a.downloads == [] && a.findings.response == map[] && a.result == Unknown
  }

  predicate Permutes(order: seq<Digest>, keys: set<Digest>) {
    (forall i, j | 0 <= i < j < |order| :: order[i] != order[j]) && (set d | d in order) == keys
  }

  /** When a step can be taken. */
  predicate Can(st: State, step: Step) {
    match step
    case Create(requested, newId, _, _) =>
      && newId !in st.ever
      && (requested.Some? ==> requested.value in st.sessions || requested.value !in st.ever)
    case Revoke(_, _) => true
    case End(id, w) => id in st.sessions ==> Permutes(w.order, st.sessions[id].artifacts.Keys)
    case TakeExpired => st.expired.Some? && st.handling == None
    case Expire(w) =>
      && st.handling.Some?
      && (st.handling.value in st.sessions ==> Permutes(w.order, st.sessions[st.handling.value].artifacts.Keys))
    case TimerFires(id) => id in st.timers && st.timers[id].running
    case WatcherWakes(id) => id in st.timers && st.timers[id].watcher == Watching && st.timers[id].ticked
    case WatcherSends(id) => id in st.timers && st.timers[id].watcher == Sending && st.expired == None
    case WatcherQuits(id) => id in st.timers && st.timers[id].watcher == Watching && st.timers[id].done > 0
    case Submit(t, a) => t !in st.tasks && FreshArtifact(a)
    case Respond(t, _) => t in st.tasks && st.tasks[t].phase == Posted
    case Inspect(t, _, _) => t in st.tasks && st.tasks[t].phase == Inspecting
    case Complete(t) => t in st.tasks && st.tasks[t].phase.Completing?
    case Forward(t) => t in st.tasks && st.tasks[t].phase.Completed?
    case Post(q, _, _) => q !in st.asks
    case Handle(q) => q in st.asks && st.asks[q].phase == Waiting
    case Answer(q) => q in st.asks && st.asks[q].phase == Working
  }

  function DoCreate(st: State, id: SessionId, token: string, permissive: bool): State {
    st.(sessions := st.sessions[id := NewSession(token, permissive)],
        ever := st.ever + {id},
        total := st.total + 1,
        timers := st.timers[id := Timer(true, false, Watching, 0, 0)])
  }

  /** Whether all operations of a finish succeed. */
  predicate WritesAll(w: Writes) {
    w.good >= |w.order| + 2
  }

  /** The files of a session after a finish got as far as `w` says. */
  function FlushedBy(before: Flush, s: SessionState, w: Writes): Flush {
    var reached := w.order[..if w.good < |w.order| then w.good else |w.order|];
    Flush(before.records + (map d | d in s.artifacts.Keys && d in reached :: s.artifacts[d]),
          before.json || w.good > |w.order|)
  }

  /** The timer is stopped, and cancelled when the session is discarded. */
  function StoppedTimer(tm: Timer, discarded: bool): Timer {
    if discarded then tm.(running := false, done := tm.done + 1, fills := tm.fills + 1) else tm.(running := false)
  }

  /** Finish: stop the timer, write the metadata, and only then discard the session. */
  function DoFinish(st: State, id: SessionId, w: Writes): State
    requires id in st.sessions && Permutes(w.order, st.sessions[id].artifacts.Keys)
  {
    var s, all := st.sessions[id], WritesAll(w);
    var before := if id in st.flushed then st.flushed[id] else Flush(map[], false);
    var tm := if id in st.timers then st.timers[id] else Timer(false, false, Gone, 0, 0);
    st.(sessions := if all then st.sessions - {id} else st.sessions,
        flushed := st.flushed[id := FlushedBy(before, s, w)],
        ended := if all then st.ended[id := s] else st.ended,
        timers := st.timers[id := StoppedTimer(tm, all)])
  }

  /** The digest is on record in the task's live session. */
  predicate OnRecord(sessions: Table, task: Task) {
    task.a.sessionId in sessions && task.a.digest in sessions[task.a.sessionId].artifacts
  }

  /** A response inspection after the dispatcher has seen it: refused, reused, not saved, or started. */
  function Responding(sessions: Table, task: Task, saved: bool): Task {
    if task.a.sessionId !in sessions then task.(phase := Done(Inactive), sent := task.sent + [Err(InactiveSession)])
    else
      var s := sessions[task.a.sessionId];
      if task.a.digest in s.artifacts then
        Task(task.a, s.permissive, Done(Reused), task.sent + [ReuseReply(s, task.a.digest)])
      else if !saved then task.(phase := Done(Unsaved), sent := task.sent + [Err(NotSaved)])
      else task.(phase := Inspecting, permissive := s.permissive)
  }

  function DoRespond(st: State, t: nat, saved: bool): State
    requires t in st.tasks
  {
    var task := st.tasks[t];
    var id, reuses := task.a.sessionId, OnRecord(st.sessions, task);
    st.(sessions := if reuses then st.sessions[id := AddDownload(st.sessions[id], task.a.current)] else st.sessions,
        recorded := if reuses then st.recorded + [t] else st.recorded,
        tasks := st.tasks[t := Responding(st.sessions, task, saved)])
  }

  function DoInspect(st: State, t: nat, kind: Option<string>, turns: seq<Turn>): State
    requires t in st.tasks
  {
    var task := st.tasks[t];
    var run := ArtifactRun(task.a.findings, task.permissive, kind, turns);
    var (result, verdict) := Evaluate(task.permissive, run);
    st.(tasks := st.tasks[t := task.(a := task.a.(findings := run.0, result := result), phase := Completing(verdict))])
  }

  function DoComplete(st: State, t: nat): State
    requires t in st.tasks && st.tasks[t].phase.Completing?
  {
    var task := st.tasks[t];
    var id, live := task.a.sessionId, task.a.sessionId in st.sessions;
    st.(sessions := if live then st.sessions[id := CompleteOn(st.sessions[id], task.a)] else st.sessions,
        recorded := if live then st.recorded + [t] else st.recorded,
        tasks := st.tasks[t := task.(phase := Completed(task.phase.verdict, if live then Nil else Err(InactiveSession)))])
  }

  function DoForward(st: State, t: nat): State
    requires t in st.tasks && st.tasks[t].phase.Completed?
  {
    var task := st.tasks[t];
    var ok := task.phase.completion == Nil;
    st.(tasks := st.tasks[t := task.(
          phase := Done(if ok then Kept else Lost),
          sent := task.sent + [if ok then task.phase.verdict else task.phase.completion])])
  }

  function DoHandle(st: State, q: nat): State
    requires q in st.asks
  {
    var ask := st.asks[q];
    var live := ask.sessionId in st.sessions;
    var immediate := if ask.kind == RequestCheck then !live else live;
    st.(asks := st.asks[q := if immediate then ask.(phase := Answered, sent := ask.sent + 1) else ask.(phase := Working)])
  }

  function Do(st: State, step: Step): State
    requires Can(st, step)
  {
    match step
    case Create(requested, newId, token, permissive) =>
      DoCreate(st, if requested.Some? && requested.value !in st.sessions then requested.value else newId, token, permissive)
    case Revoke(id, token) =>
      if id in st.sessions then st.(sessions := st.sessions[id := RevokeToken(st.sessions[id], token)]) else st
    case End(id, w) => if id in st.sessions then DoFinish(st, id, w) else st
    case TakeExpired => st.(handling := st.expired, expired := None)
    case Expire(w) =>
      var id, next := st.handling.value, st.(handling := None);
      if id in st.sessions then DoFinish(next, id, w) else next
    case TimerFires(id) => st.(timers := st.timers[id := st.timers[id].(running := false, ticked := true)])
    case WatcherWakes(id) => st.(timers := st.timers[id := st.timers[id].(ticked := false, watcher := Sending)])
    case WatcherSends(id) => st.(timers := st.timers[id := st.timers[id].(watcher := Gone)], expired := Some(id))
    case WatcherQuits(id) =>
      st.(timers := st.timers[id := st.timers[id].(done := st.timers[id].done - 1, watcher := Gone)])
    case Submit(t, a) => st.(tasks := st.tasks[t := Task(a, false, Posted, [])])
    case Respond(t, saved) => DoRespond(st, t, saved)
    case Inspect(t, kind, turns) => DoInspect(st, t, kind, turns)
    case Complete(t) => DoComplete(st, t)
    case Forward(t) => DoForward(st, t)
    case Post(q, kind, about) => st.(asks := st.asks[q := Ask(kind, about, Waiting, 0)])
    case Handle(q) => DoHandle(st, q)
    case Answer(q) => st.(asks := st.asks[q := st.asks[q].(phase := Answered, sent := st.asks[q].sent + 1)])
  }

  /** A run: steps each of which can be taken after those before it. */
  predicate Run(steps: seq<Step>)
    decreases |steps|, 0
  {
    steps == [] || (Run(steps[..|steps| - 1]) && Can(After(steps[..|steps| - 1]), steps[|steps| - 1]))
  }

  function After(steps: seq<Step>): State
    requires Run(steps)
    decreases |steps|, 1
  {
    if steps == [] then INITIAL else Do(After(steps[..|steps| - 1]), steps[|steps| - 1])
  }
}
