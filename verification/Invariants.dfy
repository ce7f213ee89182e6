/** What holds after every step of every run: who was recorded, what the cache says, and what
    was replied. */
module Invariants {
  import opened Basics
  import opened Opinions
  import opened Runner
  import opened Protocol
  import opened Interleavings

  type Tasks = map<nat, Task>

  ghost predicate Matches(tasks: Tasks, t: nat, id: SessionId, d: Digest) {
    t in tasks && tasks[t].a.sessionId == id && tasks[t].a.digest == d
  }

  /** The downloads of one digest in one session, in the order the dispatcher recorded them. */
  ghost function DownloadsOf(tasks: Tasks, recorded: seq<nat>, id: SessionId, d: Digest): seq<Download> {
    if recorded == [] then []
    else
      var n := |recorded| - 1;
      DownloadsOf(tasks, recorded[..n], id, d)
      + if Matches(tasks, recorded[n], id, d) then [tasks[recorded[n]].a.current] else []
  }

  /** The first inspection of that digest to be recorded in that session. */
  ghost function FirstOf(tasks: Tasks, recorded: seq<nat>, id: SessionId, d: Digest): Option<nat> {
    if recorded == [] then None
    else
      var n := |recorded| - 1;
      var f := FirstOf(tasks, recorded[..n], id, d);
      if f.None? && Matches(tasks, recorded[n], id, d) then Some(recorded[n]) else f
  }

  lemma {:induction false} FirstIsRecorded(tasks: Tasks, recorded: seq<nat>, id: SessionId, d: Digest)
    ensures match FirstOf(tasks, recorded, id, d)
            case Some(t) => t in recorded && Matches(tasks, t, id, d)
            case None => forall t | t in recorded :: !Matches(tasks, t, id, d)
    ensures FirstOf(tasks, recorded, id, d).None? ==> DownloadsOf(tasks, recorded, id, d) == []
  {
    if recorded != [] {
      var n := |recorded| - 1;
      FirstIsRecorded(tasks, recorded[..n], id, d);
      assert forall t | t in recorded :: t in recorded[..n] || t == recorded[n];
    }
  }

  /** Recording one more inspection appends its download, or leaves other digests alone. */
  lemma RecordOne(tasks: Tasks, recorded: seq<nat>, t: nat, id: SessionId, d: Digest)
    ensures var f := FirstOf(tasks, recorded, id, d);
            var m := Matches(tasks, t, id, d);
            && FirstOf(tasks, recorded + [t], id, d) == (if f.None? && m then Some(t) else f)
            && DownloadsOf(tasks, recorded + [t], id, d)
               == DownloadsOf(tasks, recorded, id, d) + (if m then [tasks[t].a.current] else [])
  {
    assert (recorded + [t])[..|recorded|] == recorded;
  }

  /** The projections depend only on the artifacts of recorded tasks. */
  lemma {:induction false} SameProjections(tasks: Tasks, tasks': Tasks, recorded: seq<nat>, id: SessionId, d: Digest)
    requires forall t | t in recorded :: t in tasks && t in tasks' && tasks[t].a == tasks'[t].a
    ensures FirstOf(tasks, recorded, id, d) == FirstOf(tasks', recorded, id, d)
    ensures DownloadsOf(tasks, recorded, id, d) == DownloadsOf(tasks', recorded, id, d)
  {
    if recorded != [] {
      SameProjections(tasks, tasks', recorded[..|recorded| - 1], id, d);
    }
  }

  /** The inspectors' verdict is on the artifact, and `v` is the reply it calls for. */
  ghost predicate Judged(task: Task, v: Reply) {
    && (task.a.result == Approved || task.a.result == Rejected)
    && (v == Nil || v == Err(RejectedArtifact) || v == Err(InspectionFailed))
    && (task.permissive ==> v != Err(RejectedArtifact))
    && (task.a.result == Approved ==> v == Nil && ArtifactApproved(task.a.findings))
    && (task.a.result == Approved && !task.permissive ==> Vouched(task.a.findings))
    && (task.a.result == Rejected && v == Nil ==> task.permissive)
  }

  ghost predicate TaskInv(task: Task) {
    && task.a.current.digest == task.a.digest
    && task.a.downloads == []
    && |task.sent| == (if task.phase.Done? then 1 else 0)
    && match task.phase
       case Posted => task.a.findings.response == map[]
       case Inspecting => task.a.findings.response == map[]
       case Completing(v) => Judged(task, v)
       case Completed(v, _) => Judged(task, v)
       case Done(how) =>
         && (how == Kept ==> Judged(task, task.sent[0]))
         && (how == Inactive || how == Lost || how == Unsaved ==> task.sent[0] != Nil)
  }

  /** The inspection was recorded in its session. */
  ghost predicate Contributed(task: Task) {
    task.phase == Done(Reused) || Inspected(task)
  }

  /** It was recorded after running the inspectors, not by reuse. */
  ghost predicate Inspected(task: Task) {
    (task.phase.Completed? && task.phase.completion == Nil) || task.phase == Done(Kept)
  }

  ghost predicate Captured(task: Task) {
    task.phase.Inspecting? || task.phase.Completing? || Contributed(task)
  }

  ghost predicate NoRepeats(s: seq<nat>) {
    forall i, j | 0 <= i < j < |s| :: s[i] != s[j]
  }

  ghost predicate RecordedInv(st: State) {
    && NoRepeats(st.recorded)
    && (forall t | t in st.recorded :: t in st.tasks && Contributed(st.tasks[t]))
    && (forall t | t in st.tasks && Contributed(st.tasks[t]) :: t in st.recorded)
    && (forall t | t in st.tasks && Captured(st.tasks[t]) :: st.tasks[t].a.sessionId in st.ever)
  }

  ghost predicate PolicyInv(st: State) {
    && st.sessions.Keys <= st.ever
    && forall t | t in st.tasks && Captured(st.tasks[t]) && st.tasks[t].a.sessionId in st.sessions ::
         st.tasks[t].permissive == st.sessions[st.tasks[t].a.sessionId].permissive
  }

  /** What a live session holds for a digest: nothing before the first recording, and then that
      first artifact with all downloads recorded so far. */
  ghost predicate Entry(st: State, id: SessionId, d: Digest)
    requires id in st.sessions
  {
    match FirstOf(st.tasks, st.recorded, id, d)
    case None => d !in st.sessions[id].artifacts
    case Some(t) =>
      && t in st.tasks && Inspected(st.tasks[t])
      && d in st.sessions[id].artifacts
      && st.sessions[id].artifacts[d]
         == st.tasks[t].a.(downloads := DownloadsOf(st.tasks, st.recorded, id, d))
  }

  ghost predicate CacheInv(st: State) {
    forall id, d | id in st.sessions :: Entry(st, id, d)
  }

  /** A reused inspection answered for the first recorded one. */
  ghost predicate ReusedRight(st: State, t: nat)
    requires t in st.tasks
  {
    var task := st.tasks[t];
    match FirstOf(st.tasks, st.recorded, task.a.sessionId, task.a.digest)
    case None => false
    case Some(f) =>
      && f in st.tasks && Inspected(st.tasks[f]) && st.tasks[f].permissive == task.permissive
      && task.sent == [if !task.permissive && st.tasks[f].a.result == Rejected then Err(RejectedArtifact) else Nil]
  }

  ghost predicate ReuseInv(st: State) {
    forall t | t in st.tasks && st.tasks[t].phase == Done(Reused) :: ReusedRight(st, t)
  }

  ghost predicate TasksInv(st: State) {
    && (forall t | t in st.tasks :: TaskInv(st.tasks[t]))
    && RecordedInv(st) && PolicyInv(st) && CacheInv(st) && ReuseInv(st)
  }

  // Steps that touch one task and no session

  /** The new value of a task keeps a recorded task's artifact, policy and standing. */
  ghost predicate Replaceable(st: State, t: nat, task: Task) {
    && TaskInv(task)
    && (if t in st.tasks then Contributed(st.tasks[t]) == Contributed(task) else !Contributed(task))
    && (t in st.tasks && Contributed(task) ==>
          && task.a == st.tasks[t].a && task.permissive == st.tasks[t].permissive
          && Inspected(st.tasks[t]) == Inspected(task))
    && (task.phase == Done(Reused) ==> t in st.tasks && st.tasks[t] == task)
    && (Captured(task) ==> task.a.sessionId in st.ever)
    && (Captured(task) && task.a.sessionId in st.sessions ==>
          task.permissive == st.sessions[task.a.sessionId].permissive)
  }

  lemma ReplaceProjections(st: State, t: nat, task: Task, id: SessionId, d: Digest)
    requires RecordedInv(st) && Replaceable(st, t, task)
    ensures FirstOf(st.tasks, st.recorded, id, d) == FirstOf(st.tasks[t := task], st.recorded, id, d)
    ensures DownloadsOf(st.tasks, st.recorded, id, d) == DownloadsOf(st.tasks[t := task], st.recorded, id, d)
    ensures match FirstOf(st.tasks, st.recorded, id, d)
            case Some(f) => f in st.recorded && Matches(st.tasks, f, id, d)
            case None => true
  {
    SameProjections(st.tasks, st.tasks[t := task], st.recorded, id, d);
    FirstIsRecorded(st.tasks, st.recorded, id, d);
  }

  lemma ReplaceEntry(st: State, t: nat, task: Task, id: SessionId, d: Digest)
    requires RecordedInv(st) && Replaceable(st, t, task) && id in st.sessions && Entry(st, id, d)
    ensures Entry(st.(tasks := st.tasks[t := task]), id, d)
  {
    ReplaceProjections(st, t, task, id, d);
  }

  lemma ReplaceReused(st: State, t: nat, task: Task, u: nat)
    requires RecordedInv(st) && Replaceable(st, t, task)
    requires u in st.tasks && st.tasks[u].phase == Done(Reused) && ReusedRight(st, u)
    requires u == t ==> st.tasks[t] == task
    ensures ReusedRight(st.(tasks := st.tasks[t := task]), u)
  {
    ReplaceProjections(st, t, task, st.tasks[u].a.sessionId, st.tasks[u].a.digest);
  }

  lemma ReplaceRecorded(st: State, t: nat, task: Task)
    requires RecordedInv(st) && PolicyInv(st) && Replaceable(st, t, task)
    ensures RecordedInv(st.(tasks := st.tasks[t := task])) && PolicyInv(st.(tasks := st.tasks[t := task]))
  {
  }

  lemma ReplaceTask(st: State, t: nat, task: Task)
    requires TasksInv(st) && Replaceable(st, t, task)
    ensures TasksInv(st.(tasks := st.tasks[t := task]))
  {
    ReplaceRecorded(st, t, task);
    ReplaceCache(st, t, task);
    ReplaceReuses(st, t, task);
  }

  lemma ReplaceCache(st: State, t: nat, task: Task)
    requires RecordedInv(st) && CacheInv(st) && Replaceable(st, t, task)
    ensures CacheInv(st.(tasks := st.tasks[t := task]))
  {
    var st' := st.(tasks := st.tasks[t := task]);
    forall id, d | id in st.sessions ensures Entry(st', id, d) {
      ReplaceEntry(st, t, task, id, d);
    }
  }

  lemma ReplaceReuses(st: State, t: nat, task: Task)
    requires RecordedInv(st) && ReuseInv(st) && Replaceable(st, t, task)
    ensures ReuseInv(st.(tasks := st.tasks[t := task]))
  {
    var st' := st.(tasks := st.tasks[t := task]);
    forall u | u in st'.tasks && st'.tasks[u].phase == Done(Reused) ensures ReusedRight(st', u) {
      ReplaceReused(st, t, task, u);
    }
  }

  lemma SubmitKeeps(st: State, t: nat, a: Record)
    requires TasksInv(st) && t !in st.tasks && FreshArtifact(a)
    ensures TasksInv(st.(tasks := st.tasks[t := Task(a, false, Posted, [])]))
  {
    ReplaceTask(st, t, Task(a, false, Posted, []));
  }

  lemma InspectKeeps(st: State, t: nat, kind: Option<string>, turns: seq<Turn>)
    requires TasksInv(st) && t in st.tasks && st.tasks[t].phase == Inspecting
    ensures TasksInv(DoInspect(st, t, kind, turns))
  {
    assert TaskInv(st.tasks[t]);
    StrictGating(st.tasks[t].a.findings, kind, turns);
    ReplaceTask(st, t, DoInspect(st, t, kind, turns).tasks[t]);
  }

  lemma ForwardKeeps(st: State, t: nat)
    requires TasksInv(st) && t in st.tasks && st.tasks[t].phase.Completed?
    ensures TasksInv(DoForward(st, t))
  {
    assert TaskInv(st.tasks[t]);
    ReplaceTask(st, t, DoForward(st, t).tasks[t]);
  }

  // Steps that record a download

  /** Task `t` is about to be recorded with the value `task`: its digest is already held, or the
      task itself ran the inspectors and its artifact is added. */
  ghost predicate Recordable(st: State, t: nat, task: Task) {
    && t in st.tasks && TaskInv(task) && Contributed(task) && !Contributed(st.tasks[t])
    && task.a == st.tasks[t].a && task.a.sessionId in st.sessions
    && var s := st.sessions[task.a.sessionId];
       && task.permissive == s.permissive
       && (task.a.digest !in s.artifacts ==> Inspected(task))
       && (task.phase == Done(Reused) ==>
             task.a.digest in s.artifacts && task.sent == [ReuseReply(s, task.a.digest)])
  }

  ghost function Record1(st: State, t: nat, task: Task): State
    requires task.a.sessionId in st.sessions
  {
    st.(sessions := st.sessions[task.a.sessionId := CompleteOn(st.sessions[task.a.sessionId], task.a)],
        recorded := st.recorded + [t],
        tasks := st.tasks[t := task])
  }

  lemma RecordProjections(st: State, t: nat, task: Task, id: SessionId, d: Digest)
    requires RecordedInv(st) && Recordable(st, t, task)
    ensures var st', f := Record1(st, t, task), FirstOf(st.tasks, st.recorded, id, d);
            var m := id == task.a.sessionId && d == task.a.digest;
            && FirstOf(st'.tasks, st'.recorded, id, d) == (if f.None? && m then Some(t) else f)
            && DownloadsOf(st'.tasks, st'.recorded, id, d)
               == DownloadsOf(st.tasks, st.recorded, id, d) + (if m then [task.a.current] else [])
            && (f.Some? ==> f.value != t && f.value in st.recorded && Matches(st.tasks, f.value, id, d))
            && (f.None? ==> DownloadsOf(st.tasks, st.recorded, id, d) == [])
  {
    assert t !in st.recorded;
    SameProjections(st.tasks, st.tasks[t := task], st.recorded, id, d);
    RecordOne(st.tasks[t := task], st.recorded, t, id, d);
    FirstIsRecorded(st.tasks, st.recorded, id, d);
  }

  lemma RecordEntry(st: State, t: nat, task: Task, id: SessionId, d: Digest)
    requires RecordedInv(st) && Recordable(st, t, task) && id in st.sessions && Entry(st, id, d)
    ensures Entry(Record1(st, t, task), id, d)
  {
    RecordProjections(st, t, task, id, d);
  }

  lemma RecordReused(st: State, t: nat, task: Task, u: nat)
    requires TasksInv(st) && Recordable(st, t, task)
    requires u in Record1(st, t, task).tasks && Record1(st, t, task).tasks[u].phase == Done(Reused)
    ensures ReusedRight(Record1(st, t, task), u)
  {
    var a := Record1(st, t, task).tasks[u].a;
    RecordProjections(st, t, task, a.sessionId, a.digest);
    if u == t {
      assert Entry(st, a.sessionId, a.digest);
    } else {
      assert ReusedRight(st, u);
    }
  }

  lemma RecordKeeps(st: State, t: nat, task: Task)
    requires TasksInv(st) && Recordable(st, t, task)
    ensures TasksInv(Record1(st, t, task))
  {
    var st' := Record1(st, t, task);
    assert t !in st.recorded;
    forall id, d | id in st'.sessions ensures Entry(st', id, d) {
      assert Entry(st, id, d);
      RecordEntry(st, t, task, id, d);
    }
    forall u | u in st'.tasks && st'.tasks[u].phase == Done(Reused) ensures ReusedRight(st', u) {
      RecordReused(st, t, task, u);
    }
    assert RecordedInv(st');
    assert PolicyInv(st');
  }

  ghost predicate Reuses(st: State, t: nat) {
    && t in st.tasks && st.tasks[t].a.sessionId in st.sessions
    && st.tasks[t].a.digest in st.sessions[st.tasks[t].a.sessionId].artifacts
  }

  lemma RespondReusing(st: State, t: nat, saved: bool)
    requires TasksInv(st) && t in st.tasks && st.tasks[t].phase == Posted && Reuses(st, t)
    ensures TasksInv(DoRespond(st, t, saved))
  {
    var task := st.tasks[t];
    assert TaskInv(task);
    var s := st.sessions[task.a.sessionId];
    assert CompleteOn(s, task.a) == AddDownload(s, task.a.current);
    var task' := Task(task.a, s.permissive, Done(Reused), [ReuseReply(s, task.a.digest)]);
    assert task.sent + [ReuseReply(s, task.a.digest)] == task'.sent;
    RecordKeeps(st, t, task');
    assert DoRespond(st, t, saved) == Record1(st, t, task');
  }

  ghost function Responded(st: State, t: nat, saved: bool): Task
    requires t in st.tasks
  {
    var task := st.tasks[t];
    if task.a.sessionId !in st.sessions then task.(phase := Done(Inactive), sent := task.sent + [Err(InactiveSession)])
    else if !saved then task.(phase := Done(Unsaved), sent := task.sent + [Err(NotSaved)])
    else task.(phase := Inspecting, permissive := st.sessions[task.a.sessionId].permissive)
  }

  lemma RespondedReplaceable(st: State, t: nat, saved: bool)
    requires st.sessions.Keys <= st.ever
    requires t in st.tasks && st.tasks[t].phase == Posted && TaskInv(st.tasks[t])
    ensures Replaceable(st, t, Responded(st, t, saved))
  {
  }

  lemma RespondInspecting(st: State, t: nat, saved: bool)
    requires TasksInv(st) && t in st.tasks && st.tasks[t].phase == Posted && !Reuses(st, t)
    ensures TasksInv(DoRespond(st, t, saved))
  {
    RespondedReplaceable(st, t, saved);
    ReplaceTask(st, t, Responded(st, t, saved));
    assert DoRespond(st, t, saved) == st.(tasks := st.tasks[t := Responded(st, t, saved)]);
  }

  lemma CompleteKeeps(st: State, t: nat)
    requires TasksInv(st) && t in st.tasks && st.tasks[t].phase.Completing?
    ensures TasksInv(DoComplete(st, t))
  {
    var task' := DoComplete(st, t).tasks[t];
    CompletedTask(st, t);
    if st.tasks[t].a.sessionId in st.sessions {
      RecordKeeps(st, t, task');
    } else {
      ReplaceTask(st, t, task');
    }
  }

  lemma CompletedTask(st: State, t: nat)
    requires t in st.tasks && st.tasks[t].phase.Completing? && TaskInv(st.tasks[t]) && PolicyInv(st)
    ensures var task' := DoComplete(st, t).tasks[t];
            if st.tasks[t].a.sessionId in st.sessions then
              Recordable(st, t, task') && DoComplete(st, t) == Record1(st, t, task')
            else
              Replaceable(st, t, task') && DoComplete(st, t) == st.(tasks := st.tasks[t := task'])
  {
  }

  // Steps that create or remove sessions

  lemma CreateKeeps(st: State, id: SessionId, token: string, permissive: bool)
    requires TasksInv(st) && id !in st.ever
    ensures TasksInv(DoCreate(st, id, token, permissive))
  {
    var st' := DoCreate(st, id, token, permissive);
    forall i, d | i in st'.sessions ensures Entry(st', i, d) {
      FirstIsRecorded(st.tasks, st.recorded, i, d);
      if i != id {
        assert Entry(st, i, d);
      }
    }
    ReuseFrame(st, st');
  }

  lemma ReuseFrame(st: State, st': State)
    requires ReuseInv(st) && st'.tasks == st.tasks && st'.recorded == st.recorded
    ensures ReuseInv(st')
  {
    forall t | t in st'.tasks && st'.tasks[t].phase == Done(Reused) ensures ReusedRight(st', t) {
      assert ReusedRight(st, t);
    }
  }

  /** Sessions may disappear, and the fields the tasks do not depend on may change. */
  lemma FewerSessionsKeeps(st: State, st': State)
    requires TasksInv(st)
    requires st'.tasks == st.tasks && st'.recorded == st.recorded && st'.ever == st.ever
    requires forall id | id in st'.sessions ::
               id in st.sessions && st'.sessions[id].artifacts == st.sessions[id].artifacts
               && st'.sessions[id].permissive == st.sessions[id].permissive
    ensures TasksInv(st')
  {
    forall id, d | id in st'.sessions ensures Entry(st', id, d) {
      assert Entry(st, id, d);
    }
    ReuseFrame(st, st');
  }

  lemma FinishKeeps(st: State, id: SessionId, w: Writes)
    requires TasksInv(st) && id in st.sessions && Permutes(w.order, st.sessions[id].artifacts.Keys)
    ensures TasksInv(DoFinish(st, id, w))
  {
    FewerSessionsKeeps(st, DoFinish(st, id, w));
  }

  predicate TaskStep(step: Step) {
    step.Submit? || step.Respond? || step.Inspect? || step.Complete? || step.Forward?
  }

  lemma TaskStepKeeps(st: State, step: Step)
    requires TasksInv(st) && Can(st, step) && TaskStep(step)
    ensures TasksInv(Do(st, step))
  {
    match step
    case Submit(t, a) => SubmitKeeps(st, t, a);
    case Respond(t, saved) =>
      if Reuses(st, t) {
        RespondReusing(st, t, saved);
      } else {
        RespondInspecting(st, t, saved);
      }
    case Inspect(t, kind, turns) => InspectKeeps(st, t, kind, turns);
    case Complete(t) => CompleteKeeps(st, t);
    case Forward(t) => ForwardKeeps(st, t);
  }

  lemma SessionStepKeeps(st: State, step: Step)
    requires TasksInv(st) && Can(st, step) && !TaskStep(step)
    ensures TasksInv(Do(st, step))
  {
    if step.Create? {
      CreateKeeps(st, if step.requested.Some? && step.requested.value !in st.sessions then step.requested.value else step.newId,
                  step.token, step.permissive);
    } else if step.End? {
      if step.id in st.sessions {
        FinishKeeps(st, step.id, step.writes);
      }
    } else if step.Expire? {
      var next := st.(handling := None);
      FewerSessionsKeeps(st, next);
      if st.handling.value in st.sessions {
        FinishKeeps(next, st.handling.value, step.writes);
      }
    } else {
      QuietKeeps(st, step);
    }
  }

  /** Revocations, timers and asks do not concern the tasks. */
  lemma QuietKeeps(st: State, step: Step)
    requires TasksInv(st) && Can(st, step) && !TaskStep(step) && !step.Create? && !step.End? && !step.Expire?
    ensures TasksInv(Do(st, step))
  {
    QuietFrame(st, step);
    FewerSessionsKeeps(st, Do(st, step));
  }

  lemma QuietFrame(st: State, step: Step)
    requires Can(st, step) && !TaskStep(step) && !step.Create? && !step.End? && !step.Expire?
    ensures var st' := Do(st, step);
            && st'.tasks == st.tasks && st'.recorded == st.recorded && st'.ever == st.ever
            && forall id | id in st'.sessions ::
                 id in st.sessions && st'.sessions[id].artifacts == st.sessions[id].artifacts
                 && st'.sessions[id].permissive == st.sessions[id].permissive
  {
  }

  lemma TasksStep(st: State, step: Step)
    requires TasksInv(st) && Can(st, step)
    ensures TasksInv(Do(st, step))
  {
    if TaskStep(step) {
      TaskStepKeeps(st, step);
    } else {
      SessionStepKeeps(st, step);
    }
  }

  lemma {:induction false} TasksAlways(steps: seq<Step>)
    requires Run(steps)
    ensures TasksInv(After(steps))
  {
    if steps != [] {
      TasksAlways(steps[..|steps| - 1]);
      TasksStep(After(steps[..|steps| - 1]), steps[|steps| - 1]);
    }
  }
}
