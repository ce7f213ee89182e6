/** The protocol's promises, for every run. */
module Guarantees {
  import opened Basics
  import opened Opinions
  import opened Runner
  import opened Protocol
  import opened Interleavings
  import opened Invariants

  // Conservation of downloads

  ghost function Held(st: State, id: SessionId, d: Digest): seq<Download>
    requires id in st.sessions
  {
    if d in st.sessions[id].artifacts then st.sessions[id].artifacts[d].downloads else []
  }

  /** The response inspections of a digest that took the reuse path, or whose completion was
      handled while the session was live. */
  ghost function Contributors(st: State, id: SessionId, d: Digest): set<nat> {
    set t | t in st.tasks && Matches(st.tasks, t, id, d) && Contributed(st.tasks[t])
  }

  ghost function MatchingIn(tasks: Tasks, recorded: seq<nat>, id: SessionId, d: Digest): set<nat> {
    set t | t in recorded && Matches(tasks, t, id, d)
  }

  lemma {:induction false} CountDownloads(tasks: Tasks, recorded: seq<nat>, id: SessionId, d: Digest)
    requires NoRepeats(recorded)
    ensures |DownloadsOf(tasks, recorded, id, d)| == |MatchingIn(tasks, recorded, id, d)|
  {
    if recorded == [] {
      assert MatchingIn(tasks, recorded, id, d) == {};
    } else {
      var n := |recorded| - 1;
      var front := recorded[..n];
      CountDownloads(tasks, front, id, d);
      assert recorded == front + [recorded[n]];
      if Matches(tasks, recorded[n], id, d) {
        assert MatchingIn(tasks, recorded, id, d) == MatchingIn(tasks, front, id, d) + {recorded[n]};
      } else {
        assert MatchingIn(tasks, recorded, id, d) == MatchingIn(tasks, front, id, d);
      }
    }
  }

  /** In every run: a live session holds, for each digest, exactly the downloads of its
      contributors, one each, in the order the dispatcher recorded them. */
  lemma {:induction false} Conservation(steps: seq<Step>, id: SessionId, d: Digest)
    requires Run(steps) && id in After(steps).sessions
    ensures var st := After(steps);
            && Held(st, id, d) == DownloadsOf(st.tasks, st.recorded, id, d)
            && |Held(st, id, d)| == |Contributors(st, id, d)|
            && NoRepeats(st.recorded)
            && (forall t | t in Contributors(st, id, d) :: t in st.recorded && st.tasks[t].a.current in Held(st, id, d))
  {
    var st := After(steps);
    TasksAlways(steps);
    assert Entry(st, id, d);
    FirstIsRecorded(st.tasks, st.recorded, id, d);
    CountDownloads(st.tasks, st.recorded, id, d);
    assert Contributors(st, id, d) == MatchingIn(st.tasks, st.recorded, id, d);
    forall t | t in Contributors(st, id, d) ensures st.tasks[t].a.current in Held(st, id, d) {
      RecordedIsListed(st.tasks, st.recorded, t);
    }
  }

  lemma {:induction false} RecordedIsListed(tasks: Tasks, recorded: seq<nat>, t: nat)
    requires t in recorded && t in tasks
    ensures tasks[t].a.current in DownloadsOf(tasks, recorded, tasks[t].a.sessionId, tasks[t].a.digest)
  {
    var n := |recorded| - 1;
    if recorded[n] != t {
      assert t in recorded[..n];
      RecordedIsListed(tasks, recorded[..n], t);
    }
  }

  lemma NilContributes(task: Task)
    requires TaskInv(task) && Nil in task.sent
    ensures Contributed(task) && task.sent == [Nil] && (task.phase == Done(Reused) || task.phase == Done(Kept))
  {
    assert task.sent == [task.sent[0]];
  }

  /** A nil reply is never sent before the download is on record. */
  lemma NilIsRecorded(steps: seq<Step>, t: nat)
    requires Run(steps) && t in After(steps).tasks && Nil in After(steps).tasks[t].sent
    ensures var st := After(steps);
            && t in st.recorded
            && (st.tasks[t].a.sessionId in st.sessions ==>
                  st.tasks[t].a.current in Held(st, st.tasks[t].a.sessionId, st.tasks[t].a.digest))
  {
    var st := After(steps);
    TasksAlways(steps);
    NilContributes(st.tasks[t]);
    if st.tasks[t].a.sessionId in st.sessions {
      Conservation(steps, st.tasks[t].a.sessionId, st.tasks[t].a.digest);
      assert t in Contributors(st, st.tasks[t].a.sessionId, st.tasks[t].a.digest);
    }
  }

  // Memoisation

  /** Inspection `f` of the same digest in the same session ran the inspectors and was recorded,
      and the inspectors approved: one of them from request to response, none rejecting. */
  ghost predicate ApprovedBy(st: State, t: nat, f: nat)
    requires t in st.tasks
  {
    && f in st.recorded && Matches(st.tasks, f, st.tasks[t].a.sessionId, st.tasks[t].a.digest)
    && Inspected(st.tasks[f])
    && st.tasks[f].a.result == Approved
    && ArtifactApproved(st.tasks[f].a.findings) && Vouched(st.tasks[f].a.findings)
  }

  /** In a strict session a nil reply means a completed inspection of that digest in that session
      was approved. */
  lemma {:induction false} NilMeansApproved(steps: seq<Step>, t: nat)
    requires Run(steps) && t in After(steps).tasks
    requires Nil in After(steps).tasks[t].sent && !After(steps).tasks[t].permissive
    ensures exists f :: ApprovedBy(After(steps), t, f)
  {
    var st := After(steps);
    TasksAlways(steps);
    NilContributes(st.tasks[t]);
    if st.tasks[t].phase == Done(Reused) {
      ReusedApproved(st, t);
    } else {
      KeptApproved(st, t);
    }
  }

  lemma KeptApproved(st: State, t: nat)
    requires RecordedInv(st) && t in st.tasks && TaskInv(st.tasks[t])
    requires st.tasks[t].phase == Done(Kept) && st.tasks[t].sent == [Nil] && !st.tasks[t].permissive
    ensures ApprovedBy(st, t, t)
  {
  }

  lemma ReusedApproved(st: State, t: nat)
    requires RecordedInv(st) && t in st.tasks && st.tasks[t].phase == Done(Reused) && ReusedRight(st, t)
    requires forall f | f in st.tasks :: TaskInv(st.tasks[f])
    requires st.tasks[t].sent == [Nil] && !st.tasks[t].permissive
    ensures exists f :: ApprovedBy(st, t, f)
  {
    var f := FirstOf(st.tasks, st.recorded, st.tasks[t].a.sessionId, st.tasks[t].a.digest).value;
    FirstIsRecorded(st.tasks, st.recorded, st.tasks[t].a.sessionId, st.tasks[t].a.digest);
    InspectedVerdict(st.tasks[f]);
    assert ApprovedBy(st, t, f);
  }

  /** A strict inspection that was not rejected was approved and vouched for. */
  lemma InspectedVerdict(task: Task)
    requires TaskInv(task) && Inspected(task) && !task.permissive && task.a.result != Rejected
    ensures task.a.result == Approved && ArtifactApproved(task.a.findings) && Vouched(task.a.findings)
  {
  }

  /** Every recorded artifact carries a verdict, that of the first inspection to complete, and the
      reuse path accepts exactly when that verdict was approval or the session is permissive. */
  lemma {:induction false} ReuseFollowsFirst(steps: seq<Step>, id: SessionId, d: Digest)
    requires Run(steps) && id in After(steps).sessions && d in After(steps).sessions[id].artifacts
    ensures var st := After(steps);
            var first := FirstOf(st.tasks, st.recorded, id, d);
            && first.Some? && first.value in st.tasks && Inspected(st.tasks[first.value])
            && st.sessions[id].artifacts[d].result == st.tasks[first.value].a.result
            && st.tasks[first.value].a.result in {Approved, Rejected}
            && (ReuseReply(st.sessions[id], d) == Nil
                <==> st.sessions[id].permissive || st.tasks[first.value].a.result == Approved)
  {
    var st := After(steps);
    TasksAlways(steps);
    assert Entry(st, id, d);
    FirstIsRecorded(st.tasks, st.recorded, id, d);
    assert TaskInv(st.tasks[FirstOf(st.tasks, st.recorded, id, d).value]);
  }

  /** Once both have replied, a reused inspection and the first recorded one agree on acceptance,
      except exactly when the session is permissive and the first one's inspectors failed. */
  lemma {:induction false} ReuseAgreement(steps: seq<Step>, t: nat, f: nat)
    requires Run(steps) && t in After(steps).tasks && After(steps).tasks[t].phase == Done(Reused)
    requires FirstOf(After(steps).tasks, After(steps).recorded,
                     After(steps).tasks[t].a.sessionId, After(steps).tasks[t].a.digest) == Some(f)
    requires f in After(steps).tasks && After(steps).tasks[f].phase == Done(Kept)
    ensures var st := After(steps);
            (st.tasks[t].sent == [Nil] <==> st.tasks[f].sent == [Nil])
            <==> !(st.tasks[t].permissive && st.tasks[f].sent == [Err(InspectionFailed)])
  {
    var st := After(steps);
    TasksAlways(steps);
    assert TaskInv(st.tasks[f]) && TaskInv(st.tasks[t]) && ReusedRight(st, t);
    assert st.tasks[f].sent == [st.tasks[f].sent[0]];
  }

  // Replies, timers and metadata files

  ghost predicate TimerInv(st: State) {
    && st.timers.Keys == st.ever
    && forall id | id in st.timers ::
         && st.timers[id].fills == (if id in st.sessions then 0 else 1)
         && st.timers[id].done <= st.timers[id].fills
  }

  ghost predicate AskInv(st: State) {
    forall q | q in st.asks :: st.asks[q].sent == if st.asks[q].phase == Answered then 1 else 0
  }

  ghost predicate Flushed(st: State, id: SessionId) {
    && id in st.ended && id in st.flushed && st.flushed[id].json
    && forall d | d in st.ended[id].artifacts ::
         d in st.flushed[id].records && st.flushed[id].records[d] == st.ended[id].artifacts[d]
  }

  ghost predicate BooksInv(st: State) {
    && st.sessions.Keys <= st.ever
    && st.total == |st.ever|
    && TimerInv(st) && AskInv(st)
    && forall id | id in st.ever && id !in st.sessions :: Flushed(st, id)
  }

  /** A finish whose writes all succeed has written everything the session held. */
  lemma FinishFlushes(st: State, id: SessionId, w: Writes)
    requires id in st.sessions && Permutes(w.order, st.sessions[id].artifacts.Keys) && w.good >= |w.order| + 2
    ensures Flushed(DoFinish(st, id, w), id)
  {
    assert w.order[..|w.order|] == w.order;
    forall d | d in st.sessions[id].artifacts ensures d in w.order {
      assert d in (set d | d in w.order);
    }
  }

  lemma FinishFrame(st: State, id: SessionId, w: Writes, i: SessionId)
    requires id in st.sessions && Permutes(w.order, st.sessions[id].artifacts.Keys) && i != id
    ensures Flushed(st, i) ==> Flushed(DoFinish(st, id, w), i)
  {
  }

  lemma FinishTimers(st: State, id: SessionId, w: Writes)
    requires TimerInv(st) && AskInv(st) && st.sessions.Keys <= st.ever
    requires id in st.sessions && Permutes(w.order, st.sessions[id].artifacts.Keys)
    ensures TimerInv(DoFinish(st, id, w)) && AskInv(DoFinish(st, id, w))
  {
    FinishOnly(st, id, w);
  }

  /** What a finish does to sessions and timers. */
  lemma FinishOnly(st: State, id: SessionId, w: Writes)
    requires id in st.sessions && id in st.timers && Permutes(w.order, st.sessions[id].artifacts.Keys)
    ensures var st', tm := DoFinish(st, id, w), st.timers[id];
            && st'.asks == st.asks && st'.ever == st.ever && st'.tasks == st.tasks
            && (if w.good >= |w.order| + 2 then
                  st'.sessions == st.sessions - {id}
                  && st'.timers == st.timers[id := tm.(running := false, done := tm.done + 1, fills := tm.fills + 1)]
                else
                  st'.sessions == st.sessions && st'.timers == st.timers[id := tm.(running := false)])
  {
  }

  lemma FinishBooks(st: State, id: SessionId, w: Writes)
    requires BooksInv(st) && id in st.sessions && Permutes(w.order, st.sessions[id].artifacts.Keys)
    ensures BooksInv(DoFinish(st, id, w))
  {
    var st' := DoFinish(st, id, w);
    FinishTimers(st, id, w);
    forall i | i in st'.ever && i !in st'.sessions ensures Flushed(st', i) {
      if i != id {
        FinishFrame(st, id, w, i);
      } else {
        FinishFlushes(st, id, w);
      }
    }
  }

  lemma SameBooks(st: State, st': State)
    requires BooksInv(st) && AskInv(st') && TimerInv(st')
    requires st'.ever == st.ever && st'.total == st.total && st'.ended == st.ended && st'.flushed == st.flushed
    requires st'.sessions.Keys == st.sessions.Keys
    ensures BooksInv(st')
  {
    forall id | id in st'.ever && id !in st'.sessions ensures Flushed(st', id) {
      assert Flushed(st, id);
    }
  }

  lemma CreateBooks(st: State, id: SessionId, token: string, permissive: bool)
    requires BooksInv(st) && id !in st.ever
    ensures BooksInv(DoCreate(st, id, token, permissive))
  {
    var st' := DoCreate(st, id, token, permissive);
    forall i | i in st'.ever && i !in st'.sessions ensures Flushed(st', i) {
      assert Flushed(st, i);
    }
  }

  lemma BooksStep(st: State, step: Step)
    requires BooksInv(st) && Can(st, step)
    ensures BooksInv(Do(st, step))
  {
    if step.End? {
      if step.id in st.sessions {
        FinishBooks(st, step.id, step.writes);
      }
    } else if step.Expire? {
      SameBooks(st, st.(handling := None));
      if st.handling.value in st.sessions {
        FinishBooks(st.(handling := None), st.handling.value, step.writes);
      }
    } else if step.Create? {
      CreateBooks(st, if step.requested.Some? && step.requested.value !in st.sessions then step.requested.value else step.newId,
                  step.token, step.permissive);
    } else {
      SameFrame(st, step);
      SameBooks(st, Do(st, step));
    }
  }

  /** What only timer steps and replies change. */
  ghost predicate SameRest(st: State, st': State) {
    && st'.ever == st.ever && st'.total == st.total && st'.ended == st.ended && st'.flushed == st.flushed
    && st'.sessions.Keys == st.sessions.Keys
  }

  /** What a step of inspection `t` leaves alone. */
  ghost predicate OnlyTask(st: State, st': State, t: nat) {
    && SameRest(st, st') && st'.asks == st.asks && st'.timers == st.timers
    && t in st.tasks && t in st'.tasks && st'.tasks == st.tasks[t := st'.tasks[t]]
  }

  lemma RespondOnly(st: State, t: nat, saved: bool)
    requires t in st.tasks && st.tasks[t].phase == Posted
    ensures OnlyTask(st, DoRespond(st, t, saved), t)
    ensures Rank(DoRespond(st, t, saved).tasks[t].phase) < 4
  {
    assert DoRespond(st, t, saved).sessions.Keys == st.sessions.Keys;
  }

  lemma InspectOnly(st: State, t: nat, kind: Option<string>, turns: seq<Turn>)
    requires t in st.tasks && st.tasks[t].phase == Inspecting
    ensures OnlyTask(st, DoInspect(st, t, kind, turns), t)
    ensures Rank(DoInspect(st, t, kind, turns).tasks[t].phase) == 2
  {
  }

  lemma CompleteOnly(st: State, t: nat)
    requires t in st.tasks && st.tasks[t].phase.Completing?
    ensures OnlyTask(st, DoComplete(st, t), t)
    ensures Rank(DoComplete(st, t).tasks[t].phase) == 1
  {
    assert DoComplete(st, t).sessions.Keys == st.sessions.Keys;
  }

  lemma ForwardOnly(st: State, t: nat)
    requires t in st.tasks && st.tasks[t].phase.Completed?
    ensures OnlyTask(st, DoForward(st, t), t)
    ensures Rank(DoForward(st, t).tasks[t].phase) == 0
  {
  }

  lemma TaskFrame(st: State, step: Step)
    requires Can(st, step) && TaskStep(step)
    ensures SameRest(st, Do(st, step)) && Do(st, step).asks == st.asks && Do(st, step).timers == st.timers
  {
    match step
    case Submit(t, a) =>
    case Respond(t, saved) => RespondOnly(st, t, saved);
    case Inspect(t, kind, turns) => InspectOnly(st, t, kind, turns);
    case Complete(t) => CompleteOnly(st, t);
    case Forward(t) => ForwardOnly(st, t);
  }

  lemma TimerFrame(st: State, step: Step)
    requires Can(st, step) && TimerInv(st)
    requires step.TimerFires? || step.WatcherWakes? || step.WatcherSends? || step.WatcherQuits? || step.TakeExpired?
    ensures SameRest(st, Do(st, step)) && Do(st, step).asks == st.asks && TimerInv(Do(st, step))
  {
  }

  lemma AskFrame(st: State, step: Step)
    requires Can(st, step) && AskInv(st)
    requires step.Revoke? || step.Post? || step.Handle? || step.Answer?
    ensures SameRest(st, Do(st, step)) && AskInv(Do(st, step)) && Do(st, step).timers == st.timers
  {
  }

  lemma SameFrame(st: State, step: Step)
    requires BooksInv(st) && Can(st, step) && !step.End? && !step.Expire? && !step.Create?
    ensures SameRest(st, Do(st, step)) && AskInv(Do(st, step)) && TimerInv(Do(st, step))
  {
    if TaskStep(step) {
      TaskFrame(st, step);
    } else if step.Revoke? || step.Post? || step.Handle? || step.Answer? {
      AskFrame(st, step);
    } else {
      TimerFrame(st, step);
    }
  }

  lemma {:induction false} BooksAlways(steps: seq<Step>)
    requires Run(steps)
    ensures BooksInv(After(steps))
  {
    if steps != [] {
      BooksAlways(steps[..|steps| - 1]);
      BooksStep(After(steps[..|steps| - 1]), steps[|steps| - 1]);
    }
  }

  /** No reply channel ever gets a second value, each gets its value exactly when its work is
      done, and no session timer's done slot is filled twice. */
  lemma {:induction false} OneReply(steps: seq<Step>)
    requires Run(steps)
    ensures var st := After(steps);
            && (forall t | t in st.tasks :: |st.tasks[t].sent| == if st.tasks[t].phase.Done? then 1 else 0)
            && (forall q | q in st.asks :: st.asks[q].sent == if st.asks[q].phase == Answered then 1 else 0)
            && (forall id | id in st.timers :: st.timers[id].done <= st.timers[id].fills <= 1)
            && (forall id | id in st.timers && st.timers[id].fills == 1 :: id !in st.sessions)
  {
    TasksAlways(steps);
    BooksAlways(steps);
    forall t | t in After(steps).tasks ensures TaskInv(After(steps).tasks[t]) {}
  }

  // Progress

  function Rank(p: Phase): nat {
    match p
    case Posted => 4
    case Inspecting => 3
    case Completing(_) => 2
    case Completed(_, _) => 1
    case Done(_) => 0
  }

  ghost predicate SameSubject(a: Record, b: Record) {
    a.sessionId == b.sessionId && a.digest == b.digest && a.current == b.current
  }

  /** Any step on behalf of an inspection lowers its rank, so it takes at most four of them. */
  lemma {:induction false} StepsAreBounded(st: State, step: Step, t: nat)
    requires Can(st, step) && t in st.tasks
    ensures t in Do(st, step).tasks
    ensures Do(st, step).tasks[t] == st.tasks[t] || Rank(Do(st, step).tasks[t].phase) < Rank(st.tasks[t].phase)
    ensures SameSubject(st.tasks[t].a, Do(st, step).tasks[t].a)
  {
    if TaskStep(step) && !step.Submit? {
      if step.t == t {
        OwnStep(st, step);
      } else {
        OtherTaskFrame(st, step);
      }
    } else if !step.Submit? {
      NoTaskFrame(st, step);
    }
  }

  lemma NoTaskFrame(st: State, step: Step)
    requires Can(st, step) && !TaskStep(step)
    ensures Do(st, step).tasks == st.tasks
  {
    if step.End? || step.Expire? {
      FinishNoTask(st, step);
    } else if step.Create? {
    } else {
      QuietNoTask(st, step);
    }
  }

  lemma FinishNoTask(st: State, step: Step)
    requires Can(st, step) && (step.End? || step.Expire?)
    ensures Do(st, step).tasks == st.tasks
  {
  }

  lemma QuietNoTask(st: State, step: Step)
    requires Can(st, step) && !TaskStep(step) && !step.End? && !step.Expire? && !step.Create?
    ensures Do(st, step).tasks == st.tasks
  {
  }

  lemma OtherTaskFrame(st: State, step: Step)
    requires Can(st, step) && TaskStep(step) && !step.Submit?
    ensures OnlyTask(st, Do(st, step), step.t)
  {
    match step
    case Respond(u, saved) => RespondOnly(st, u, saved);
    case Inspect(u, kind, turns) => InspectOnly(st, u, kind, turns);
    case Complete(u) => CompleteOnly(st, u);
    case Forward(u) => ForwardOnly(st, u);
  }

  ghost predicate Lowers(task: Task, task': Task) {
    Rank(task'.phase) < Rank(task.phase) && SameSubject(task.a, task'.a)
  }

  lemma RespondLowers(st: State, t: nat, saved: bool)
    requires t in st.tasks && st.tasks[t].phase == Posted
    ensures Lowers(st.tasks[t], DoRespond(st, t, saved).tasks[t])
  {
  }

  lemma InspectLowers(st: State, t: nat, kind: Option<string>, turns: seq<Turn>)
    requires t in st.tasks && st.tasks[t].phase == Inspecting
    ensures Lowers(st.tasks[t], DoInspect(st, t, kind, turns).tasks[t])
  {
  }

  lemma CompleteLowers(st: State, t: nat)
    requires t in st.tasks && st.tasks[t].phase.Completing?
    ensures Lowers(st.tasks[t], DoComplete(st, t).tasks[t])
  {
  }

  lemma ForwardLowers(st: State, t: nat)
    requires t in st.tasks && st.tasks[t].phase.Completed?
    ensures Lowers(st.tasks[t], DoForward(st, t).tasks[t])
  {
  }

  lemma OwnStep(st: State, step: Step)
    requires Can(st, step) && TaskStep(step) && !step.Submit?
    ensures Lowers(st.tasks[step.t], Do(st, step).tasks[step.t])
  {
    match step
    case Respond(u, saved) => RespondLowers(st, u, saved);
    case Inspect(u, kind, turns) => InspectLowers(st, u, kind, turns);
    case Complete(u) => CompleteLowers(st, u);
    case Forward(u) => ForwardLowers(st, u);
  }
}
