/** How often the inspectors see a digest: once per session, as long as no two inspections of it are
    under way at the same time. */
module Overlap {
  import opened Basics
  import opened Opinions
  import opened Runner
  import opened Protocol
  import opened Interleavings
  import opened Invariants
  import opened Guarantees
  import opened History

  /** From the hand-over to the goroutine until the dispatcher has handled the completion. */
  predicate UnderWay(p: Phase) {
    p.Inspecting? || p.Completing?
  }

  /** The download was handed to the inspectors: not refused, not answered from the record. */
  predicate Started(p: Phase) {
    UnderWay(p) || p.Completed? || p == Done(Kept) || p == Done(Lost)
  }

  /** The same digest, downloaded in the same session. */
  predicate SameFile(a: Task, b: Task) {
    a.a.sessionId == b.a.sessionId && a.a.digest == b.a.digest
  }

  /** No two inspections of one digest in one session are under way. */
  ghost predicate Apart(st: State) {
    forall t, u | t in st.tasks && u in st.tasks && t != u && UnderWay(st.tasks[t].phase) && UnderWay(st.tasks[u].phase) ::
      !SameFile(st.tasks[t], st.tasks[u])
  }

  /** The inspectors saw no digest twice in one session. */
  ghost predicate OnceEach(st: State) {
    forall t, u | t in st.tasks && u in st.tasks && t != u && Started(st.tasks[t].phase) && Started(st.tasks[u].phase) ::
      !SameFile(st.tasks[t], st.tasks[u])
  }

  /** In every state of the run; each beginning of a run is one. */
  ghost predicate AlwaysApart(steps: seq<Step>)
    requires Run(steps)
  {
    forall n: nat | n <= |steps| && Run(steps[..n]) :: Apart(After(steps[..n]))
  }

  /** The session of a started inspection was created; once the inspection is complete, a session still
      live has its digest on record. */
  ghost predicate Settled(st: State, task: Task) {
    Started(task.phase) ==>
      && task.a.sessionId in st.ever
      && (!UnderWay(task.phase) && task.a.sessionId in st.sessions ==> task.a.digest in st.sessions[task.a.sessionId].artifacts)
  }

  ghost predicate SettledInv(st: State) {
    forall t | t in st.tasks :: Settled(st, st.tasks[t])
  }

  lemma SettledStays(st: State, next: State, task: Task)
    requires Grows(st, next) && Settled(st, task)
    ensures Settled(next, task)
  {
    if Started(task.phase) && task.a.sessionId in next.sessions && task.a.sessionId in st.sessions {
      assert SessionGrows(st.sessions[task.a.sessionId], next.sessions[task.a.sessionId]);
    }
  }

  /** The step makes something of inspection `t`. */
  predicate Moves(step: Step, t: nat) {
    TaskStep(step) && step.t == t
  }

  lemma OthersStay(st: State, step: Step, t: nat)
    requires Can(st, step) && t in Do(st, step).tasks && !Moves(step, t)
    ensures t in st.tasks && Do(st, step).tasks[t] == st.tasks[t]
  {
    if step.Submit? {
    } else if TaskStep(step) {
      OtherTaskFrame(st, step);
    } else {
      NoTaskFrame(st, step);
    }
  }

  lemma RespondSettles(st: State, t: nat, saved: bool)
    requires st.sessions.Keys <= st.ever && Can(st, Respond(t, saved))
    ensures var next := DoRespond(st, t, saved);
            && Settled(next, next.tasks[t])
            && (Started(next.tasks[t].phase) ==>
                  && UnderWay(next.tasks[t].phase) && !OnRecord(st.sessions, st.tasks[t])
                  && st.tasks[t].a.sessionId in st.sessions && next.tasks[t].a == st.tasks[t].a)
  {
  }

  lemma CompleteSettles(st: State, t: nat)
    requires Can(st, Complete(t)) && Settled(st, st.tasks[t])
    ensures Settled(DoComplete(st, t), DoComplete(st, t).tasks[t])
  {
  }

  lemma OwnSettles(st: State, step: Step)
    requires st.sessions.Keys <= st.ever && Can(st, step) && TaskStep(step)
    requires step.t in st.tasks ==> Settled(st, st.tasks[step.t])
    ensures Settled(Do(st, step), Do(st, step).tasks[step.t])
  {
    if step.Respond? {
      RespondSettles(st, step.t, step.saved);
    } else if step.Complete? {
      CompleteSettles(st, step.t);
    }
  }

  lemma SettledStep(st: State, step: Step)
    requires BooksInv(st) && SettledInv(st) && Can(st, step)
    ensures SettledInv(Do(st, step))
  {
    var next := Do(st, step);
    StepGrows(st, step);
    forall t | t in next.tasks ensures Settled(next, next.tasks[t]) {
      if Moves(step, t) {
        OwnSettles(st, step);
      } else {
        OthersStay(st, step, t);
        SettledStays(st, next, st.tasks[t]);
      }
    }
  }

  lemma {:induction false} SettledAlways(steps: seq<Step>)
    requires Run(steps)
    ensures SettledInv(After(steps))
  {
    if steps != [] {
      SettledAlways(steps[..|steps| - 1]);
      BooksAlways(steps[..|steps| - 1]);
      SettledStep(After(steps[..|steps| - 1]), steps[|steps| - 1]);
    }
  }

  /** A started inspection was started before, unless the step is the one that starts it. */
  lemma StartedBefore(st: State, step: Step, t: nat)
    requires Can(st, step) && t in Do(st, step).tasks && Started(Do(st, step).tasks[t].phase)
    ensures t in st.tasks && SameFile(Do(st, step).tasks[t], st.tasks[t])
    ensures Started(st.tasks[t].phase) || (step.Respond? && step.t == t)
  {
    if Moves(step, t) {
      OwnStart(st, step);
    } else {
      OthersStay(st, step, t);
    }
  }

  lemma OwnStart(st: State, step: Step)
    requires Can(st, step) && TaskStep(step) && Started(Do(st, step).tasks[step.t].phase)
    ensures step.t in st.tasks && SameFile(Do(st, step).tasks[step.t], st.tasks[step.t])
    ensures Started(st.tasks[step.t].phase) || step.Respond?
  {
    if !step.Submit? {
      OwnStep(st, step);
    }
  }

  /** A step that hands a download to the inspectors finds none of its digest among those they saw, or
      one that is under way. */
  lemma NewcomerApart(st: State, step: Step, t: nat, u: nat)
    requires BooksInv(st) && SettledInv(st) && Can(st, step) && Apart(Do(st, step))
    requires step.Respond? && step.t == t && t != u
    requires t in Do(st, step).tasks && u in Do(st, step).tasks
    requires Started(Do(st, step).tasks[t].phase) && Started(Do(st, step).tasks[u].phase)
    ensures !SameFile(Do(st, step).tasks[t], Do(st, step).tasks[u])
  {
    RespondSettles(st, t, step.saved);
    OthersStay(st, step, u);
    assert Settled(st, st.tasks[u]);
  }

  lemma OnceStep(st: State, step: Step)
    requires BooksInv(st) && SettledInv(st) && Can(st, step) && OnceEach(st) && Apart(Do(st, step))
    ensures OnceEach(Do(st, step))
  {
    var next := Do(st, step);
    forall t, u | t in next.tasks && u in next.tasks && t != u && Started(next.tasks[t].phase) && Started(next.tasks[u].phase)
      ensures !SameFile(next.tasks[t], next.tasks[u])
    {
      StartedBefore(st, step, t);
      StartedBefore(st, step, u);
      if step.Respond? && step.t == t {
        NewcomerApart(st, step, t, u);
      } else if step.Respond? && step.t == u {
        NewcomerApart(st, step, u, t);
      }
    }
  }

  /** Once started, always started, and of the same digest and session. */
  lemma StartedStays(st: State, step: Step, t: nat)
    requires Can(st, step) && t in st.tasks && Started(st.tasks[t].phase)
    ensures t in Do(st, step).tasks && Started(Do(st, step).tasks[t].phase) && SameFile(st.tasks[t], Do(st, step).tasks[t])
  {
    StepsAreBounded(st, step, t);
    if !Moves(step, t) {
      OthersStay(st, step, t);
    }
  }

  lemma OnceBefore(st: State, step: Step)
    requires Can(st, step) && OnceEach(Do(st, step))
    ensures OnceEach(st)
  {
    forall t, u | t in st.tasks && u in st.tasks && t != u && Started(st.tasks[t].phase) && Started(st.tasks[u].phase)
      ensures !SameFile(st.tasks[t], st.tasks[u])
    {
      StartedStays(st, step, t);
      StartedStays(st, step, u);
    }
  }

  /** In every run: the inspectors see each digest at most once per session exactly when at no moment
      two inspections of one digest are under way in a session. */
  lemma {:induction false} OnceIffApart(steps: seq<Step>)
    requires Run(steps)
    ensures OnceEach(After(steps)) <==> AlwaysApart(steps)
  {
    assert steps[..|steps|] == steps;
    if steps != [] {
      var n := |steps| - 1;
      var front, step := steps[..n], steps[n];
      OnceIffApart(front);
      BooksAlways(front);
      SettledAlways(front);
      forall k: nat | k <= n ensures front[..k] == steps[..k] {
      }
      if OnceEach(After(steps)) {
        OnceBefore(After(front), step);
      } else if AlwaysApart(steps) {
        FrontApart(steps);
        OnceStep(After(front), step);
      }
      if OnceEach(After(steps)) {
        AllApart(steps);
      }
    }
  }

  lemma FrontApart(steps: seq<Step>)
    requires Run(steps) && steps != [] && AlwaysApart(steps)
    ensures AlwaysApart(steps[..|steps| - 1]) && Apart(After(steps))
  {
    var front := steps[..|steps| - 1];
    forall k: nat | k <= |front| && Run(front[..k]) ensures Apart(After(front[..k])) {
      assert front[..k] == steps[..k];
    }
    assert steps[..|steps|] == steps;
  }

  lemma AllApart(steps: seq<Step>)
    requires Run(steps) && steps != [] && AlwaysApart(steps[..|steps| - 1]) && OnceEach(After(steps))
    ensures AlwaysApart(steps)
  {
    var front := steps[..|steps| - 1];
    forall k: nat | k <= |steps| && Run(steps[..k]) ensures Apart(After(steps[..k])) {
      if k <= |front| {
        assert front[..k] == steps[..k];
      } else {
        assert steps[..k] == steps;
      }
    }
  }
}
