/** Which sessions can still expire. The timer is stopped before a session's files are written, so a
    session whose end failed stays, and never expires. */
module Expiry {
  import opened Basics
  import opened Protocol
  import opened Interleavings
  import opened Invariants
  import opened Guarantees
  import opened History

  /** The timer of session `id` is running or has fired, and what follows from that is still to come: the watcher
      has to wake or to send the id, or the id is on its way to the dispatcher. */
  ghost predicate Pending(st: State, id: SessionId)
    requires id in st.timers
  {
    var tm := st.timers[id];
    || tm.watcher == Sending || (tm.watcher == Watching && (tm.running || tm.ticked))
    || st.expired == Some(id) || st.handling == Some(id)
  }

  /** The dispatcher gets to handle the expiry of `id` after some more steps. */
  ghost predicate CanExpire(steps: seq<Step>, id: SessionId) {
    exists more: seq<Step> :: Leads(steps, more, id)
  }

  ghost predicate Leads(steps: seq<Step>, more: seq<Step>, id: SessionId) {
    Run(steps + more) && After(steps + more).handling == Some(id)
  }

  lemma Next(steps: seq<Step>, step: Step)
    requires Run(steps) && Can(After(steps), step)
    ensures Run(steps + [step]) && After(steps + [step]) == Do(After(steps), step)
  {
    assert (steps + [step])[..|steps|] == steps;
  }

  // A timer that is spent stays so

  ghost predicate Spent(st: State, id: SessionId) {
    id in st.ever && id in st.timers && !Pending(st, id)
  }

  lemma FinishSpent(st: State, at: SessionId, w: Writes, id: SessionId)
    requires BooksInv(st) && Spent(st, id) && at in st.sessions && Permutes(w.order, st.sessions[at].artifacts.Keys)
    ensures Spent(DoFinish(st, at, w), id)
  {
    FinishOnly(st, at, w);
  }

  lemma StepSpent(st: State, step: Step, id: SessionId)
    requires BooksInv(st) && Can(st, step) && Spent(st, id)
    ensures Spent(Do(st, step), id)
  {
    if TaskStep(step) {
      TaskFrame(st, step);
      TaskKeepsExpired(st, step);
    } else if step.End? {
      if step.id in st.sessions {
        FinishSpent(st, step.id, step.writes, id);
      }
    } else if step.Expire? {
      if st.handling.value in st.sessions {
        SameBooks(st, st.(handling := None));
        FinishSpent(st.(handling := None), st.handling.value, step.writes, id);
      }
    } else if step.Create? {
      CreateAddsOne(st, step);
    }
  }

  lemma TaskKeepsExpired(st: State, step: Step)
    requires Can(st, step) && TaskStep(step)
    ensures Do(st, step).expired == st.expired && Do(st, step).handling == st.handling
  {
  }

  lemma {:induction false} SpentForGood(steps: seq<Step>, more: seq<Step>, id: SessionId)
    requires Run(steps) && Run(steps + more) && Spent(After(steps), id)
    ensures Spent(After(steps + more), id)
    decreases |more|
  {
    if more == [] {
      assert steps + more == steps;
    } else {
      var n := |more| - 1;
      var front := steps + more[..n];
      assert (steps + more)[..|steps + more| - 1] == front && (steps + more)[|steps + more| - 1] == more[n];
      SpentForGood(steps, more[..n], id);
      BooksAlways(front);
      StepSpent(After(front), more[n], id);
    }
  }

  // A timer that is not spent can go on to the dispatcher

  lemma SomeOrder(keys: set<Digest>) returns (order: seq<Digest>)
    ensures Permutes(order, keys)
    decreases |keys|
  {
    if keys == {} {
      order := [];
    } else {
      var d :| d in keys;
      order := SomeOrder(keys - {d});
      assert d !in (set e | e in order);
      assert (set e | e in order + [d]) == (set e | e in order) + {d} == keys;
      order := order + [d];
    }
  }

  /** The dispatcher can be done with the id it handles; nothing else about expiry changes. */
  lemma Idle(steps: seq<Step>) returns (more: seq<Step>)
    requires Run(steps)
    ensures Run(steps + more) && After(steps + more).handling == None
    ensures After(steps + more).expired == After(steps).expired && SameWatchers(After(steps), After(steps + more))
  {
    var st := After(steps);
    BooksAlways(steps);
    if st.handling == None {
      more := [];
      assert steps + more == steps;
    } else {
      var order := [];
      if st.handling.value in st.sessions {
        order := SomeOrder(st.sessions[st.handling.value].artifacts.Keys);
      }
      var w := Writes(order, 0);
      more := [Expire(w)];
      Next(steps, Expire(w));
      ExpireKeeps(st, w);
    }
  }

  ghost predicate SameWatchers(st: State, next: State) {
    forall id | id in st.timers :: id in next.timers && next.timers[id].watcher == st.timers[id].watcher
  }

  lemma ExpireKeeps(st: State, w: Writes)
    requires BooksInv(st) && Can(st, Expire(w))
    ensures var next := Do(st, Expire(w)); next.handling == None && next.expired == st.expired && SameWatchers(st, next)
  {
    if st.handling.value in st.sessions {
      FinishOnly(st.(handling := None), st.handling.value, w);
    }
  }

  lemma Joined(steps: seq<Step>, more: seq<Step>, rest: seq<Step>, id: SessionId)
    requires Leads(steps + more, rest, id)
    ensures Leads(steps, more + rest, id)
  {
    assert steps + more + rest == steps + (more + rest);
  }

  lemma FromExpired(steps: seq<Step>, id: SessionId) returns (more: seq<Step>)
    requires Run(steps) && After(steps).expired == Some(id)
    ensures Leads(steps, more, id)
  {
    var idle := Idle(steps);
    Next(steps + idle, TakeExpired);
    Joined(steps, idle, [TakeExpired], id);
    more := idle + [TakeExpired];
  }

  /** The channel of expired ids can be emptied. */
  lemma Emptied(steps: seq<Step>) returns (more: seq<Step>)
    requires Run(steps)
    ensures Run(steps + more) && After(steps + more).expired == None && SameWatchers(After(steps), After(steps + more))
  {
    if After(steps).expired == None {
      more := [];
      assert steps + more == steps;
    } else {
      var idle := Idle(steps);
      Next(steps + idle, TakeExpired);
      more := idle + [TakeExpired];
      assert steps + more == steps + idle + [TakeExpired];
    }
  }

  lemma FromSending(steps: seq<Step>, id: SessionId) returns (more: seq<Step>)
    requires Run(steps) && id in After(steps).timers && After(steps).timers[id].watcher == Sending
    ensures Leads(steps, more, id)
  {
    var empty := Emptied(steps);
    Next(steps + empty, WatcherSends(id));
    var rest := FromExpired(steps + empty + [WatcherSends(id)], id);
    Joined(steps + empty, [WatcherSends(id)], rest, id);
    Joined(steps, empty, [WatcherSends(id)] + rest, id);
    more := empty + ([WatcherSends(id)] + rest);
  }

  lemma FromTicked(steps: seq<Step>, id: SessionId) returns (more: seq<Step>)
    requires Run(steps) && id in After(steps).timers
    requires After(steps).timers[id].watcher == Watching && After(steps).timers[id].ticked
    ensures Leads(steps, more, id)
  {
    Next(steps, WatcherWakes(id));
    var rest := FromSending(steps + [WatcherWakes(id)], id);
    Joined(steps, [WatcherWakes(id)], rest, id);
    more := [WatcherWakes(id)] + rest;
  }

  lemma FromRunning(steps: seq<Step>, id: SessionId) returns (more: seq<Step>)
    requires Run(steps) && id in After(steps).timers
    requires After(steps).timers[id].watcher == Watching && After(steps).timers[id].running
    ensures Leads(steps, more, id)
  {
    Next(steps, TimerFires(id));
    var rest := FromTicked(steps + [TimerFires(id)], id);
    Joined(steps, [TimerFires(id)], rest, id);
    more := [TimerFires(id)] + rest;
  }

  /** In every reachable state, for every session ever created: the dispatcher may still come to handle its expiry
      exactly when its timer is running, or has fired and the rest is still to come. */
  lemma {:induction false} CanExpireIff(steps: seq<Step>, id: SessionId)
    requires Run(steps) && id in After(steps).ever
    ensures id in After(steps).timers
    ensures CanExpire(steps, id) <==> Pending(After(steps), id)
  {
    BooksAlways(steps);
    var st := After(steps);
    if !Pending(st, id) {
      forall more: seq<Step> ensures !Leads(steps, more, id) {
        if Run(steps + more) {
          SpentForGood(steps, more, id);
        }
      }
    } else {
      var more: seq<Step> := [];
      if st.handling == Some(id) {
        assert steps + more == steps;
      } else if st.expired == Some(id) {
        more := FromExpired(steps, id);
      } else if st.timers[id].watcher == Sending {
        more := FromSending(steps, id);
      } else if st.timers[id].ticked {
        more := FromTicked(steps, id);
      } else {
        more := FromRunning(steps, id);
      }
      assert Leads(steps, more, id);
    }
  }

  /** A session whose end failed stays; from then on it may expire exactly when its timer had fired by then, and what
      follows was still to come. When the timer was running, as it is until the timeout, it never does. */
  lemma {:induction false} FailedEndIff(steps: seq<Step>, id: SessionId, w: Writes)
    requires Run(steps) && id in After(steps).sessions && Can(After(steps), End(id, w)) && w.good < |w.order| + 2
    ensures Run(steps + [End(id, w)]) && id in After(steps + [End(id, w)]).sessions && id in After(steps).timers
    ensures var st := After(steps); var tm := st.timers[id];
            CanExpire(steps + [End(id, w)], id) <==>
            tm.watcher == Sending || (tm.watcher == Watching && tm.ticked) || st.expired == Some(id) || st.handling == Some(id)
  {
    var st := After(steps);
    BooksAlways(steps);
    Next(steps, End(id, w));
    FinishOnly(st, id, w);
    FailedExpiry(st, id, w);
    CanExpireIff(steps + [End(id, w)], id);
  }

  lemma FailedExpiry(st: State, id: SessionId, w: Writes)
    requires BooksInv(st) && id in st.sessions && Can(st, End(id, w)) && w.good < |w.order| + 2
    ensures id in st.timers
    ensures var next := Do(st, End(id, w));
            && next.expired == st.expired && next.handling == st.handling
            && next.timers == st.timers[id := st.timers[id].(running := false)] && next.ever == st.ever
  {
    FinishOnly(st, id, w);
  }

  // While the timer of a session runs, nothing of its expiry has happened

  ghost predicate RunningInv(st: State) {
    forall id | id in st.timers && st.timers[id].running ::
      st.timers[id].watcher == Watching && !st.timers[id].ticked && st.expired != Some(id) && st.handling != Some(id)
  }

  ghost predicate KnownInv(st: State) {
    (st.expired.Some? ==> st.expired.value in st.ever) && (st.handling.Some? ==> st.handling.value in st.ever)
    && forall id | id in st.timers :: st.timers[id].done > 0 ==> !st.timers[id].running
  }

  lemma RunningStep(st: State, step: Step)
    requires BooksInv(st) && RunningInv(st) && KnownInv(st) && Can(st, step)
    ensures RunningInv(Do(st, step)) && KnownInv(Do(st, step))
  {
    if TaskStep(step) {
      TaskFrame(st, step);
      TaskKeepsExpired(st, step);
    } else if step.End? {
      if step.id in st.sessions {
        FinishRunning(st, step.id, step.writes);
      }
    } else if step.Expire? {
      if st.handling.value in st.sessions {
        SameBooks(st, st.(handling := None));
        FinishRunning(st.(handling := None), st.handling.value, step.writes);
      }
    } else if step.Create? {
      CreateAddsOne(st, step);
      CreateRunning(st, CreatedId(st, step), step.token, step.permissive);
    } else if step.Revoke? || step.Post? || step.Handle? || step.Answer? {
      AskFrame(st, step);
      ControlKeepsExpired(st, step);
    } else {
      TimerRunning(st, step);
    }
  }

  lemma CreateRunning(st: State, id: SessionId, token: string, permissive: bool)
    requires BooksInv(st) && RunningInv(st) && KnownInv(st) && id !in st.ever
    ensures RunningInv(DoCreate(st, id, token, permissive)) && KnownInv(DoCreate(st, id, token, permissive))
  {
    var tm, next := Timer(true, false, Watching, 0, 0), DoCreate(st, id, token, permissive);
    assert next.timers == st.timers[id := tm] && next.ever == st.ever + {id};
    assert next.expired == st.expired != Some(id) && next.handling == st.handling != Some(id);
    NewRunning(st, id, tm, next);
    NewKnown(st, id, tm, next);
  }

  lemma NewRunning(st: State, id: SessionId, tm: Timer, next: State)
    requires RunningInv(st) && tm.watcher == Watching && !tm.ticked && next.timers == st.timers[id := tm]
    requires next.expired == st.expired != Some(id) && next.handling == st.handling != Some(id)
    ensures RunningInv(next)
  {
  }

  lemma NewKnown(st: State, id: SessionId, tm: Timer, next: State)
    requires KnownInv(st) && tm.done == 0 && next.timers == st.timers[id := tm] && st.ever <= next.ever
    requires next.expired == st.expired && next.handling == st.handling
    ensures KnownInv(next)
  {
  }

  lemma ControlKeepsExpired(st: State, step: Step)
    requires Can(st, step) && (step.Revoke? || step.Post? || step.Handle? || step.Answer?)
    ensures Do(st, step).expired == st.expired && Do(st, step).handling == st.handling
  {
  }

  lemma TimerRunning(st: State, step: Step)
    requires BooksInv(st) && RunningInv(st) && KnownInv(st) && Can(st, step)
    requires step.TimerFires? || step.WatcherWakes? || step.WatcherSends? || step.WatcherQuits? || step.TakeExpired?
    ensures RunningInv(Do(st, step)) && KnownInv(Do(st, step))
  {
    match step
    case TimerFires(id) => OneTimer(st, id, st.timers[id].(running := false, ticked := true), st.expired);
    case WatcherWakes(id) => OneTimer(st, id, st.timers[id].(ticked := false, watcher := Sending), st.expired);
    case WatcherSends(id) => OneTimer(st, id, st.timers[id].(watcher := Gone), Some(id));
    case WatcherQuits(id) => OneTimer(st, id, st.timers[id].(done := st.timers[id].done - 1, watcher := Gone), st.expired);
    case TakeExpired => TakeRunning(st);
  }

  lemma TakeRunning(st: State)
    requires RunningInv(st) && KnownInv(st) && st.handling == None
    ensures var next := st.(handling := st.expired, expired := None); RunningInv(next) && KnownInv(next)
  {
  }

  /** A timer that is not left running takes a step. */
  lemma OneTimer(st: State, id: SessionId, tm: Timer, expired: Option<SessionId>)
    requires BooksInv(st) && RunningInv(st) && KnownInv(st) && id in st.timers && !tm.running
    requires expired == st.expired || expired == Some(id)
    ensures var next := st.(timers := st.timers[id := tm], expired := expired); RunningInv(next) && KnownInv(next)
  {
  }

  lemma FinishRunning(st: State, at: SessionId, w: Writes)
    requires BooksInv(st) && RunningInv(st) && KnownInv(st) && at in st.sessions && Permutes(w.order, st.sessions[at].artifacts.Keys)
    ensures RunningInv(DoFinish(st, at, w)) && KnownInv(DoFinish(st, at, w))
  {
    FinishOnly(st, at, w);
  }

  lemma {:induction false} RunningAlways(steps: seq<Step>)
    requires Run(steps)
    ensures RunningInv(After(steps)) && KnownInv(After(steps))
  {
    if steps != [] {
      var n := |steps| - 1;
      RunningAlways(steps[..n]);
      BooksAlways(steps[..n]);
      RunningStep(After(steps[..n]), steps[n]);
    }
  }

  /** So a session whose end failed before its timeout stays until somebody ends it: it never expires. */
  lemma FailedEndNeverExpires(steps: seq<Step>, id: SessionId, w: Writes)
    requires Run(steps) && id in After(steps).sessions && Can(After(steps), End(id, w)) && w.good < |w.order| + 2
    requires id in After(steps).timers && After(steps).timers[id].running
    ensures Run(steps + [End(id, w)]) && id in After(steps + [End(id, w)]).sessions
    ensures !CanExpire(steps + [End(id, w)], id)
  {
    RunningAlways(steps);
    FailedEndIff(steps, id, w);
  }
}
