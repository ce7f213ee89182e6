/** The channels between the dispatcher and the goroutines. Messages reach the dispatcher over an
    unbuffered channel, so it takes one only when it is idle; while it handles a message it is
    busy, and every value it or a goroutine sends needs room in a one-slot channel. */
module Channels {
  import opened Basics
  import opened Opinions
  import opened Runner
  import opened Protocol
  import opened Interleavings
  import opened Invariants
  import opened Guarantees

  /** What a message of the control interface asks for; each comes with its own reply channel. */
  datatype Order =
    | Creating(permissive: bool)
    | Revoking(id: SessionId, token: string)
    | Ending(id: SessionId)
    | Reading(id: SessionId)

  datatype Message =
    | ToInspect(t: nat)
    | ToComplete(t: nat)
    | ToAsk(q: nat)
    | Control(k: nat, order: Order)
    | Expiry

  datatype Dispatcher = Idle | Busy(m: Message)

  type Slots = map<nat, nat>

  /** How many values a one-slot channel holds. */
  function Load(slots: Slots, c: nat): nat {
    if c in slots then slots[c] else 0
  }

  function Put(slots: Slots, c: nat, n: nat): Slots {
    slots[c := Load(slots, c) + n]
  }

  function Take(slots: Slots, c: nat): Slots
    requires Load(slots, c) > 0
  {
    slots[c := Load(slots, c) - 1]
  }

  /** `base` is what the handlers and goroutines have done so far. `replies`, `completions`, `answers`
      and `controls` are the reply channels of response inspections, of their completions, of request
      inspections and deletions, and of control messages; a session's done channel is counted by
      its timer. `holding`: inspections whose goroutine has taken its completion reply. */
  datatype System = System(
    base: State, dispatcher: Dispatcher,
    replies: Slots, completions: Slots, answers: Slots, controls: Slots, holding: set<nat>)

  const QUIET := System(INITIAL, Idle, map[], map[], map[], map[], {})

  datatype Move =
    | Quietly(step: Step)            // a step that uses no reply channel
    | Receive(m: Message)            // the dispatcher takes a message
    | Serve(outcome: Option<Step>)   // its handler does its work and sends what it has to send
    | TakeCompletion(t: nat)
    | SendReply(t: nat)
    | SendAnswer(q: nat)
    | TakeReply(t: nat)
    | TakeAnswer(q: nat)
    | TakeControl(k: nat)

  predicate IsQuiet(step: Step) {
    step.Submit? || step.Post? || step.Inspect? || step.TimerFires? || step.WatcherWakes? || step.WatcherSends? || step.WatcherQuits?
  }

  /** A sender waits to hand over this message. */
  predicate Offered(sys: System, m: Message) {
    match m
    case ToInspect(t) => t in sys.base.tasks && sys.base.tasks[t].phase == Posted
    case ToComplete(t) => t in sys.base.tasks && sys.base.tasks[t].phase.Completing?
    case ToAsk(q) => q in sys.base.asks && sys.base.asks[q].phase == Waiting
    case Control(k, _) => k !in sys.controls
    case Expiry => Can(sys.base, TakeExpired)
  }

  /** What handling a message can come to; a control message that only reads, or a creation that is
      refused, changes nothing. */
  predicate Handles(m: Message, outcome: Option<Step>) {
    match m
    case ToInspect(t) => outcome.Some? && outcome.value.Respond? && outcome.value.t == t
    case ToComplete(t) => outcome == Some(Complete(t))
    case ToAsk(q) => outcome == Some(Handle(q))
    case Control(_, Creating(permissive)) => outcome.None? || (outcome.value.Create? && outcome.value.permissive == permissive)
    case Control(_, Revoking(id, token)) => outcome == Some(Revoke(id, token))
    case Control(_, Ending(id)) => outcome.Some? && outcome.value.End? && outcome.value.id == id
    case Control(_, Reading(_)) => outcome.None?
    case Expiry => outcome.Some? && outcome.value.Expire?
  }

  function Apply(st: State, outcome: Option<Step>): State
    requires outcome.Some? ==> Can(st, outcome.value)
  {
    match outcome
    case None => st
    case Some(step) => Do(st, step)
  }

  /** Discarding a session fills its done slot. */
  predicate DoneHasRoom(before: State, after: State) {
    forall id | id in before.sessions && id !in after.sessions :: id in before.timers && before.timers[id].done < 1
  }

  /** Whether every send of the handler finds room, so that it does not block. */
  predicate HasRoom(sys: System, m: Message, after: State) {
    match m
    case ToInspect(t) =>
      t in sys.base.tasks && t in after.tasks
      && (|after.tasks[t].sent| > |sys.base.tasks[t].sent| ==> Load(sys.replies, t) < 1)
    case ToComplete(t) => Load(sys.completions, t) < 1
    case ToAsk(q) =>
      q in sys.base.asks && q in after.asks
      && (after.asks[q].sent > sys.base.asks[q].sent ==> Load(sys.answers, q) < 1)
    case Control(k, _) => DoneHasRoom(sys.base, after) && Load(sys.controls, k) < 1
    case Expiry => DoneHasRoom(sys.base, after)
  }

  predicate CanMove(sys: System, move: Move) {
    match move
    case Quietly(step) => IsQuiet(step) && Can(sys.base, step)
    case Receive(m) => sys.dispatcher == Idle && Offered(sys, m)
    case Serve(outcome) =>
      && sys.dispatcher.Busy? && Handles(sys.dispatcher.m, outcome)
      && (outcome.Some? ==> Can(sys.base, outcome.value))
      && HasRoom(sys, sys.dispatcher.m, Apply(sys.base, outcome))
    case TakeCompletion(t) => Load(sys.completions, t) > 0
    case SendReply(t) => t in sys.holding && Can(sys.base, Forward(t)) && Load(sys.replies, t) < 1
    case SendAnswer(q) => Can(sys.base, Answer(q)) && Load(sys.answers, q) < 1
    case TakeReply(t) => Load(sys.replies, t) > 0
    case TakeAnswer(q) => Load(sys.answers, q) > 0
    case TakeControl(k) => Load(sys.controls, k) > 0
  }

  /** The channels after the handler of `m` sent its values. */
  function Sent(sys: System, m: Message, after: State): System
    requires HasRoom(sys, m, after)
  {
    match m
    case ToInspect(t) =>
      sys.(replies := Put(sys.replies, t, if |after.tasks[t].sent| > |sys.base.tasks[t].sent| then 1 else 0))
    case ToComplete(t) => sys.(completions := Put(sys.completions, t, 1))
    case ToAsk(q) => sys.(answers := Put(sys.answers, q, if after.asks[q].sent > sys.base.asks[q].sent then 1 else 0))
    case Control(k, _) => sys.(controls := Put(sys.controls, k, 1))
    case Expiry => sys
  }

  function Receiving(sys: System, m: Message): System
    requires Offered(sys, m)
  {
    match m
    case Control(k, _) => sys.(dispatcher := Busy(m), controls := sys.controls[k := 0])
    case Expiry => sys.(dispatcher := Busy(m), base := Do(sys.base, TakeExpired))
    case _ => sys.(dispatcher := Busy(m))
  }

  function Moved(sys: System, move: Move): System
    requires CanMove(sys, move)
  {
    match move
    case Quietly(step) => sys.(base := Do(sys.base, step))
    case Receive(m) => Receiving(sys, m)
    case Serve(outcome) =>
      Sent(sys, sys.dispatcher.m, Apply(sys.base, outcome)).(base := Apply(sys.base, outcome), dispatcher := Idle)
    case TakeCompletion(t) => sys.(completions := Take(sys.completions, t), holding := sys.holding + {t})
    case SendReply(t) =>
      sys.(base := Do(sys.base, Forward(t)), holding := sys.holding - {t}, replies := Put(sys.replies, t, 1))
    case SendAnswer(q) => sys.(base := Do(sys.base, Answer(q)), answers := Put(sys.answers, q, 1))
    case TakeReply(t) => sys.(replies := Take(sys.replies, t))
    case TakeAnswer(q) => sys.(answers := Take(sys.answers, q))
    case TakeControl(k) => sys.(controls := Take(sys.controls, k))
  }

  /** Where the moves lead, if each of them is possible in its turn. */
  function Target(from: System, moves: seq<Move>): Option<System>
    decreases |moves|
  {
    if moves == [] then Some(from)
    else if CanMove(from, moves[0]) then Target(Moved(from, moves[0]), moves[1..])
    else None
  }

  predicate Leads(from: System, moves: seq<Move>, to: System) {
    Target(from, moves) == Some(to)
  }

  // The invariant

  function SentOn(tasks: Tasks, t: nat): nat {
    if t in tasks then |tasks[t].sent| else 0
  }

  function AnsweredOn(asks: map<nat, Ask>, q: nat): nat {
    if q in asks then asks[q].sent else 0
  }

  function Owed(tasks: Tasks, t: nat): nat {
    if t in tasks && tasks[t].phase.Completed? then 1 else 0
  }

  ghost predicate RepliesInv(tasks: Tasks, replies: Slots) {
    forall t: nat :: Load(replies, t) <= SentOn(tasks, t)
  }

  ghost predicate AnswersInv(asks: map<nat, Ask>, answers: Slots) {
    forall q: nat :: Load(answers, q) <= AnsweredOn(asks, q)
  }

  /** A completion reply is in its slot or taken, from the completion until it is forwarded. */
  ghost predicate CompletionsInv(tasks: Tasks, completions: Slots, holding: set<nat>) {
    forall t: nat :: Load(completions, t) + (if t in holding then 1 else 0) == Owed(tasks, t)
  }

  /** The dispatcher's message is still to be answered. */
  predicate DispatcherInv(sys: System) {
    match sys.dispatcher
    case Idle => sys.base.handling == None
    case Busy(Expiry) => sys.base.handling.Some?
    case Busy(Control(k, _)) => sys.base.handling == None && k in sys.controls && sys.controls[k] == 0
    case Busy(m) => sys.base.handling == None && Offered(sys, m)
  }

  ghost predicate ChannelInv(sys: System) {
    && RepliesInv(sys.base.tasks, sys.replies)
    && AnswersInv(sys.base.asks, sys.answers)
    && CompletionsInv(sys.base.tasks, sys.completions, sys.holding)
    && DispatcherInv(sys)
  }

  ghost predicate BaseInv(st: State) {
    TasksInv(st) && BooksInv(st)
  }

  ghost predicate Inv(sys: System) {
    BaseInv(sys.base) && ChannelInv(sys)
  }

  // What the steps leave alone

  ghost predicate OtherTasks(st: State, st': State, t: nat) {
    && t in st.tasks && t in st'.tasks && st'.tasks == st.tasks[t := st'.tasks[t]]
    && st'.asks == st.asks && st'.handling == st.handling && st'.expired == st.expired
  }

  ghost predicate OtherAsks(st: State, st': State, q: nat) {
    && q in st.asks && q in st'.asks && st'.asks == st.asks[q := st'.asks[q]]
    && st'.tasks == st.tasks && st'.handling == st.handling && st'.expired == st.expired
  }

  lemma RespondFrame(st: State, t: nat, saved: bool)
    requires Can(st, Respond(t, saved)) && TaskInv(st.tasks[t])
    ensures var st' := Do(st, Respond(t, saved));
            && OtherTasks(st, st', t)
            && ((st'.tasks[t].phase == Inspecting && st'.tasks[t].sent == []) || (st'.tasks[t].phase.Done? && |st'.tasks[t].sent| == 1))
  {
    RespondOnly(st, t, saved);
  }

  lemma InspectFrame(st: State, t: nat, kind: Option<string>, turns: seq<Turn>)
    requires Can(st, Inspect(t, kind, turns))
    ensures var st' := Do(st, Inspect(t, kind, turns));
            OtherTasks(st, st', t) && st'.tasks[t].phase.Completing? && st'.tasks[t].sent == st.tasks[t].sent
  {
  }

  lemma CompleteFrame(st: State, t: nat)
    requires Can(st, Complete(t))
    ensures var st' := Do(st, Complete(t));
            OtherTasks(st, st', t) && st'.tasks[t].phase.Completed? && st'.tasks[t].sent == st.tasks[t].sent
  {
    CompleteOnly(st, t);
  }

  lemma ForwardFrame(st: State, t: nat)
    requires Can(st, Forward(t)) && TaskInv(st.tasks[t])
    ensures var st' := Do(st, Forward(t));
            OtherTasks(st, st', t) && st'.tasks[t].phase.Done? && |st'.tasks[t].sent| == 1
  {
  }

  lemma HandleFrame(st: State, q: nat)
    requires Can(st, Handle(q)) && AskInv(st)
    ensures var st' := Do(st, Handle(q));
            && OtherAsks(st, st', q)
            && ((st'.asks[q].phase == Working && st'.asks[q].sent == 0) || (st'.asks[q].phase == Answered && st'.asks[q].sent == 1))
  {
  }

  lemma AnswerFrame(st: State, q: nat)
    requires Can(st, Answer(q)) && AskInv(st)
    ensures var st' := Do(st, Answer(q));
            OtherAsks(st, st', q) && st'.asks[q].phase == Answered && st'.asks[q].sent == 1
  {
  }

  predicate IsControl(step: Step) {
    step.Create? || step.Revoke? || step.End? || step.Expire?
  }

  lemma ControlFrame(st: State, step: Step)
    requires Can(st, step) && IsControl(step)
    ensures Do(st, step).tasks == st.tasks && Do(st, step).asks == st.asks
    ensures Do(st, step).handling == (if step.Expire? then None else st.handling) && Do(st, step).expired == st.expired
  {
  }

  lemma QuietFrame(st: State, step: Step)
    requires Can(st, step) && (step.TimerFires? || step.WatcherWakes? || step.WatcherSends? || step.WatcherQuits?)
    ensures Do(st, step).tasks == st.tasks && Do(st, step).asks == st.asks && Do(st, step).handling == st.handling
  {
  }

  /** No live session's done slot is filled. */
  lemma DoneRoom(st: State, step: Step)
    requires BooksInv(st) && Can(st, step)
    ensures DoneHasRoom(st, Do(st, step))
  {
    forall id | id in st.sessions && id !in Do(st, step).sessions
      ensures id in st.timers && st.timers[id].done < 1
    {
      assert id in st.ever;
    }
  }

  // Every send finds room

  lemma InspectRoom(sys: System, t: nat, saved: bool)
    requires Inv(sys) && sys.dispatcher == Busy(ToInspect(t)) && Can(sys.base, Respond(t, saved))
    ensures HasRoom(sys, ToInspect(t), Do(sys.base, Respond(t, saved)))
  {
    assert TaskInv(sys.base.tasks[t]);
    RespondFrame(sys.base, t, saved);
    assert Load(sys.replies, t) <= SentOn(sys.base.tasks, t);
  }

  lemma CompleteRoom(sys: System, t: nat)
    requires Inv(sys) && sys.dispatcher == Busy(ToComplete(t))
    ensures HasRoom(sys, ToComplete(t), Do(sys.base, Complete(t)))
  {
    assert Load(sys.completions, t) + (if t in sys.holding then 1 else 0) == Owed(sys.base.tasks, t);
  }

  lemma AskRoom(sys: System, q: nat)
    requires Inv(sys) && sys.dispatcher == Busy(ToAsk(q))
    ensures HasRoom(sys, ToAsk(q), Do(sys.base, Handle(q)))
  {
    HandleFrame(sys.base, q);
    assert Load(sys.answers, q) <= AnsweredOn(sys.base.asks, q);
  }

  /** Whatever its handler comes to, the dispatcher finds room for all it sends. */
  lemma HandlerHasRoom(sys: System, outcome: Option<Step>)
    requires Inv(sys) && sys.dispatcher.Busy? && Handles(sys.dispatcher.m, outcome)
    requires outcome.Some? ==> Can(sys.base, outcome.value)
    ensures CanMove(sys, Serve(outcome))
  {
    var m := sys.dispatcher.m;
    if m.ToInspect? {
      InspectRoom(sys, m.t, outcome.value.saved);
    } else if m.ToComplete? {
      CompleteRoom(sys, m.t);
    } else if m.ToAsk? {
      AskRoom(sys, m.q);
    } else if outcome.Some? {
      DoneRoom(sys.base, outcome.value);
    }
  }

  /** A goroutine that holds its completion reply finds room for the final one. */
  lemma ReplyHasRoom(sys: System, t: nat)
    requires Inv(sys) && t in sys.holding
    ensures CanMove(sys, SendReply(t))
  {
    assert Load(sys.completions, t) + 1 == Owed(sys.base.tasks, t);
    assert Load(sys.replies, t) <= SentOn(sys.base.tasks, t);
    assert TaskInv(sys.base.tasks[t]);
  }

  lemma AnswerHasRoom(sys: System, q: nat)
    requires Inv(sys) && q in sys.base.asks && sys.base.asks[q].phase == Working
    ensures CanMove(sys, SendAnswer(q))
  {
    assert Load(sys.answers, q) <= AnsweredOn(sys.base.asks, q);
  }

  // The invariant holds

  /** One inspection moves on: its channels are right again, the others as they were. */
  lemma TaskMoves(sys: System, next: System, t: nat)
    requires RepliesInv(sys.base.tasks, sys.replies) && CompletionsInv(sys.base.tasks, sys.completions, sys.holding)
    requires OtherTasks(sys.base, next.base, t)
    requires forall u: nat | u != t :: Load(next.replies, u) == Load(sys.replies, u) && Load(next.completions, u) == Load(sys.completions, u)
    requires forall u: nat | u != t :: u in next.holding <==> u in sys.holding
    requires Load(next.replies, t) <= SentOn(next.base.tasks, t)
    requires Load(next.completions, t) + (if t in next.holding then 1 else 0) == Owed(next.base.tasks, t)
    ensures RepliesInv(next.base.tasks, next.replies)
    ensures CompletionsInv(next.base.tasks, next.completions, next.holding)
  {
    forall u: nat ensures Load(next.replies, u) <= SentOn(next.base.tasks, u) {
      assert Load(sys.replies, u) <= SentOn(sys.base.tasks, u);
    }
    forall u: nat ensures Load(next.completions, u) + (if u in next.holding then 1 else 0) == Owed(next.base.tasks, u) {
      assert Load(sys.completions, u) + (if u in sys.holding then 1 else 0) == Owed(sys.base.tasks, u);
    }
  }

  lemma AskMoves(sys: System, next: System, q: nat)
    requires AnswersInv(sys.base.asks, sys.answers) && OtherAsks(sys.base, next.base, q)
    requires forall u: nat | u != q :: Load(next.answers, u) == Load(sys.answers, u)
    requires Load(next.answers, q) <= AnsweredOn(next.base.asks, q)
    ensures AnswersInv(next.base.asks, next.answers)
  {
    forall u: nat ensures Load(next.answers, u) <= AnsweredOn(next.base.asks, u) {
      assert Load(sys.answers, u) <= AnsweredOn(sys.base.asks, u);
    }
  }

  /** What the channels of one inspection hold. */
  lemma ChannelsOf(sys: System, t: nat)
    requires ChannelInv(sys)
    ensures Load(sys.replies, t) <= SentOn(sys.base.tasks, t)
    ensures Load(sys.completions, t) + (if t in sys.holding then 1 else 0) == Owed(sys.base.tasks, t)
  {
  }

  lemma PutOne(slots: Slots, c: nat, n: nat)
    ensures Load(Put(slots, c, n), c) == Load(slots, c) + n
    ensures forall u: nat | u != c :: Load(Put(slots, c, n), u) == Load(slots, u)
  {
  }

  lemma ServeInspectKeeps(sys: System, t: nat, saved: bool)
    requires ChannelInv(sys) && sys.dispatcher == Busy(ToInspect(t)) && CanMove(sys, Serve(Some(Respond(t, saved))))
    requires TaskInv(sys.base.tasks[t])
    ensures ChannelInv(Moved(sys, Serve(Some(Respond(t, saved)))))
  {
    var next := Moved(sys, Serve(Some(Respond(t, saved))));
    RespondFrame(sys.base, t, saved);
    ChannelsOf(sys, t);
    PutOne(sys.replies, t, if |next.base.tasks[t].sent| > |sys.base.tasks[t].sent| then 1 else 0);
    TaskMoves(sys, next, t);
  }

  lemma ServeCompleteKeeps(sys: System, t: nat)
    requires ChannelInv(sys) && sys.dispatcher == Busy(ToComplete(t)) && CanMove(sys, Serve(Some(Complete(t))))
    ensures ChannelInv(Moved(sys, Serve(Some(Complete(t)))))
  {
    var next := Moved(sys, Serve(Some(Complete(t))));
    CompleteFrame(sys.base, t);
    ChannelsOf(sys, t);
    PutOne(sys.completions, t, 1);
    TaskMoves(sys, next, t);
  }

  lemma ServeAskKeeps(sys: System, q: nat)
    requires ChannelInv(sys) && sys.dispatcher == Busy(ToAsk(q)) && CanMove(sys, Serve(Some(Handle(q))))
    requires AskInv(sys.base)
    ensures ChannelInv(Moved(sys, Serve(Some(Handle(q)))))
  {
    var next := Moved(sys, Serve(Some(Handle(q))));
    HandleFrame(sys.base, q);
    assert Load(sys.answers, q) <= AnsweredOn(sys.base.asks, q);
    PutOne(sys.answers, q, if next.base.asks[q].sent > sys.base.asks[q].sent then 1 else 0);
    AskMoves(sys, next, q);
  }

  lemma ServeControlKeeps(sys: System, outcome: Option<Step>)
    requires ChannelInv(sys) && sys.dispatcher.Busy? && (sys.dispatcher.m.Control? || sys.dispatcher.m.Expiry?) && CanMove(sys, Serve(outcome))
    ensures ChannelInv(Moved(sys, Serve(outcome)))
  {
    if outcome.Some? {
      ControlFrame(sys.base, outcome.value);
    }
  }

  lemma ServeKeeps(sys: System, outcome: Option<Step>)
    requires Inv(sys) && CanMove(sys, Serve(outcome))
    ensures ChannelInv(Moved(sys, Serve(outcome)))
  {
    var m := sys.dispatcher.m;
    if m.ToInspect? {
      ServeInspectKeeps(sys, m.t, outcome.value.saved);
    } else if m.ToComplete? {
      ServeCompleteKeeps(sys, m.t);
    } else if m.ToAsk? {
      ServeAskKeeps(sys, m.q);
    } else {
      ServeControlKeeps(sys, outcome);
    }
  }

  lemma ReceiveKeeps(sys: System, m: Message)
    requires ChannelInv(sys) && CanMove(sys, Receive(m))
    ensures ChannelInv(Moved(sys, Receive(m)))
  {
  }

  /** The message in the dispatcher's hands concerns a phase that only the dispatcher leaves. */
  lemma StillOffered(sys: System, next: System)
    requires DispatcherInv(sys) && next.dispatcher == sys.dispatcher && next.controls == sys.controls
    requires next.base.handling == sys.base.handling
    requires forall t | t in sys.base.tasks && (sys.base.tasks[t].phase == Posted || sys.base.tasks[t].phase.Completing?) ::
               t in next.base.tasks && next.base.tasks[t] == sys.base.tasks[t]
    requires forall q | q in sys.base.asks && sys.base.asks[q].phase == Waiting :: q in next.base.asks && next.base.asks[q] == sys.base.asks[q]
    ensures DispatcherInv(next)
  {
  }

  lemma SubmitKeeps(sys: System, t: nat, a: Record)
    requires ChannelInv(sys) && CanMove(sys, Quietly(Submit(t, a)))
    ensures ChannelInv(Moved(sys, Quietly(Submit(t, a))))
  {
    var next := Moved(sys, Quietly(Submit(t, a)));
    forall u: nat ensures Load(next.replies, u) <= SentOn(next.base.tasks, u) {
      assert Load(sys.replies, u) <= SentOn(sys.base.tasks, u);
    }
    forall u: nat ensures Load(next.completions, u) + (if u in next.holding then 1 else 0) == Owed(next.base.tasks, u) {
      assert Load(sys.completions, u) + (if u in sys.holding then 1 else 0) == Owed(sys.base.tasks, u);
    }
    StillOffered(sys, next);
  }

  lemma PostKeeps(sys: System, q: nat, kind: AskKind, about: SessionId)
    requires ChannelInv(sys) && CanMove(sys, Quietly(Post(q, kind, about)))
    ensures ChannelInv(Moved(sys, Quietly(Post(q, kind, about))))
  {
    var next := Moved(sys, Quietly(Post(q, kind, about)));
    forall u: nat ensures Load(next.answers, u) <= AnsweredOn(next.base.asks, u) {
      assert Load(sys.answers, u) <= AnsweredOn(sys.base.asks, u);
    }
    StillOffered(sys, next);
  }

  lemma InspectKeeps(sys: System, t: nat, kind: Option<string>, turns: seq<Turn>)
    requires ChannelInv(sys) && CanMove(sys, Quietly(Inspect(t, kind, turns)))
    ensures ChannelInv(Moved(sys, Quietly(Inspect(t, kind, turns))))
  {
    var next := Moved(sys, Quietly(Inspect(t, kind, turns)));
    InspectFrame(sys.base, t, kind, turns);
    ChannelsOf(sys, t);
    TaskMoves(sys, next, t);
    StillOffered(sys, next);
  }

  lemma QuietlyKeeps(sys: System, step: Step)
    requires ChannelInv(sys) && CanMove(sys, Quietly(step))
    ensures ChannelInv(Moved(sys, Quietly(step)))
  {
    if step.Submit? {
      SubmitKeeps(sys, step.t, step.a);
    } else if step.Post? {
      PostKeeps(sys, step.q, step.askKind, step.about);
    } else if step.Inspect? {
      InspectKeeps(sys, step.t, step.kind, step.turns);
    } else {
      QuietFrame(sys.base, step);
      StillOffered(sys, Moved(sys, Quietly(step)));
    }
  }

  lemma SendReplyKeeps(sys: System, t: nat)
    requires ChannelInv(sys) && CanMove(sys, SendReply(t)) && TaskInv(sys.base.tasks[t])
    ensures ChannelInv(Moved(sys, SendReply(t)))
  {
    var next := Moved(sys, SendReply(t));
    ForwardFrame(sys.base, t);
    ChannelsOf(sys, t);
    PutOne(sys.replies, t, 1);
    TaskMoves(sys, next, t);
    StillOffered(sys, next);
  }

  lemma SendAnswerKeeps(sys: System, q: nat)
    requires ChannelInv(sys) && CanMove(sys, SendAnswer(q)) && AskInv(sys.base)
    ensures ChannelInv(Moved(sys, SendAnswer(q)))
  {
    var next := Moved(sys, SendAnswer(q));
    AnswerFrame(sys.base, q);
    assert Load(sys.answers, q) <= AnsweredOn(sys.base.asks, q);
    PutOne(sys.answers, q, 1);
    AskMoves(sys, next, q);
    StillOffered(sys, next);
  }

  lemma TakeOne(slots: Slots, c: nat)
    requires Load(slots, c) > 0
    ensures Load(Take(slots, c), c) == Load(slots, c) - 1
    ensures forall u: nat | u != c :: Load(Take(slots, c), u) == Load(slots, u)
  {
  }

  /** Taking a value only makes room. */
  lemma TakeReplyKeeps(sys: System, t: nat)
    requires ChannelInv(sys) && CanMove(sys, TakeReply(t))
    ensures ChannelInv(Moved(sys, TakeReply(t)))
  {
    var next := Moved(sys, TakeReply(t));
    TakeOne(sys.replies, t);
    forall u: nat ensures Load(next.replies, u) <= SentOn(next.base.tasks, u) {
      assert Load(sys.replies, u) <= SentOn(sys.base.tasks, u);
    }
  }

  lemma TakeAnswerKeeps(sys: System, q: nat)
    requires ChannelInv(sys) && CanMove(sys, TakeAnswer(q))
    ensures ChannelInv(Moved(sys, TakeAnswer(q)))
  {
    var next := Moved(sys, TakeAnswer(q));
    TakeOne(sys.answers, q);
    forall u: nat ensures Load(next.answers, u) <= AnsweredOn(next.base.asks, u) {
      assert Load(sys.answers, u) <= AnsweredOn(sys.base.asks, u);
    }
  }

  lemma TakeControlKeeps(sys: System, k: nat)
    requires ChannelInv(sys) && CanMove(sys, TakeControl(k))
    ensures ChannelInv(Moved(sys, TakeControl(k)))
  {
  }

  lemma TakeCompletionKeeps(sys: System, t: nat)
    requires ChannelInv(sys) && CanMove(sys, TakeCompletion(t))
    ensures ChannelInv(Moved(sys, TakeCompletion(t)))
  {
    var next := Moved(sys, TakeCompletion(t));
    TakeOne(sys.completions, t);
    forall u: nat ensures Load(next.completions, u) + (if u in next.holding then 1 else 0) == Owed(next.base.tasks, u) {
      assert Load(sys.completions, u) + (if u in sys.holding then 1 else 0) == Owed(sys.base.tasks, u);
    }
  }

  lemma BaseKeeps(st: State, step: Step)
    requires BaseInv(st) && Can(st, step)
    ensures BaseInv(Do(st, step))
  {
    TasksStep(st, step);
    BooksStep(st, step);
  }

  /** What the move does to the state of the step system: one of its steps, or nothing. */
  function StepOf(move: Move): Option<Step> {
    match move
    case Quietly(step) => Some(step)
    case Receive(Expiry) => Some(TakeExpired)
    case Serve(outcome) => outcome
    case SendReply(t) => Some(Forward(t))
    case SendAnswer(q) => Some(Answer(q))
    case _ => None
  }

  lemma MoveRefines(sys: System, move: Move)
    requires CanMove(sys, move)
    ensures match StepOf(move)
            case None => Moved(sys, move).base == sys.base
            case Some(step) => Can(sys.base, step) && Moved(sys, move).base == Do(sys.base, step)
  {
  }

  lemma ChannelsKeep(sys: System, move: Move)
    requires Inv(sys) && CanMove(sys, move)
    ensures ChannelInv(Moved(sys, move))
  {
    if move.Quietly? {
      QuietlyKeeps(sys, move.step);
    } else if move.Receive? {
      ReceiveKeeps(sys, move.m);
    } else if move.Serve? {
      ServeKeeps(sys, move.outcome);
    } else if move.SendReply? {
      SendReplyKeeps(sys, move.t);
    } else if move.SendAnswer? {
      SendAnswerKeeps(sys, move.q);
    } else {
      TakesKeep(sys, move);
    }
  }

  lemma TakesKeep(sys: System, move: Move)
    requires Inv(sys) && CanMove(sys, move)
    requires move.TakeCompletion? || move.TakeReply? || move.TakeAnswer? || move.TakeControl?
    ensures ChannelInv(Moved(sys, move))
  {
    if move.TakeCompletion? {
      TakeCompletionKeeps(sys, move.t);
    } else if move.TakeReply? {
      TakeReplyKeeps(sys, move.t);
    } else if move.TakeAnswer? {
      TakeAnswerKeeps(sys, move.q);
    } else {
      TakeControlKeeps(sys, move.k);
    }
  }

  lemma MoveKeeps(sys: System, move: Move)
    requires Inv(sys) && CanMove(sys, move)
    ensures Inv(Moved(sys, move))
  {
    MoveRefines(sys, move);
    if StepOf(move).Some? {
      BaseKeeps(sys.base, StepOf(move).value);
    }
    ChannelsKeep(sys, move);
  }

  lemma {:induction false} LeadsKeeps(from: System, moves: seq<Move>, to: System)
    requires Inv(from) && Leads(from, moves, to)
    ensures Inv(to)
    decreases |moves|
  {
    if moves != [] {
      MoveKeeps(from, moves[0]);
      LeadsKeeps(Moved(from, moves[0]), moves[1..], to);
    }
  }

  lemma Reached(moves: seq<Move>, sys: System)
    requires Leads(QUIET, moves, sys)
    ensures Inv(sys)
  {
    BooksAlways([]);
    TasksAlways([]);
    LeadsKeeps(QUIET, moves, sys);
  }

  /** In every reachable state no send blocks: whatever the handler at work comes to, all its sends
      find room; a goroutine with its completion reply in hand finds room for the final reply; and
      so does one that answers a request inspection or a deletion. */
  lemma {:induction false} SendsNeverBlock(moves: seq<Move>, sys: System)
    requires Leads(QUIET, moves, sys)
    ensures forall outcome | sys.dispatcher.Busy? && Handles(sys.dispatcher.m, outcome) && (outcome.Some? ==> Can(sys.base, outcome.value)) ::
              CanMove(sys, Serve(outcome))
    ensures forall t | t in sys.holding :: CanMove(sys, SendReply(t))
    ensures forall q | q in sys.base.asks && sys.base.asks[q].phase == Working :: CanMove(sys, SendAnswer(q))
  {
    Reached(moves, sys);
    forall outcome | sys.dispatcher.Busy? && Handles(sys.dispatcher.m, outcome) && (outcome.Some? ==> Can(sys.base, outcome.value))
      ensures CanMove(sys, Serve(outcome))
    {
      HandlerHasRoom(sys, outcome);
    }
    forall t | t in sys.holding ensures CanMove(sys, SendReply(t)) {
      ReplyHasRoom(sys, t);
    }
    forall q | q in sys.base.asks && sys.base.asks[q].phase == Working ensures CanMove(sys, SendAnswer(q)) {
      AnswerHasRoom(sys, q);
    }
  }

  // The dispatcher returns

  lemma SomeOrder(keys: set<Digest>) returns (order: seq<Digest>)
    ensures Permutes(order, keys)
  {
    order := [];
    if keys != {} {
      var d :| d in keys;
      var rest := SomeOrder(keys - {d});
      order := rest + [d];
      assert (set e | e in order) == (set e | e in rest) + {d};
      assert d !in (set e | e in rest);
    }
  }

  /** A way to finish the handler at work. */
  lemma HandlerFinishes(sys: System) returns (outcome: Option<Step>)
    requires Inv(sys) && sys.dispatcher.Busy?
    ensures CanMove(sys, Serve(outcome)) && Moved(sys, Serve(outcome)).dispatcher == Idle
  {
    var m := sys.dispatcher.m;
    if m.ToInspect? {
      outcome := Some(Respond(m.t, true));
    } else if m.ToComplete? {
      outcome := Some(Complete(m.t));
    } else if m.ToAsk? {
      outcome := Some(Handle(m.q));
    } else if m.Expiry? {
      var id := sys.base.handling.value;
      var order := SomeOrder(if id in sys.base.sessions then sys.base.sessions[id].artifacts.Keys else {});
      outcome := Some(Expire(Writes(order, 0)));
    } else if m.order.Revoking? {
      outcome := Some(Revoke(m.order.id, m.order.token));
    } else if m.order.Ending? {
      var id := m.order.id;
      var order := SomeOrder(if id in sys.base.sessions then sys.base.sessions[id].artifacts.Keys else {});
      outcome := Some(End(id, Writes(order, 0)));
    } else {
      outcome := None;
    }
    HandlerHasRoom(sys, outcome);
  }

  /** In every reachable state a busy dispatcher can finish its handler and become idle, without any
      other goroutine or client moving. */
  lemma {:induction false} DispatcherReturns(moves: seq<Move>, sys: System) returns (outcome: Option<Step>)
    requires Leads(QUIET, moves, sys) && sys.dispatcher.Busy?
    ensures CanMove(sys, Serve(outcome)) && Moved(sys, Serve(outcome)).dispatcher == Idle
  {
    Reached(moves, sys);
    outcome := HandlerFinishes(sys);
  }

  // Refinement

  lemma ExtendRun(done: seq<Step>, st: State, step: Step)
    requires Run(done) && After(done) == st && Can(st, step)
    ensures Run(done + [step]) && After(done + [step]) == Do(st, step)
  {
    assert (done + [step])[..|done|] == done;
  }

  lemma {:induction false} LeadsRefines(done: seq<Step>, from: System, moves: seq<Move>, to: System) returns (steps: seq<Step>)
    requires Run(done) && After(done) == from.base && Leads(from, moves, to)
    ensures Run(steps) && After(steps) == to.base
    decreases |moves|
  {
    if moves == [] {
      return done;
    }
    MoveRefines(from, moves[0]);
    match StepOf(moves[0]) {
      case None =>
        steps := LeadsRefines(done, Moved(from, moves[0]), moves[1..], to);
      case Some(step) =>
        ExtendRun(done, from.base, step);
        steps := LeadsRefines(done + [step], Moved(from, moves[0]), moves[1..], to);
    }
  }

  /** Every reachable state of the channel system shows a reachable state of the step system, so
      that whatever holds in all runs of the latter holds here. */
  lemma {:induction false} Refines(moves: seq<Move>, sys: System) returns (steps: seq<Step>)
    requires Leads(QUIET, moves, sys)
    ensures Run(steps) && After(steps) == sys.base
  {
    steps := LeadsRefines([], QUIET, moves, sys);
  }

  // No deadlock, and an end

  /** Moves of the service itself: no client takes a value, no new work arrives and no time passes. */
  predicate Internal(move: Move) {
    !move.TakeReply? && !move.TakeAnswer? && !move.TakeControl? && (move.Quietly? ==> move.step.Inspect?)
    && (move.Receive? ==> !move.m.Control?)
  }

  predicate AllInternal(moves: seq<Move>) {
    forall i | 0 <= i < |moves| :: Internal(moves[i])
  }

  function AskRank(ask: Ask): nat {
    match ask.phase
    case Waiting => 2
    case Working => 1
    case Answered => 0
  }

  /** What is left to do for inspection `i` and for ask `i`. */
  function ItemWork(sys: System, i: nat): nat {
    (if i !in sys.base.tasks then 0
     else 3 * Rank(sys.base.tasks[i].phase) - (if sys.base.tasks[i].phase.Completed? && i in sys.holding then 1 else 0))
    + (if i in sys.base.asks then 2 * AskRank(sys.base.asks[i]) else 0)
  }

  function ItemsWork(sys: System, n: nat): nat {
    if n == 0 then 0 else ItemsWork(sys, n - 1) + ItemWork(sys, n - 1)
  }

  /** What is left to do in the dispatcher. */
  function LoopWork(sys: System): nat {
    (match sys.dispatcher
     case Idle => 1
     case Busy(Control(_, _)) => 2
     case Busy(_) => 0)
    + (if sys.base.handling.Some? then 2 else 0) + (if sys.base.expired.Some? then 2 else 0)
  }

  /** A bound on the moves the service can make on its own, with all numbers in use below `n`. */
  function Work(sys: System, n: nat): nat {
    ItemsWork(sys, n) + LoopWork(sys)
  }

  predicate Within(sys: System, n: nat) {
    (forall t | t in sys.base.tasks :: t < n) && (forall q | q in sys.base.asks :: q < n)
  }

  predicate SameItems(a: System, b: System) {
    b.base.tasks.Keys == a.base.tasks.Keys && b.base.asks.Keys == a.base.asks.Keys
  }

  ghost predicate NoneRises(a: System, b: System) {
    forall i: nat :: ItemWork(b, i) <= ItemWork(a, i)
  }

  lemma {:induction false} ItemsNotMore(a: System, b: System, n: nat)
    requires NoneRises(a, b)
    ensures ItemsWork(b, n) <= ItemsWork(a, n)
  {
    if n > 0 {
      ItemsNotMore(a, b, n - 1);
      assert ItemWork(b, n - 1) <= ItemWork(a, n - 1);
    }
  }

  lemma {:induction false} ItemsLess(a: System, b: System, n: nat, k: nat, drop: nat)
    requires NoneRises(a, b) && k < n && ItemWork(b, k) + drop <= ItemWork(a, k)
    ensures ItemsWork(b, n) + drop <= ItemsWork(a, n)
  {
    if k == n - 1 {
      ItemsNotMore(a, b, n - 1);
    } else {
      ItemsLess(a, b, n - 1, k, drop);
      assert ItemWork(b, n - 1) <= ItemWork(a, n - 1);
    }
  }

  /** A move of inspection `t` alone that takes it `drop` further. */
  lemma TaskLess(a: System, b: System, t: nat, n: nat, drop: nat)
    requires OtherTasks(a.base, b.base, t) && (forall u: nat | u != t :: u in b.holding <==> u in a.holding)
    requires Within(a, n) && ItemWork(b, t) + drop <= ItemWork(a, t)
    ensures SameItems(a, b) && ItemsWork(b, n) + drop <= ItemsWork(a, n)
  {
    forall i: nat ensures ItemWork(b, i) <= ItemWork(a, i) {
    }
    ItemsLess(a, b, n, t, drop);
  }

  lemma AskLess(a: System, b: System, q: nat, n: nat)
    requires OtherAsks(a.base, b.base, q) && b.holding == a.holding && Within(a, n)
    requires AskRank(b.base.asks[q]) < AskRank(a.base.asks[q])
    ensures SameItems(a, b) && ItemsWork(b, n) + 2 <= ItemsWork(a, n)
  {
    forall i: nat ensures ItemWork(b, i) <= ItemWork(a, i) {
    }
    ItemsLess(a, b, n, q, 2);
  }

  predicate Less(a: System, b: System, n: nat) {
    Work(b, n) < Work(a, n) && SameItems(a, b)
  }

  lemma InspectLowers(sys: System, t: nat, kind: Option<string>, turns: seq<Turn>, n: nat)
    requires Within(sys, n) && CanMove(sys, Quietly(Inspect(t, kind, turns)))
    ensures Less(sys, Moved(sys, Quietly(Inspect(t, kind, turns))), n)
  {
    InspectFrame(sys.base, t, kind, turns);
    TaskLess(sys, Moved(sys, Quietly(Inspect(t, kind, turns))), t, n, 3);
  }

  lemma ServeInspectLowers(sys: System, t: nat, saved: bool, n: nat)
    requires Within(sys, n) && sys.dispatcher == Busy(ToInspect(t)) && CanMove(sys, Serve(Some(Respond(t, saved))))
    requires TaskInv(sys.base.tasks[t])
    ensures Less(sys, Moved(sys, Serve(Some(Respond(t, saved)))), n)
  {
    RespondFrame(sys.base, t, saved);
    TaskLess(sys, Moved(sys, Serve(Some(Respond(t, saved)))), t, n, 3);
  }

  lemma ServeCompleteLowers(sys: System, t: nat, n: nat)
    requires Within(sys, n) && sys.dispatcher == Busy(ToComplete(t)) && CanMove(sys, Serve(Some(Complete(t))))
    ensures Less(sys, Moved(sys, Serve(Some(Complete(t)))), n)
  {
    CompleteFrame(sys.base, t);
    TaskLess(sys, Moved(sys, Serve(Some(Complete(t)))), t, n, 3);
  }

  lemma ServeAskLowers(sys: System, q: nat, n: nat)
    requires Within(sys, n) && sys.dispatcher == Busy(ToAsk(q)) && CanMove(sys, Serve(Some(Handle(q)))) && AskInv(sys.base)
    ensures Less(sys, Moved(sys, Serve(Some(Handle(q)))), n)
  {
    HandleFrame(sys.base, q);
    AskLess(sys, Moved(sys, Serve(Some(Handle(q)))), q, n);
  }

  lemma SameWork(a: System, b: System, n: nat)
    requires b.base.tasks == a.base.tasks && b.base.asks == a.base.asks && b.holding == a.holding
    ensures ItemsWork(b, n) == ItemsWork(a, n)
  {
    ItemsNotMore(a, b, n);
    ItemsNotMore(b, a, n);
  }

  lemma ServeOtherLowers(sys: System, outcome: Option<Step>, n: nat)
    requires Inv(sys) && sys.dispatcher.Busy? && (sys.dispatcher.m.Control? || sys.dispatcher.m.Expiry?) && CanMove(sys, Serve(outcome))
    ensures Less(sys, Moved(sys, Serve(outcome)), n)
  {
    if outcome.Some? {
      ControlFrame(sys.base, outcome.value);
    }
    SameWork(sys, Moved(sys, Serve(outcome)), n);
  }

  lemma ServeLowers(sys: System, outcome: Option<Step>, n: nat)
    requires Inv(sys) && Within(sys, n) && CanMove(sys, Serve(outcome))
    ensures Less(sys, Moved(sys, Serve(outcome)), n)
  {
    var m := sys.dispatcher.m;
    if m.ToInspect? {
      ServeInspectLowers(sys, m.t, outcome.value.saved, n);
    } else if m.ToComplete? {
      ServeCompleteLowers(sys, m.t, n);
    } else if m.ToAsk? {
      ServeAskLowers(sys, m.q, n);
    } else {
      ServeOtherLowers(sys, outcome, n);
    }
  }

  lemma ReceiveLowers(sys: System, m: Message, n: nat)
    requires DispatcherInv(sys) && CanMove(sys, Receive(m)) && !m.Control?
    ensures Less(sys, Moved(sys, Receive(m)), n)
  {
    SameWork(sys, Moved(sys, Receive(m)), n);
  }

  lemma TakeCompletionLowers(sys: System, t: nat, n: nat)
    requires Inv(sys) && Within(sys, n) && CanMove(sys, TakeCompletion(t))
    ensures Less(sys, Moved(sys, TakeCompletion(t)), n)
  {
    assert Load(sys.completions, t) + (if t in sys.holding then 1 else 0) == Owed(sys.base.tasks, t);
    TaskLess(sys, Moved(sys, TakeCompletion(t)), t, n, 1);
  }

  lemma SendReplyLowers(sys: System, t: nat, n: nat)
    requires Inv(sys) && Within(sys, n) && CanMove(sys, SendReply(t))
    ensures Less(sys, Moved(sys, SendReply(t)), n)
  {
    assert TaskInv(sys.base.tasks[t]);
    ForwardFrame(sys.base, t);
    ForwardLess(sys, Moved(sys, SendReply(t)), t, n);
  }

  lemma ForwardLess(a: System, b: System, t: nat, n: nat)
    requires OtherTasks(a.base, b.base, t) && a.base.tasks[t].phase.Completed? && b.base.tasks[t].phase.Done?
    requires b.holding == a.holding - {t} && b.dispatcher == a.dispatcher && Within(a, n)
    ensures Less(a, b, n)
  {
    TaskLess(a, b, t, n, 1);
  }

  lemma SendAnswerLowers(sys: System, q: nat, n: nat)
    requires Inv(sys) && Within(sys, n) && CanMove(sys, SendAnswer(q))
    ensures Less(sys, Moved(sys, SendAnswer(q)), n)
  {
    AnswerFrame(sys.base, q);
    AnswerLess(sys, Moved(sys, SendAnswer(q)), q, n);
  }

  lemma AnswerLess(a: System, b: System, q: nat, n: nat)
    requires OtherAsks(a.base, b.base, q) && a.base.asks[q].phase == Working && b.base.asks[q].phase == Answered
    requires b.holding == a.holding && b.dispatcher == a.dispatcher && Within(a, n)
    ensures Less(a, b, n)
  {
    AskLess(a, b, q, n);
  }

  /** Every move of the service on its own leaves less for it to do. */
  lemma InternalLowers(sys: System, move: Move, n: nat)
    requires Inv(sys) && Within(sys, n) && CanMove(sys, move) && Internal(move)
    ensures Less(sys, Moved(sys, move), n)
  {
    if move.Quietly? {
      InspectLowers(sys, move.step.t, move.step.kind, move.step.turns, n);
    } else if move.Receive? {
      ReceiveLowers(sys, move.m, n);
    } else if move.Serve? {
      ServeLowers(sys, move.outcome, n);
    } else if move.TakeCompletion? {
      TakeCompletionLowers(sys, move.t, n);
    } else if move.SendReply? {
      SendReplyLowers(sys, move.t, n);
    } else {
      SendAnswerLowers(sys, move.q, n);
    }
  }

  /** Nothing is left: the dispatcher is idle, no expired id waits, every inspection has ended and every
      request inspection and deletion is answered. */
  predicate AtRest(sys: System) {
    && sys.dispatcher == Idle && sys.base.expired == None
    && (forall t | t in sys.base.tasks :: sys.base.tasks[t].phase.Done?)
    && (forall q | q in sys.base.asks :: sys.base.asks[q].phase == Answered)
  }

  lemma NextOfTask(sys: System, t: nat) returns (move: Move)
    requires Inv(sys) && sys.dispatcher == Idle && t in sys.base.tasks && !sys.base.tasks[t].phase.Done?
    ensures CanMove(sys, move) && Internal(move)
  {
    match sys.base.tasks[t].phase {
      case Posted => move := Receive(ToInspect(t));
      case Inspecting => move := Quietly(Inspect(t, None, []));
      case Completing(_) => move := Receive(ToComplete(t));
      case Completed(_, _) =>
        assert Load(sys.completions, t) + (if t in sys.holding then 1 else 0) == Owed(sys.base.tasks, t);
        if t in sys.holding {
          ReplyHasRoom(sys, t);
          move := SendReply(t);
        } else {
          move := TakeCompletion(t);
        }
    }
  }

  /** As long as anything is left, the service can move on its own. */
  lemma NextMove(sys: System) returns (move: Move)
    requires Inv(sys) && !AtRest(sys)
    ensures CanMove(sys, move) && Internal(move)
  {
    if sys.dispatcher.Busy? {
      var outcome := HandlerFinishes(sys);
      move := Serve(outcome);
    } else if sys.base.expired.Some? {
      move := Receive(Expiry);
    } else if t :| t in sys.base.tasks && !sys.base.tasks[t].phase.Done? {
      move := NextOfTask(sys, t);
    } else {
      var q :| q in sys.base.asks && sys.base.asks[q].phase != Answered;
      if sys.base.asks[q].phase == Waiting {
        move := Receive(ToAsk(q));
      } else {
        AnswerHasRoom(sys, q);
        move := SendAnswer(q);
      }
    }
  }

  /** The service cannot go on forever on its own: `Work` bounds every run of internal moves. */
  lemma {:induction false} InternalEnds(moves: seq<Move>, sys: System, more: seq<Move>, next: System, n: nat)
    requires Leads(QUIET, moves, sys) && Within(sys, n)
    requires Leads(sys, more, next) && AllInternal(more)
    ensures |more| + Work(next, n) <= Work(sys, n)
  {
    Reached(moves, sys);
    WorkBounds(sys, more, next, n);
  }

  lemma {:induction false} WorkBounds(sys: System, more: seq<Move>, next: System, n: nat)
    requires Inv(sys) && Within(sys, n) && Leads(sys, more, next) && AllInternal(more)
    ensures |more| + Work(next, n) <= Work(sys, n)
    decreases |more|
  {
    if more != [] {
      var middle := FirstLess(sys, more, next, n);
      WorkBounds(middle, more[1..], next, n);
    }
  }

  lemma FirstLess(sys: System, more: seq<Move>, next: System, n: nat) returns (middle: System)
    requires Inv(sys) && Within(sys, n) && more != [] && Leads(sys, more, next) && AllInternal(more)
    ensures Inv(middle) && Less(sys, middle, n) && Leads(middle, more[1..], next)
  {
    assert Internal(more[0]);
    middle := Moved(sys, more[0]);
    InternalLowers(sys, more[0], n);
    MoveKeeps(sys, more[0]);
  }

  /** And it stops only when nothing is left: in a reachable state no internal move is possible exactly
      when the dispatcher is idle, no expired id waits, every inspection has sent its one reply and
      every request inspection and deletion its one answer. */
  lemma {:induction false} StuckIffAtRest(moves: seq<Move>, sys: System)
    requires Leads(QUIET, moves, sys)
    ensures (forall move | Internal(move) :: !CanMove(sys, move)) <==> AtRest(sys)
    ensures AtRest(sys) ==> forall t | t in sys.base.tasks :: |sys.base.tasks[t].sent| == 1
    ensures AtRest(sys) ==> forall q | q in sys.base.asks :: sys.base.asks[q].sent == 1
  {
    Reached(moves, sys);
    if AtRest(sys) {
      RestIsStuck(sys);
      RestHasReplied(sys);
    } else {
      var move := NextMove(sys);
    }
  }

  lemma RestIsStuck(sys: System)
    requires Inv(sys) && AtRest(sys)
    ensures forall move | Internal(move) :: !CanMove(sys, move)
  {
    forall move | Internal(move) ensures !CanMove(sys, move) {
      NothingOwed(sys, if move.TakeCompletion? || move.SendReply? then move.t else 0);
      RestBlocks(sys, move);
    }
  }

  lemma RestBlocks(sys: System, move: Move)
    requires AtRest(sys) && Internal(move)
    requires move.TakeCompletion? || move.SendReply? ==> Load(sys.completions, move.t) == 0 && move.t !in sys.holding
    ensures !CanMove(sys, move)
  {
  }

  lemma NothingOwed(sys: System, t: nat)
    requires Inv(sys) && AtRest(sys)
    ensures Load(sys.completions, t) == 0 && t !in sys.holding
  {
    assert Load(sys.completions, t) + (if t in sys.holding then 1 else 0) == Owed(sys.base.tasks, t);
  }

  lemma RestHasReplied(sys: System)
    requires Inv(sys) && AtRest(sys)
    ensures forall t | t in sys.base.tasks :: |sys.base.tasks[t].sent| == 1
    ensures forall q | q in sys.base.asks :: sys.base.asks[q].sent == 1
  {
    forall t | t in sys.base.tasks ensures |sys.base.tasks[t].sent| == 1 {
      assert TaskInv(sys.base.tasks[t]);
    }
  }

  lemma SomeBound(keys: set<nat>) returns (n: nat)
    ensures forall k | k in keys :: k < n
  {
    n := 0;
    if keys != {} {
      var k :| k in keys;
      var m := SomeBound(keys - {k});
      n := if k < m then m else k + 1;
      forall l | l in keys ensures l < n {
        assert l == k || l in keys - {k};
      }
    }
  }

  ghost predicate Reachable(sys: System) {
    exists moves: seq<Move> :: Leads(QUIET, moves, sys)
  }

  lemma {:induction false} LeadsBefore(from: System, moves: seq<Move>, a: System, move: Move, b: System)
    requires Leads(from, moves, a) && CanMove(a, move) && Moved(a, move) == b
    ensures Leads(from, moves + [move], b)
    decreases |moves|
  {
    if moves == [] {
      assert [move][1..] == [];
    } else {
      LeadsBefore(Moved(from, moves[0]), moves[1..], a, move, b);
      assert (moves + [move])[1..] == moves[1..] + [move];
    }
  }

  lemma OneMove(sys: System, n: nat) returns (move: Move, next: System)
    requires Reachable(sys) && Within(sys, n) && !AtRest(sys)
    ensures CanMove(sys, move) && Moved(sys, move) == next && Internal(move) && Reachable(next) && Less(sys, next, n)
  {
    var moves: seq<Move> :| Leads(QUIET, moves, sys);
    Reached(moves, sys);
    move := NextMove(sys);
    next := Moved(sys, move);
    InternalLowers(sys, move, n);
    LeadsBefore(QUIET, moves, sys, move, next);
  }

  lemma LeadsAfter(a: System, move: Move, b: System, rest: seq<Move>, c: System)
    requires CanMove(a, move) && Moved(a, move) == b && Leads(b, rest, c)
    ensures Leads(a, [move] + rest, c)
  {
    assert ([move] + rest)[1..] == rest;
  }

  lemma {:induction false} GoOn(sys: System, n: nat) returns (more: seq<Move>, next: System)
    requires Reachable(sys) && Within(sys, n)
    ensures Leads(sys, more, next) && AllInternal(more) && Reachable(next) && AtRest(next) && SameItems(sys, next)
    decreases Work(sys, n)
  {
    if AtRest(sys) {
      return [], sys;
    }
    var move, middle := OneMove(sys, n);
    var rest;
    rest, next := GoOn(middle, n);
    LeadsAfter(sys, move, middle, rest, next);
    more := [move] + rest;
  }

  /** No deadlock: from every reachable state the service alone, without any client taking a value or
      sending more work, can go on until the dispatcher is idle, every inspection has sent its one
      reply and every request inspection and deletion its one answer. */
  lemma {:induction false} AlwaysFinishable(moves: seq<Move>, sys: System) returns (more: seq<Move>, next: System)
    requires Leads(QUIET, moves, sys)
    ensures Leads(sys, more, next) && AllInternal(more) && next.dispatcher == Idle
    ensures next.base.tasks.Keys == sys.base.tasks.Keys && next.base.asks.Keys == sys.base.asks.Keys
    ensures forall t | t in next.base.tasks :: |next.base.tasks[t].sent| == 1
    ensures forall q | q in next.base.asks :: next.base.asks[q].sent == 1
  {
    var k := SomeBound(sys.base.tasks.Keys);
    var l := SomeBound(sys.base.asks.Keys);
    more, next := GoOn(sys, k + l);
    var all: seq<Move> :| Leads(QUIET, all, next);
    StuckIffAtRest(all, next);
  }
}
