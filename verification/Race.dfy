/** NewFileDownloadHandler: the downloader goroutine racing the five-second select. */
module Race {
  import opened Basics
  import opened Protocol

  /** What the downloader reports on its one-slot channel. */
  datatype Outcome = Good | Bad

  datatype Downloader =
    | Downloading
    | Requesting
    | Awaiting
    | Opening
    | Announcing            // about to send nil
    | Failing               // about to send an error
    | Checking              // sent an error, about to look at the background flag
    | Copying
    | Finished

  /** The function that returns the handler: in its select, after taking a result from the
      channel, between the timeout and raising the flag, or returned with a live handler. */
  datatype Foreground = Selecting | Handed | Refused | Switching | Streaming

  datatype State = State(
    pc: Downloader,
    fg: Foreground,
    slot: Option<Outcome>,
    sent: seq<Outcome>,     // every value ever sent
    background: bool,
    readerClosed: bool,
    writerClosed: bool,
    reply: Option<Reply>,   // the inspection reply, once received
    content: string,        // the opened asset file
    copied: string)         // bytes written to the client's pipe

  const START := State(Downloading, Selecting, None, [], false, false, false, None, "", "")

  datatype Step =
    | Downloaded
    | DownloadFailed
    | Requested
    | Replied(reply: Reply)
    | TimedOut
    | Opened(content: string)
    | OpenFailed
    | Announce
    | SendError
    | CheckFlag
    | Copy(n: nat)
    | CopyEnds
    | TakeResult
    | SelectTimesOut
    | RaiseFlag

  predicate Can(s: State, step: Step) {
    match step
    case Downloaded => s.pc == Downloading
    case DownloadFailed => s.pc == Downloading
    case Requested => s.pc == Requesting
    case Replied(_) => s.pc == Awaiting
    case TimedOut => s.pc == Awaiting
    case Opened(_) => s.pc == Opening
    case OpenFailed => s.pc == Opening
    case Announce => s.pc == Announcing && s.slot == None
    case SendError => s.pc == Failing && s.slot == None
    case CheckFlag => s.pc == Checking
    case Copy(n) => s.pc == Copying && |s.copied| + n <= |s.content|
    case CopyEnds => s.pc == Copying
    case TakeResult => s.fg == Selecting && s.slot.Some?
    case SelectTimesOut => s.fg == Selecting
    case RaiseFlag => s.fg == Switching
  }

  function Do(s: State, step: Step): State
    requires Can(s, step)
  {
    match step
    case Downloaded => s.(pc := Requesting)
    case DownloadFailed => s.(pc := Failing)
    case Requested => s.(pc := Awaiting)
    case Replied(r) => s.(pc := if r == Nil then Opening else Failing, reply := Some(r))
    case TimedOut => s.(pc := Failing)
    case Opened(content) => s.(pc := Announcing, content := content)
    case OpenFailed => s.(pc := Failing)
    case Announce => s.(pc := Copying, slot := Some(Good), sent := s.sent + [Good])
    case SendError => s.(pc := Checking, slot := Some(Bad), sent := s.sent + [Bad])
    case CheckFlag => s.(pc := Finished, readerClosed := s.readerClosed || s.background, writerClosed := true)
    case Copy(n) => s.(copied := s.content[..|s.copied| + n])
    case CopyEnds => s.(pc := Finished, writerClosed := true)
    case TakeResult => s.(slot := None, fg := if s.slot.value == Good then Handed else Refused)
    case SelectTimesOut => s.(fg := Switching)
    case RaiseFlag => s.(fg := Streaming, background := true)
  }

  predicate Run(steps: seq<Step>)
    decreases |steps|, 0
  {
    steps == [] || (Run(steps[..|steps| - 1]) && Can(After(steps[..|steps| - 1]), steps[|steps| - 1]))
  }

  function After(steps: seq<Step>): State
    requires Run(steps)
    decreases |steps|, 1
  {
    if steps == [] then START else Do(After(steps[..|steps| - 1]), steps[|steps| - 1])
  }

  predicate Unsent(pc: Downloader) {
    pc == Downloading || pc == Requesting || pc == Awaiting || pc == Opening || pc == Announcing || pc == Failing
  }

  predicate Inv(s: State) {
    && |s.sent| <= 1
    && (Unsent(s.pc) ==> s.sent == [] && s.slot == None && s.copied == "" && !s.writerClosed)
    && (!Unsent(s.pc) ==> |s.sent| == 1)
    && (s.slot.Some? ==> s.sent == [s.slot.value] && s.fg != Handed && s.fg != Refused)
    && (s.pc == Opening || s.pc == Announcing || s.pc == Copying ==> s.reply == Some(Nil))
    && (s.pc == Copying ==> s.sent == [Good])
    && (s.pc == Checking ==> s.sent == [Bad])
    && (s.sent == [Good] ==> s.reply == Some(Nil))
    && (s.copied != "" ==> s.sent == [Good])
    && s.copied <= s.content
    && (s.fg == Handed ==> s.sent == [Good])
    && (s.fg == Refused ==> s.sent == [Bad])
    && (s.background <==> s.fg == Streaming)
    && (s.pc != Finished ==> !s.readerClosed)
    && (s.readerClosed ==> s.sent == [Bad] && s.fg == Streaming)
  }

  lemma StepKeeps(s: State, step: Step)
    requires Inv(s) && Can(s, step)
    ensures Inv(Do(s, step))
  {
  }

  lemma {:induction false} Always(steps: seq<Step>)
    requires Run(steps)
    ensures Inv(After(steps))
  {
    if steps != [] {
      Always(steps[..|steps| - 1]);
      StepKeeps(After(steps[..|steps| - 1]), steps[|steps| - 1]);
    }
  }

  /** In every interleaving: bytes reach the client's pipe only after a nil inspection reply, and
      are a prefix of the opened file; at most one value is ever sent on the one-slot channel, so
      sending never blocks; a handler returned by the foreground branch, before the timeout,
      means that value was nil. */
  lemma NothingBeforeApproval(steps: seq<Step>)
    requires Run(steps)
    ensures var s := After(steps);
            && (s.copied != "" ==> s.reply == Some(Nil))
            && s.copied <= s.content
            && |s.sent| <= 1
            && (s.pc == Announcing || s.pc == Failing ==> s.slot == None)
            && (s.fg == Handed ==> s.sent == [Good] && s.reply == Some(Nil))
            && (s.fg == Refused ==> s.sent == [Bad] && s.copied == "")
  {
    Always(steps);
  }

  /** The flag was raised before the downloader looked at it. */
  predicate RaisedInTime(steps: seq<Step>) {
    exists i, j | 0 <= i < j < |steps| :: steps[i] == RaiseFlag && steps[j] == CheckFlag
  }

  lemma TimelyExtends(front: seq<Step>, last: Step)
    ensures RaisedInTime(front + [last]) <==> RaisedInTime(front) || (last == CheckFlag && RaiseFlag in front)
  {
    var steps, n := front + [last], |front|;
    if RaisedInTime(front) {
      var i, j :| 0 <= i < j < n && front[i] == RaiseFlag && front[j] == CheckFlag;
      assert steps[i] == RaiseFlag && steps[j] == CheckFlag;
    }
    if last == CheckFlag && RaiseFlag in front {
      var i :| 0 <= i < n && front[i] == RaiseFlag;
      assert steps[i] == RaiseFlag && steps[n] == CheckFlag;
    }
    if RaisedInTime(steps) {
      var i, j :| 0 <= i < j < |steps| && steps[i] == RaiseFlag && steps[j] == CheckFlag;
      assert front[i] == RaiseFlag;
      if j < n {
        assert front[j] == CheckFlag;
      }
    }
  }

  lemma {:induction false} FlagRaised(steps: seq<Step>)
    requires Run(steps)
    ensures After(steps).background <==> RaiseFlag in steps
  {
    if steps != [] {
      var n := |steps| - 1;
      FlagRaised(steps[..n]);
      assert steps == steps[..n] + [steps[n]];
    }
  }

  lemma {:induction false} Flags(steps: seq<Step>)
    requires Run(steps)
    ensures After(steps).readerClosed <==> RaisedInTime(steps)
  {
    if steps != [] {
      var n := |steps| - 1;
      Flags(steps[..n]);
      FlagRaised(steps[..n]);
      TimelyExtends(steps[..n], steps[n]);
      assert steps == steps[..n] + [steps[n]];
      CloseStep(After(steps[..n]), steps[n]);
    }
  }

  lemma CloseStep(s: State, step: Step)
    requires Can(s, step)
    ensures Do(s, step).readerClosed <==> s.readerClosed || (step == CheckFlag && s.background)
  {
  }

  /** A failed background download closes the client's reader exactly when the flag was raised
      before the downloader looked; either way the client receives no bytes. */
  lemma FailedBackground(steps: seq<Step>)
    requires Run(steps) && After(steps).fg == Streaming && After(steps).sent == [Bad]
    ensures After(steps).copied == ""
    ensures After(steps).readerClosed <==> RaisedInTime(steps)
  {
    Always(steps);
    Flags(steps);
  }

  /** The losing interleaving: the download fails, the select still times out, and the reader is
      left open on an empty, cleanly ended body. */
  lemma ReaderLeftOpen()
    ensures var steps := [DownloadFailed, SelectTimesOut, SendError, CheckFlag, RaiseFlag];
            Run(steps) && After(steps).fg == Streaming && After(steps).sent == [Bad]
            && After(steps).pc == Finished && !After(steps).readerClosed && After(steps).writerClosed
  {
    var s1 := [DownloadFailed];
    var s2 := s1 + [SelectTimesOut];
    var s3 := s2 + [SendError];
    var s4 := s3 + [CheckFlag];
    var s5 := s4 + [RaiseFlag];
    assert s5 == [DownloadFailed, SelectTimesOut, SendError, CheckFlag, RaiseFlag];
    Extend([], DownloadFailed);
    Extend(s1, SelectTimesOut);
    Extend(s2, SendError);
    Extend(s3, CheckFlag);
    Extend(s4, RaiseFlag);
  }

  lemma Extend(steps: seq<Step>, step: Step)
    requires Run(steps) && Can(After(steps), step)
    ensures Run(steps + [step]) && After(steps + [step]) == Do(After(steps), step)
  {
    assert (steps + [step])[..|steps|] == steps;
  }
}
