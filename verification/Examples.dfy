/** Concrete runs of the service: that what the theorems assume and exclude does happen. */
module Examples {
  import opened Basics
  import opened Opinions
  import opened Runner
  import opened Protocol
  import opened Interleavings

  lemma Extend(steps: seq<Step>, step: Step)
    requires Run(steps) && Can(After(steps), step)
    ensures Run(steps + [step]) && After(steps + [step]) == Do(After(steps), step)
  {
    assert (steps + [step])[..|steps|] == steps;
  }

  const DOWNLOAD := Record("s", "d", 0, FRESH, Unknown, Download("u", "d"), [])

  /** A permissive session and one download, whose inspection is under way. */
  lemma Started() returns (steps: seq<Step>)
    ensures Run(steps)
    ensures var st := After(steps);
            && st.tasks == map[0 := Task(DOWNLOAD, true, Inspecting, [])]
            && "s" in st.sessions && st.sessions["s"] == NewSession("token", true)
  {
    steps := Submitted();
    Extend(steps, Respond(0, true));
    steps := steps + [Respond(0, true)];
  }

  lemma Submitted() returns (steps: seq<Step>)
    ensures Run(steps)
    ensures var st := After(steps);
            && st.tasks == map[0 := Task(DOWNLOAD, false, Posted, [])]
            && "s" in st.sessions && st.sessions["s"] == NewSession("token", true)
  {
    steps := [];
    Extend(steps, Create(None, "s", "token", true));
    steps := steps + [Create(None, "s", "token", true)];
    Extend(steps, Submit(0, DOWNLOAD));
    steps := steps + [Submit(0, DOWNLOAD)];
  }

  /** Its inspectors fail. */
  lemma FailedDownload() returns (steps: seq<Step>)
    ensures Run(steps)
    ensures var st := After(steps);
            && st.tasks.Keys == {0} && "s" in st.sessions && st.sessions["s"] == NewSession("token", true)
            && st.tasks[0].phase == Completing(Err(InspectionFailed)) && st.tasks[0].sent == []
            && st.tasks[0].a == DOWNLOAD.(result := Rejected)
  {
    steps := Started();
    Extend(steps, Inspect(0, None, []));
    steps := steps + [Inspect(0, None, [])];
  }

  /** The rejection is recorded. */
  lemma FailureKept() returns (steps: seq<Step>)
    ensures Run(steps)
    ensures var st := After(steps);
            && st.tasks.Keys == {0} && "s" in st.sessions && st.sessions["s"].permissive
            && st.tasks[0].phase == Completed(Err(InspectionFailed), Nil) && st.tasks[0].sent == []
            && st.tasks[0].a == DOWNLOAD.(result := Rejected)
            && "d" in st.sessions["s"].artifacts && st.sessions["s"].artifacts["d"].result == Rejected
  {
    steps := FailedDownload();
    Extend(steps, Complete(0));
    steps := steps + [Complete(0)];
  }

  /** And the error is sent. */
  lemma FailureRecorded() returns (steps: seq<Step>)
    ensures Run(steps)
    ensures var st := After(steps);
            && st.tasks.Keys == {0} && "s" in st.sessions && st.sessions["s"].permissive
            && st.tasks[0].phase == Done(Kept) && st.tasks[0].sent == [Err(InspectionFailed)]
            && st.tasks[0].a == DOWNLOAD.(result := Rejected)
            && "d" in st.sessions["s"].artifacts && st.sessions["s"].artifacts["d"].result == Rejected
  {
    steps := FailureKept();
    Extend(steps, Forward(0));
    steps := steps + [Forward(0)];
  }

  lemma Repeated(st: State)
    requires st.tasks.Keys == {0} && "s" in st.sessions && st.sessions["s"].permissive && "d" in st.sessions["s"].artifacts
    ensures Can(st, Submit(1, DOWNLOAD)) && Can(Do(st, Submit(1, DOWNLOAD)), Respond(1, true))
    ensures var st' := Do(Do(st, Submit(1, DOWNLOAD)), Respond(1, true));
            && 1 in st'.tasks && st'.tasks[1].phase == Done(Reused) && st'.tasks[1].sent == [Nil] && st'.tasks[1].permissive
            && st'.tasks[1].a == DOWNLOAD && 0 in st'.tasks && st'.tasks[0] == st.tasks[0]
  {
    assert [] + [Nil] == [Nil];
  }

  /** The session returns the inspectors' error for the first download, and accepts the second. */
  lemma ReuseExample() returns (steps: seq<Step>)
    ensures Run(steps)
    ensures var st := After(steps);
            && 0 in st.tasks && st.tasks[0].phase == Done(Kept) && st.tasks[0].sent == [Err(InspectionFailed)]
            && 1 in st.tasks && st.tasks[1].phase == Done(Reused) && st.tasks[1].sent == [Nil]
            && st.tasks[1].permissive
            && st.tasks[1].a.digest == st.tasks[0].a.digest && st.tasks[1].a.sessionId == st.tasks[0].a.sessionId
  {
    steps := FailureRecorded();
    Repeated(After(steps));
    Extend(steps, Submit(1, DOWNLOAD));
    Extend(steps + [Submit(1, DOWNLOAD)], Respond(1, true));
    steps := steps + [Submit(1, DOWNLOAD)] + [Respond(1, true)];
  }
}
