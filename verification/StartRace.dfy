/**
 `start` gives the accept loop to the main worker before it sets `isWork`: when a started
 server accepts, and when it never will.
 */
module StartRace {
  import opened Wrappers
  import opened ServerProtocol
  import opened Shutdown
  import opened SingleClient
  import opened StopCrash

  // The accept loop gets through its first loop test before anything else happens.
  predicate TestsFirst(steps: seq<Step>) {
    |steps| >= 2 && steps[0].AcceptorStep? && steps[1].AcceptorStep?
  }

  // While the server works, a loop that has not ended does not end.
  lemma WorkingStep(s: State, step: Step)
    requires s.isWork && s.acceptor != Ended && Next(s, step).Some? && Next(s, step).value.main == Serving
    requires MainInv(s)
    ensures Next(s, step).value.isWork && Next(s, step).value.acceptor != Ended
  {
    if !step.AcceptorStep? {
      OtherStepsFade(s, step);
    }
  }

  lemma {:induction false} NeverServes(s: State, steps: seq<Step>)
    requires Stopping(s.main) && Run(s, steps).Some?
    ensures Stopping(Run(s, steps).value.main)
    decreases steps
  {
    if steps != [] {
      StepKeepsStopping(s, steps[0]);
      NeverServes(Next(s, steps[0]).value, steps[1..]);
    }
  }

  lemma StaysServing(s: State, step: Step)
    requires s.main == Serving && Next(s, step).Some? && !Stopping(Next(s, step).value.main)
    ensures Next(s, step).value.main == Serving
  {
    if step.AcceptorStep? {
      AcceptKeepsMain(s, step.ok);
    }
  }

  lemma {:induction false} WorkingLoopGoesOn(s: State, steps: seq<Step>)
    requires Inv(s) && s.isWork && s.acceptor != Ended
    requires Run(s, steps).Some? && Run(s, steps).value.main == Serving
    ensures Run(s, steps).value.acceptor != Ended
    decreases steps
  {
    if steps != [] {
      var s' := Next(s, steps[0]).value;
      StepKeepsInv(s, steps[0]);
      if Stopping(s'.main) {
        NeverServes(s', steps[1..]);
      } else {
        StaysServing(s, steps[0]);
        WorkingStep(s, steps[0]);
        WorkingLoopGoesOn(s', steps[1..]);
      }
    }
  }

  // Before `isWork` is set there is only the accept loop and the calling thread.
  lemma FirstSteps(s: State, step: Step)
    requires s.main == Preparing && s.job == None && s.sessions == [] && Next(s, step).Some?
    ensures step.AcceptorStep? || (step == MainStep && Next(s, step) == Some(s.(isWork := true, main := Serving)))
  {}

  lemma {:induction false} EndedAcceptsNobody(s: State, steps: seq<Step>)
    requires s.acceptor == Ended && Run(s, steps).Some?
    ensures |Run(s, steps).value.sessions| == |s.sessions|
    decreases steps
  {
    if steps != [] {
      EndedStays(s, steps[0]);
      if !steps[0].AcceptorStep? {
        OtherStepsFade(s, steps[0]);
      }
      EndedAcceptsNobody(Next(s, steps[0]).value, steps[1..]);
    }
  }

  // A server that is serving has an accept loop that ended before it began if and only if the
  // loop was tested before `start` set `isWork`; then nobody is or will ever be accepted.
  lemma StartedServerAccepts(multi: bool, steps: seq<Step>)
    requires Run(Init(multi), steps).Some? && Run(Init(multi), steps).value.main == Serving
    ensures var s := Run(Init(multi), steps).value;
      (s.acceptor == Ended <==> TestsFirst(steps)) && (s.acceptor == Ended ==> s.sessions == [])
  {
    var s0 := Init(multi);
    assert Inv(s0);
    FirstSteps(s0, steps[0]);
    var s1 := Next(s0, steps[0]).value;
    StepKeepsInv(s0, steps[0]);
    if steps[0] == MainStep {
      WorkingLoopGoesOn(s1, steps[1..]);
    } else {
      FirstSteps(s1, steps[1]);
      var s2 := Next(s1, steps[1]).value;
      StepKeepsInv(s1, steps[1]);
      assert steps[1..][0] == steps[1] && steps[1..][1..] == steps[2..];
      if steps[1] == MainStep {
        WorkingLoopGoesOn(s2, steps[2..]);
      } else {
        EndedNeverCrashes(s2, steps[2..]);
        EndedAcceptsNobody(s2, steps[2..]);
      }
    }
  }

  // Such a run exists.
  lemma StartCanFail(multi: bool)
    ensures var s := Run(Init(multi), [AcceptorStep(true), AcceptorStep(true), MainStep]);
      s.Some? && s.value.main == Serving && s.value.isWork && s.value.acceptor == Ended
  {
    var s1 := Init(multi).(acceptor := LoopTest);
    var s2 := Init(multi).(acceptor := Ended);
    var steps := [AcceptorStep(true), AcceptorStep(true), MainStep];
    assert steps[1..] == [AcceptorStep(true), MainStep] && steps[1..][1..] == [MainStep];
    assert Run(s2, [MainStep]) == Some(s2.(isWork := true, main := Serving)) by {
      assert [MainStep][1..] == [];
    }
    assert Run(s1, [AcceptorStep(true), MainStep]) == Run(s2, [MainStep]);
  }
}
