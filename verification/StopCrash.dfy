/**
 When the accept loop of a server for one client can disconnect through a null session: the
 exact condition, before `stop` and in every state `stop` goes through.
 */
module StopCrash {
  import opened Wrappers
  import opened ServerProtocol
  import opened Shutdown
  import opened SingleClient
  import opened StopReturns

  ghost predicate CanCrash(s: State) {
    exists steps :: Run(s, steps).Some? && Run(s, steps).value.acceptor == Crashed
  }

  // The newcomer, about to be disconnected, is off the list or can be taken off it first: by a
  // failed call already at work on it, or by a disconnect of `stop` that meets a socket error.
  predicate CanBeUnlisted(s: State, i: nat)
    requires i < |s.sessions|
  {
    var x := s.sessions[i];
    !x.listed ||
    (if WorkedOn(s, i) then s.job.value.stage == Check || s.job.value.stage == Erase
     else x.open && (x.pending || !Copied(s.main)))
  }

  predicate MayCrash(s: State) {
    match s.acceptor
    case Crashed => true
    case Accepting => Count(s.sessions) > 1 || (s.acceptorOpen && Count(s.sessions) > 0)
    case Accepted => Count(s.sessions) > 0 && !Copied(s.main)
    case Counting(None) => Count(s.sessions) > 1
    case Counting(Some(i)) => Count(s.sessions) > 1 && i < |s.sessions| && CanBeUnlisted(s, i)
    case Rejecting(i) => i < |s.sessions| && CanBeUnlisted(s, i)
    case _ => false
  }

  // ----- without the condition, never -----

  lemma {:induction false} CountFades(a: seq<Session>, b: seq<Session>)
    requires Fades(a, b)
    ensures Count(b) <= Count(a)
  {
    if a != [] {
      var n := |a| - 1;
      assert forall k :: 0 <= k < n ==> a[..n][k] == a[k] && b[..n][k] == b[k];
      CountFades(a[..n], b[..n]);
    }
  }

  lemma CountInsert(sessions: seq<Session>, x: Session)
    ensures Count(sessions + [x]) == Count(sessions) + if x.listed then 1 else 0
  {
    assert (sessions + [x])[..|sessions|] == sessions;
  }

  lemma AcceptExplains(s: State, ok: bool)
    requires Inv(s) && !s.multi && Stopping(s.main) && Accept(s, ok).Some? && MayCrash(Accept(s, ok).value)
    ensures MayCrash(s)
  {
    if s.acceptor == Accepted {
      CountInsert(s.sessions, Session(true, false, true, false, Unlaunched));
    }
  }

  // A session without a reader that can still be unlisted after a step could be before it.
  lemma UnlistingExplained(s: State, step: Step, i: nat)
    requires Inv(s) && Stopping(s.main) && !step.AcceptorStep? && Next(s, step).Some?
    requires NewSession(s, i) && i < |Next(s, step).value.sessions| && CanBeUnlisted(Next(s, step).value, i)
    ensures CanBeUnlisted(s, i)
  {}

  // `stop` goes forward only.
  lemma StepKeepsStages(s: State, step: Step)
    requires !step.AcceptorStep? && Next(s, step).Some? && Stopping(s.main)
    ensures var s' := Next(s, step).value; (Copied(s.main) ==> Copied(s'.main)) && (s'.acceptorOpen ==> s.acceptorOpen)
  {}

  lemma OthersExplain(s: State, step: Step)
    requires Inv(s) && !s.multi && Stopping(s.main) && !step.AcceptorStep? && Next(s, step).Some?
    requires MayCrash(Next(s, step).value)
    ensures MayCrash(s)
  {
    var s' := Next(s, step).value;
    OtherStepsFade(s, step);
    CountFades(s.sessions, s'.sessions);
    StepKeepsStages(s, step);
    if s.acceptor.Counting? && s.acceptor.i.Some? {
      UnlistingExplained(s, step, s.acceptor.i.value);
    } else if s.acceptor.Rejecting? {
      UnlistingExplained(s, step, s.acceptor.k);
    }
  }

  lemma {:induction false} NeverWithout(s: State, steps: seq<Step>)
    requires Inv(s) && !s.multi && Stopping(s.main) && !MayCrash(s) && Run(s, steps).Some?
    ensures Run(s, steps).value.acceptor != Crashed
    decreases steps
  {
    if steps != [] {
      var s' := Next(s, steps[0]).value;
      if MayCrash(s') {
        if steps[0].AcceptorStep? {
          AcceptExplains(s, steps[0].ok);
        } else {
          OthersExplain(s, steps[0]);
        }
      }
      StepKeepsInv(s, steps[0]);
      StepKeepsMode(s, steps[0]);
      StepKeepsStopping(s, steps[0]);
      NeverWithout(s', steps[1..]);
    }
  }

  // ----- with the condition, some run -----

  // The next step on the way to unlisting the newcomer `i`.
  function Unlisting(s: State, i: nat): Step {
    if s.job.Some? || s.main != Disconnecting then MainStep else Disconnect(i, true)
  }

  lemma UnlistingGoesOn(s: State, i: nat)
    requires Inv(s) && Stopping(s.main) && NewSession(s, i) && s.sessions[i].listed && CanBeUnlisted(s, i)
    ensures var step := Unlisting(s, i);
      Next(s, step).Some? &&
      var s' := Next(s, step).value;
      |s'.sessions| == |s.sessions| && CanBeUnlisted(s', i) && s'.acceptor == s.acceptor
  {
    assert SessionInv(s.sessions[i], s.main, s.acceptor == Launching(i), WorkedOn(s, i));
    CountZero(s.sessions);
  }

  lemma CrashGoesOn(s: State) returns (step: Step)
    requires Inv(s) && !s.multi && Stopping(s.main) && MayCrash(s) && s.acceptor != Crashed
    ensures Next(s, step).Some? && MayCrash(Next(s, step).value)
  {
    if s.acceptor.Rejecting? && s.sessions[s.acceptor.k].listed {
      step := Unlisting(s, s.acceptor.k);
      UnlistingGoesOn(s, s.acceptor.k);
    } else {
      step := AcceptorStep(s.acceptor != Accepting || Count(s.sessions) <= 1);
      CountInsert(s.sessions, Session(true, false, true, false, Unlaunched));
    }
  }

  lemma {:induction false} SomeRunCrashes(s: State) returns (steps: seq<Step>)
    requires Inv(s) && !s.multi && Stopping(s.main) && MayCrash(s)
    ensures Run(s, steps).Some? && Run(s, steps).value.acceptor == Crashed
    decreases Rank(s)
  {
    if s.acceptor == Crashed {
      return [];
    }
    var step := CrashGoesOn(s);
    StepDecreases(s, step);
    StepKeepsInv(s, step);
    StepKeepsMode(s, step);
    StepKeepsStopping(s, step);
    var more := SomeRunCrashes(Next(s, step).value);
    steps := [step] + more;
    assert steps[1..] == more;
  }

  // ----- before `stop` -----

  // The next step towards a crash while the accept loop works: accept until the map holds two
  // sessions, then fail.
  function Filling(s: State): Step {
    AcceptorStep(s.acceptor != Accepting || Count(s.sessions) <= 1)
  }

  function Missing(s: State): nat {
    if Count(s.sessions) > 1 then 0 else 2 - Count(s.sessions)
  }

  // How far the accept loop is from the accept, or from the crash, that comes next.
  function Distance(s: State): nat {
    match s.acceptor
    case Accepted => if Count(s.sessions) > 1 then 7 else 0
    case Counting(Some(_)) => 6
    case Rejecting(_) => 5
    case Deciding(_) => 5
    case Dropping(_) => 4
    case Launching(_) => 4
    case Queued => 4
    case Counting(None) => if Count(s.sessions) > 1 then 1 else 4
    case LoopTest => 3
    case Accepting => 2
    case _ => 0
  }

  lemma {:induction false} CountKept(a: seq<Session>, b: seq<Session>)
    requires |a| == |b| && forall k :: 0 <= k < |a| ==> a[k].listed == b[k].listed
    ensures Count(a) == Count(b)
  {
    if a != [] {
      var n := |a| - 1;
      assert forall k :: 0 <= k < n ==> a[..n][k] == a[k] && b[..n][k] == b[k];
      CountKept(a[..n], b[..n]);
    }
  }

  // One step nearer to the crash.
  predicate Fuller(s: State, s': State) {
    s'.isWork && s'.acceptor != Ended &&
    (s'.acceptor == Crashed || Missing(s') < Missing(s) || (Missing(s') == Missing(s) && Distance(s') < Distance(s)))
  }

  lemma InsertFills(s: State)
    requires s.isWork && s.acceptor == Accepted
    ensures Fuller(s, Accept(s, true).value)
  {
    CountInsert(s.sessions, Session(true, false, true, false, Unlaunched));
  }

  lemma ReleaseFills(s: State)
    requires Inv(s) && s.isWork && (s.acceptor.Dropping? || s.acceptor.Launching?)
    ensures Fuller(s, Accept(s, true).value)
  {
    CountKept(s.sessions, Accept(s, true).value.sessions);
  }

  lemma LookFills(s: State)
    requires Inv(s) && !s.multi && s.isWork && Looks(s.acceptor) && s.acceptor != Ended && s.acceptor != Crashed
    ensures Next(s, Filling(s)).Some? && Fuller(s, Next(s, Filling(s)).value)
  {}

  lemma FillingGoesOn(s: State)
    requires Inv(s) && !s.multi && s.isWork && s.acceptor != Ended && s.acceptor != Crashed
    ensures Next(s, Filling(s)).Some? && Fuller(s, Next(s, Filling(s)).value)
  {
    if s.acceptor == Accepted {
      InsertFills(s);
    } else if s.acceptor.Dropping? || s.acceptor.Launching? {
      ReleaseFills(s);
    } else {
      LookFills(s);
    }
  }

  lemma {:induction false} WorkingLoopCrashes(s: State) returns (steps: seq<Step>)
    requires Inv(s) && !s.multi && s.isWork && s.acceptor != Ended
    ensures Run(s, steps).Some? && Run(s, steps).value.acceptor == Crashed
    decreases Missing(s), Distance(s), s.acceptor != Crashed
  {
    if s.acceptor == Crashed {
      return [];
    }
    FillingGoesOn(s);
    var s' := Next(s, Filling(s)).value;
    if s'.acceptor == Crashed {
      assert Run(s', []) == Some(s');
      steps := [Filling(s)];
      assert steps[1..] == [];
    } else {
      StepKeepsInv(s, Filling(s));
      StepKeepsMode(s, Filling(s));
      var more := WorkingLoopCrashes(s');
      steps := [Filling(s)] + more;
      assert steps[1..] == more;
    }
  }

  lemma EndedStays(s: State, step: Step)
    requires s.acceptor == Ended && Next(s, step).Some?
    ensures Next(s, step).value.acceptor == Ended
  {
    if !step.AcceptorStep? {
      OtherStepsFade(s, step);
    }
  }

  lemma {:induction false} EndedNeverCrashes(s: State, steps: seq<Step>)
    requires s.acceptor == Ended && Run(s, steps).Some?
    ensures Run(s, steps).value.acceptor == Ended
    decreases steps
  {
    if steps != [] {
      EndedStays(s, steps[0]);
      EndedNeverCrashes(Next(s, steps[0]).value, steps[1..]);
    }
  }

  lemma CrashBeforeStop(s: State)
    requires Inv(s) && !s.multi && !Stopping(s.main)
    ensures CanCrash(s) <==> s.acceptor != Ended
  {
    if s.acceptor == Ended {
      forall steps | Run(s, steps).Some? ensures Run(s, steps).value.acceptor != Crashed {
        EndedNeverCrashes(s, steps);
      }
    } else if s.main == Serving {
      var steps := WorkingLoopCrashes(s);
    } else {
      StepKeepsInv(s, MainStep);
      var more := WorkingLoopCrashes(Next(s, MainStep).value);
      var steps := [MainStep] + more;
      assert steps[1..] == more;
      assert Run(s, steps) == Run(Next(s, MainStep).value, more);
    }
  }

  // ----- the condition -----

  // In every state: until `stop` is called a working accept loop can always crash, since
  // accepts may fail; once it is called, if and only if `MayCrash` holds.
  lemma CrashCondition(s: State)
    requires Inv(s) && !s.multi
    ensures CanCrash(s) <==> if Stopping(s.main) then MayCrash(s) else s.acceptor != Ended
  {
    if !Stopping(s.main) {
      CrashBeforeStop(s);
    } else if MayCrash(s) {
      var steps := SomeRunCrashes(s);
    } else {
      forall steps | Run(s, steps).Some? ensures Run(s, steps).value.acceptor != Crashed {
        NeverWithout(s, steps);
      }
    }
  }

  // A caller can tell before the call: while the accept loop waits for a client, `stop` can
  // make it crash if and only if there is a session in the map.
  lemma StopWhileAccepting(s: State)
    requires Inv(s) && !s.multi && s.main == Serving && s.job == None
    requires s.acceptor == Accepting || s.acceptor == Accepted
    ensures CanCrash(Next(s, MainStep).value) <==> exists i :: 0 <= i < |s.sessions| && s.sessions[i].listed
  {
    StepKeepsInv(s, MainStep);
    CrashCondition(Next(s, MainStep).value);
    CountZero(s.sessions);
  }

  // Where the condition fails, `stop` returns.
  lemma StopOfOneClientReturns(s: State, steps: seq<Step>)
    requires Inv(s) && !s.multi && Stopping(s.main) && !MayCrash(s) && Run(s, steps).Some?
    ensures var s' := Run(s, steps).value;
      |steps| <= Rank(s) && (s'.main == Stopped || CanGoOn(s'))
  {
    StopEnds(s, steps);
    NeverWithout(s, steps);
  }

  // ----- runs that reach it -----

  ghost predicate Leads(s: State, t: State) {
    exists steps :: Run(s, steps) == Some(t)
  }

  lemma LeadsNowhere(s: State)
    ensures Leads(s, s)
  {
    assert Run(s, []) == Some(s);
  }

  lemma LeadsBy(s: State, step: Step, t: State)
    requires Next(s, step).Some? && Leads(Next(s, step).value, t)
    ensures Leads(s, t)
  {
    var steps :| Run(Next(s, step).value, steps) == Some(t);
    assert ([step] + steps)[1..] == steps;
    assert Run(s, [step] + steps) == Some(t);
  }

  lemma LeadsKeepInv(t: State)
    requires Leads(Init(false), t)
    ensures Inv(t)
  {
    var steps :| Run(Init(false), steps) == Some(t);
    RunKeepsInv(Init(false), steps);
  }

  const FRESH := Session(true, false, true, false, Unlaunched)
  const SERVED := Session(true, false, true, false, Starting)
  const TURNED_AWAY := Session(false, false, true, false, Unlaunched)

  function AtWork(sessions: seq<Session>, a: Acceptor): State {
    State(false, true, true, sessions, a, Serving, None)
  }

  lemma FirstIsAccepted(t: State)
    requires Leads(AtWork([FRESH], Counting(Some(0))), t)
    ensures Leads(Init(false), t)
  {
    assert [] + [FRESH] == [FRESH];
    LeadsBy(AtWork([], Accepted), AcceptorStep(true), t);
    LeadsBy(AtWork([], Accepting), AcceptorStep(true), t);
    LeadsBy(AtWork([], LoopTest), AcceptorStep(true), t);
    LeadsBy(AtWork([], Queued), AcceptorStep(true), t);
    LeadsBy(Init(false), MainStep, t);
  }

  lemma FirstIsServed(t: State)
    requires Leads(AtWork([SERVED], LoopTest), t)
    ensures Leads(AtWork([FRESH], Counting(Some(0))), t)
  {
    assert Count([FRESH]) == 1 by {
      assert [FRESH][..0] == [];
    }
    assert [FRESH][0 := SERVED] == [SERVED];
    LeadsBy(AtWork([FRESH], Launching(0)), AcceptorStep(true), t);
    LeadsBy(AtWork([FRESH], Deciding(0)), AcceptorStep(true), t);
    LeadsBy(AtWork([FRESH], Counting(Some(0))), AcceptorStep(true), t);
  }

  lemma SecondIsTurnedAway(t: State)
    requires Leads(AtWork([SERVED, TURNED_AWAY], LoopTest), t)
    ensures Leads(AtWork([SERVED], LoopTest), t)
  {
    var a := AcceptorStep(true);
    var both := [SERVED, FRESH];
    CountBounds(both, 0, 1);
    assert both[1 := TURNED_AWAY] == [SERVED, TURNED_AWAY];
    LeadsBy(AtWork(both, Dropping(1)), a, t);
    LeadsBy(AtWork(both, Rejecting(1)), a, t);
    LeadsBy(AtWork(both, Counting(Some(1))), a, t);
    assert [SERVED] + [FRESH] == both;
    LeadsBy(AtWork([SERVED], Accepted), a, t);
    LeadsBy(AtWork([SERVED], Accepting), a, t);
    LeadsBy(AtWork([SERVED], LoopTest), a, t);
  }

  lemma OneIsServed(t: State)
    requires Leads(AtWork([SERVED], LoopTest), t)
    ensures Leads(Init(false), t)
  {
    FirstIsServed(t);
    FirstIsAccepted(t);
  }

  // Such states are reached.  One client is served and `stop` is called: the next client may
  // still be accepted, and be unlisted by the very disconnect of `stop`.
  lemma OneClientIsEnough() returns (t: State)
    ensures Leads(Init(false), t) && t.main == ClosingAcceptor && |t.sessions| == 1 && CanCrash(t)
  {
    var waiting := AtWork([SERVED], Accepting);
    t := waiting.(isWork := false, main := ClosingAcceptor);
    LeadsNowhere(t);
    LeadsBy(waiting, MainStep, t);
    LeadsBy(AtWork([SERVED], LoopTest), AcceptorStep(true), t);
    OneIsServed(t);
    LeadsKeepInv(t);
    CountZero(t.sessions);
    CrashCondition(t);
  }

  // One client is served, a second is turned away and stays in the map, the accept loop waits
  // for a third, and `stop` closes the acceptor: the accept fails, and the loop crashes.
  lemma StopCanCrash() returns (t: State)
    ensures Leads(Init(false), t) && t.main == Copying && t.acceptor == Accepting && !t.acceptorOpen && CanCrash(t)
  {
    var both := [SERVED, TURNED_AWAY];
    var waiting := AtWork(both, Accepting);
    t := waiting.(isWork := false, acceptorOpen := false, main := Copying);
    LeadsNowhere(t);
    LeadsBy(waiting.(isWork := false, main := ClosingAcceptor), MainStep, t);
    LeadsBy(waiting, MainStep, t);
    LeadsBy(AtWork(both, LoopTest), AcceptorStep(true), t);
    SecondIsTurnedAway(t);
    OneIsServed(t);
    LeadsKeepInv(t);
    CountBounds(both, 0, 1);
    CrashCondition(t);
  }
}
