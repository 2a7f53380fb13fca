/**
 The one-thread task queue as atomic sections: what each critical section of a caller and of
 the worker's own thread does to the shared state.  Tasks run inside the mutex, so a section
 of a caller never falls between the taking of a task and its end.
 */
module WorkerProtocol {
  import opened Wrappers

  type Task = nat

  datatype Status = Wait | Work | Flush | Stop

  // How a task left the queue for good.
  datatype Fate = Success | Error | Discarded

  datatype Retired = Retired(task: Task, fate: Fate)

  // Absent: no thread object.  Testing: at the loop test, without the mutex.  Ready: inside the
  // loop, waiting for the mutex or the condition.  Running: inside a task, holding the mutex.
  datatype Thread = Absent | Testing | Ready | Running | Exited

  // The one thread that calls start, flush and stop.
  datatype Controller = Idle | FlushWait | Joining

  // `accepted` and `retired` are the history: tasks let into the queue, tasks out of it.
  datatype State = State(
    status: Status, tasks: seq<Task>, current: Option<Task>, thread: Thread, controller: Controller,
    accepted: seq<Task>, retired: seq<Retired>)

  datatype Event =
    | AddTask(task: Task)         // from any thread
    | StartCall
    | FlushCall
    | FlushWake                   // the wait for an empty queue is over
    | StopCall(clear: bool)
    | Join
    | LoopTest
    | TimeOut
    | Take                        // the wait in the loop is over
    | Finish(ok: bool)            // the task has returned, or thrown

  function Init(q: seq<Task>): State {
    State(Wait, q, None, Testing, Idle, q, [])
  }

  function Discards(ts: seq<Task>): (rs: seq<Retired>)
    ensures |rs| == |ts|
    ensures forall k :: 0 <= k < |ts| ==> rs[k] == Retired(ts[k], Discarded)
  {
    seq(|ts|, k requires 0 <= k < |ts| => Retired(ts[k], Discarded))
  }

  // One atomic section; None when it cannot be entered in this state.
  function Step(s: State, e: Event): Option<State> {
    var free := s.thread != Running;
    match e
    case AddTask(t) =>
      if !free then None
      else if s.status == Stop || s.status == Flush then Some(s)
      else Some(s.(tasks := s.tasks + [t], accepted := s.accepted + [t]))
    case StartCall =>
      if s.controller != Idle then None
      else if s.status == Stop then Some(s.(status := Wait, thread := Testing))
      else Some(s)
    case FlushCall =>
      if s.controller != Idle || !free then None
      else if s.status == Flush then Some(s)
      else Some(s.(status := Flush, controller := FlushWait))
    case FlushWake =>
      if s.controller != FlushWait || !free || s.tasks != [] then None
      else Some(s.(controller := Joining))
    case StopCall(clear) =>
      if s.controller != Idle || !free then None
      else if s.status == Stop then Some(s)
      else if clear then
        Some(s.(status := Stop, controller := Joining, tasks := [], current := None,
                retired := s.retired + Discards(s.tasks)))
      else Some(s.(status := Stop, controller := Joining))
    case Join =>
      if s.controller != Joining || (s.thread != Exited && s.thread != Absent) then None
      else Some(s.(controller := Idle, thread := Absent))
    case LoopTest =>
      if s.thread != Testing then None
      else Some(s.(thread := if s.status == Stop then Exited else Ready))
    case TimeOut =>
      if s.thread != Ready || s.tasks != [] || s.status == Stop || s.status == Flush then None
      else Some(s.(thread := Testing))
    case Take =>
      if s.thread != Ready then None
      else if s.status == Stop || (s.status == Flush && s.tasks == []) then Some(s.(thread := Exited))
      else if s.tasks == [] then None
      else Some(s.(status := if s.status == Flush then Flush else Work,
                   current := Some(s.tasks[0]), tasks := s.tasks[1..], thread := Running))
    case Finish(ok) =>
      if s.thread != Running || s.current == None then None
      else
        var s' := s.(retired := s.retired + [Retired(s.current.value, if ok then Success else Error)]);
        if s.status == Stop then Some(s'.(thread := Exited))
        else Some(s'.(current := None, thread := Testing,
                      status := if s.tasks == [] && s.status != Flush then Wait else s.status))
  }

  function Run(s: State, es: seq<Event>): Option<State>
    decreases es
  {
    if es == [] then Some(s)
    else match Step(s, es[0])
      case Some(s') => Run(s', es[1..])
      case None => None
  }

  // `getSizeQueue`
  function SizeQueue(s: State): nat {
    |s.tasks| + if s.current.Some? then 1 else 0
  }

  // ----- invariants of every run -----

  // The k-th task accepted is the k-th to leave, the rest is in hand or still queued, in order.
  predicate Conserved(s: State) {
    |s.accepted| == |s.retired| + SizeQueue(s) &&
    (forall k :: 0 <= k < |s.retired| ==> s.accepted[k] == s.retired[k].task) &&
    (s.current.Some? ==> s.accepted[|s.retired|] == s.current.value) &&
    s.accepted[|s.retired| + (if s.current.Some? then 1 else 0)..] == s.tasks
  }

  predicate Coherent(s: State) {
    // tasks run with the mutex held, and never under Stop
    (s.thread == Running <==> s.current.Some?) &&
    (s.thread == Running ==> s.status == Work || s.status == Flush) &&
    (s.status == Work && s.thread != Running ==> s.tasks != []) &&
    // the thread leaves an empty queue behind unless it was stopped
    (s.thread == Exited ==> s.status == Stop || (s.status == Flush && s.tasks == [])) &&
    (s.thread == Absent ==> s.status == Stop || s.status == Flush) &&
    // what each return of a call guarantees
    (s.controller == Idle && (s.status == Stop || s.status == Flush) ==> s.thread == Absent) &&
    (s.controller == Idle && s.status == Flush ==> s.tasks == []) &&
    (s.controller == FlushWait ==> s.status == Flush) &&
    (s.controller == Joining ==> s.status == Stop || (s.status == Flush && s.tasks == [])) &&
    (s.controller == Joining ==> s.thread != Running || s.status == Flush)
  }

  predicate Inv(s: State) {
    Coherent(s) && Conserved(s)
  }

  lemma StepCoheres(s: State, e: Event)
    requires Coherent(s) && Step(s, e).Some?
    ensures Coherent(Step(s, e).value)
  {}

  lemma AddConserves(s: State, t: Task)
    requires Inv(s) && s.thread != Running
    ensures Conserved(s.(tasks := s.tasks + [t], accepted := s.accepted + [t]))
  {}

  lemma DiscardConserves(s: State)
    requires Inv(s) && s.thread != Running
    ensures Conserved(s.(status := Stop, controller := Joining, tasks := [], current := None,
      retired := s.retired + Discards(s.tasks)))
  {}

  lemma TakeConserves(s: State)
    requires Inv(s) && Step(s, Take).Some?
    ensures Conserved(Step(s, Take).value)
  {}

  lemma FinishConserves(s: State, ok: bool)
    requires Inv(s) && Step(s, Finish(ok)).Some?
    ensures Conserved(Step(s, Finish(ok)).value)
  {}

  lemma StepConserves(s: State, e: Event)
    requires Inv(s) && Step(s, e).Some?
    ensures Conserved(Step(s, e).value)
  {
    match e
    case AddTask(t) => AddConserves(s, t);
    case StopCall(clear) => DiscardConserves(s);
    case Take => TakeConserves(s);
    case Finish(ok) => FinishConserves(s, ok);
    case _ =>
  }

  lemma {:induction false} RunsKeepInv(s: State, es: seq<Event>)
    requires Inv(s) && Run(s, es).Some?
    ensures Inv(Run(s, es).value)
    decreases es
  {
    if es != [] {
      StepCoheres(s, es[0]);
      StepConserves(s, es[0]);
      RunsKeepInv(Step(s, es[0]).value, es[1..]);
    }
  }

  // Whenever the mutex is free no task is in hand, Work means there is work, the reported size
  // counts the accepted tasks that have not been started; and no task ends under Stop.
  lemma LockHeldExecution(q: seq<Task>, es: seq<Event>)
    requires Run(Init(q), es).Some?
    ensures var s := Run(Init(q), es).value;
      (s.thread != Running ==>
        s.current == None && (s.status == Work ==> s.tasks != []) &&
        SizeQueue(s) == |s.accepted| - |s.retired|) &&
      (s.thread == Running ==> s.status != Stop)
  {
    RunsKeepInv(Init(q), es);
  }

  predicate NeverClears(es: seq<Event>) {
    forall k :: 0 <= k < |es| ==> es[k] != StopCall(true)
  }

  lemma {:induction false} NothingDiscarded(s: State, es: seq<Event>)
    requires Run(s, es).Some? && NeverClears(es)
    requires forall k :: 0 <= k < |s.retired| ==> s.retired[k].fate != Discarded
    ensures var s' := Run(s, es).value;
      forall k :: 0 <= k < |s'.retired| ==> s'.retired[k].fate != Discarded
    decreases es
  {
    if es != [] {
      NothingDiscarded(Step(s, es[0]).value, es[1..]);
    }
  }

  // Conservation and first-in-first-out over all runs, across stop and start: the executed
  // tasks, the task in hand and the queue are the accepted tasks, in the order of acceptance.
  lemma ConservationFifo(q: seq<Task>, es: seq<Event>)
    requires Run(Init(q), es).Some?
    ensures var s := Run(Init(q), es).value;
      Conserved(s) &&
      (NeverClears(es) ==> forall k :: 0 <= k < |s.retired| ==> s.retired[k].fate != Discarded)
  {
    RunsKeepInv(Init(q), es);
    if NeverClears(es) {
      NothingDiscarded(Init(q), es);
    }
  }

  // ----- flush and stop return -----

  // A call of flush or stop is under way.
  predicate Calling(s: State) {
    s.controller != Idle
  }

  // The guard a caller can check: someone is there to empty the queue, or it is empty.
  predicate CanReturn(s: State) {
    s.controller == FlushWait ==> s.thread != Absent || s.tasks == []
  }

  function Rank(s: State): nat {
    3 * |s.tasks| +
    (match s.controller case FlushWait => 2 case Joining => 1 case Idle => 0) +
    (match s.thread case Running => 3 case Testing => 2 case Ready => 1 case _ => 0)
  }

  // The call is over.
  predicate Returned(s: State) {
    s.controller == Idle && s.thread == Absent && s.current == None &&
    (s.status == Flush ==> s.tasks == [] && |s.retired| == |s.accepted|) &&
    (s.status == Flush || s.status == Stop)
  }

  // From `s` to `t` some tasks have been run, none thrown away.
  predicate OnlyRun(s: State, t: State) {
    s.retired <= t.retired &&
    forall j :: |s.retired| <= j < |t.retired| ==> t.retired[j].fate != Discarded
  }

  // Every section but a refused AddTask brings the call nearer to its return.
  lemma CallStep(s: State, e: Event)
    requires Inv(s) && Calling(s) && CanReturn(s) && Step(s, e).Some?
    ensures var s' := Step(s, e).value;
      (e.AddTask? ==> s' == s) &&
      (!e.AddTask? ==> Rank(s') < Rank(s)) &&
      (if Calling(s') then CanReturn(s') else Returned(s')) &&
      s'.accepted == s.accepted && s'.status == s.status && OnlyRun(s, s')
  {}

  ghost predicate CanGoOn(s: State) {
    exists e: Event :: !e.AddTask? && Step(s, e).Some?
  }

  // Some section can always be entered.
  lemma CallIsNotStuck(s: State)
    requires Inv(s) && Calling(s) && CanReturn(s)
    ensures CanGoOn(s)
  {
    var e :=
      if s.thread == Running then Finish(true)
      else if s.thread == Testing then LoopTest
      else if s.thread == Ready then Take
      else if s.controller == FlushWait then FlushWake
      else Join;
    assert !e.AddTask? && Step(s, e).Some?;
  }

  function Sections(es: seq<Event>): nat {
    if es == [] then 0 else (if es[0].AddTask? then 0 else 1) + Sections(es[1..])
  }

  // After the first `k` sections the call that was under way in `s` is over; meanwhile no task
  // has been accepted and none thrown away.
  predicate ReturnedAt(s: State, es: seq<Event>, k: nat)
    requires k <= |es|
  {
    Run(s, es[..k]).Some? &&
    var t := Run(s, es[..k]).value;
    Returned(t) && t.accepted == s.accepted && t.status == s.status && OnlyRun(s, t)
  }

  ghost predicate HasReturned(s: State, es: seq<Event>) {
    exists k :: 0 <= k <= |es| && ReturnedAt(s, es, k)
  }

  lemma ReturnedLater(s: State, es: seq<Event>)
    requires es != [] && Step(s, es[0]).Some?
    requires var t := Step(s, es[0]).value;
      HasReturned(t, es[1..]) && t.accepted == s.accepted && t.status == s.status && OnlyRun(s, t)
    ensures HasReturned(s, es)
  {
    var t := Step(s, es[0]).value;
    var k :| 0 <= k <= |es[1..]| && ReturnedAt(t, es[1..], k);
    assert es[..k + 1][1..] == es[1..][..k];
    assert ReturnedAt(s, es, k + 1);
  }

  // Any run from inside a call has either passed the return of the call, or is shorter than the
  // rank says and can go on.  Refused AddTasks, from any thread, change nothing.
  lemma {:induction false} CallReturns(s: State, es: seq<Event>)
    requires Inv(s) && Calling(s) && CanReturn(s) && Run(s, es).Some?
    ensures HasReturned(s, es) ||
      (Sections(es) + Rank(Run(s, es).value) <= Rank(s) && CanGoOn(Run(s, es).value))
    decreases es
  {
    if es == [] {
      CallIsNotStuck(s);
    } else {
      var t := Step(s, es[0]).value;
      CallStep(s, es[0]);
      StepCoheres(s, es[0]);
      StepConserves(s, es[0]);
      if Calling(t) {
        CallReturns(t, es[1..]);
        if HasReturned(t, es[1..]) {
          ReturnedLater(s, es);
        }
      } else {
        assert es[..1][1..] == [];
        assert ReturnedAt(s, es, 1);
      }
    }
  }

  // Without that guard flush never returns: nothing changes any more.
  lemma {:induction false} FlushHangs(s: State, es: seq<Event>)
    requires Inv(s) && Calling(s) && !CanReturn(s) && Run(s, es).Some?
    ensures Run(s, es).value == s
    decreases es
  {
    if es != [] {
      FlushHangs(s, es[1..]);
    }
  }

  // flush returns if and only if, when it is called, the thread exists or the queue is empty;
  // then at its return the queue is empty and every accepted task has been run.
  lemma FlushDrains(s: State, es: seq<Event>)
    requires Inv(s) && s.controller == Idle && s.thread != Running && s.status != Flush
    requires Run(Step(s, FlushCall).value, es).Some?
    ensures var t := Step(s, FlushCall).value;
      if s.thread != Absent || s.tasks == [] then
        HasReturned(t, es) || (Sections(es) <= Rank(t) && CanGoOn(Run(t, es).value))
      else Run(t, es) == Some(t) && Calling(t)
  {
    var t := Step(s, FlushCall).value;
    StepCoheres(s, FlushCall);
    StepConserves(s, FlushCall);
    if s.thread != Absent || s.tasks == [] {
      CallReturns(t, es);
    } else {
      FlushHangs(t, es);
    }
  }

  predicate NeverStops(es: seq<Event>) {
    forall k :: 0 <= k < |es| ==> !es[k].StopCall?
  }

  // A flushed worker is of no more use: until it is stopped it refuses every task, `start` does
  // nothing, and so does another flush.
  lemma {:induction false} FlushedIsSpent(s: State, es: seq<Event>)
    requires Returned(s) && s.status == Flush && NeverStops(es) && Run(s, es).Some?
    ensures Run(s, es).value == s
    decreases es
  {
    if es != [] {
      assert !es[0].StopCall?;
      FlushedIsSpent(s, es[1..]);
    }
  }

  // What the calls have left the worker in: only an open one lets tasks in.
  datatype Phase = Open | Flushed | Stopped

  function PhaseOf(s: State): Phase {
    match s.status
    case Flush => Flushed
    case Stop => Stopped
    case _ => Open
  }

  // `flush` and `stop` always count, `start` only after a stop.
  function NextPhase(p: Phase, e: Event): Phase {
    match e
    case FlushCall => Flushed
    case StopCall(_) => Stopped
    case StartCall => if p == Stopped then Open else p
    case _ => p
  }

  function PhaseAfter(p: Phase, es: seq<Event>): Phase
    decreases es
  {
    if es == [] then p else PhaseAfter(NextPhase(p, es[0]), es[1..])
  }

  lemma StepPhase(s: State, e: Event)
    requires Step(s, e).Some?
    ensures PhaseOf(Step(s, e).value) == NextPhase(PhaseOf(s), e)
  {}

  lemma {:induction false} RunPhase(s: State, es: seq<Event>)
    requires Run(s, es).Some?
    ensures PhaseOf(Run(s, es).value) == PhaseAfter(PhaseOf(s), es)
    decreases es
  {
    if es != [] {
      StepPhase(s, es[0]);
      RunPhase(Step(s, es[0]).value, es[1..]);
    }
  }

  // After any run, whether a task is let in depends on the calls made and on nothing else.
  lemma AcceptedIffOpen(s: State, es: seq<Event>, t: Task)
    requires Run(s, es).Some? && Run(s, es).value.thread != Running
    ensures var s' := Run(s, es).value;
      Step(s', AddTask(t)).Some? &&
      (Step(s', AddTask(t)).value.accepted != s'.accepted <==> PhaseAfter(PhaseOf(s), es) == Open)
  {
    var s' := Run(s, es).value;
    RunPhase(s, es);
    assert |s'.accepted + [t]| != |s'.accepted|;
  }

  // A call of stop and after it a call of start.
  ghost predicate Restarted(es: seq<Event>) {
    exists i, j :: 0 <= i < j < |es| && es[i].StopCall? && es[j] == StartCall
  }

  lemma RestartedLater(es: seq<Event>)
    requires es != [] && Restarted(es[1..])
    ensures Restarted(es)
  {
    var i, j :| 0 <= i < j < |es[1..]| && es[1..][i].StopCall? && es[1..][j] == StartCall;
    assert es[i + 1].StopCall? && es[j + 1] == StartCall;
  }

  lemma {:induction false} OpenedByStart(p: Phase, es: seq<Event>)
    requires p != Open && PhaseAfter(p, es) == Open
    ensures Restarted(es) || (p == Stopped && StartCall in es)
    decreases es
  {
    if p == Flushed || es[0] != StartCall {
      OpenedByStart(NextPhase(p, es[0]), es[1..]);
      if Restarted(es[1..]) {
        RestartedLater(es);
      } else if es[0].StopCall? {
        var j :| 0 <= j < |es[1..]| && es[1..][j] == StartCall;
        assert es[0].StopCall? && es[j + 1] == StartCall;
      }
    }
  }

  lemma {:induction false} RunSplits(s: State, es: seq<Event>, e: Event)
    requires Run(s, es + [e]).Some?
    ensures Run(s, es).Some? && Run(s, es + [e]) == Step(Run(s, es).value, e)
    decreases es
  {
    if es == [] {
      assert ([] + [e])[1..] == [];
    } else {
      assert (es + [e])[1..] == es[1..] + [e];
      RunSplits(Step(s, es[0]).value, es[1..], e);
    }
  }

  // A flushed worker accepts a task only after a stop and, after that, a start.
  lemma {:induction false} OnlyRestartAccepts(s: State, es: seq<Event>)
    requires PhaseOf(s) == Flushed && Run(s, es).Some? && Run(s, es).value.accepted != s.accepted
    ensures Restarted(es)
    decreases |es|
  {
    var init, last := es[..|es| - 1], es[|es| - 1];
    assert es == init + [last];
    RunSplits(s, init, last);
    var m := Run(s, init).value;
    if m.accepted != s.accepted {
      OnlyRestartAccepts(s, init);
    } else {
      AcceptedIffOpen(s, init, last.task);
      OpenedByStart(Flushed, init);
    }
    var i, j :| 0 <= i < j < |init| && init[i].StopCall? && init[j] == StartCall;
    assert es[i].StopCall? && es[j] == StartCall;
  }

  // And then it does: the stop returns at once, and the started worker has a thread again.
  lemma RestartAccepts(s: State, clear: bool, t: Task)
    requires Returned(s) && s.status == Flush
    ensures var es := [StopCall(clear), Join, StartCall, AddTask(t)];
      Run(s, es).Some? &&
      var s' := Run(s, es).value;
      s'.accepted == s.accepted + [t] && s'.tasks == [t] && s'.thread == Testing
  {
    var s1 := Step(s, StopCall(clear)).value;
    var s2 := Step(s1, Join).value;
    var s3 := Step(s2, StartCall).value;
    var es := [StopCall(clear), Join, StartCall, AddTask(t)];
    assert es[1..] == [Join, StartCall, AddTask(t)] && es[1..][1..] == [StartCall, AddTask(t)];
    assert es[1..][1..][1..] == [AddTask(t)] && es[1..][1..][1..][1..] == [];
    assert Run(s3, [AddTask(t)]) == Step(s3, AddTask(t));
    assert Run(s2, [StartCall, AddTask(t)]) == Run(s3, [AddTask(t)]);
    assert Run(s1, [Join, StartCall, AddTask(t)]) == Run(s2, [StartCall, AddTask(t)]);
  }

  // ----- what single sections do -----

  // `stop(true)` throws away every task that was still waiting, in order, and nothing else.
  lemma StopClears(s: State)
    requires Inv(s) && s.controller == Idle && s.thread != Running && s.status != Stop
    ensures Step(s, StopCall(true)).Some?
    ensures var t := Step(s, StopCall(true)).value;
      t.tasks == [] && t.current == None && t.status == Stop && t.accepted == s.accepted &&
      s.retired <= t.retired && |t.retired| == |s.accepted| &&
      forall k :: |s.retired| <= k < |s.accepted| ==> t.retired[k] == Retired(s.accepted[k], Discarded)
  {
    forall k | |s.retired| <= k < |s.accepted|
      ensures Step(s, StopCall(true)).value.retired[k] == Retired(s.accepted[k], Discarded)
    {
      assert s.accepted[|s.retired|..][k - |s.retired|] == s.accepted[k];
    }
  }

  lemma {:induction false} HistoryGrows(s: State, es: seq<Event>)
    requires Run(s, es).Some?
    ensures s.retired <= Run(s, es).value.retired && s.accepted <= Run(s, es).value.accepted
    decreases es
  {
    if es != [] {
      HistoryGrows(Step(s, es[0]).value, es[1..]);
    }
  }

  // So in no later run is a task in hand that had been accepted before that call.
  lemma ClearedTasksNeverRun(s: State, es: seq<Event>)
    requires Inv(s) && s.controller == Idle && s.thread != Running && s.status != Stop
    requires Step(s, StopCall(true)).Some? && Run(Step(s, StopCall(true)).value, es).Some?
    ensures var u := Run(Step(s, StopCall(true)).value, es).value;
      u.current.Some? ==>
        |s.accepted| <= |u.retired| < |u.accepted| && u.accepted[|u.retired|] == u.current.value
  {
    var t := Step(s, StopCall(true)).value;
    StopClears(s);
    StepCoheres(s, StopCall(true));
    StepConserves(s, StopCall(true));
    HistoryGrows(t, es);
    RunsKeepInv(t, es);
  }

  // However a task ends, under whatever status, it is recorded as what it did, and `Work` gives
  // way to `Wait` exactly when nothing is left to do.
  lemma TaskEnds(s: State, ok: bool)
    requires Inv(s) && s.current.Some?
    ensures Step(s, Finish(ok)).Some?
    ensures var t := Step(s, Finish(ok)).value;
      |t.retired| == |s.retired| + 1 && s.retired <= t.retired &&
      t.retired[|s.retired|].task == s.accepted[|s.retired|] &&
      (t.retired[|s.retired|].fate == Success <==> ok) && (t.retired[|s.retired|].fate == Error <==> !ok) &&
      t.current == None && t.thread == Testing && t.tasks == s.tasks && t.accepted == s.accepted &&
      t.status == if s.status == Work && s.tasks == [] then Wait else s.status
  {}

  // An idle worker goes round its loop, time-out by time-out, and is no different for it.
  lemma IdleGoesRound(s: State)
    requires s.thread == Ready && s.status == Wait && s.tasks == []
    ensures Run(s, [TimeOut, LoopTest]) == Some(s)
  {
    var t := s.(thread := Testing);
    assert [TimeOut, LoopTest][1..] == [LoopTest] && [LoopTest][1..] == [];
    assert Run(t, [LoopTest]) == Run(s, []);
  }

  // And a task that has come in is the next to run, in either status.
  lemma OldestRuns(s: State)
    requires Inv(s) && s.thread == Ready && s.tasks != [] && s.status != Stop
    ensures Step(s, Take).Some?
    ensures var t := Step(s, Take).value;
      t.current == Some(s.accepted[|s.retired|]) && t.thread == Running && t.tasks == s.tasks[1..] &&
      t.retired == s.retired && t.status == if s.status == Flush then Flush else Work
  {
    assert s.accepted[|s.retired|..][0] == s.accepted[|s.retired|];
  }
}
