/** The order of `stop` and of the accept loop makes shutdown safe, and makes it end. */
module Shutdown {
  import opened ServerProtocol

  predicate Failing(r: Reader) {
    r == Checking || r == Erasing || r == Flagging || r == Closing
  }

  // The session is closed, or someone is on the way to closing it.
  predicate Covered(x: Session, worked: bool) {
    !x.open || Failing(x.reader) || worked
  }

  predicate WorkedOn(s: State, i: nat) {
    s.job.Some? && s.job.value.i == i
  }

  // `stop` has set `isWork` to false.
  predicate Stopping(m: Main) {
    m != Preparing && m != Serving
  }

  predicate AcceptorClosed(m: Main) {
    Stopping(m) && m != ClosingAcceptor
  }

  // `stop` has copied the map.
  predicate Copied(m: Main) {
    AcceptorClosed(m) && m != Copying
  }

  // The disconnect loop of `stop` is over.
  predicate Disconnected(m: Main) {
    m == JoiningAcceptor || m.JoiningReaders? || m == Stopped
  }

  predicate NewSession(s: State, i: nat) {
    i < |s.sessions| && s.sessions[i].reader == Unlaunched
  }

  predicate AcceptorAt(s: State) {
    match s.acceptor
    case Counting(Some(i)) => NewSession(s, i) && i == |s.sessions| - 1
    case Rejecting(i) => NewSession(s, i) && i == |s.sessions| - 1
    case Dropping(i) => NewSession(s, i) && i == |s.sessions| - 1
    case Deciding(i) => NewSession(s, i) && i == |s.sessions| - 1
    case Launching(i) => NewSession(s, i) && i == |s.sessions| - 1
    case _ => true
  }

  // `launching`: the accept loop is about to give it a reader; `worked`: the calling thread is
  // disconnecting it.
  predicate SessionInv(x: Session, main: Main, launching: bool, worked: bool) {
    // a session leaves the map only if it is being closed
    (x.listed || Covered(x, worked)) &&
    // from the copy on, every reader's session is in the copy or being closed
    (Copied(main) && (x.reader != Unlaunched || launching) ==> x.pending || Covered(x, worked)) &&
    (Disconnected(main) || !Copied(main) ==> !x.pending) &&
    // flag, list and socket
    (x.critical ==> !x.listed && Covered(x, worked)) &&
    (x.reader == Flagging || x.reader == Closing ==> !x.listed) &&
    (x.reader == Closing ==> x.critical)
  }

  predicate SessionsInv(s: State) {
    forall i :: 0 <= i < |s.sessions| ==>
      SessionInv(s.sessions[i], s.main, s.acceptor == Launching(i), WorkedOn(s, i))
  }

  predicate JobInv(s: State) {
    s.job.Some? ==>
      var job := s.job.value;
      job.i < |s.sessions| && (s.main == Serving || s.main == Disconnecting) &&
      (job.stage == Flag ==> job.failed) &&
      (job.failed && (job.stage == Flag || job.stage == Close) ==> !s.sessions[job.i].listed)
  }

  predicate ReadersAtRest(sessions: seq<Session>, n: nat) {
    forall k :: 0 <= k < n && k < |sessions| ==> AtRest(sessions[k].reader)
  }

  predicate MainInv(s: State) {
    (s.isWork <==> s.main == Serving) &&
    (AcceptorClosed(s.main) <==> !s.acceptorOpen) &&
    (s.main == Stopped || s.main.JoiningReaders? ==> s.acceptor == Ended) &&
    (s.main.JoiningReaders? ==> ReadersAtRest(s.sessions, s.main.n)) &&
    (s.main == Stopped ==> ReadersAtRest(s.sessions, |s.sessions|))
  }

  predicate AcceptorInv(s: State) {
    AcceptorAt(s) && (s.multi ==> s.acceptor != Crashed && !s.acceptor.Rejecting? && !s.acceptor.Dropping?)
  }

  predicate Inv(s: State) {
    AcceptorInv(s) && JobInv(s) && MainInv(s) && SessionsInv(s)
  }

  lemma InsertKeepsInv(s: State)
    requires Inv(s) && s.acceptor == Accepted
    ensures Inv(Accept(s, true).value)
  {}

  lemma DropKeepsInv(s: State, ok: bool)
    requires Inv(s) && s.acceptor.Dropping?
    ensures Inv(Accept(s, ok).value)
  {}

  lemma LaunchKeepsInv(s: State)
    requires Inv(s) && s.acceptor.Launching?
    ensures Inv(Accept(s, true).value)
  {}

  lemma SameSessions(s: State, s': State)
    requires SessionsInv(s) && s'.sessions == s.sessions && s'.main == s.main && s'.job == s.job
    requires s'.acceptor.Launching? ==> !Copied(s.main)
    ensures SessionsInv(s')
  {}

  // The steps of the accept loop that leave the sessions alone.
  predicate Looks(a: Acceptor) {
    a != Accepted && !a.Dropping? && !a.Launching?
  }

  lemma LookMoves(s: State, ok: bool)
    requires Looks(s.acceptor) && Accept(s, ok).Some?
    ensures var a := Accept(s, ok).value.acceptor;
      Accept(s, ok).value == s.(acceptor := a) && s.acceptor != Ended && (a.Launching? ==> s.isWork)
  {}

  lemma LookKeepsPlace(s: State, ok: bool)
    requires AcceptorInv(s) && Looks(s.acceptor) && Accept(s, ok).Some?
    ensures AcceptorInv(s.(acceptor := Accept(s, ok).value.acceptor))
  {}

  lemma MovingKeepsMain(s: State, a: Acceptor)
    requires JobInv(s) && MainInv(s) && s.acceptor != Ended
    ensures JobInv(s.(acceptor := a)) && MainInv(s.(acceptor := a))
  {}

  lemma AcceptKeepsInv(s: State, ok: bool)
    requires Inv(s) && Accept(s, ok).Some?
    ensures Inv(Accept(s, ok).value)
  {
    if s.acceptor == Accepted {
      InsertKeepsInv(s);
    } else if s.acceptor.Dropping? {
      DropKeepsInv(s, ok);
    } else if s.acceptor.Launching? {
      LaunchKeepsInv(s);
    } else {
      LookMoves(s, ok);
      LookKeepsPlace(s, ok);
      MovingKeepsMain(s, Accept(s, ok).value.acceptor);
      SameSessions(s, Accept(s, ok).value);
    }
  }

  lemma ReadKeepsSession(x: Session, main: Main, isWork: bool, worked: bool, end: ReadEnd)
    requires SessionInv(x, main, false, worked) && ReadSession(x, isWork, end).Some?
    ensures var x' := ReadSession(x, isWork, end).value;
      SessionInv(x', main, false, worked) && (!x.listed ==> !x'.listed) && x'.reader != Unlaunched && !AtRest(x.reader)
  {}

  lemma ReadKeepsInv(s: State, j: nat, end: ReadEnd)
    requires Inv(s) && j < |s.sessions| && Read(s, j, end).Some?
    ensures Inv(Read(s, j, end).value)
  {
    ReadKeepsSession(s.sessions[j], s.main, s.isWork, WorkedOn(s, j), end);
  }

  lemma WorkKeepsSession(x: Session, main: Main, launching: bool, job: Job)
    requires SessionInv(x, main, launching, true)
    requires job.stage == Flag ==> job.failed
    requires job.failed && (job.stage == Flag || job.stage == Close) ==> !x.listed
    ensures var (x', rest) := WorkSession(x, job);
      SessionInv(x', main, launching, rest.Some?) && x'.reader == x.reader && (!x.listed ==> !x'.listed) &&
      (rest.Some? ==> rest.value.i == job.i) &&
      (rest.Some? ==> rest.value.stage == Flag ==> rest.value.failed) &&
      (rest.Some? ==> rest.value.failed && (rest.value.stage == Flag || rest.value.stage == Close) ==> !x'.listed)
  {}

  lemma WorkKeepsInv(s: State)
    requires Inv(s) && s.job.Some?
    ensures Inv(Work(s, s.job.value).value)
  {
    var i := s.job.value.i;
    WorkKeepsSession(s.sessions[i], s.main, s.acceptor == Launching(i), s.job.value);
  }

  lemma {:induction false} CountZero(sessions: seq<Session>)
    ensures Count(sessions) == 0 <==> forall i :: 0 <= i < |sessions| ==> !sessions[i].listed
  {
    if sessions != [] {
      CountZero(sessions[..|sessions| - 1]);
      assert forall i :: 0 <= i < |sessions| - 1 ==> sessions[..|sessions| - 1][i] == sessions[i];
    }
  }

  // A step of `stop` that keeps the sessions as they are.
  lemma PhaseKeepsSessions(x: Session, m: Main, m': Main, launching: bool)
    requires SessionInv(x, m, launching, false)
    requires Copied(m') ==> Copied(m)
    requires Disconnected(m') || !Copied(m') ==> !x.pending
    ensures SessionInv(x, m', launching, false)
  {}

  lemma CopyKeepsSession(x: Session, launching: bool)
    requires SessionInv(x, Copying, launching, false)
    ensures SessionInv(x.(pending := x.listed), CountingSessions, launching, false)
  {}

  lemma ClearKeepsSession(x: Session, launching: bool)
    requires SessionInv(x, CountingSessions, launching, false) && !x.listed
    ensures SessionInv(x.(pending := false), JoiningAcceptor, launching, false)
  {}

  lemma CallKeepsSessions(s: State)
    requires Inv(s) && s.job.None? && Call(s).Some?
    ensures SessionsInv(Call(s).value)
  {
    var s' := Call(s).value;
    CountZero(s.sessions);
    forall i | 0 <= i < |s'.sessions|
      ensures SessionInv(s'.sessions[i], s'.main, s'.acceptor == Launching(i), WorkedOn(s', i))
    {
      var x, launching := s.sessions[i], s.acceptor == Launching(i);
      assert SessionInv(x, s.main, launching, WorkedOn(s, i));
      if s.main == Copying {
        CopyKeepsSession(x, launching);
      } else if s.main == CountingSessions && Count(s.sessions) == 0 {
        ClearKeepsSession(x, launching);
      } else {
        PhaseKeepsSessions(x, s.main, s'.main, launching);
      }
    }
  }

  lemma CallKeepsMain(s: State)
    requires AcceptorInv(s) && MainInv(s) && Call(s).Some?
    ensures MainInv(Call(s).value) && Call(s).value.acceptor == s.acceptor && Call(s).value.multi == s.multi
  {}

  // `stop` marks sessions when it copies the map, and unmarks them if the map is empty.
  lemma CallSessions(s: State)
    requires Call(s).Some?
    ensures Call(s).value.sessions ==
      if s.main == Copying then CopyMap(s.sessions)
      else if s.main == CountingSessions && Count(s.sessions) == 0 then ClearPending(s.sessions)
      else s.sessions
  {}

  lemma CallKeepsReaders(s: State)
    requires Call(s).Some?
    ensures |Call(s).value.sessions| == |s.sessions| && Call(s).value.job == s.job
    ensures forall i :: 0 <= i < |s.sessions| ==> Call(s).value.sessions[i].reader == s.sessions[i].reader
  {
    CallSessions(s);
  }

  lemma SameReaders(s: State, s': State)
    requires AcceptorInv(s) && s'.acceptor == s.acceptor && s'.multi == s.multi && |s'.sessions| == |s.sessions|
    requires forall i :: 0 <= i < |s.sessions| ==> s'.sessions[i].reader == s.sessions[i].reader
    ensures AcceptorInv(s')
  {}

  lemma WriteKeepsInv(s: State, i: nat)
    requires Inv(s) && Next(s, WriteFails(i)).Some?
    ensures Inv(Next(s, WriteFails(i)).value)
  {}

  lemma DisconnectKeepsSession(x: Session, main: Main, launching: bool)
    requires SessionInv(x, main, launching, false) && (main == Disconnecting || main == Serving)
    ensures SessionInv(x.(pending := false), main, launching, x.open)
    ensures main == Serving ==> SessionInv(x, main, launching, x.open)
  {}

  lemma DisconnectKeepsRest(s: State, i: nat, faulty: bool)
    requires Next(s, Disconnect(i, faulty)).Some?
    ensures var s' := Next(s, Disconnect(i, faulty)).value;
      s'.(sessions := s.sessions, job := s.job) == s && |s'.sessions| == |s.sessions| &&
      forall k :: 0 <= k < |s.sessions| ==> s'.sessions[k].reader == s.sessions[k].reader
  {}

  lemma DisconnectKeepsJob(s: State, i: nat, faulty: bool)
    requires Next(s, Disconnect(i, faulty)).Some?
    ensures JobInv(Next(s, Disconnect(i, faulty)).value)
  {}

  lemma DisconnectKeepsInv(s: State, i: nat, faulty: bool)
    requires Inv(s) && Next(s, Disconnect(i, faulty)).Some?
    ensures Inv(Next(s, Disconnect(i, faulty)).value)
  {
    var s' := Next(s, Disconnect(i, faulty)).value;
    DisconnectKeepsRest(s, i, faulty);
    DisconnectKeepsJob(s, i, faulty);
    SameReaders(s, s');
    forall k | 0 <= k < |s'.sessions|
      ensures SessionInv(s'.sessions[k], s'.main, s'.acceptor == Launching(k), WorkedOn(s', k))
    {
      assert SessionInv(s.sessions[k], s.main, s.acceptor == Launching(k), WorkedOn(s, k));
      DisconnectKeepsSession(s.sessions[k], s.main, s.acceptor == Launching(k));
    }
  }

  lemma StepKeepsInv(s: State, step: Step)
    requires Inv(s) && Next(s, step).Some?
    ensures Inv(Next(s, step).value)
  {
    match step
    case AcceptorStep(ok) => AcceptKeepsInv(s, ok);
    case ReaderStep(i) => ReadKeepsInv(s, i, Fails);
    case ReaderMessage(i) => ReadKeepsInv(s, i, Goes);
    case ReaderThrow(i) => ReadKeepsInv(s, i, Throws);
    case MainStep =>
      if s.job.Some? {
        WorkKeepsInv(s);
      } else {
        CallKeepsSessions(s);
        CallKeepsMain(s);
        CallKeepsReaders(s);
        SameReaders(s, Call(s).value);
      }
    case WriteFails(i) => WriteKeepsInv(s, i);
    case Disconnect(i, faulty) => DisconnectKeepsInv(s, i, faulty);
  }

  lemma {:induction false} RunKeepsInv(s: State, steps: seq<Step>)
    requires Inv(s) && Run(s, steps).Some?
    ensures Inv(Run(s, steps).value)
    decreases steps
  {
    if steps != [] {
      StepKeepsInv(s, steps[0]);
      RunKeepsInv(Next(s, steps[0]).value, steps[1..]);
    }
  }

  // ----- safety -----

  // It has a reader, or the accept loop has decided to give it one.
  predicate Launched(s: State, i: nat) {
    i < |s.sessions| && (s.sessions[i].reader != Unlaunched || s.acceptor == Launching(i))
  }

  // Once the disconnect loop of `stop` is over, no reader that was or will be launched is held
  // by an open socket: its session is closed, or the reader itself is on the way to closing it.
  lemma NoReaderIsHeld(multi: bool, steps: seq<Step>)
    requires Run(Init(multi), steps).Some? && Disconnected(Run(Init(multi), steps).value.main)
    ensures var s := Run(Init(multi), steps).value;
      forall i :: 0 <= i < |s.sessions| && Launched(s, i) ==>
        !s.sessions[i].open || Failing(s.sessions[i].reader)
  {
    RunKeepsInv(Init(multi), steps);
    var s := Run(Init(multi), steps).value;
    forall i | 0 <= i < |s.sessions| && Launched(s, i)
      ensures !s.sessions[i].open || Failing(s.sessions[i].reader)
    {
      assert SessionInv(s.sessions[i], s.main, s.acceptor == Launching(i), WorkedOn(s, i));
    }
  }

  lemma AcceptLaunchesNobody(s: State, ok: bool, i: nat)
    requires !s.isWork && AcceptorAt(s) && Accept(s, ok).Some? && Launched(Accept(s, ok).value, i)
    ensures Launched(s, i)
  {}

  lemma StepLaunchesNobody(s: State, step: Step, i: nat)
    requires Inv(s) && !s.isWork && Next(s, step).Some? && Launched(Next(s, step).value, i)
    ensures Launched(s, i)
  {
    if step.AcceptorStep? {
      AcceptLaunchesNobody(s, step.ok, i);
    }
  }

  lemma AcceptKeepsMain(s: State, ok: bool)
    requires Accept(s, ok).Some?
    ensures Accept(s, ok).value.main == s.main
  {}

  lemma StepKeepsStopping(s: State, step: Step)
    requires Stopping(s.main) && Next(s, step).Some?
    ensures Stopping(Next(s, step).value.main)
  {
    if step.AcceptorStep? {
      AcceptKeepsMain(s, step.ok);
    }
  }

  // Every reader there will ever be was decided on before `isWork` became false, so its session
  // was in the map by then.
  lemma {:induction false} NoReaderAfterStop(s: State, steps: seq<Step>, i: nat)
    requires Inv(s) && Stopping(s.main) && Run(s, steps).Some? && Launched(Run(s, steps).value, i)
    ensures Launched(s, i)
    decreases steps
  {
    if steps != [] {
      StepKeepsInv(s, steps[0]);
      StepKeepsStopping(s, steps[0]);
      NoReaderAfterStop(Next(s, steps[0]).value, steps[1..], i);
      StepLaunchesNobody(s, steps[0], i);
    }
  }

  // In every interleaving: an error flag means the session is off the list and closed or being
  // closed, and a session goes off the list for no other reason than being closed.
  lemma FlagListSocket(multi: bool, steps: seq<Step>, i: nat)
    requires Run(Init(multi), steps).Some? && i < |Run(Init(multi), steps).value.sessions|
    ensures var s := Run(Init(multi), steps).value;
      (s.sessions[i].critical ==> !s.sessions[i].listed) &&
      (s.sessions[i].critical || !s.sessions[i].listed ==> Covered(s.sessions[i], WorkedOn(s, i)))
  {
    RunKeepsInv(Init(multi), steps);
    var s := Run(Init(multi), steps).value;
    assert SessionInv(s.sessions[i], s.main, s.acceptor == Launching(i), WorkedOn(s, i));
  }

  lemma AcceptKeepsMode(s: State, ok: bool)
    requires Accept(s, ok).Some?
    ensures Accept(s, ok).value.multi == s.multi
  {}

  lemma StepKeepsMode(s: State, step: Step)
    requires Next(s, step).Some?
    ensures Next(s, step).value.multi == s.multi
  {
    if step.AcceptorStep? {
      AcceptKeepsMode(s, step.ok);
    }
  }

  lemma {:induction false} RunKeepsMode(s: State, steps: seq<Step>)
    requires Run(s, steps).Some?
    ensures Run(s, steps).value.multi == s.multi
    decreases steps
  {
    if steps != [] {
      StepKeepsMode(s, steps[0]);
      RunKeepsMode(Next(s, steps[0]).value, steps[1..]);
    }
  }

  // With many clients allowed, the accept loop never disconnects through a null session.
  lemma ManyClientsNeverCrash(steps: seq<Step>)
    requires Run(Init(true), steps).Some?
    ensures Run(Init(true), steps).value.acceptor != Crashed
  {
    RunKeepsInv(Init(true), steps);
    RunKeepsMode(Init(true), steps);
  }
}
