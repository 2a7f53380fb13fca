/** How readers go on and end, and which calls the server's user can make. */
module ReaderEnds {
  import opened Wrappers
  import opened ServerProtocol
  import opened Shutdown
  import opened StartRace

  // What a blocked read can come to: it may fail at any time, and only from an open socket can
  // it bring a message, or an exception.
  lemma BlockedReader(s: State, i: nat)
    requires i < |s.sessions| && s.sessions[i].reader == Blocked
    ensures Next(s, ReaderStep(i)) == Some(Set(s, i, s.sessions[i].(reader := Checking)))
    ensures Next(s, ReaderMessage(i)) ==
      if s.sessions[i].open then Some(Set(s, i, s.sessions[i].(reader := AtHead))) else None
    ensures Next(s, ReaderThrow(i)) ==
      if s.sessions[i].open then Some(Set(s, i, s.sessions[i].(reader := Done))) else None
  {}

  // While the server is in service its user can write to and disconnect every listed session,
  // one call at a time, and can call `stop`.
  lemma UserCalls(s: State, i: nat, faulty: bool)
    requires s.main == Serving && s.job == None && i < |s.sessions|
    ensures Next(s, WriteFails(i)).Some? <==> s.sessions[i].listed
    ensures Next(s, Disconnect(i, faulty)).Some? <==> s.sessions[i].listed
    ensures s.sessions[i].listed ==>
      Next(s, WriteFails(i)) == Some(s.(job := Some(Job(i, Check, true)))) &&
      Next(s, Disconnect(i, faulty)) == Some(
        if !s.sessions[i].open then s
        else s.(job := Some(Job(i, if faulty then Check else Close, false))))
    ensures Next(s, MainStep) == Some(s.(isWork := false, main := ClosingAcceptor))
  {}

  // ----- a failed reader ends -----

  // A reader on its way out of a failed read, or past it.
  predicate Leaving(x: Session) {
    Failing(x.reader) || (x.reader == AtHead && x.critical) || x.reader == Done
  }

  function StepsLeft(r: Reader): nat {
    match r
    case Checking => 5
    case Erasing => 4
    case Flagging => 3
    case Closing => 2
    case AtHead => 1
    case _ => 0
  }

  // How often reader `j` moves in a run.
  function Moved(steps: seq<Step>, j: nat): nat {
    if steps == [] then 0 else (if steps[0] == ReaderStep(j) then 1 else 0) + Moved(steps[1..], j)
  }

  lemma LeaverMoves(x: Session, isWork: bool)
    requires Leaving(x) && x.reader != Done && (x.reader == Closing ==> x.critical)
    ensures ReadSession(x, isWork, Fails).Some?
    ensures var y := ReadSession(x, isWork, Fails).value;
      Leaving(y) && StepsLeft(y.reader) < StepsLeft(x.reader) && (x.critical ==> y.critical) &&
      (y.reader == Closing ==> y.critical)
  {}

  // The flag is set before the socket is closed, and stays.
  predicate Flagged(x: Session) {
    Leaving(x) && (x.reader == Closing ==> x.critical)
  }

  lemma OwnStep(s: State, j: nat)
    requires j < |s.sessions| && Flagged(s.sessions[j]) && s.sessions[j].reader != Done
    ensures Next(s, ReaderStep(j)).Some?
    ensures var y := Next(s, ReaderStep(j)).value.sessions[j];
      Flagged(y) && StepsLeft(y.reader) < StepsLeft(s.sessions[j].reader)
  {
    LeaverMoves(s.sessions[j], s.isWork);
  }

  lemma AcceptLeavesReader(s: State, ok: bool, j: nat)
    requires AcceptorAt(s) && Accept(s, ok).Some? && j < |s.sessions| && s.sessions[j].reader != Unlaunched
    ensures Accept(s, ok).value.sessions[j] == s.sessions[j]
  {}

  lemma WorkLeavesReader(s: State, j: nat)
    requires s.job.Some? && Work(s, s.job.value).Some? && j < |s.sessions|
    ensures var x, y := s.sessions[j], Work(s, s.job.value).value.sessions[j];
      y.reader == x.reader && (x.critical ==> y.critical)
  {}

  // Whatever else happens meanwhile leaves the reader where it is.
  lemma OthersLeaveReader(s: State, step: Step, j: nat)
    requires AcceptorAt(s) && Next(s, step).Some? && step != ReaderStep(j)
    requires j < |s.sessions| && Leaving(s.sessions[j])
    ensures j < |Next(s, step).value.sessions|
    ensures var x, y := s.sessions[j], Next(s, step).value.sessions[j];
      y.reader == x.reader && (x.critical ==> y.critical)
  {
    match step
    case AcceptorStep(ok) => AcceptLeavesReader(s, ok, j);
    case MainStep => if s.job.Some? { WorkLeavesReader(s, j); } else { CallSessions(s); }
    case _ =>
  }

  // In every run a reader whose read has failed moves at most five times more, whether the
  // server works or not; and until it has ended it can.
  lemma {:induction false} FailedReaderEnds(s: State, steps: seq<Step>, j: nat)
    requires Inv(s) && j < |s.sessions| && Leaving(s.sessions[j]) && Run(s, steps).Some?
    ensures j < |Run(s, steps).value.sessions|
    ensures var t := Run(s, steps).value;
      Leaving(t.sessions[j]) &&
      Moved(steps, j) + StepsLeft(t.sessions[j].reader) <= StepsLeft(s.sessions[j].reader) <= 5 &&
      (StepsLeft(t.sessions[j].reader) == 0 <==> t.sessions[j].reader == Done) &&
      (t.sessions[j].reader != Done ==> Next(t, ReaderStep(j)).Some?)
    decreases steps
  {
    assert SessionInv(s.sessions[j], s.main, s.acceptor == Launching(j), WorkedOn(s, j));
    if steps == [] {
      if s.sessions[j].reader != Done {
        OwnStep(s, j);
      }
    } else {
      StepKeepsInv(s, steps[0]);
      if steps[0] == ReaderStep(j) {
        OwnStep(s, j);
      } else {
        OthersLeaveReader(s, steps[0], j);
      }
      FailedReaderEnds(Next(s, steps[0]).value, steps[1..], j);
    }
  }

  // ----- a reader of a closed session does not -----

  // Closed by a disconnect, without an error.
  predicate Spinning(x: Session) {
    !x.open && !x.critical && (x.reader == AtHead || x.reader == Entering)
  }

  // While the server works, and nobody writes to its session, such a reader goes round between
  // its loop test and the closed socket.
  lemma SpinnerMoves(s: State, j: nat)
    requires s.isWork && j < |s.sessions| && Spinning(s.sessions[j])
    ensures Next(s, ReaderStep(j)) == Some(Set(s, j, s.sessions[j].(
      reader := if s.sessions[j].reader == AtHead then Entering else AtHead)))
  {}

  // A closed session is worked on only by a failing write.
  lemma NobodyWorksOnIt(s: State, step: Step, j: nat)
    requires Next(s, step).Some? && step != WriteFails(j)
    requires j < |s.sessions| && !s.sessions[j].open && !WorkedOn(s, j)
    ensures !WorkedOn(Next(s, step).value, j)
  {}

  lemma WorkSparesOthers(s: State, j: nat)
    requires s.job.Some? && Work(s, s.job.value).Some? && j < |s.sessions| && !WorkedOn(s, j)
    ensures Work(s, s.job.value).value.sessions[j] == s.sessions[j]
  {}

  lemma OthersLeaveSpinner(s: State, step: Step, j: nat)
    requires AcceptorAt(s) && Next(s, step).Some? && step != ReaderStep(j)
    requires j < |s.sessions| && Spinning(s.sessions[j]) && !WorkedOn(s, j)
    ensures j < |Next(s, step).value.sessions|
    ensures Next(s, step).value.sessions[j].(pending := s.sessions[j].pending) == s.sessions[j]
  {
    match step
    case AcceptorStep(ok) => AcceptLeavesReader(s, ok, j);
    case MainStep => if s.job.Some? { WorkSparesOthers(s, j); } else { CallSessions(s); }
    case _ =>
  }

  lemma StillWorking(s: State, step: Step, more: seq<Step>)
    requires MainInv(s) && s.isWork && Next(s, step).Some? && MainInv(Next(s, step).value)
    requires Run(Next(s, step).value, more).Some? && Run(Next(s, step).value, more).value.main == Serving
    ensures Next(s, step).value.isWork
  {
    var s' := Next(s, step).value;
    if Stopping(s'.main) {
      NeverServes(s', more);
    } else {
      StaysServing(s, step);
    }
  }

  lemma {:induction false} SpinnerNeverEnds(s: State, steps: seq<Step>, j: nat)
    requires Inv(s) && s.isWork && j < |s.sessions| && Spinning(s.sessions[j]) && !WorkedOn(s, j)
    requires Run(s, steps).Some? && Run(s, steps).value.isWork && WriteFails(j) !in steps
    ensures var t := Run(s, steps).value;
      j < |t.sessions| && Spinning(t.sessions[j]) && Next(t, ReaderStep(j)).Some?
    decreases steps
  {
    if steps != [] {
      var step, s' := steps[0], Next(s, steps[0]).value;
      assert step in steps;
      assert forall x :: x in steps[1..] ==> x in steps;
      StepKeepsInv(s, step);
      RunKeepsInv(s', steps[1..]);
      StillWorking(s, step, steps[1..]);
      if step == ReaderStep(j) {
        SpinnerMoves(s, j);
      } else {
        OthersLeaveSpinner(s, step, j);
        NobodyWorksOnIt(s, step, j);
      }
      SpinnerNeverEnds(s', steps[1..], j);
    }
  }
}
