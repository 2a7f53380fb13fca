/**
 The steps of the server protocol and the events of a session's life: a failed read, a failed
 write or a disconnect, taken step by step, does what the session does in one call.
 */
module SessionSteps {
  import opened Wrappers
  import opened Errors
  import Sessions
  import opened ServerProtocol
  import opened Shutdown
  import opened StopReturns

  function ViewOf(x: Session): Sessions.View {
    Sessions.View(x.open, x.critical, x.listed)
  }

  // A reader that is failing, taken to its next loop test.
  function FailThrough(x: Session, isWork: bool): Session
    decreases ReaderRank(x.reader)
  {
    if !Failing(x.reader) then x else FailThrough(ReadSession(x, isWork, Fails).value, isWork)
  }

  // One `read` that was blocked, from its end to the next loop test, or to the end of the reader.
  function ReadThrough(x: Session, isWork: bool, end: ReadEnd): Option<Session>
    requires x.reader == Blocked
  {
    match ReadSession(x, isWork, end)
    case Some(y) => Some(FailThrough(y, isWork))
    case None => None
  }

  lemma FailureEnds(x: Session, isWork: bool)
    requires x.reader == Checking
    ensures FailThrough(x, isWork) == x.(open := false, critical := true, listed := false, reader := AtHead)
  {
    var erasing := x.(reader := Erasing);
    var erased := x.(listed := false, reader := Flagging);
    var flagged := erased.(critical := true, reader := Closing);
    var closed := flagged.(open := false, reader := AtHead);
    assert FailThrough(flagged, isWork) == FailThrough(closed, isWork) == closed;
    assert FailThrough(erased, isWork) == closed;
    if x.listed {
      assert FailThrough(erasing, isWork) == closed;
    }
  }

  // A critical code does what the two layers do with it, whether or not another thread has
  // closed the socket meanwhile.
  lemma FailedReadIsEvent(x: Session, isWork: bool, ec: ErrorCode, faulty: bool)
    requires x.reader == Blocked && IsCritical(ec)
    ensures ReadThrough(x, isWork, Fails).Some?
    ensures var y := ReadThrough(x, isWork, Fails).value;
      y == x.(open := y.open, critical := y.critical, listed := y.listed, reader := AtHead) &&
      ViewOf(y) == Sessions.AfterCode(IsCritical, IsCritical, ViewOf(x), ec, faulty) &&
      (x.open ==> ViewOf(y) == Sessions.AfterEvent(ViewOf(x), Sessions.Reading(ec, faulty)))
  {
    FailureEnds(x.(reader := Checking), isWork);
  }

  // Any other code, a message or an exception leaves all but the reader as it is.
  lemma HarmlessReadIsEvent(x: Session, isWork: bool, ec: ErrorCode, faulty: bool)
    requires x.reader == Blocked && x.open && !IsCritical(ec)
    ensures ReadThrough(x, isWork, Goes) == Some(x.(reader := AtHead))
    ensures ReadThrough(x, isWork, Throws) == Some(x.(reader := Done))
    ensures ViewOf(x) == Sessions.AfterEvent(ViewOf(x), Sessions.Reading(ec, faulty))
  {}

  // The calling thread's steps for one session, to the end of its call.
  function WorkThrough(x: Session, job: Job): Session
    decreases JobRank(Some(job))
  {
    var (y, rest) := WorkSession(x, job);
    if rest.None? then y else WorkThrough(y, rest.value)
  }

  lemma WriteIsEvent(x: Session, i: nat, ec: ErrorCode, faulty: bool)
    requires IsCritical(ec)
    ensures var y := WorkThrough(x, Job(i, Check, true));
      y == x.(open := y.open, critical := y.critical, listed := y.listed) &&
      ViewOf(y) == Sessions.AfterEvent(ViewOf(x), Sessions.Writing(ec, faulty))
  {
    var erased := x.(listed := false);
    var flagged := erased.(critical := true);
    assert WorkThrough(flagged, Job(i, Close, true)) == flagged.(open := false);
    assert WorkThrough(erased, Job(i, Flag, true)) == flagged.(open := false);
    assert WorkThrough(x, Job(i, Erase, true)) == flagged.(open := false);
  }

  // `Session::disconnect`, from the test of the socket on.
  lemma DisconnectIsEvent(s: State, i: nat, faulty: bool)
    requires i < |s.sessions|
    ensures var x, job := s.sessions[i], DisconnectJob(s, i, faulty);
      var y := if job.Some? then WorkThrough(x, job.value) else x;
      y == x.(open := y.open, listed := y.listed) &&
      ViewOf(y) == Sessions.AfterEvent(ViewOf(x), Sessions.Closing(faulty))
  {
    var x := s.sessions[i];
    var erased := x.(listed := false);
    assert WorkThrough(x, Job(i, Close, false)) == x.(open := false);
    assert WorkThrough(erased, Job(i, Close, false)) == erased.(open := false);
    assert WorkThrough(x, Job(i, Erase, false)) == erased.(open := false);
  }

  // A rejection by the accept loop.
  lemma RejectionIsEvent(s: State, ok: bool)
    requires s.acceptor.Dropping? && s.acceptor.k < |s.sessions|
    ensures var i := s.acceptor.k;
      ViewOf(Accept(s, ok).value.sessions[i]) ==
        Sessions.AfterEvent(ViewOf(s.sessions[i]), Sessions.Closing(!ok))
  {}
}
