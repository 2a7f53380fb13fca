/** `SegmentServer::stop` returns: every step after `isWork` is cleared brings it nearer. */
module StopReturns {
  import opened Wrappers
  import opened ServerProtocol
  import opened Shutdown

  function ReaderRank(r: Reader): nat {
    match r
    case Unlaunched => 0
    case Done => 0
    case AtHead => 1
    case Starting => 2
    case Closing => 3
    case Flagging => 4
    case Erasing => 5
    case Checking => 6
    case Blocked => 7
    case Entering => 8
  }

  function SessionRank(x: Session): nat {
    ReaderRank(x.reader) + if x.pending then 6 else 0
  }

  function Total(sessions: seq<Session>): nat {
    if sessions == [] then 0
    else Total(sessions[..|sessions| - 1]) + SessionRank(sessions[|sessions| - 1])
  }

  function AcceptorRank(a: Acceptor): nat {
    match a
    case Ended => 0
    case Crashed => 0
    case LoopTest => 1
    case Queued => 2
    case Deciding(_) => 2
    case Dropping(_) => 2
    case Rejecting(_) => 3
    case Counting(_) => 4
    case Launching(_) => 4
    case Accepted => 13
    case Accepting => 14
  }

  function MainRank(m: Main, n: nat): nat {
    match m
    case ClosingAcceptor => 7 * n + 6
    case Copying => 7 * n + 5
    case CountingSessions => n + 4
    case Disconnecting => n + 3
    case JoiningAcceptor => n + 2
    case JoiningReaders(k) => 1 + if k < n then n - k else 0
    case _ => 0
  }

  function JobRank(job: Option<Job>): nat {
    if job.None? then 0
    else match job.value.stage
      case Check => 4
      case Erase => 3
      case Flag => 2
      case Close => 1
  }

  function Rank(s: State): nat {
    MainRank(s.main, |s.sessions|) + AcceptorRank(s.acceptor) + JobRank(s.job) + Total(s.sessions)
  }

  // ----- sums -----

  lemma {:induction false} TotalSet(sessions: seq<Session>, i: nat, x: Session)
    requires i < |sessions|
    ensures Total(sessions[i := x]) == Total(sessions) - SessionRank(sessions[i]) + SessionRank(x)
  {
    var n := |sessions| - 1;
    if i < n {
      assert sessions[i := x][..n] == sessions[..n][i := x];
      TotalSet(sessions[..n], i, x);
    } else {
      assert sessions[i := x][..n] == sessions[..n];
    }
  }

  lemma {:induction false} TotalCopy(sessions: seq<Session>)
    ensures Total(CopyMap(sessions)) <= Total(sessions) + 6 * |sessions|
    ensures Total(ClearPending(sessions)) <= Total(sessions)
  {
    if sessions != [] {
      var n := |sessions| - 1;
      assert CopyMap(sessions)[..n] == CopyMap(sessions[..n]);
      assert ClearPending(sessions)[..n] == ClearPending(sessions[..n]);
      TotalCopy(sessions[..n]);
    }
  }

  // ----- every step decreases the rank -----

  lemma ReadSessionDecreases(x: Session, end: ReadEnd)
    requires ReadSession(x, false, end).Some?
    ensures SessionRank(ReadSession(x, false, end).value) < SessionRank(x)
  {}

  lemma ReadDecreases(s: State, i: nat, end: ReadEnd)
    requires !s.isWork && i < |s.sessions| && Read(s, i, end).Some?
    ensures Rank(Read(s, i, end).value) < Rank(s)
  {
    ReadSessionDecreases(s.sessions[i], end);
    TotalSet(s.sessions, i, ReadSession(s.sessions[i], s.isWork, end).value);
  }

  lemma InsertDecreases(s: State)
    requires s.acceptor == Accepted
    ensures Rank(Accept(s, true).value) < Rank(s)
  {
    var x := Session(true, false, true, false, Unlaunched);
    assert (s.sessions + [x])[..|s.sessions|] == s.sessions;
  }

  lemma ReplaceDecreases(s: State, ok: bool)
    requires s.acceptor.Dropping? || s.acceptor.Launching?
    requires AcceptorAt(s)
    ensures Rank(Accept(s, ok).value) < Rank(s)
  {
    var i := s.acceptor.k;
    TotalSet(s.sessions, i, Accept(s, ok).value.sessions[i]);
  }

  lemma AcceptDecreases(s: State, ok: bool)
    requires !s.isWork && AcceptorAt(s) && Accept(s, ok).Some?
    ensures Rank(Accept(s, ok).value) < Rank(s)
  {
    if s.acceptor == Accepted {
      InsertDecreases(s);
    } else if s.acceptor.Dropping? || s.acceptor.Launching? {
      ReplaceDecreases(s, ok);
    }
  }

  lemma CopyDecreases(s: State)
    requires s.main == Copying
    ensures Rank(Call(s).value) < Rank(s)
  {
    TotalCopy(s.sessions);
  }

  lemma NothingToDisconnect(s: State)
    requires s.main == CountingSessions && Count(s.sessions) == 0
    ensures Rank(Call(s).value) < Rank(s)
  {
    TotalCopy(s.sessions);
  }

  lemma PhaseDecreases(s: State)
    requires Stopping(s.main) && Call(s).Some?
    requires s.main != Copying && (s.main == CountingSessions ==> Count(s.sessions) != 0)
    ensures Rank(Call(s).value) < Rank(s)
  {}

  lemma CallDecreases(s: State)
    requires Stopping(s.main) && s.job.None? && Call(s).Some?
    ensures Rank(Call(s).value) < Rank(s)
  {
    if s.main == Copying {
      CopyDecreases(s);
    } else if s.main == CountingSessions && Count(s.sessions) == 0 {
      NothingToDisconnect(s);
    } else {
      PhaseDecreases(s);
    }
  }

  lemma WorkDecreases(s: State)
    requires Inv(s) && s.job.Some? && Work(s, s.job.value).Some?
    ensures Rank(Work(s, s.job.value).value) < Rank(s)
  {
    var job := s.job.value;
    TotalSet(s.sessions, job.i, WorkSession(s.sessions[job.i], job).0);
  }

  lemma DisconnectDecreases(s: State, i: nat, faulty: bool)
    requires Stopping(s.main) && Next(s, Disconnect(i, faulty)).Some?
    ensures Rank(Next(s, Disconnect(i, faulty)).value) < Rank(s)
  {
    TotalSet(s.sessions, i, s.sessions[i].(pending := false));
  }

  lemma StepDecreases(s: State, step: Step)
    requires Inv(s) && Stopping(s.main) && Next(s, step).Some?
    ensures Rank(Next(s, step).value) < Rank(s)
  {
    match step
    case AcceptorStep(ok) => AcceptDecreases(s, ok);
    case ReaderStep(i) => ReadDecreases(s, i, Fails);
    case ReaderMessage(i) => ReadDecreases(s, i, Goes);
    case ReaderThrow(i) => ReadDecreases(s, i, Throws);
    case MainStep => if s.job.Some? { WorkDecreases(s); } else { CallDecreases(s); }
    case WriteFails(_) =>
    case Disconnect(i, faulty) => DisconnectDecreases(s, i, faulty);
  }

  // ----- some step is always possible -----

  // Steps the server takes by itself: no client has to connect, to send or to fail for them.
  predicate Certain(s: State, step: Step) {
    Next(s, step).Some? &&
    match step
    case AcceptorStep(ok) => s.acceptor == Accepting ==> !ok && !s.acceptorOpen
    case ReaderStep(i) => i < |s.sessions| && (s.sessions[i].reader == Blocked ==> !s.sessions[i].open)
    case ReaderMessage(_) => false
    case ReaderThrow(_) => false
    case _ => true
  }

  ghost predicate CanGoOn(s: State) {
    exists step :: Certain(s, step)
  }

  lemma StopIsNotStuck(s: State)
    requires Inv(s) && Stopping(s.main) && s.main != Stopped && s.acceptor != Crashed
    ensures CanGoOn(s)
  {
    if s.main == Disconnecting && s.job.None? && !NonePending(s.sessions) {
      var k :| 0 <= k < |s.sessions| && s.sessions[k].pending;
      assert Certain(s, Disconnect(k, false));
    } else if s.main == JoiningAcceptor && s.job.None? && s.acceptor != Ended {
      assert Certain(s, AcceptorStep(false));
    } else if s.job.None? && s.main.JoiningReaders? && s.main.n < |s.sessions| && !AtRest(s.sessions[s.main.n].reader) {
      var n := s.main.n;
      assert SessionInv(s.sessions[n], s.main, s.acceptor == Launching(n), WorkedOn(s, n));
      assert Certain(s, ReaderStep(n));
    } else {
      assert Certain(s, MainStep);
    }
  }

  // Any run after `isWork` was cleared is at most as long as the rank says; until it has
  // returned, or the accept loop has crashed, it can go on.  When it has returned the accept
  // loop and all readers have ended, the accept loop before the readers were waited for.
  lemma {:induction false} StopEnds(s: State, steps: seq<Step>)
    requires Inv(s) && Stopping(s.main) && Run(s, steps).Some?
    ensures var s' := Run(s, steps).value;
      |steps| + Rank(s') <= Rank(s) && Stopping(s'.main) &&
      (s'.main == Stopped || s'.acceptor == Crashed || CanGoOn(s')) &&
      (s'.main.JoiningReaders? ==> s'.acceptor == Ended) &&
      (s'.main == Stopped ==> s'.acceptor == Ended && ReadersAtRest(s'.sessions, |s'.sessions|))
    decreases steps
  {
    if steps == [] {
      if s.main != Stopped && s.acceptor != Crashed {
        StopIsNotStuck(s);
      }
    } else {
      StepDecreases(s, steps[0]);
      StepKeepsStopping(s, steps[0]);
      StepKeepsInv(s, steps[0]);
      StopEnds(Next(s, steps[0]).value, steps[1..]);
    }
  }

  // `stop` of a server for many clients, called at any point of any run, returns.
  lemma StopOfManyClientsReturns(before: seq<Step>, s: State, after: seq<Step>, s': State)
    requires Run(Init(true), before) == Some(s) && Stopping(s.main) && Run(s, after) == Some(s')
    ensures |after| <= Rank(s) && (s'.main == Stopped || CanGoOn(s'))
  {
    RunKeepsInv(Init(true), before);
    RunKeepsMode(Init(true), before);
    StopEnds(s, after);
    RunKeepsInv(s, after);
    RunKeepsMode(s, after);
  }
}
