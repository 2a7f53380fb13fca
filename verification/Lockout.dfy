/**
 When the server for one client at a time can still serve somebody new: exactly when its
 accept loop goes on and no session stays in the map for good.
 */
module Lockout {
  import opened Wrappers
  import opened ServerProtocol
  import opened Shutdown
  import opened SingleClient
  import opened StopCrash

  // The accept loop is dealing with session `i`.
  predicate InHand(a: Acceptor, i: nat) {
    Newcomer(a, i) || a == Deciding(i) || a == Launching(i)
  }

  // In the map, with a reader that finds the socket closed and never reads, or has ended, or
  // never was.
  predicate Lasting(x: Session) {
    x.listed && x.reader != Blocked && x.reader != Checking && x.reader != Erasing &&
    (x.open ==> x.reader == Unlaunched || x.reader == Done)
  }

  // Nothing the server and its clients do takes session `j` out of the map.
  predicate Stays(s: State, j: nat) {
    j < |s.sessions| &&
    if InHand(s.acceptor, j) then s.sessions[j].listed && !s.sessions[j].open else Lasting(s.sessions[j])
  }

  predicate NoneStays(s: State) {
    forall j :: 0 <= j < |s.sessions| ==> !Stays(s, j)
  }

  // The accept loop has not ended, crashed, or come to the point of crashing.
  predicate Accepts(s: State) {
    s.acceptor != Ended && s.acceptor != Crashed &&
    (s.acceptor.Rejecting? ==> s.acceptor.k < |s.sessions| && s.sessions[s.acceptor.k].listed)
  }

  // Steps of the accept loop and of readers: no call of the server's user.
  predicate Unattended(steps: seq<Step>) {
    forall k :: 0 <= k < |steps| ==> !steps[k].MainStep? && !steps[k].WriteFails? && !steps[k].Disconnect?
  }

  // A session from the n-th on is being read.
  ghost predicate Reads(s: State, n: nat) {
    exists k :: n <= k < |s.sessions| && s.sessions[k].reader == Blocked
  }

  ghost predicate CanServe(s: State, n: nat) {
    exists steps :: Unattended(steps) && Run(s, steps).Some? && Reads(Run(s, steps).value, n)
  }

  // Steps of the accept loop and of the readers of sessions from the n-th on: nobody who was
  // there before does anything.
  predicate Alone(steps: seq<Step>, n: nat) {
    forall k :: 0 <= k < |steps| ==> steps[k].AcceptorStep? || (steps[k].ReaderStep? && steps[k].i >= n)
  }

  ghost predicate CanServeAlone(s: State, n: nat) {
    exists steps :: Alone(steps, n) && Run(s, steps).Some? && Reads(Run(s, steps).value, n)
  }

  // ----- a session that stays keeps everybody else out -----

  // Nobody has read or will read from it: it has no reader, or one that does not find it.
  predicate Unread(x: Session) {
    x.reader == Unlaunched || x.reader == Done || (x.reader == Starting && !x.listed)
  }

  predicate LaterUnread(s: State, n: nat) {
    (forall k :: n <= k < |s.sessions| ==> Unread(s.sessions[k])) &&
    (forall k :: n <= k < |s.sessions| && (s.acceptor == Deciding(k) || s.acceptor == Launching(k)) ==>
      !s.sessions[k].listed)
  }

  // A newcomer still in the map is not alone in it.
  lemma NotAlone(s: State, ok: bool, j: nat)
    requires AcceptorAt(s) && !s.multi && j < |s.sessions| - 1 && s.sessions[j].listed
    requires Accept(s, ok).Some? && Accept(s, ok).value.acceptor.Deciding?
    ensures !s.sessions[Accept(s, ok).value.acceptor.k].listed
  {
    if s.sessions[s.acceptor.i.value].listed {
      CountBounds(s.sessions, j, s.acceptor.i.value);
    }
  }

  lemma AcceptKeepsUnread(s: State, ok: bool, j: nat, n: nat)
    requires AcceptorAt(s) && !s.multi && Stays(s, j) && j < n && LaterUnread(s, n) && Accept(s, ok).Some?
    ensures LaterUnread(Accept(s, ok).value, n)
  {
    var s' := Accept(s, ok).value;
    if s'.acceptor.Deciding? && n <= s'.acceptor.k {
      NotAlone(s, ok, j);
    }
  }

  // The accept loop changes a session only when it lets go of it.
  lemma AcceptTouches(s: State, ok: bool, j: nat)
    requires Accept(s, ok).Some? && j < |s.sessions| && s.acceptor != Dropping(j) && s.acceptor != Launching(j)
    ensures j < |Accept(s, ok).value.sessions| && Accept(s, ok).value.sessions[j] == s.sessions[j]
  {}

  lemma AcceptHandsOn(s: State, ok: bool, j: nat)
    requires AcceptorAt(s) && Accept(s, ok).Some? && j < |s.sessions|
    ensures InHand(Accept(s, ok).value.acceptor, j) ==> InHand(s.acceptor, j)
    ensures InHand(s.acceptor, j) ==> s.sessions[j].reader == Unlaunched
  {}

  lemma ReleaseKeepsStays(s: State, ok: bool, j: nat)
    requires Stays(s, j) && (s.acceptor == Dropping(j) || s.acceptor == Launching(j))
    requires s.sessions[j].reader == Unlaunched
    ensures Stays(Accept(s, ok).value, j)
  {}

  lemma AcceptKeepsStays(s: State, ok: bool, j: nat)
    requires AcceptorAt(s) && Stays(s, j) && Accept(s, ok).Some?
    ensures Stays(Accept(s, ok).value, j)
  {
    AcceptHandsOn(s, ok, j);
    if s.acceptor == Dropping(j) || s.acceptor == Launching(j) {
      ReleaseKeepsStays(s, ok, j);
    } else {
      AcceptTouches(s, ok, j);
    }
  }

  lemma AcceptOpensNothing(s: State, ok: bool, j: nat)
    requires Accept(s, ok).Some? && j < |s.sessions|
    ensures j < |Accept(s, ok).value.sessions| && (Accept(s, ok).value.sessions[j].open ==> s.sessions[j].open)
  {
    if s.acceptor != Dropping(j) && s.acceptor != Launching(j) {
      AcceptTouches(s, ok, j);
    }
  }

  // The calling thread is about to take session `j` out of the map.
  predicate Unlisting(s: State, j: nat) {
    WorkedOn(s, j) && s.job.value.stage != Close
  }

  // The calls that may do so.
  predicate Risky(s: State, step: Step, j: nat) {
    step == WriteFails(j) ||
    (step == Disconnect(j, true) && j < |s.sessions| && s.sessions[j].open) ||
    (step == MainStep && Unlisting(s, j))
  }

  // What a step that is not the accept loop's does to one session.
  predicate Moves(x: Session, y: Session, unlisting: bool) {
    (y.open ==> x.open) && (Unread(x) ==> Unread(y)) && (Lasting(x) && !unlisting ==> Lasting(y))
  }

  lemma ReadMoves(x: Session, isWork: bool, end: ReadEnd)
    requires ReadSession(x, isWork, end).Some?
    ensures Moves(x, ReadSession(x, isWork, end).value, false)
  {}

  lemma WorkMoves(s: State, k: nat)
    requires s.job.Some? && Work(s, s.job.value).Some? && k < |s.sessions|
    ensures |Work(s, s.job.value).value.sessions| == |s.sessions|
    ensures Moves(s.sessions[k], Work(s, s.job.value).value.sessions[k], Unlisting(s, k))
  {}

  // The calls of `stop` only mark sessions.
  lemma CallMarks(s: State, k: nat)
    requires Call(s).Some? && k < |s.sessions|
    ensures |Call(s).value.sessions| == |s.sessions|
    ensures Call(s).value.sessions[k].(pending := s.sessions[k].pending) == s.sessions[k]
  {
    CallSessions(s);
  }

  lemma OthersMove(s: State, step: Step, k: nat)
    requires !step.AcceptorStep? && !Risky(s, step, k) && Next(s, step).Some? && k < |s.sessions|
    ensures |Next(s, step).value.sessions| == |s.sessions|
    ensures Moves(s.sessions[k], Next(s, step).value.sessions[k], false)
  {
    match step
    case ReaderStep(i) => ReadMoves(s.sessions[i], s.isWork, Fails);
    case ReaderMessage(i) => ReadMoves(s.sessions[i], s.isWork, Goes);
    case ReaderThrow(i) => ReadMoves(s.sessions[i], s.isWork, Throws);
    case MainStep => if s.job.Some? { WorkMoves(s, k); } else { CallMarks(s, k); }
    case _ =>
  }

  lemma OthersLeaveUnread(s: State, step: Step, k: nat)
    requires !step.AcceptorStep? && Next(s, step).Some? && k < |s.sessions| && Unread(s.sessions[k])
    ensures k < |Next(s, step).value.sessions| && Unread(Next(s, step).value.sessions[k])
  {
    if !Risky(s, step, k) {
      OthersMove(s, step, k);
    } else if step == MainStep {
      WorkMoves(s, k);
    }
  }

  lemma OthersKeepUnread(s: State, step: Step, n: nat)
    requires LaterUnread(s, n) && !step.AcceptorStep? && Next(s, step).Some?
    ensures LaterUnread(Next(s, step).value, n)
  {
    OtherStepsFade(s, step);
    forall k | n <= k < |s.sessions|
      ensures Unread(Next(s, step).value.sessions[k])
    {
      OthersLeaveUnread(s, step, k);
    }
  }

  lemma OthersKeepStays(s: State, step: Step, j: nat)
    requires AcceptorAt(s) && Stays(s, j) && !step.AcceptorStep? && !Risky(s, step, j) && Next(s, step).Some?
    ensures Stays(Next(s, step).value, j)
  {
    OtherStepsFade(s, step);
    OthersMove(s, step, j);
  }

  // A call that has not begun to unlist a session does not, and one that has needs MainStep.
  lemma NoNewRisk(s: State, step: Step, j: nat)
    requires j < |s.sessions| && !Risky(s, step, j) && Next(s, step).Some?
    ensures Unlisting(Next(s, step).value, j) ==> Unlisting(s, j)
  {}

  lemma {:induction false} RunKeepsUnread(s: State, steps: seq<Step>, j: nat, n: nat)
    requires Inv(s) && !s.multi && Stays(s, j) && j < n && LaterUnread(s, n) && Run(s, steps).Some?
    requires WriteFails(j) !in steps && (s.sessions[j].open ==> Disconnect(j, true) !in steps)
    requires Unlisting(s, j) ==> MainStep !in steps
    ensures Stays(Run(s, steps).value, j) && LaterUnread(Run(s, steps).value, n)
    decreases steps
  {
    if steps != [] {
      var step, s' := steps[0], Next(s, steps[0]).value;
      assert step in steps;
      assert forall x :: x in steps[1..] ==> x in steps;
      StepKeepsInv(s, step);
      StepKeepsMode(s, step);
      NoNewRisk(s, step, j);
      if step.AcceptorStep? {
        AcceptKeepsStays(s, step.ok, j);
        AcceptKeepsUnread(s, step.ok, j, n);
        AcceptOpensNothing(s, step.ok, j);
      } else {
        OthersKeepStays(s, step, j);
        OthersKeepUnread(s, step, n);
        OtherStepsFade(s, step);
      }
      RunKeepsUnread(s', steps[1..], j, n);
    }
  }

  // Once a session stays, no client that connects later is ever read, whatever calls the
  // server's user makes of others and whoever has left, unless the user takes that session off
  // the map: by a write to it, or by a disconnect that meets a socket error.
  lemma NobodyElseIsServed(s: State, steps: seq<Step>, j: nat)
    requires Inv(s) && !s.multi && Stays(s, j) && !Unlisting(s, j) && Run(s, steps).Some?
    requires WriteFails(j) !in steps && (s.sessions[j].open ==> Disconnect(j, true) !in steps)
    ensures var s' := Run(s, steps).value;
      Stays(s', j) && forall k :: |s.sessions| <= k < |s'.sessions| ==> Unread(s'.sessions[k])
  {
    RunKeepsUnread(s, steps, j, |s.sessions|);
  }

  // ----- without one, somebody new can be served -----

  // What a session in the map still has to do before it is out of it.
  function Burden(x: Session): nat {
    if !x.listed then 0
    else match x.reader
      case Unlaunched => 7
      case Starting => 6
      case AtHead => 5
      case Entering => 4
      case Blocked => 3
      case Checking => 2
      case _ => 1
  }

  function Load(sessions: seq<Session>): nat {
    if sessions == [] then 0
    else Load(sessions[..|sessions| - 1]) + Burden(sessions[|sessions| - 1])
  }

  lemma {:induction false} LoadSet(sessions: seq<Session>, i: nat, x: Session)
    requires i < |sessions|
    ensures Load(sessions[i := x]) == Load(sessions) - Burden(sessions[i]) + Burden(x)
  {
    var n := |sessions| - 1;
    if i < n {
      assert sessions[i := x][..n] == sessions[..n][i := x];
      LoadSet(sessions[..n], i, x);
    } else {
      assert sessions[i := x][..n] == sessions[..n];
    }
  }

  lemma LoadInsert(sessions: seq<Session>, x: Session)
    ensures Load(sessions + [x]) == Load(sessions) + Burden(x)
  {
    assert (sessions + [x])[..|sessions|] == sessions;
  }

  function Way(a: Acceptor): nat {
    match a
    case Accepted => 11
    case Counting(Some(_)) => 3
    case Accepting => 2
    case Rejecting(_) => 2
    case Deciding(_) => 2
    case LoopTest => 0
    case _ => 1
  }

  // Nobody is in the map and the accept loop is about to accept.
  predicate Clear(s: State) {
    s.acceptor == LoopTest && forall j :: 0 <= j < |s.sessions| ==> !s.sessions[j].listed
  }

  predicate Able(s: State) {
    Inv(s) && !s.multi && s.isWork && Accepts(s) && NoneStays(s)
  }

  // The reader of a listed session that is not in hand goes on towards its end.
  lemma ReaderClears(s: State, j: nat)
    requires Able(s) && j < |s.sessions| && s.sessions[j].listed && !InHand(s.acceptor, j)
    ensures var step := ReaderStep(j);
      Next(s, step).Some? &&
      var s' := Next(s, step).value;
      s' == s.(sessions := s.sessions[j := s'.sessions[j]]) && !Lasting(s'.sessions[j]) &&
      Burden(s'.sessions[j]) < Burden(s.sessions[j])
  {
    assert !Stays(s, j);
    assert SessionInv(s.sessions[j], s.main, s.acceptor == Launching(j), WorkedOn(s, j));
  }

  // Only the newcomer, if anybody, is in the map: it is the last.
  lemma OnlyNewcomer(s: State, i: nat)
    requires i == |s.sessions| - 1
    requires forall j :: 0 <= j < i ==> !s.sessions[j].listed
    ensures Count(s.sessions) <= 1
  {
    var rest := s.sessions[..i];
    assert forall j :: 0 <= j < i ==> rest[j] == s.sessions[j];
    CountZero(rest);
  }

  // The accept loop's way to the next client: a newcomer is turned away with a socket error, if
  // at all, and a waiting accept fails.
  predicate Nearer(s: State, s': State) {
    s'.isWork && Accepts(s') && NoneStays(s') &&
    Way(s'.acceptor) + Load(s'.sessions) < Way(s.acceptor) + Load(s.sessions)
  }

  lemma CountingClears(s: State)
    requires Able(s) && s.acceptor.Counting?
    requires forall j :: 0 <= j < |s.sessions| && s.sessions[j].listed ==> InHand(s.acceptor, j)
    ensures Nearer(s, Accept(s, false).value)
  {
    var s' := Accept(s, false).value;
    if s.acceptor.i.Some? {
      OnlyNewcomer(s, s.acceptor.i.value);
    } else {
      CountZero(s.sessions);
    }
    forall j | 0 <= j < |s'.sessions| ensures !Stays(s', j) {
      assert !Stays(s, j);
    }
  }

  lemma InsertLeavesNone(s: State)
    requires AcceptorAt(s) && NoneStays(s) && s.acceptor == Accepted
    ensures NoneStays(Accept(s, false).value)
  {
    var s' := Accept(s, false).value;
    forall j | 0 <= j < |s'.sessions| ensures !Stays(s', j) {
      if j < |s.sessions| {
        assert !Stays(s, j) && s'.sessions[j] == s.sessions[j];
      }
    }
  }

  lemma InsertClears(s: State)
    requires Able(s) && s.acceptor == Accepted
    ensures Nearer(s, Accept(s, false).value)
  {
    LoadInsert(s.sessions, Session(true, false, true, false, Unlaunched));
    InsertLeavesNone(s);
  }

  lemma ReleaseClears(s: State)
    requires Able(s) && (s.acceptor.Dropping? || s.acceptor.Launching?)
    ensures Nearer(s, Accept(s, false).value)
  {
    var s', i := Accept(s, false).value, s.acceptor.k;
    LoadSet(s.sessions, i, s'.sessions[i]);
    forall j | 0 <= j < |s'.sessions| ensures !Stays(s', j) {
      assert !Stays(s, j);
    }
  }

  lemma LookClears(s: State)
    requires Able(s)
    requires s.acceptor == Queued || s.acceptor == Accepting || s.acceptor.Rejecting? || s.acceptor.Deciding?
    ensures Nearer(s, Accept(s, false).value)
  {
    var s' := Accept(s, false).value;
    forall j | 0 <= j < |s'.sessions| ensures !Stays(s', j) {
      assert !Stays(s, j);
    }
  }

  lemma AcceptorClears(s: State)
    requires Able(s) && s.acceptor != LoopTest
    requires forall j :: 0 <= j < |s.sessions| && s.sessions[j].listed ==> InHand(s.acceptor, j)
    ensures Accept(s, false).Some? && Nearer(s, Accept(s, false).value)
  {
    if s.acceptor.Counting? {
      CountingClears(s);
    } else if s.acceptor == Accepted {
      InsertClears(s);
    } else if s.acceptor.Dropping? || s.acceptor.Launching? {
      ReleaseClears(s);
    } else {
      LookClears(s);
    }
  }

  lemma ReaderIsNearer(s: State, j: nat)
    requires Able(s) && j < |s.sessions| && s.sessions[j].listed && !InHand(s.acceptor, j)
    ensures Next(s, ReaderStep(j)).Some? && Nearer(s, Next(s, ReaderStep(j)).value)
  {
    ReaderClears(s, j);
    var s' := Next(s, ReaderStep(j)).value;
    LoadSet(s.sessions, j, s'.sessions[j]);
    assert s.acceptor.Rejecting? ==> s.acceptor.k != j;
    forall k | 0 <= k < |s'.sessions| ensures !Stays(s', k) {
      assert !Stays(s, k);
    }
  }

  // ----- and then one client is admitted -----

  lemma ServesBy(s: State, step: Step, n: nat)
    requires Next(s, step).Some? && Unattended([step]) && CanServe(Next(s, step).value, n)
    ensures CanServe(s, n)
  {
    var s' := Next(s, step).value;
    var more :| Unattended(more) && Run(s', more).Some? && Reads(Run(s', more).value, n);
    var steps := [step] + more;
    assert steps[1..] == more;
    assert [step][0] == step;
    assert Unattended(steps);
  }

  lemma AloneBy(s: State, step: Step, n: nat)
    requires Next(s, step).Some? && Alone([step], n) && CanServeAlone(Next(s, step).value, n)
    ensures CanServeAlone(s, n)
  {
    var s' := Next(s, step).value;
    var more :| Alone(more, n) && Run(s', more).Some? && Reads(Run(s', more).value, n);
    var steps := [step] + more;
    assert steps[1..] == more;
    assert [step][0] == step;
    assert Alone(steps, n);
  }

  lemma AloneServes(s: State, n: nat)
    requires CanServeAlone(s, n)
    ensures CanServe(s, n)
  {
    var steps :| Alone(steps, n) && Run(s, steps).Some? && Reads(Run(s, steps).value, n);
    assert Unattended(steps);
  }

  lemma ReadsServes(s: State, n: nat)
    requires Reads(s, n)
    ensures CanServeAlone(s, n)
  {
    assert Run(s, []) == Some(s) && Alone([], n);
  }

  // The state with one more session, which nobody else touches.
  function Joined(s: State, a: Acceptor, r: Reader): State {
    s.(acceptor := a, sessions := s.sessions + [Session(true, false, true, false, r)])
  }

  predicate Joins(r: Reader, r': Reader) {
    (r == Starting && r' == AtHead) || (r == AtHead && r' == Entering) || (r == Entering && r' == Blocked)
  }

  lemma ReaderJoined(s: State, r: Reader, r': Reader)
    requires s.isWork && Joins(r, r')
    ensures Next(Joined(s, LoopTest, r), ReaderStep(|s.sessions|)) == Some(Joined(s, LoopTest, r'))
  {
    var x, x' := Session(true, false, true, false, r), Session(true, false, true, false, r');
    assert (s.sessions + [x])[|s.sessions| := x'] == s.sessions + [x'];
  }

  lemma ReaderIsServed(s: State, n: nat)
    requires s.isWork && n <= |s.sessions|
    ensures CanServeAlone(Joined(s, LoopTest, Starting), n)
  {
    var k := |s.sessions|;
    ReaderJoined(s, Starting, AtHead);
    ReaderJoined(s, AtHead, Entering);
    ReaderJoined(s, Entering, Blocked);
    assert Joined(s, LoopTest, Blocked).sessions[k].reader == Blocked;
    ReadsServes(Joined(s, LoopTest, Blocked), n);
    AloneBy(Joined(s, LoopTest, Entering), ReaderStep(k), n);
    AloneBy(Joined(s, LoopTest, AtHead), ReaderStep(k), n);
    AloneBy(Joined(s, LoopTest, Starting), ReaderStep(k), n);
  }

  lemma NewcomerIsLaunched(s: State)
    ensures var k := |s.sessions|;
      Accept(Joined(s, Launching(k), Unlaunched), true) == Some(Joined(s, LoopTest, Starting))
  {
    var x, y := Session(true, false, true, false, Unlaunched), Session(true, false, true, false, Starting);
    assert (s.sessions + [x])[|s.sessions| := y] == s.sessions + [y];
  }

  lemma NewcomerIsServed(s: State, n: nat)
    requires s.isWork && n <= |s.sessions| && (s.multi || Count(s.sessions) == 0)
    ensures CanServeAlone(Joined(s, Counting(Some(|s.sessions|)), Unlaunched), n)
  {
    var k, x := |s.sessions|, Session(true, false, true, false, Unlaunched);
    var a := AcceptorStep(true);
    CountInsert(s.sessions, x);
    ReaderIsServed(s, n);
    NewcomerIsLaunched(s);
    AloneBy(Joined(s, Launching(k), Unlaunched), a, n);
    AloneBy(Joined(s, Deciding(k), Unlaunched), a, n);
    AloneBy(Joined(s, Counting(Some(k)), Unlaunched), a, n);
  }

  lemma LoopTestServes(s: State, n: nat)
    requires s.isWork && s.acceptorOpen && s.acceptor == LoopTest && n <= |s.sessions|
    requires s.multi || Count(s.sessions) == 0
    ensures CanServeAlone(s, n)
  {
    var a := AcceptorStep(true);
    NewcomerIsServed(s, n);
    AloneBy(s.(acceptor := Accepted), a, n);
    AloneBy(s.(acceptor := Accepting), a, n);
    AloneBy(s, a, n);
  }

  lemma ClearServes(s: State, n: nat)
    requires Inv(s) && s.isWork && Clear(s) && n <= |s.sessions|
    ensures CanServe(s, n)
  {
    CountZero(s.sessions);
    LoopTestServes(s, n);
    AloneServes(s, n);
  }

  // With many clients the accept loop comes back to its test by itself.
  lemma ComesBack(s: State)
    requires Inv(s) && s.multi && s.isWork && s.acceptor != Ended && s.acceptor != LoopTest
    ensures Accept(s, false).Some?
    ensures var s' := Accept(s, false).value;
      s'.isWork && s'.acceptor != Ended && Way(s'.acceptor) < Way(s.acceptor) && |s.sessions| <= |s'.sessions|
  {}

  lemma {:induction false} ManyAreServed(s: State, n: nat)
    requires Inv(s) && s.multi && s.isWork && s.acceptor != Ended && n <= |s.sessions|
    ensures CanServeAlone(s, n)
    decreases Way(s.acceptor)
  {
    if s.acceptor == LoopTest {
      LoopTestServes(s, n);
    } else {
      ComesBack(s);
      StepKeepsInv(s, AcceptorStep(false));
      StepKeepsMode(s, AcceptorStep(false));
      ManyAreServed(Accept(s, false).value, n);
      AloneBy(s, AcceptorStep(false), n);
    }
  }

  lemma SessionsStay(s: State, step: Step)
    requires Next(s, step).Some?
    ensures |s.sessions| <= |Next(s, step).value.sessions|
  {
    if !step.AcceptorStep? {
      OtherStepsFade(s, step);
    }
  }

  lemma {:induction false} AbleServes(s: State, n: nat)
    requires Able(s) && n <= |s.sessions|
    ensures CanServe(s, n)
    decreases Way(s.acceptor) + Load(s.sessions)
  {
    if Clear(s) {
      ClearServes(s, n);
    } else {
      var step := AcceptorStep(false);
      if j :| 0 <= j < |s.sessions| && s.sessions[j].listed && !InHand(s.acceptor, j) {
        step := ReaderStep(j);
        ReaderIsNearer(s, j);
      } else {
        AcceptorClears(s);
      }
      StepKeepsInv(s, step);
      StepKeepsMode(s, step);
      SessionsStay(s, step);
      AbleServes(Next(s, step).value, n);
      ServesBy(s, step, n);
    }
  }

  // ----- the condition -----

  // An accept loop that has come to its end admits nobody.
  lemma {:induction false} NobodyIsAdmitted(s: State, steps: seq<Step>)
    requires AcceptorAt(s) && !Accepts(s) && Unattended(steps) && Run(s, steps).Some?
    ensures |Run(s, steps).value.sessions| == |s.sessions|
    decreases steps
  {
    if steps != [] {
      var s' := Next(s, steps[0]).value;
      if !steps[0].AcceptorStep? {
        OtherStepsFade(s, steps[0]);
      }
      NobodyIsAdmitted(s', steps[1..]);
    }
  }

  lemma UnattendedIsSafe(steps: seq<Step>, j: nat)
    requires Unattended(steps)
    ensures WriteFails(j) !in steps && Disconnect(j, true) !in steps && MainStep !in steps
  {}

  // Left to its clients, the server for one client can still read from somebody who connects later if and only
  // if the accept loop goes on and no session stays in the map.
  lemma OneClientService(s: State)
    requires Inv(s) && !s.multi && s.isWork
    ensures CanServe(s, |s.sessions|) <==> Accepts(s) && NoneStays(s)
  {
    var n := |s.sessions|;
    if Accepts(s) && NoneStays(s) {
      AbleServes(s, n);
    } else if CanServe(s, n) {
      var steps :| Unattended(steps) && Run(s, steps).Some? && Reads(Run(s, steps).value, n);
      if !Accepts(s) {
        NobodyIsAdmitted(s, steps);
      } else {
        var j :| 0 <= j < |s.sessions| && Stays(s, j);
        UnattendedIsSafe(steps, j);
        RunKeepsUnread(s, steps, j, n);
      }
    }
  }

  // The server for many clients can read from somebody new, whoever is in the map and without
  // anything of theirs, if and only if the accept loop goes on.
  lemma ManyClientsService(s: State)
    requires Inv(s) && s.multi && s.isWork
    ensures CanServeAlone(s, |s.sessions|) <==> s.acceptor != Ended
    ensures CanServe(s, |s.sessions|) <==> s.acceptor != Ended
  {
    var n := |s.sessions|;
    if s.acceptor != Ended {
      ManyAreServed(s, n);
      AloneServes(s, n);
    } else {
      if CanServeAlone(s, n) {
        AloneServes(s, n);
      }
      if CanServe(s, n) {
        var steps :| Unattended(steps) && Run(s, steps).Some? && Reads(Run(s, steps).value, n);
        NobodyIsAdmitted(s, steps);
      }
    }
  }

  // In every state of a working server.
  lemma ServiceCondition(s: State)
    requires Inv(s) && s.isWork
    ensures CanServe(s, |s.sessions|) <==>
      if s.multi then s.acceptor != Ended else Accepts(s) && NoneStays(s)
  {
    if s.multi {
      ManyClientsService(s);
    } else {
      OneClientService(s);
    }
  }

  // ----- what makes a session stay -----

  // While the server works there are three causes: a rejection, an exception that leaves `read`,
  // and a clean disconnect by the server's own user.
  predicate Cause(s: State, step: Step, j: nat) {
    (step.AcceptorStep? && s.acceptor == Dropping(j)) || step == ReaderThrow(j) ||
    (step == MainStep && s.job == Some(Job(j, Close, false)))
  }

  lemma AcceptCauses(s: State, ok: bool, j: nat)
    requires AcceptorAt(s) && s.isWork && Accept(s, ok).Some? && j < |s.sessions|
    requires !Stays(s, j) && Stays(Accept(s, ok).value, j)
    ensures s.acceptor == Dropping(j)
  {
    AcceptHandsOn(s, ok, j);
    if s.acceptor != Launching(j) && s.acceptor != Dropping(j) {
      AcceptTouches(s, ok, j);
    }
  }

  lemma ReadCauses(s: State, j: nat, end: ReadEnd)
    requires Inv(s) && s.isWork && j < |s.sessions| && Read(s, j, end).Some?
    requires !Stays(s, j) && Stays(Read(s, j, end).value, j)
    ensures end == Throws
  {
    assert SessionInv(s.sessions[j], s.main, s.acceptor == Launching(j), WorkedOn(s, j));
  }

  lemma WorkCauses(s: State, j: nat)
    requires Inv(s) && s.job.Some? && Work(s, s.job.value).Some? && j < |s.sessions|
    requires !Stays(s, j) && Stays(Work(s, s.job.value).value, j)
    ensures s.job == Some(Job(j, Close, false))
  {}

  lemma OtherReaders(s: State, i: nat, end: ReadEnd, j: nat)
    requires i < |s.sessions| && Read(s, i, end).Some? && j != i && j < |s.sessions|
    ensures Stays(Read(s, i, end).value, j) == Stays(s, j)
  {}

  lemma OnlyCauses(s: State, step: Step, j: nat)
    requires Inv(s) && s.isWork && Next(s, step).Some? && j < |s.sessions|
    requires !Stays(s, j) && Stays(Next(s, step).value, j)
    ensures Cause(s, step, j)
  {
    match step
    case AcceptorStep(ok) => AcceptCauses(s, ok, j);
    case ReaderStep(i) => if i == j { ReadCauses(s, j, Fails); } else { OtherReaders(s, i, Fails, j); }
    case ReaderMessage(i) => if i == j { ReadCauses(s, j, Goes); } else { OtherReaders(s, i, Goes, j); }
    case ReaderThrow(i) => if i != j { OtherReaders(s, i, Throws, j); }
    case MainStep => if s.job.Some? { WorkCauses(s, j); } else { CallSessions(s); }
    case WriteFails(_) =>
    case Disconnect(_, _) =>
  }

  // A rejection without a socket error of a session still in the map is a cause.
  lemma TurnedAwayStays(s: State)
    requires Inv(s) && s.acceptor.Dropping? && s.sessions[s.acceptor.k].listed
    ensures Stays(Accept(s, true).value, s.acceptor.k)
  {}

  // So is an exception in the reader of a session in the map.
  lemma ThrownStays(s: State, j: nat)
    requires Inv(s) && Next(s, ReaderThrow(j)).Some? && s.sessions[j].listed
    ensures Stays(Next(s, ReaderThrow(j)).value, j)
  {}

  // And a disconnect of a session whose reader is not in the middle of a read.
  lemma DisconnectedStays(s: State, j: nat)
    requires s.job == Some(Job(j, Close, false)) && j < |s.sessions| && s.sessions[j].listed
    requires s.sessions[j].reader != Blocked && s.sessions[j].reader != Checking && s.sessions[j].reader != Erasing
    ensures Stays(Next(s, MainStep).value, j)
  {}

  // ----- runs from the start to each of them -----

  ghost predicate LockedOut(t: State) {
    Leads(Init(false), t) && t.isWork && Accepts(t) && !CanServe(t, |t.sessions|)
  }

  lemma StaysLocksOut(t: State, j: nat)
    requires Leads(Init(false), t) && !t.multi && t.isWork && Accepts(t) && Stays(t, j)
    ensures LockedOut(t)
  {
    LeadsKeepInv(t);
    ServiceCondition(t);
  }

  function ServedAt(open: bool, r: Reader): State {
    AtWork([Session(open, false, true, false, r)], LoopTest)
  }

  lemma ReaderOfServed(r: Reader, r': Reader, t: State)
    requires Joins(r, r') && Leads(ServedAt(true, r'), t)
    ensures Leads(ServedAt(true, r), t)
  {
    ReaderJoined(AtWork([], LoopTest), r, r');
    assert [] + [Session(true, false, true, false, r)] == [Session(true, false, true, false, r)];
    assert [] + [Session(true, false, true, false, r')] == [Session(true, false, true, false, r')];
    LeadsBy(ServedAt(true, r), ReaderStep(0), t);
  }

  // One client is served, another is turned away.
  lemma RejectionLocksOut()
    ensures LockedOut(AtWork([SERVED, TURNED_AWAY], LoopTest))
  {
    var t := AtWork([SERVED, TURNED_AWAY], LoopTest);
    LeadsNowhere(t);
    SecondIsTurnedAway(t);
    OneIsServed(t);
    StaysLocksOut(t, 1);
  }

  // The only client sends an object without `type`: its reader ends, its session stays.
  lemma ExceptionLocksOut()
    ensures LockedOut(ServedAt(true, Done))
  {
    var t := ServedAt(true, Done);
    LeadsNowhere(t);
    assert t.sessions == [Session(true, false, true, false, Blocked)][0 := Session(true, false, true, false, Done)];
    LeadsBy(ServedAt(true, Blocked), ReaderThrow(0), t);
    ReaderOfServed(Entering, Blocked, t);
    ReaderOfServed(AtHead, Entering, t);
    ReaderOfServed(Starting, AtHead, t);
    OneIsServed(t);
    StaysLocksOut(t, 0);
  }

  // The only client is disconnected between two reads: its reader spins, its session stays.
  lemma DisconnectLocksOut()
    ensures LockedOut(ServedAt(false, AtHead))
  {
    var t, s := ServedAt(false, AtHead), ServedAt(true, AtHead);
    LeadsNowhere(t);
    assert t.sessions == s.sessions[0 := t.sessions[0]];
    LeadsBy(s.(job := Some(Job(0, Close, false))), MainStep, t);
    LeadsBy(s, Disconnect(0, false), t);
    ReaderOfServed(Starting, AtHead, t);
    OneIsServed(t);
    StaysLocksOut(t, 0);
  }
}
