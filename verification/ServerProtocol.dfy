/**
 SegmentServer as a protocol: the thread that calls start, write, disconnect and stop, the
 accept loop in the main worker, and one reader per accepted session, interleaved in steps.
 Sessions are numbered in the order they enter the map; `listed` says whether the map still
 holds one.
 */
module ServerProtocol {
  import opened Wrappers

  // A reader's place in `sessionWork`.  Checking to Closing are the steps of a failed read or
  // write: look the session up, erase it, set the error flag, close the socket.
  datatype Reader =
    | Unlaunched
    | Starting   // the task is queued
    | AtHead     // at the loop test
    | Entering   // before `socket->is_open()` in `Session::read`
    | Blocked    // in the transport read
    | Checking
    | Erasing
    | Flagging
    | Closing
    | Done

  // `pending`: in the copy of the map that `stop` is still to disconnect.
  datatype Session = Session(open: bool, critical: bool, listed: bool, pending: bool, reader: Reader)

  // The accept loop.  Counting(Some(i)): session i is in the map; Counting(None): accept failed.
  datatype Acceptor =
    | Queued
    | LoopTest
    | Accepting
    | Accepted
    | Counting(i: Option<nat>)
    | Rejecting(k: nat)
    | Dropping(k: nat)
    | Deciding(k: nat)
    | Launching(k: nat)
    | Ended
    | Crashed    // `disconnect` called through a null session

  datatype Main =
    | Preparing
    | Serving
    | ClosingAcceptor   // `isWork` is false
    | Copying
    | CountingSessions
    | Disconnecting
    | JoiningAcceptor
    | JoiningReaders(n: nat)
    | Stopped

  // What the calling thread is doing to session `i`: a failed write, or a disconnect.
  datatype Stage = Check | Erase | Flag | Close
  datatype Job = Job(i: nat, stage: Stage, failed: bool)

  datatype State = State(
    multi: bool, isWork: bool, acceptorOpen: bool, sessions: seq<Session>,
    acceptor: Acceptor, main: Main, job: Option<Job>)

  datatype Step =
    // the accept loop
    | AcceptorStep(ok: bool)          // `ok` matters when an accept ends and when a socket is closed
    // reader i
    | ReaderStep(i: nat)
    | ReaderMessage(i: nat)           // a read that leaves the session alive
    | ReaderThrow(i: nat)             // a read that throws
    // the calling thread
    | MainStep
    | WriteFails(i: nat)
    | Disconnect(i: nat, faulty: bool)

  function Count(sessions: seq<Session>): nat {
    if sessions == [] then 0
    else Count(sessions[..|sessions| - 1]) + if sessions[|sessions| - 1].listed then 1 else 0
  }

  function Init(multi: bool): State {
    State(multi, false, true, [], Queued, Preparing, None)
  }

  function Set(s: State, i: nat, x: Session): State
    requires i < |s.sessions|
  {
    s.(sessions := s.sessions[i := x])
  }

  function Accept(s: State, ok: bool): Option<State> {
    match s.acceptor
    case Queued => Some(s.(acceptor := LoopTest))
    case LoopTest => Some(s.(acceptor := if s.isWork then Accepting else Ended))
    case Accepting =>
      if ok then if s.acceptorOpen then Some(s.(acceptor := Accepted)) else None
      else Some(s.(acceptor := Counting(None)))
    case Accepted =>
      Some(s.(sessions := s.sessions + [Session(true, false, true, false, Unlaunched)],
              acceptor := Counting(Some(|s.sessions|))))
    case Counting(Some(i)) =>
      Some(s.(acceptor := if !s.multi && Count(s.sessions) > 1 then Rejecting(i) else Deciding(i)))
    case Counting(None) =>
      // without a session the worker started here would end at once
      Some(s.(acceptor := if !s.multi && Count(s.sessions) > 1 then Crashed else LoopTest))
    case Rejecting(i) =>
      if i >= |s.sessions| then None
      else Some(s.(acceptor := if s.sessions[i].listed then Dropping(i) else Crashed))
    case Dropping(i) =>
      if i >= |s.sessions| then None
      else
        var x := s.sessions[i];
        Some(Set(s, i, x.(open := false, listed := x.listed && (ok || !x.open))).(acceptor := LoopTest))
    case Deciding(i) => Some(s.(acceptor := if s.isWork then Launching(i) else LoopTest))
    case Launching(i) =>
      if i >= |s.sessions| then None
      else Some(Set(s, i, s.sessions[i].(reader := Starting)).(acceptor := LoopTest))
    case Ended => None
    case Crashed => None
  }

  // `end`: how the blocked read ends, when it does.
  datatype ReadEnd = Fails | Goes | Throws

  // One step of a reader, for its own session.
  function ReadSession(x: Session, isWork: bool, end: ReadEnd): Option<Session> {
    match x.reader
    case Unlaunched => None
    case Starting => Some(x.(reader := if x.listed then AtHead else Done))
    case AtHead => Some(x.(reader := if isWork && !x.critical then Entering else Done))
    case Entering => Some(x.(reader := if x.open then Blocked else AtHead))
    case Blocked =>
      if end == Fails then Some(x.(reader := Checking))
      else if !x.open then None
      else Some(x.(reader := if end == Goes then AtHead else Done))
    case Checking => Some(x.(reader := if x.listed then Erasing else Flagging))
    case Erasing => Some(x.(listed := false, reader := Flagging))
    case Flagging => Some(x.(critical := true, reader := Closing))
    case Closing => Some(x.(open := false, reader := AtHead))
    case Done => None
  }

  function Read(s: State, i: nat, end: ReadEnd): Option<State>
    requires i < |s.sessions|
  {
    match ReadSession(s.sessions[i], s.isWork, end)
    case Some(x) => Some(Set(s, i, x))
    case None => None
  }

  // One step of a failed write or of a disconnect by the calling thread.
  function WorkSession(x: Session, job: Job): (Session, Option<Job>) {
    match job.stage
    case Check => (x, Some(job.(stage := if x.listed then Erase else if job.failed then Flag else Close)))
    case Erase => (x.(listed := false), Some(job.(stage := if job.failed then Flag else Close)))
    case Flag => (x.(critical := true), Some(job.(stage := Close)))
    case Close => (x.(open := false), None)
  }

  function Work(s: State, job: Job): Option<State> {
    if job.i >= |s.sessions| then None else
    var (x, rest) := WorkSession(s.sessions[job.i], job);
    Some(Set(s, job.i, x).(job := rest))
  }

  // `Session::disconnect`: nothing on a closed socket; a faulty one is reported first.
  function DisconnectJob(s: State, i: nat, faulty: bool): Option<Job>
    requires i < |s.sessions|
  {
    if !s.sessions[i].open then None else Some(Job(i, if faulty then Check else Close, false))
  }

  function CopyMap(sessions: seq<Session>): (r: seq<Session>)
    ensures |r| == |sessions|
    ensures forall k :: 0 <= k < |r| ==> r[k] == sessions[k].(pending := sessions[k].listed)
  {
    seq(|sessions|, k requires 0 <= k < |sessions| => sessions[k].(pending := sessions[k].listed))
  }

  function ClearPending(sessions: seq<Session>): (r: seq<Session>)
    ensures |r| == |sessions|
    ensures forall k :: 0 <= k < |r| ==> r[k] == sessions[k].(pending := false)
  {
    seq(|sessions|, k requires 0 <= k < |sessions| => sessions[k].(pending := false))
  }

  predicate NonePending(sessions: seq<Session>) {
    forall k :: 0 <= k < |sessions| ==> !sessions[k].pending
  }

  predicate AtRest(r: Reader) {
    r == Unlaunched || r == Done
  }

  function Call(s: State): Option<State> {
    match s.main
    case Preparing => Some(s.(isWork := true, main := Serving))
    case Serving => Some(s.(isWork := false, main := ClosingAcceptor))
    case ClosingAcceptor => Some(s.(acceptorOpen := false, main := Copying))
    case Copying => Some(s.(sessions := CopyMap(s.sessions), main := CountingSessions))
    case CountingSessions =>
      if Count(s.sessions) != 0 then Some(s.(main := Disconnecting))
      else Some(s.(sessions := ClearPending(s.sessions), main := JoiningAcceptor))
    case Disconnecting => if NonePending(s.sessions) then Some(s.(main := JoiningAcceptor)) else None
    case JoiningAcceptor => if s.acceptor == Ended then Some(s.(main := JoiningReaders(0))) else None
    case JoiningReaders(n) =>
      if n >= |s.sessions| then Some(s.(main := Stopped))
      else if AtRest(s.sessions[n].reader) then Some(s.(main := JoiningReaders(n + 1)))
      else None
    case Stopped => None
  }

  function Next(s: State, step: Step): Option<State> {
    match step
    case AcceptorStep(ok) => Accept(s, ok)
    case ReaderStep(i) => if i < |s.sessions| then Read(s, i, Fails) else None
    case ReaderMessage(i) =>
      if i < |s.sessions| && s.sessions[i].reader == Blocked then Read(s, i, Goes) else None
    case ReaderThrow(i) =>
      if i < |s.sessions| && s.sessions[i].reader == Blocked then Read(s, i, Throws) else None
    case MainStep => if s.job.Some? then Work(s, s.job.value) else Call(s)
    case WriteFails(i) =>
      if s.main != Serving || s.job.Some? || i >= |s.sessions| || !s.sessions[i].listed then None
      else Some(s.(job := Some(Job(i, Check, true))))
    case Disconnect(i, faulty) =>
      if s.job.Some? || i >= |s.sessions| then None
      else if s.main == Serving && s.sessions[i].listed then Some(s.(job := DisconnectJob(s, i, faulty)))
      else if s.main == Disconnecting && s.sessions[i].pending then
        Some(Set(s, i, s.sessions[i].(pending := false)).(job := DisconnectJob(s, i, faulty)))
      else None
  }

  function Run(s: State, steps: seq<Step>): Option<State>
    decreases steps
  {
    if steps == [] then Some(s)
    else match Next(s, steps[0])
      case Some(s') => Run(s', steps[1..])
      case None => None
  }
}
