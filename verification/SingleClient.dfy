/** The server for one client at a time: `multiConnect == false`. */
module SingleClient {
  import opened Wrappers
  import opened ServerProtocol
  import opened Shutdown

  predicate Live(x: Session) {
    x.listed && x.open
  }

  // The session the accept loop has just put in the map and not yet accepted or rejected.
  predicate Newcomer(a: Acceptor, i: nat) {
    a == Counting(Some(i)) || a == Rejecting(i) || a == Dropping(i)
  }

  // Of two live sessions the later is the newcomer.
  predicate OneLive(s: State) {
    forall i, j :: 0 <= i < j < |s.sessions| && Live(s.sessions[i]) && Live(s.sessions[j]) ==>
      Newcomer(s.acceptor, j)
  }

  lemma {:induction false} CountBounds(sessions: seq<Session>, i: nat, j: nat)
    requires j < |sessions| && sessions[j].listed
    ensures Count(sessions) >= 1
    ensures i < j && sessions[i].listed ==> Count(sessions) >= 2
  {
    var n := |sessions| - 1;
    if j < n {
      CountBounds(sessions[..n], i, j);
    } else if i < j && sessions[i].listed {
      CountBounds(sessions[..n], 0, i);
    }
  }

  // Nothing in the map is added or opened.
  predicate Fades(a: seq<Session>, b: seq<Session>) {
    |a| == |b| &&
    forall k :: 0 <= k < |a| ==> (b[k].listed ==> a[k].listed) && (b[k].open ==> a[k].open)
  }

  lemma ReadFades(x: Session, isWork: bool, end: ReadEnd)
    requires ReadSession(x, isWork, end).Some?
    ensures Fades([x], [ReadSession(x, isWork, end).value])
  {}

  lemma SetFades(sessions: seq<Session>, i: nat, x: Session)
    requires i < |sessions| && Fades([sessions[i]], [x])
    ensures Fades(sessions, sessions[i := x])
  {
    assert [sessions[i]][0] == sessions[i] && [x][0] == x;
  }

  lemma WorkFades(s: State, job: Job)
    requires Work(s, job).Some?
    ensures Fades(s.sessions, Work(s, job).value.sessions)
  {}

  lemma CallFades(s: State)
    requires Call(s).Some?
    ensures Fades(s.sessions, Call(s).value.sessions)
  {
    CallSessions(s);
  }

  // Only the accept loop adds sessions.
  lemma OtherStepsFade(s: State, step: Step)
    requires !step.AcceptorStep? && Next(s, step).Some?
    ensures Fades(s.sessions, Next(s, step).value.sessions) && Next(s, step).value.acceptor == s.acceptor
    ensures Next(s, step).value.multi == s.multi
  {
    match step
    case ReaderStep(i) =>
      ReadFades(s.sessions[i], s.isWork, Fails);
      SetFades(s.sessions, i, ReadSession(s.sessions[i], s.isWork, Fails).value);
    case ReaderMessage(i) =>
      ReadFades(s.sessions[i], s.isWork, Goes);
      SetFades(s.sessions, i, ReadSession(s.sessions[i], s.isWork, Goes).value);
    case ReaderThrow(i) =>
      ReadFades(s.sessions[i], s.isWork, Throws);
      SetFades(s.sessions, i, ReadSession(s.sessions[i], s.isWork, Throws).value);
    case MainStep => if s.job.Some? { WorkFades(s, s.job.value); } else { CallFades(s); }
    case WriteFails(_) =>
    case Disconnect(i, _) => SetFades(s.sessions, i, s.sessions[i].(pending := false));
  }

  lemma FadingKeepsOneLive(s: State, s': State)
    requires OneLive(s) && Fades(s.sessions, s'.sessions)
    requires forall k :: 0 <= k < |s.sessions| && Newcomer(s.acceptor, k) && Live(s'.sessions[k]) ==>
      Newcomer(s'.acceptor, k)
    ensures OneLive(s')
  {}

  lemma InsertKeepsOneLive(s: State)
    requires OneLive(s) && s.acceptor == Accepted
    ensures OneLive(Accept(s, true).value)
  {
    var s' := Accept(s, true).value;
    assert forall k :: 0 <= k < |s.sessions| ==> s'.sessions[k] == s.sessions[k];
  }

  // The newcomer is kept only if it is alone.
  lemma AloneKeepsOneLive(s: State)
    requires OneLive(s) && Count(s.sessions) <= 1
    ensures forall i, j :: 0 <= i < j < |s.sessions| ==> !Live(s.sessions[i]) || !Live(s.sessions[j])
  {
    forall i, j | 0 <= i < j < |s.sessions| && Live(s.sessions[i]) && Live(s.sessions[j]) ensures false {
      CountBounds(s.sessions, i, j);
    }
  }

  // Every other step of the accept loop, and what it leaves of the newcomer.
  lemma JudgingFades(s: State, ok: bool)
    requires AcceptorAt(s) && !s.multi && s.acceptor != Accepted && Accept(s, ok).Some?
    requires s.acceptor.Counting? && s.acceptor.i.Some? ==> Count(s.sessions) > 1
    ensures var s' := Accept(s, ok).value;
      Fades(s.sessions, s'.sessions) &&
      forall k :: 0 <= k < |s.sessions| && Newcomer(s.acceptor, k) && Live(s'.sessions[k]) ==> Newcomer(s'.acceptor, k)
  {}

  lemma AcceptKeepsOneLive(s: State, ok: bool)
    requires Inv(s) && !s.multi && OneLive(s) && Accept(s, ok).Some?
    ensures OneLive(Accept(s, ok).value)
  {
    if s.acceptor == Accepted {
      InsertKeepsOneLive(s);
    } else if s.acceptor.Counting? && s.acceptor.i.Some? && Count(s.sessions) <= 1 {
      AloneKeepsOneLive(s);
    } else {
      JudgingFades(s, ok);
      FadingKeepsOneLive(s, Accept(s, ok).value);
    }
  }

  lemma {:induction false} RunKeepsOneLive(s: State, steps: seq<Step>)
    requires Inv(s) && !s.multi && OneLive(s) && Run(s, steps).Some?
    ensures OneLive(Run(s, steps).value)
    decreases steps
  {
    if steps != [] {
      StepKeepsInv(s, steps[0]);
      if steps[0].AcceptorStep? {
        AcceptKeepsOneLive(s, steps[0].ok);
      } else {
        OtherStepsFade(s, steps[0]);
        FadingKeepsOneLive(s, Next(s, steps[0]).value);
      }
      RunKeepsOneLive(Next(s, steps[0]).value, steps[1..]);
    }
  }

  // At the head of the accept loop, and whenever no newcomer is being judged, at most one
  // session of the map has an open socket, whatever closed sessions the map still holds.
  lemma AtMostOneClient(steps: seq<Step>)
    requires Run(Init(false), steps).Some?
    ensures var s := Run(Init(false), steps).value;
      (forall k :: !Newcomer(s.acceptor, k)) ==>
      forall i, j :: 0 <= i < |s.sessions| && 0 <= j < |s.sessions| && Live(s.sessions[i]) && Live(s.sessions[j]) ==>
        i == j
  {
    RunKeepsOneLive(Init(false), steps);
  }

  lemma AcceptSpares(s: State, ok: bool, i: nat)
    requires AcceptorInv(s) && i < |s.sessions| && Accept(s, ok).Some?
    ensures var x, x' := s.sessions[i], Accept(s, ok).value.sessions[i];
      x'.open != x.open || x'.listed != x.listed || x'.critical != x.critical ==>
        i == |s.sessions| - 1 && x.reader == Unlaunched && !s.multi
  {}

  // The accept loop closes or unlists nobody but the newest session, which has no reader yet:
  // it is the newcomer that is turned away, not the client being served.
  lemma NewcomerIsTurnedAway(multi: bool, steps: seq<Step>, ok: bool, i: nat)
    requires Run(Init(multi), steps).Some? && i < |Run(Init(multi), steps).value.sessions|
    requires Accept(Run(Init(multi), steps).value, ok).Some?
    ensures var s := Run(Init(multi), steps).value;
      var x, x' := s.sessions[i], Accept(s, ok).value.sessions[i];
      x'.open != x.open || x'.listed != x.listed || x'.critical != x.critical ==>
        i == |s.sessions| - 1 && x.reader == Unlaunched && !s.multi
  {
    RunKeepsInv(Init(multi), steps);
    AcceptSpares(Run(Init(multi), steps).value, ok, i);
  }
}
