/**
 One session over a socket, and the manager that lists sessions by id.  The transport layer
 and the session each classify an error for themselves: the first takes the session off the
 list, the second marks it and closes its socket.
 */
module Sessions {
  import opened Wrappers
  import opened Errors
  import opened JsonText
  import opened Messages
  import opened MessageHandler
  import opened Transport

  // What the outside can tell about a session.
  datatype View = View(open: bool, critical: bool, listed: bool)

  // What happens to one; `faulty`: a disconnect it comes to meets an error of its own.
  datatype Event =
    | Reading(code: ErrorCode, faulty: bool)
    | Writing(code: ErrorCode, faulty: bool)
    | Closing(faulty: bool)

  // A layer's opinion on which codes end a session; neither layer looks further at `Success`.
  type Classifier = ErrorCode -> bool

  // `ConnectHandler::disconnect`: any error of shutdown or close is reported to `onError`.
  function AfterDisconnect(v: View, faulty: bool): View {
    if v.open then View(false, v.critical, v.listed && !faulty) else v
  }

  // First the transport layer, then the session layer, each by its own classification.
  function AfterCode(transport: Classifier, session: Classifier, v: View, ec: ErrorCode, faulty: bool): View {
    if ec == Success then v
    else
      var w := if transport(ec) then v.(listed := false) else v;
      if session(ec) then AfterDisconnect(w.(critical := true), faulty) else w
  }

  function After(transport: Classifier, session: Classifier, v: View, e: Event): View {
    match e
    case Reading(ec, faulty) => if v.open then AfterCode(transport, session, v, ec, faulty) else v
    case Writing(ec, faulty) => AfterCode(transport, session, v, ec, faulty)
    case Closing(faulty) => AfterDisconnect(v, faulty)
  }

  // The two layers as they are: both call `check_error`.
  function AfterEvent(v: View, e: Event): View {
    After(IsCritical, IsCritical, v, e)
  }

  // The code a read's outcome brings to the two layers.
  function CodeOf(o: Outcome): ErrorCode {
    if o.Failed? then o.code else Success
  }

  // What the system reports while a session reads, writes and disconnects.
  datatype Faults = Faults(
    header: Fault, payload: Fault, write: Fault, shutdownError: ErrorCode, closeError: ErrorCode)

  const CALM := Faults(Fault(Success, 0), Fault(Success, 0), Fault(Success, 0), Success, Success)

  predicate Faulty(f: Faults) {
    f.shutdownError != Success || f.closeError != Success
  }

  // What the read callback receives.
  datatype Callback = Callback(code: ErrorCode, message: Option<Message>)

  function CallbackFor(o: Outcome): Option<Callback> {
    match o
    case Delivered(tm) => Some(Callback(Success, ParseMessage(tm)))
    case Failed(ec) => Some(Callback(ec, None))
    case Threw => None
  }

  class SessionManager {
    var sessionMap: map<nat, Session>

    constructor ()
      ensures sessionMap == map[]
    {
      sessionMap := map[];
    }

    method GetSession(id: nat) returns (found: Session?)
      ensures found == null <==> id !in sessionMap
      ensures found != null ==> found == sessionMap[id]
    {
      found := if id in sessionMap then sessionMap[id] else null;
    }

    method RemoveSession(id: nat)
      modifies this
      ensures sessionMap == old(sessionMap) - {id}
    {
      var found := GetSession(id);
      if found == null {
        return;
      }
      sessionMap := sessionMap - {id};
    }

    // `ec` is how the accept ended.
    method AddSession(id: nat, magicNumber: nat, ec: ErrorCode)
      modifies this
      ensures id in old(sessionMap) || ec != Success ==> sessionMap == old(sessionMap)
      ensures id !in old(sessionMap) && ec == Success ==>
        id in sessionMap && fresh(sessionMap[id]) && sessionMap == old(sessionMap)[id := sessionMap[id]] &&
        sessionMap[id].Valid() && sessionMap[id].id == id && sessionMap[id].manager == this &&
        sessionMap[id].State() == View(true, false, true)
    {
      if id in sessionMap {
        return;
      }
      var session := new Session(id, this, magicNumber);
      if ec != Success {
        RemoveSession(id);
      } else {
        sessionMap := sessionMap[id := session];
      }
    }

    method GetSessionCount() returns (n: nat)
      ensures n == |sessionMap|
      ensures n == 0 <==> forall id :: id !in sessionMap
    {
      n := |sessionMap|;
      assert n == |sessionMap.Keys|;
    }
  }

  class Session {
    const id: nat
    const manager: SessionManager
    const socket: Socket
    const transport: TransportHandler
    var criticalError: bool

    constructor (id: nat, manager: SessionManager, magicNumber: nat)
      ensures this.id == id && this.manager == manager && !criticalError
      ensures fresh(socket) && fresh(transport) && Valid() && transport.magicNumber == magicNumber
      ensures socket.open && socket.inbox == [] && socket.outbox == []
    {
      this.id, this.manager, this.criticalError := id, manager, false;
      var s := new Socket();
      socket := s;
      transport := new TransportHandler(s, magicNumber);
    }

    ghost predicate Valid() {
      transport.socket == socket
    }

    ghost function State(): View
      reads this, socket, manager
    {
      View(socket.open, criticalError, id in manager.sessionMap)
    }

    // `onError`, as the manager set it.
    method OnError()
      modifies manager
      ensures manager.sessionMap == old(manager.sessionMap) - {id}
    {
      manager.RemoveSession(id);
    }

    method Disconnect(f: Faults)
      modifies socket`open, manager
      ensures State() == AfterEvent(old(State()), Closing(Faulty(f)))
      ensures manager.sessionMap == old(manager.sessionMap) || manager.sessionMap == old(manager.sessionMap) - {id}
    {
      if !socket.open {
        return;
      }
      if f.shutdownError != Success {
        OnError();
      }
      socket.open := false;
      if f.closeError != Success {
        OnError();
      }
    }

    // `read` in Sync mode: nothing in a closed session; else `outcome` is what the transport
    // read ended with, and `threw` whether an exception leaves `read`.
    method Read(f: Faults) returns (callback: Option<Callback>, threw: bool, ghost outcome: Outcome)
      requires Valid()
      modifies this, socket`inbox, socket`open, manager
      ensures old(socket.open) ==>
        (outcome, socket.inbox) == FaultyRead(transport.magicNumber, old(socket.inbox), f.header, f.payload) &&
        callback == CallbackFor(outcome) && threw == outcome.Threw?
      ensures !old(socket.open) ==> callback == None && !threw && socket.inbox == old(socket.inbox)
      ensures State() == AfterEvent(old(State()), Reading(CodeOf(outcome), Faulty(f)))
      ensures manager.sessionMap == old(manager.sessionMap) || manager.sessionMap == old(manager.sessionMap) - {id}
    {
      outcome := Failed(Success);
      threw := false;
      if !socket.open {
        return None, threw, outcome;
      }
      var read, raised := transport.ReadSync(f.header, f.payload);
      outcome := read;
      if raised {
        OnError();
      }
      match read {
        case Threw => callback, threw := None, true;
        case Delivered(tm) => callback := Some(Callback(Success, ParseMessage(tm)));
        case Failed(ec) =>
          if !IsCritical(ec) {
            // the payload has been cleared: there is no text to parse
            callback := Some(Callback(ec, ParseMessage(TransportMessage("error", Error, []))));
          } else {
            callback := Some(Callback(ec, None));
            criticalError := true;
            Disconnect(f);
          }
      }
    }

    method Write(message: Message, f: Faults)
      requires Valid() && Serializable(message)
      modifies this, socket`outbox, socket`open, manager
      ensures State() ==
        AfterEvent(old(State()), Writing(WriteCode(old(socket.open), f.write), Faulty(f)))
      ensures socket.outbox == old(socket.outbox) +
        Written(old(socket.open), f.write, Frame(transport.magicNumber, SerializeMessage(message).payload))
      ensures manager.sessionMap == old(manager.sessionMap) || manager.sessionMap == old(manager.sessionMap) - {id}
    {
      var tm := SerializeMessage(message);
      var error, raised := transport.WriteSync(tm, f.write);
      if raised {
        OnError();
      }
      if IsCritical(error) {
        criticalError := true;
        Disconnect(f);
      }
    }
  }

  // ----- a session over its whole life -----

  const ACCEPTED := View(true, false, true)

  // The events of a life in order, under any two classifications.
  function AfterAll(transport: Classifier, session: Classifier, es: seq<Event>): View {
    if es == [] then ACCEPTED
    else After(transport, session, AfterAll(transport, session, es[..|es| - 1]), es[|es| - 1])
  }

  // A flag means closed and off the list, and an open session is on the list.
  predicate Agrees(v: View) {
    (v.critical ==> !v.open && !v.listed) && (v.open ==> v.listed)
  }

  ghost predicate SameVerdicts(transport: Classifier, session: Classifier) {
    forall ec :: ec != Success ==> transport(ec) == session(ec)
  }

  lemma {:induction false} LifeAgrees(transport: Classifier, session: Classifier, es: seq<Event>)
    requires SameVerdicts(transport, session)
    ensures Agrees(AfterAll(transport, session, es))
  {
    if es != [] {
      LifeAgrees(transport, session, es[..|es| - 1]);
    }
  }

  // A code the layers disagree on, met in a write, parts flag, list and socket.
  lemma DisagreementShows(transport: Classifier, session: Classifier, ec: ErrorCode)
    requires ec != Success && transport(ec) != session(ec)
    ensures !Agrees(AfterAll(transport, session, [Writing(ec, false)]))
  {
    assert [Writing(ec, false)][..0] == [];
  }

  // Flag, list and socket agree after every life if and only if the two layers, which look at
  // a code independently, judge every error code alike.
  lemma LayersMustAgree(transport: Classifier, session: Classifier)
    ensures SameVerdicts(transport, session) <==> forall es :: Agrees(AfterAll(transport, session, es))
  {
    if SameVerdicts(transport, session) {
      forall es ensures Agrees(AfterAll(transport, session, es)) {
        LifeAgrees(transport, session, es);
      }
    } else {
      var ec :| ec != Success && transport(ec) != session(ec);
      DisagreementShows(transport, session, ec);
    }
  }

  // What was lost by the k-th event is never regained, whatever the classifications.
  lemma {:induction false} LossIsFinal(transport: Classifier, session: Classifier, es: seq<Event>, k: nat)
    requires k <= |es|
    ensures var v, w := AfterAll(transport, session, es[..k]), AfterAll(transport, session, es);
      (w.listed ==> v.listed) && (w.open ==> v.open) && (v.critical ==> w.critical)
  {
    if k == |es| {
      assert es[..k] == es;
    } else {
      var init := es[..|es| - 1];
      assert init[..k] == es[..k];
      LossIsFinal(transport, session, init, k);
    }
  }

  // A layer with this opinion takes the event for the end of the session; a read reaches it
  // only through an open socket.
  predicate Raises(layer: Classifier, v: View, e: Event) {
    match e
    case Reading(ec, _) => v.open && ec != Success && layer(ec)
    case Writing(ec, _) => ec != Success && layer(ec)
    case Closing(_) => false
  }

  // Some event before the n-th did so.
  ghost predicate Raised(layer: Classifier, transport: Classifier, session: Classifier, es: seq<Event>, n: nat)
    requires n <= |es|
  {
    exists k :: 0 <= k < n && Raises(layer, AfterAll(transport, session, es[..k]), es[k])
  }

  // The flag is the session layer's memory: it is set exactly if one event raised an error there.
  lemma {:induction false} FlagRemembers(transport: Classifier, session: Classifier, es: seq<Event>, n: nat)
    requires n <= |es|
    ensures AfterAll(transport, session, es[..n]).critical <==> Raised(session, transport, session, es, n)
  {
    if n != 0 {
      FlagRemembers(transport, session, es, n - 1);
      assert es[..n][..n - 1] == es[..n - 1];
      var v, e := AfterAll(transport, session, es[..n - 1]), es[n - 1];
      assert AfterAll(transport, session, es[..n]) == After(transport, session, v, e);
      assert Raises(session, v, e) ==> Raised(session, transport, session, es, n);
      assert Raised(session, transport, session, es, n) ==>
        Raised(session, transport, session, es, n - 1) || Raises(session, v, e);
    }
  }

  // With like verdicts it is as good a memory of the transport layer's calls of `onError`.
  lemma MarkIffRaised(transport: Classifier, session: Classifier, es: seq<Event>, n: nat)
    requires n <= |es| && SameVerdicts(transport, session)
    ensures AfterAll(transport, session, es[..n]).critical <==> Raised(transport, transport, session, es, n)
  {
    FlagRemembers(transport, session, es, n);
    forall k | 0 <= k < n
      ensures var v := AfterAll(transport, session, es[..k]);
        Raises(transport, v, es[k]) == Raises(session, v, es[k])
    {}
  }

  // The code's own case: a critical code flags the session, closes it and takes it off the
  // list, all three; any other code leaves all three alone.
  lemma CodesDecide(v: View, e: Event)
    requires !e.Closing?
    ensures Raises(IsCritical, v, e) ==> AfterEvent(v, e) == View(false, true, false)
    ensures !Raises(IsCritical, v, e) ==> AfterEvent(v, e) == v
  {}

  // The codes a session outlives, one by one; any other that a read or write reports, such as
  // the end of the connection, its reset, or any other word of the parser, is its end.
  lemma ToleratedCodes(ec: ErrorCode, faulty: bool)
    ensures var w :=
        if ec in {Success, AddressInUse, ConnectionRefused, Json(Syntax)} then View(true, false, true)
        else View(false, true, false);
      AfterEvent(View(true, false, true), Reading(ec, faulty)) == w &&
      AfterEvent(View(true, false, true), Writing(ec, faulty)) == w
  {}

  // The callback hears of every read but one that throws, and is told its code; it gets a
  // message only with `Success`.
  lemma CallbackIsTold(o: Outcome)
    ensures CallbackFor(o).None? <==> o.Threw?
    ensures CallbackFor(o).Some? ==>
      var callback := CallbackFor(o).value;
      (o.Failed? ==> callback == Callback(o.code, None)) &&
      (o.Delivered? ==> callback.code == Success && callback.message == ParseMessage(o.message))
  {}
}
