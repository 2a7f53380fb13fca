/**
 The server's side of a session: the replies it makes and the loop of `sessionWork`, under
 whatever faults the system reports.
 */
module Exchange {
  import opened Wrappers
  import opened Errors
  import opened JsonText
  import opened Messages
  import opened MessageHandler
  import opened Transport
  import opened Stream
  import opened Sessions

  // ----- replies -----

  // The random part of a reply; `coordinates` are drawn two for each sample.
  datatype Draw = Draw(centralFreq: int, count: nat, coordinates: seq<Decimal>, numberCore: int)

  // The shortest text of a double: one digit before the point, at most 16 after it.
  predicate IsShortest(d: Decimal) {
    d.whole < 10 && |d.frac| <= 16 && AllDigits(d.frac) && -400 < d.exp < 400
  }

  predicate InRange(c: Draw) {
    3000 <= c.centralFreq <= 10000 && 5 <= c.numberCore <= 20 &&
    5 <= c.count <= 20 && |c.coordinates| == 2 * c.count &&
    forall k :: 0 <= k < |c.coordinates| ==> IsShortest(c.coordinates[k])
  }

  type Choice = c: Draw | InRange(c) witness Draw(3000, 5, seq(10, _ => Decimal(false, 0, "", 0)), 5)

  function Samples(c: Choice): (samples: seq<Sample>)
    ensures |samples| == c.count
    ensures forall k :: 0 <= k < c.count ==> IsShortest(samples[k].re) && IsShortest(samples[k].im)
  {
    seq(c.count, k requires 0 <= k < c.count => Sample(c.coordinates[2 * k], c.coordinates[2 * k + 1]))
  }

  const UNKNOWN := Plain("unknown", Error)

  function ResponseTo(m: Message, c: Choice): (reply: Message)
    ensures Serializable(reply)
  {
    if m.transaction == Response then UNKNOWN
    else if m.kind == "signal" then Signal("signal", Response, Some(c.centralFreq), Samples(c))
    else if m.kind == "information" then Information("information", Response, Some(c.numberCore))
    else UNKNOWN
  }

  // A message the server has an answer to.
  predicate Asks(m: Message) {
    m.transaction != Response && (m.kind == "signal" || m.kind == "information")
  }

  // Such a message is answered by a Response of its own type that arrives as it was sent; the
  // reply to any other is lost on its reader, who has no class for it.
  lemma ReplyIsHeard(m: Message, c: Choice)
    ensures var reply := ResponseTo(m, c);
      if Asks(m) then reply.transaction == Response && reply.kind == m.kind && WireForm(reply) == Some(reply)
      else WireForm(reply) == None
  {
    assert "signal"[0] == 's' && "information"[0] == 'i' && "raw"[0] == 'r' && "unknown"[0] == 'u';
  }

  // So an exchange ends by itself: were even replies answered, nothing would come of it.
  lemma RepliesDieOut(m: Message, c: Choice, d: Choice)
    ensures var heard := WireForm(ResponseTo(m, c));
      heard.Some? ==> !Asks(heard.value) && WireForm(ResponseTo(heard.value, d)) == None
  {
    ReplyIsHeard(m, c);
    if WireForm(ResponseTo(m, c)).Some? {
      ReplyIsHeard(WireForm(ResponseTo(m, c)).value, d);
    }
  }

  // `createResponse`
  method CreateResponse(m: Option<Message>, c: Choice) returns (reply: Message)
    ensures reply == if m.Some? then ResponseTo(m.value, c) else UNKNOWN
    ensures m.Some? && Asks(m.value) ==>
      reply.transaction == Response && reply.kind == m.value.kind && WireForm(reply) == Some(reply)
    ensures reply.Signal? ==> 3000 <= reply.centralFreq.value <= 10000 && 5 <= |reply.samples| <= 20
    ensures reply.Information? ==> 5 <= reply.numberCore.value <= 20
    ensures m.None? || !Asks(m.value) ==> reply == Plain("unknown", Error) && WireForm(reply) == None
  {
    if m.Some? {
      ReplyIsHeard(m.value, c);
    }
    if m.None? || m.value.transaction == Response {
      return UNKNOWN;
    }
    if m.value.kind == "signal" {
      var fakeData := [];
      for i := 0 to c.count
        invariant fakeData == Samples(c)[..i]
      {
        fakeData := fakeData + [Sample(c.coordinates[2 * i], c.coordinates[2 * i + 1])];
      }
      return Signal("signal", Response, Some(c.centralFreq), fakeData);
    }
    if m.value.kind == "information" {
      return Information("information", Response, Some(c.numberCore));
    }
    reply := UNKNOWN;
  }

  predicate AllSerializable(ms: seq<Message>) {
    forall k :: 0 <= k < |ms| ==> Serializable(ms[k])
  }

  // What the server writes back after a read that brought `m`, and what it logs.
  function Reaction(m: Option<Message>, c: Choice): (reply: seq<Message>)
    ensures AllSerializable(reply) && |reply| <= 1
  {
    if m.Some? && m.value.kind != "raw" then [ResponseTo(m.value, c)] else []
  }

  function LogOf(m: Option<Message>): seq<seq<byte>> {
    if m.Some? && m.value.kind == "raw" && m.value.Raw? then [m.value.data] else []
  }

  // ----- one session under faults -----

  // A session as its two ends see it.
  datatype Link = Link(view: View, inbox: seq<byte>, outbox: seq<byte>)

  ghost function LinkOf(session: Session): Link
    reads session, session.socket, session.manager
  {
    Link(session.State(), session.socket.inbox, session.socket.outbox)
  }

  // A call of `read`: closed, left by an exception, or its callback called.
  datatype ReadResult = Skipped | Thrown | Called(message: Option<Message>)

  function ReadOnce(magic: nat, l: Link, f: Faults): (Link, ReadResult) {
    if !l.view.open then (l, Skipped)
    else
      var (o, rest) := FaultyRead(magic, l.inbox, f.header, f.payload);
      (Link(AfterEvent(l.view, Reading(CodeOf(o), Faulty(f))), rest, l.outbox),
       match CallbackFor(o) case Some(callback) => Called(callback.message) case None => Thrown)
  }

  function WriteOnce(magic: nat, l: Link, m: Message, f: Faults): Link
    requires Serializable(m)
  {
    Link(AfterEvent(l.view, Writing(WriteCode(l.view.open, f.write), Faulty(f))), l.inbox,
         l.outbox + Written(l.view.open, f.write, Frame(magic, SerializeMessage(m).payload)))
  }

  function Answer(magic: nat, l: Link, reply: seq<Message>, f: Faults): Link
    requires AllSerializable(reply)
  {
    if reply == [] then l else WriteOnce(magic, l, reply[0], f)
  }

  // The read callback of the server: log a raw message, answer any other.
  method React(session: Session, m: Option<Message>, c: Choice, f: Faults) returns (log: seq<seq<byte>>)
    requires session.Valid()
    modifies session, session.socket`outbox, session.socket`open, session.manager
    ensures LinkOf(session) == Answer(session.transport.magicNumber, old(LinkOf(session)), Reaction(m, c), f)
    ensures log == LogOf(m)
  {
    log := [];
    if m.Some? {
      if m.value.kind == "raw" {
        if m.value.Raw? {
          log := [m.value.data];
        }
      } else {
        var reply := CreateResponse(m, c);
        session.Write(reply, f);
      }
    }
  }

  // One go of the loop: what is drawn, and what goes wrong.
  datatype Round = Round(choice: Choice, faults: Faults)

  function ServeOnce(magic: nat, l: Link, r: Round): (Link, seq<seq<byte>>, bool) {
    var (read, result) := ReadOnce(magic, l, r.faults);
    match result
    case Skipped => (read, [], false)
    case Thrown => (read, [], true)
    case Called(m) => (Answer(magic, read, Reaction(m, r.choice), r.faults), LogOf(m), false)
  }

  // The loop, when `isWork` is true for as many tests as there are rounds.
  function ServeAll(magic: nat, l: Link, rounds: seq<Round>): (Link, seq<seq<byte>>)
    decreases rounds
  {
    if rounds == [] || l.view.critical then (l, [])
    else
      var (next, log, threw) := ServeOnce(magic, l, rounds[0]);
      if threw then (next, log)
      else
        var (end, more) := ServeAll(magic, next, rounds[1..]);
        (end, log + more)
  }

  method Serve(session: Session, r: Round) returns (log: seq<seq<byte>>, threw: bool)
    requires session.Valid()
    modifies session, session.socket, session.manager
    ensures (LinkOf(session), log, threw) == ServeOnce(session.transport.magicNumber, old(LinkOf(session)), r)
  {
    var callback, thrown, outcome := session.Read(r.faults);
    threw, log := thrown, [];
    if callback.Some? {
      log := React(session, callback.value.message, r.choice, r.faults);
    }
  }

  // `sessionWork`, from its loop on.
  method SessionWork(session: Session, rounds: seq<Round>) returns (log: seq<seq<byte>>)
    requires session.Valid()
    modifies session, session.socket, session.manager
    ensures (LinkOf(session), log) == ServeAll(session.transport.magicNumber, old(LinkOf(session)), rounds)
  {
    ghost var magic := session.transport.magicNumber;
    ghost var all := ServeAll(magic, LinkOf(session), rounds);
    var i := 0;
    log := [];
    while i < |rounds| && !session.criticalError
      invariant i <= |rounds| && session.transport.magicNumber == magic
      invariant ServeAll(magic, LinkOf(session), rounds[i..]).0 == all.0
      invariant log + ServeAll(magic, LinkOf(session), rounds[i..]).1 == all.1
    {
      assert rounds[i..][0] == rounds[i] && rounds[i..][1..] == rounds[i + 1..];
      ghost var before := log;
      var more, threw := Serve(session, rounds[i]);
      log := log + more;
      if threw {
        return;
      }
      Assoc(before, more, ServeAll(magic, LinkOf(session), rounds[i + 1..]).1);
      i := i + 1;
    }
    assert log + [] == log;
  }

  // Whatever goes wrong, flag, list and socket agree after the loop if they did before.
  lemma {:induction false} ServingAgrees(magic: nat, l: Link, rounds: seq<Round>)
    requires Agrees(l.view)
    ensures Agrees(ServeAll(magic, l, rounds).0.view) && l.outbox <= ServeAll(magic, l, rounds).0.outbox
    decreases rounds
  {
    if rounds != [] && !l.view.critical {
      var (next, log, threw) := ServeOnce(magic, l, rounds[0]);
      if !threw {
        ServingAgrees(magic, next, rounds[1..]);
      }
    }
  }

  // ----- what faults do -----

  // A write to a closed socket sends nothing and costs a listed session its place.
  lemma ClosedWrite(magic: nat, l: Link, m: Message, f: Faults)
    requires Serializable(m) && !l.view.open
    ensures WriteOnce(magic, l, m, f) == l.(view := View(false, true, false))
  {}

  // A write to an open one sends the frame, or as much of it as the fault lets through.
  lemma OpenWrite(magic: nat, l: Link, m: Message, f: Faults)
    requires Serializable(m) && l.view.open
    ensures var frame, next := Frame(magic, SerializeMessage(m).payload), WriteOnce(magic, l, m, f);
      next.inbox == l.inbox &&
      (f.write.code == Success ==> next.view == l.view && next.outbox == l.outbox + frame) &&
      (f.write.code != Success ==> next.outbox == l.outbox + frame[..Progress(f.write, |frame|)]) &&
      (f.write.code in {AddressInUse, ConnectionRefused, Json(Syntax)} ==> next.view == l.view) &&
      (f.write.code !in {Success, AddressInUse, ConnectionRefused, Json(Syntax)} ==>
        next.view == View(false, true, false))
  {}

  // A session that can be read.
  predicate Sound(v: View) {
    v.open && !v.critical
  }

  predicate Fatal(ec: ErrorCode) {
    ec !in {Success, AddressInUse, ConnectionRefused, Json(Syntax)}
  }

  // A connection lost while a header is read ends the loop: nothing is logged or answered, and
  // no further round is made, whatever is still in the inbox.
  lemma LostReadEndsServing(magic: nat, l: Link, r: Round, more: seq<Round>)
    requires Sound(l.view) && Fatal(r.faults.header.code)
    ensures var (next, log) := ServeAll(magic, l, [r] + more);
      log == [] && next.view == View(false, true, false) && next.outbox == l.outbox
  {
    assert ([r] + more)[1..] == more;
  }

  // And so does one lost while a message is being answered: the message has been read, part of
  // the answer is sent.
  lemma LostWriteEndsServing(magic: nat, l: Link, m: Message, rest: seq<byte>, r: Round, more: seq<Round>)
    requires Sound(l.view) && magic < UINT32_LIMIT && Serializable(m) && |SerializeMessage(m).payload| < UINT32_LIMIT
    requires l.inbox == Frame(magic, SerializeMessage(m).payload) + rest
    requires WireForm(m).Some? && WireForm(m).value.kind != "raw"
    requires r.faults.header.code == Success && r.faults.payload.code == Success && Fatal(r.faults.write.code)
    ensures var reply := Frame(magic, SerializeMessage(ResponseTo(WireForm(m).value, r.choice)).payload);
      var (next, log) := ServeAll(magic, l, [r] + more);
      log == [] && next.view == View(false, true, false) && next.inbox == rest &&
      next.outbox == l.outbox + reply[..Progress(r.faults.write, |reply|)]
  {
    var payload := SerializeMessage(m).payload;
    CalmFrameIsRead(magic, payload, rest, r.faults.header, r.faults.payload);
    MessageIsJudged(m);
    MessageRoundTrip(m);
    var (read, result) := ReadOnce(magic, l, r.faults);
    assert read == l.(inbox := rest) && result == Called(WireForm(m));
    OpenWrite(magic, read, ResponseTo(WireForm(m).value, r.choice), r.faults);
    assert ([r] + more)[0] == r && ([r] + more)[1..] == more;
  }

  // ----- without faults -----

  // The message each read callback is given; a read that threw gives none.
  function Heard(os: seq<Outcome>): (ms: seq<Option<Message>>)
    ensures |ms| == |os|
  {
    if os == [] then []
    else [if os[0].Delivered? then ParseMessage(os[0].message) else None] + Heard(os[1..])
  }

  // What a session with these bytes waiting in its inbox will hear.
  function HeardIn(magic: nat, inbox: seq<byte>): seq<Option<Message>> {
    Heard(ReadAll(magic, Judge, inbox))
  }

  function Reactions(ms: seq<Option<Message>>, cs: seq<Choice>): (replies: seq<Message>)
    requires |ms| <= |cs|
    ensures AllSerializable(replies)
  {
    if ms == [] then [] else Reaction(ms[0], cs[0]) + Reactions(ms[1..], cs[1..])
  }

  function Logs(ms: seq<Option<Message>>): seq<seq<byte>> {
    if ms == [] then [] else LogOf(ms[0]) + Logs(ms[1..])
  }

  function Choices(rounds: seq<Round>): (cs: seq<Choice>)
    ensures |cs| == |rounds|
  {
    if rounds == [] then [] else [rounds[0].choice] + Choices(rounds[1..])
  }

  predicate Calm(rounds: seq<Round>) {
    forall k :: 0 <= k < |rounds| ==> rounds[k].faults == CALM
  }

  // A read without faults brings the first of what is still to be heard, and ends the session
  // with the last of it.
  lemma CalmRead(magic: nat, l: Link)
    requires Sound(l.view)
    ensures var (next, result) := ReadOnce(magic, l, CALM);
      var heard := HeardIn(magic, l.inbox);
      heard != [] && next.outbox == l.outbox && result != Skipped &&
      heard[0] == (if result.Called? then result.message else None) &&
      (if result == Thrown || next.view.critical then heard == [None]
       else next.view == l.view && heard[1..] == HeardIn(magic, next.inbox))
  {}

  lemma {:induction false} FramesJoin(magic: nat, a: seq<Message>, b: seq<Message>)
    requires AllSerializable(a) && AllSerializable(b) && AllSerializable(a + b)
    ensures Frames(magic, Payloads(a + b)) == Frames(magic, Payloads(a)) + Frames(magic, Payloads(b))
  {
    if a == [] {
      assert a + b == b;
    } else {
      assert (a + b)[1..] == a[1..] + b;
      FramesJoin(magic, a[1..], b);
      Assoc(Frame(magic, Payloads(a)[0]), Frames(magic, Payloads(a[1..])), Frames(magic, Payloads(b)));
    }
  }

  lemma CalmAnswer(magic: nat, l: Link, reply: seq<Message>)
    requires l.view.open && AllSerializable(reply) && |reply| <= 1
    ensures Answer(magic, l, reply, CALM) == l.(outbox := l.outbox + Frames(magic, Payloads(reply)))
  {
    if reply != [] {
      assert Payloads(reply) == [SerializeMessage(reply[0]).payload];
      assert Frames(magic, Payloads(reply)) == Frame(magic, SerializeMessage(reply[0]).payload) + [];
    }
  }

  // Given rounds enough, every byte of the inbox is read, every raw message is logged and every
  // other one answered, in order.
  lemma {:induction false} CalmServer(magic: nat, l: Link, rounds: seq<Round>)
    requires Sound(l.view) && Calm(rounds) && |HeardIn(magic, l.inbox)| <= |rounds|
    ensures var heard := HeardIn(magic, l.inbox);
      ServeAll(magic, l, rounds).1 == Logs(heard) &&
      ServeAll(magic, l, rounds).0.outbox == l.outbox + Frames(magic, Payloads(Reactions(heard, Choices(rounds))))
    decreases rounds
  {
    var heard := HeardIn(magic, l.inbox);
    CalmRead(magic, l);
    var (read, result) := ReadOnce(magic, l, CALM);
    var reply := Reaction(heard[0], rounds[0].choice);
    if result == Thrown || read.view.critical {
      assert heard[1..] == [] && Reactions(heard, Choices(rounds)) == [];
    } else {
      CalmAnswer(magic, read, reply);
      var next := read.(outbox := read.outbox + Frames(magic, Payloads(reply)));
      CalmServer(magic, next, rounds[1..]);
      var replies := Reactions(heard[1..], Choices(rounds)[1..]);
      FramesJoin(magic, reply, replies);
      Assoc(l.outbox, Frames(magic, Payloads(reply)), Frames(magic, Payloads(replies)));
    }
  }
}
