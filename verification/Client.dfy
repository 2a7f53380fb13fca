/** The client's side of the conversation, and the whole exchange. */
module Client {
  import opened Wrappers
  import opened Errors
  import opened Messages
  import opened MessageHandler
  import opened Transport
  import opened Stream
  import opened Sessions
  import opened Exchange
  import opened Sizes

  // ----- writing -----

  // A text of one of these two words is a request.
  predicate IsRequest(text: seq<byte>) {
    BytesText(text) == "signal" || BytesText(text) == "information"
  }

  // `SegmentClient::write`: two words are requests, any other text is raw data.
  function ClientMessage(text: seq<byte>): (m: Message)
    ensures Serializable(m)
  {
    if IsRequest(text) then Plain(BytesText(text), Request) else Raw("raw", Response, text)
  }

  function ClientMessages(texts: seq<seq<byte>>): (ms: seq<Message>)
    ensures |ms| == |texts| && AllSerializable(ms)
    ensures forall k :: 0 <= k < |texts| ==> ms[k] == ClientMessage(texts[k])
  {
    if texts == [] then [] else [ClientMessage(texts[0])] + ClientMessages(texts[1..])
  }

  method ClientWrite(session: Session, text: seq<byte>, f: Faults)
    requires session.Valid()
    modifies session, session.socket`outbox, session.socket`open, session.manager
    ensures LinkOf(session) ==
      WriteOnce(session.transport.magicNumber, old(LinkOf(session)), ClientMessage(text), f)
  {
    var word := BytesText(text);
    if word == "signal" || word == "information" {
      session.Write(Plain(word, Request), f);
    } else {
      session.Write(Raw("raw", Response, text), f);
    }
  }

  // ----- reading -----

  // The client's callback takes every message there is.
  function Gained(result: ReadResult): seq<Message> {
    if result.Called? && result.message.Some? then [result.message.value] else []
  }

  function HearAll(magic: nat, l: Link, rounds: seq<Faults>): (Link, seq<Message>)
    decreases rounds
  {
    if rounds == [] || l.view.critical then (l, [])
    else
      var (next, result) := ReadOnce(magic, l, rounds[0]);
      if result == Thrown then (next, [])
      else
        var (end, more) := HearAll(magic, next, rounds[1..]);
        (end, Gained(result) + more)
  }

  method Hear(session: Session, f: Faults) returns (heard: seq<Message>, threw: bool)
    requires session.Valid()
    modifies session, session.socket`inbox, session.socket`open, session.manager
    ensures var (next, result) := ReadOnce(session.transport.magicNumber, old(LinkOf(session)), f);
      LinkOf(session) == next && heard == Gained(result) && threw == (result == Thrown)
  {
    var callback, thrown, outcome := session.Read(f);
    threw, heard := thrown, [];
    if callback.Some? && callback.value.message.Some? {
      heard := [callback.value.message.value];
    }
  }

  // The task `SegmentClient::start` gives to its worker; nothing is ever written back.
  method ClientWork(session: Session, rounds: seq<Faults>) returns (received: seq<Message>)
    requires session.Valid()
    modifies session, session.socket`inbox, session.socket`open, session.manager
    ensures (LinkOf(session), received) == HearAll(session.transport.magicNumber, old(LinkOf(session)), rounds)
  {
    ghost var magic := session.transport.magicNumber;
    ghost var all := HearAll(magic, LinkOf(session), rounds);
    var i := 0;
    received := [];
    while i < |rounds| && !session.criticalError
      invariant i <= |rounds| && session.transport.magicNumber == magic
      invariant HearAll(magic, LinkOf(session), rounds[i..]).0 == all.0
      invariant received + HearAll(magic, LinkOf(session), rounds[i..]).1 == all.1
    {
      assert rounds[i..][0] == rounds[i] && rounds[i..][1..] == rounds[i + 1..];
      ghost var before := received;
      var heard, threw := Hear(session, rounds[i]);
      received := received + heard;
      if threw {
        return;
      }
      Assoc(before, heard, HearAll(magic, LinkOf(session), rounds[i + 1..]).1);
      i := i + 1;
    }
    assert received + [] == received;
  }

  // A connection lost while a header is read ends the client's loop, too.
  lemma LostReadEndsHearing(magic: nat, l: Link, f: Faults, more: seq<Faults>)
    requires Sound(l.view) && Fatal(f.header.code)
    ensures HearAll(magic, l, [f] + more).1 == []
    ensures HearAll(magic, l, [f] + more).0.view == View(false, true, false)
  {
    assert ([f] + more)[1..] == more;
  }

  // The messages among what the reads brought.
  function Present(ms: seq<Option<Message>>): seq<Message> {
    if ms == [] then [] else (if ms[0].Some? then [ms[0].value] else []) + Present(ms[1..])
  }

  predicate AllCalm(rounds: seq<Faults>) {
    forall k :: 0 <= k < |rounds| ==> rounds[k] == CALM
  }

  // Without faults, and given rounds enough, the client receives every message in its inbox.
  lemma {:induction false} CalmClient(magic: nat, l: Link, rounds: seq<Faults>)
    requires Sound(l.view) && AllCalm(rounds) && |HeardIn(magic, l.inbox)| <= |rounds|
    ensures HearAll(magic, l, rounds).1 == Present(HeardIn(magic, l.inbox))
    decreases rounds
  {
    CalmRead(magic, l);
    var (next, result) := ReadOnce(magic, l, CALM);
    if result == Thrown || next.view.critical {
      assert HeardIn(magic, l.inbox)[1..] == [];
    } else {
      CalmClient(magic, next, rounds[1..]);
    }
  }

  // ----- the whole exchange -----

  function WireForms(ms: seq<Message>): (forms: seq<Option<Message>>)
    ensures |forms| == |ms|
  {
    if ms == [] then [] else [WireForm(ms[0])] + WireForms(ms[1..])
  }

  lemma {:induction false} DeliveriesAreHeard(ms: seq<Message>)
    requires AllSerializable(ms)
    ensures Heard(Deliveries(ms) + [Failed(Eof)]) == WireForms(ms) + [None]
  {
    if ms == [] {
      assert Heard([Failed(Eof)][1..]) == [];
    } else {
      MessageRoundTrip(ms[0]);
      DeliveriesAreHeard(ms[1..]);
      assert (Deliveries(ms) + [Failed(Eof)])[1..] == Deliveries(ms[1..]) + [Failed(Eof)];
    }
  }

  // What the peer hears of messages written to a stream.
  function HeardOf(magic: nat, ms: seq<Message>): seq<Option<Message>>
    requires AllSerializable(ms)
  {
    HeardIn(magic, Frames(magic, Payloads(ms)))
  }

  // Any messages, written to a stream in order and read from it: each is heard in the form the
  // wire gives it, then the stream ends.
  lemma StreamRoundTrip(magic: nat, ms: seq<Message>)
    requires magic < UINT32_LIMIT && AllSerializable(ms) && AllFit(Payloads(ms))
    ensures HeardOf(magic, ms) == WireForms(ms) + [None]
  {
    MessagesAreRead(magic, ms);
    DeliveriesAreHeard(ms);
  }

  // The text makes a message whose size fits in the header of a frame.
  predicate TextFits(text: seq<byte>) {
    IsRequest(text) || 40 + ListSize(text) < UINT32_LIMIT
  }

  lemma TextFitsFrame(text: seq<byte>)
    ensures TextFits(text) <==> |SerializeMessage(ClientMessage(text)).payload| < UINT32_LIMIT
  {
    if IsRequest(text) {
      RequestSize(BytesText(text));
    } else {
      RawSize(text);
    }
  }

  // Whatever its bytes, a text of up to a gigabyte fits.
  lemma ShortTextFits(text: seq<byte>)
    requires |text| <= 0x3fff_fff0
    ensures TextFits(text)
  {}

  // The one reply a text asks for, or none.
  function ReplyTo(text: seq<byte>, c: Choice): (reply: seq<Message>)
    ensures AllSerializable(reply)
  {
    if BytesText(text) == "signal" then [Signal("signal", Response, Some(c.centralFreq), Samples(c))]
    else if BytesText(text) == "information" then [Information("information", Response, Some(c.numberCore))]
    else []
  }

  // What the client should receive, said of its texts alone.
  function ExpectedReplies(texts: seq<seq<byte>>, cs: seq<Choice>): (replies: seq<Message>)
    requires |texts| <= |cs|
    ensures AllSerializable(replies) && |replies| <= |texts|
  {
    if texts == [] then [] else ReplyTo(texts[0], cs[0]) + ExpectedReplies(texts[1..], cs[1..])
  }

  // The texts that are requests, in order.
  function Requests(texts: seq<seq<byte>>): seq<string> {
    if texts == [] then []
    else (if IsRequest(texts[0]) then [BytesText(texts[0])] else []) + Requests(texts[1..])
  }

  function RawTexts(texts: seq<seq<byte>>): seq<seq<byte>> {
    if texts == [] then [] else (if IsRequest(texts[0]) then [] else [texts[0]]) + RawTexts(texts[1..])
  }

  lemma TextIsAnswered(text: seq<byte>, c: Choice)
    ensures var m := WireForm(ClientMessage(text));
      Reaction(m, c) == ReplyTo(text, c) && LogOf(m) == (if IsRequest(text) then [] else [text])
  {}

  lemma {:induction false} TextsAreAnswered(texts: seq<seq<byte>>, cs: seq<Choice>)
    requires |texts| < |cs|
    ensures var heard := WireForms(ClientMessages(texts)) + [None];
      Reactions(heard, cs) == ExpectedReplies(texts, cs) && Logs(heard) == RawTexts(texts)
  {
    var heard := WireForms(ClientMessages(texts)) + [None];
    if texts == [] {
      assert heard[1..] == [] && Reactions(heard[1..], cs[1..]) == [] && Logs(heard[1..]) == [];
    } else {
      TextIsAnswered(texts[0], cs[0]);
      TextsAreAnswered(texts[1..], cs[1..]);
      assert heard[1..] == WireForms(ClientMessages(texts[1..])) + [None];
    }
  }

  // A Response of this type that arrives as it was sent, in one frame.
  predicate Survives(reply: Message, kind: string) {
    reply.transaction == Response && reply.kind == kind &&
    Serializable(reply) && WireForm(reply) == Some(reply) && |SerializeMessage(reply).payload| < UINT32_LIMIT
  }

  lemma ReplySurvives(text: seq<byte>, c: Choice)
    ensures if IsRequest(text) then |ReplyTo(text, c)| == 1 && Survives(ReplyTo(text, c)[0], BytesText(text))
      else ReplyTo(text, c) == []
  {
    if IsRequest(text) {
      ReplyIsHeard(Plain(BytesText(text), Request), c);
      SignalReplyFits(c);
      InformationReplyFits(c);
    }
  }

  predicate AllSurvive(replies: seq<Message>, kinds: seq<string>) {
    |replies| == |kinds| && forall j :: 0 <= j < |kinds| ==> Survives(replies[j], kinds[j])
  }

  lemma SurvivorsJoin(a: seq<Message>, b: seq<Message>, kindsA: seq<string>, kindsB: seq<string>)
    requires AllSurvive(a, kindsA) && AllSurvive(b, kindsB)
    ensures AllSurvive(a + b, kindsA + kindsB)
  {}

  lemma {:induction false} RepliesMatch(texts: seq<seq<byte>>, cs: seq<Choice>)
    requires |texts| <= |cs|
    ensures AllSurvive(ExpectedReplies(texts, cs), Requests(texts))
  {
    if texts != [] {
      ReplySurvives(texts[0], cs[0]);
      RepliesMatch(texts[1..], cs[1..]);
      SurvivorsJoin(ReplyTo(texts[0], cs[0]), ExpectedReplies(texts[1..], cs[1..]),
        if IsRequest(texts[0]) then [BytesText(texts[0])] else [], Requests(texts[1..]));
    }
  }

  lemma {:induction false} RepliesSurvive(rs: seq<Message>)
    requires forall j :: 0 <= j < |rs| ==> WireForm(rs[j]) == Some(rs[j])
    ensures Present(WireForms(rs) + [None]) == rs
  {
    if rs == [] {
      assert (WireForms(rs) + [None])[1..] == [];
    } else {
      RepliesSurvive(rs[1..]);
      assert (WireForms(rs) + [None])[1..] == WireForms(rs[1..]) + [None];
    }
  }

  lemma TextsFit(texts: seq<seq<byte>>)
    requires forall k :: 0 <= k < |texts| ==> TextFits(texts[k])
    ensures AllFit(Payloads(ClientMessages(texts)))
  {
    forall k | 0 <= k < |texts| ensures |Payloads(ClientMessages(texts))[k]| < UINT32_LIMIT {
      TextFitsFrame(texts[k]);
    }
  }

  // For any texts on one error-free session: the server logs exactly the raw ones and writes
  // exactly one reply to each request, in order; the client receives exactly these replies,
  // all Responses of the type asked for, and writes nothing because of them.
  lemma EndToEnd(magic: nat, texts: seq<seq<byte>>, cs: seq<Choice>)
    requires magic < UINT32_LIMIT && |texts| < |cs|
    requires forall k :: 0 <= k < |texts| ==> TextFits(texts[k])
    ensures var heard := HeardOf(magic, ClientMessages(texts));
      |heard| == |texts| + 1 &&
      var replies := Reactions(heard, cs);
      Logs(heard) == RawTexts(texts) && replies == ExpectedReplies(texts, cs) &&
      HeardOf(magic, replies) == WireForms(replies) + [None] && Present(HeardOf(magic, replies)) == replies &&
      |replies| == |Requests(texts)| &&
      forall j :: 0 <= j < |replies| ==>
        replies[j].transaction == Response && replies[j].kind == Requests(texts)[j]
  {
    TextsFit(texts);
    StreamRoundTrip(magic, ClientMessages(texts));
    TextsAreAnswered(texts, cs);
    RepliesMatch(texts, cs);
    var replies := ExpectedReplies(texts, cs);
    StreamRoundTrip(magic, replies);
    RepliesSurvive(replies);
  }

  // ----- the objects at both ends -----

  lemma OneMoreWritten(magic: nat, outbox: seq<byte>, texts: seq<seq<byte>>, i: nat)
    requires i < |texts|
    ensures outbox + Frames(magic, Payloads(ClientMessages(texts[..i + 1]))) ==
      (outbox + Frames(magic, Payloads(ClientMessages(texts[..i])))) +
      Frames(magic, Payloads([ClientMessage(texts[i])]))
  {
    var done, m := ClientMessages(texts[..i]), ClientMessage(texts[i]);
    FramesJoin(magic, done, [m]);
    assert ClientMessages(texts[..i + 1]) == done + [m];
    Assoc(outbox, Frames(magic, Payloads(done)), Frames(magic, Payloads([m])));
  }

  method WriteAll(session: Session, texts: seq<seq<byte>>)
    requires session.Valid() && session.socket.open
    modifies session, session.socket`outbox, session.socket`open, session.manager
    ensures LinkOf(session) == old(LinkOf(session)).(outbox :=
      old(session.socket.outbox) + Frames(session.transport.magicNumber, Payloads(ClientMessages(texts))))
  {
    ghost var magic, start := session.transport.magicNumber, LinkOf(session);
    for i := 0 to |texts|
      invariant session.transport.magicNumber == magic
      invariant LinkOf(session) ==
        start.(outbox := start.outbox + Frames(magic, Payloads(ClientMessages(texts[..i]))))
    {
      CalmAnswer(magic, LinkOf(session), [ClientMessage(texts[i])]);
      OneMoreWritten(magic, start.outbox, texts, i);
      ClientWrite(session, texts[i], CALM);
    }
    assert texts[..|texts|] == texts;
  }

  // A session just accepted or connected.
  ghost predicate Ready(session: Session, magic: nat)
    reads session, session.socket, session.transport, session.manager
  {
    session.Valid() && session.transport.magicNumber == magic && Sound(session.State()) &&
    session.socket.inbox == [] && session.socket.outbox == []
  }

  // The network delivers `bytes` and the peer closes its direction.
  method ServeInbox(session: Session, bytes: seq<byte>, rounds: seq<Round>) returns (log: seq<seq<byte>>)
    requires session.Valid() && Sound(session.State()) && Calm(rounds)
    requires |HeardIn(session.transport.magicNumber, bytes)| <= |rounds|
    modifies session, session.socket, session.manager
    ensures var magic := session.transport.magicNumber;
      var heard := HeardIn(magic, bytes);
      log == Logs(heard) &&
      session.socket.outbox == old(session.socket.outbox) + Frames(magic, Payloads(Reactions(heard, Choices(rounds))))
  {
    session.socket.inbox := bytes;
    CalmServer(session.transport.magicNumber, LinkOf(session), rounds);
    log := SessionWork(session, rounds);
  }

  method HearInbox(session: Session, bytes: seq<byte>, rounds: seq<Faults>) returns (received: seq<Message>)
    requires session.Valid() && Sound(session.State()) && AllCalm(rounds)
    requires |HeardIn(session.transport.magicNumber, bytes)| <= |rounds|
    modifies session, session.socket, session.manager
    ensures received == Present(HeardIn(session.transport.magicNumber, bytes))
  {
    session.socket.inbox := bytes;
    CalmClient(session.transport.magicNumber, LinkOf(session), rounds);
    received := ClientWork(session, rounds);
  }

  // A client writes its texts, the server reads and answers them, the client reads the answers;
  // between them the network moves what was written.
  method Converse(client: Session, server: Session, texts: seq<seq<byte>>, rounds: seq<Round>, goes: seq<Faults>)
    returns (log: seq<seq<byte>>, received: seq<Message>)
    requires Ready(client, client.transport.magicNumber) && Ready(server, client.transport.magicNumber)
    requires client.transport.magicNumber < UINT32_LIMIT
    requires client != server && client.socket != server.socket && client.manager != server.manager
    requires forall k :: 0 <= k < |texts| ==> TextFits(texts[k])
    requires |texts| < |rounds| && |texts| < |goes| && Calm(rounds) && AllCalm(goes)
    modifies client, client.socket, client.manager, server, server.socket, server.manager
    ensures log == RawTexts(texts) && received == ExpectedReplies(texts, Choices(rounds))
  {
    ghost var magic, cs := client.transport.magicNumber, Choices(rounds);
    EndToEnd(magic, texts, cs);
    WriteAll(client, texts);
    assert [] + Frames(magic, Payloads(ClientMessages(texts))) == Frames(magic, Payloads(ClientMessages(texts)));
    log := ServeInbox(server, client.socket.outbox, rounds);
    ghost var replies := ExpectedReplies(texts, cs);
    assert [] + Frames(magic, Payloads(replies)) == Frames(magic, Payloads(replies));
    received := HearInbox(client, server.socket.outbox, goes);
  }
}
