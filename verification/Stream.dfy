/** What a stream of frames reads as: whole, cut short, or with bad frames in it. */
module Stream {
  import opened Wrappers
  import opened JsonPrefix
  import opened JsonText
  import opened Errors
  import opened Messages
  import opened MessageHandler
  import opened Transport

  // A frame of any size, read back: the length field decides how much of it is judged.
  lemma FrameIsRead(magic: nat, judge: Codec, payload: seq<byte>, rest: seq<byte>)
    requires magic < UINT32_LIMIT
    ensures ReadOne(magic, judge, Frame(magic, payload) + rest) ==
      (judge(payload[..|payload| % UINT32_LIMIT]), payload[|payload| % UINT32_LIMIT..] + rest)
  {
    var len := |payload| % UINT32_LIMIT;
    var bytes := Frame(magic, payload) + rest;
    U32Inverse(magic);
    U32Inverse(len);
    assert bytes[..4] == LE(magic, 4) && bytes[4..HEADER_SIZE] == LE(len, 4);
    assert bytes[HEADER_SIZE..] == payload + rest;
    assert bytes[HEADER_SIZE..HEADER_SIZE + len] == payload[..len];
    assert bytes[HEADER_SIZE + len..] == payload[len..] + rest;
  }

  // A frame that fits in 32 bits is judged whole and nothing else is touched.
  lemma WholeFrameIsRead(magic: nat, judge: Codec, payload: seq<byte>, rest: seq<byte>)
    requires magic < UINT32_LIMIT && |payload| < UINT32_LIMIT
    ensures ReadOne(magic, judge, Frame(magic, payload) + rest) == (judge(payload), rest)
  {
    FrameIsRead(magic, judge, payload, rest);
    var len := |payload| % UINT32_LIMIT;
    assert len == |payload|;
    assert payload[..len] == payload;
    assert payload[len..] == [] && [] + rest == rest;
  }

  // The bound on the size is exact.
  lemma FrameFits(magic: nat, judge: Codec, payload: seq<byte>)
    requires magic < UINT32_LIMIT
    ensures ReadOne(magic, judge, Frame(magic, payload)) == (judge(payload), []) <==> |payload| < UINT32_LIMIT
  {
    assert Frame(magic, payload) + [] == Frame(magic, payload);
    if |payload| < UINT32_LIMIT {
      WholeFrameIsRead(magic, judge, payload, []);
    } else {
      FrameIsRead(magic, judge, payload, []);
      assert payload[|payload| % UINT32_LIMIT..] + [] != [];
    }
  }

  // The header alone, whatever follows it.
  lemma HeaderIsRead(magic: nat, payload: seq<byte>, bytes: seq<byte>)
    requires magic < UINT32_LIMIT && HEADER_SIZE <= |bytes| && bytes <= Frame(magic, payload)
    ensures FromLE(bytes[..4]) == magic && FromLE(bytes[4..HEADER_SIZE]) == |payload| % UINT32_LIMIT
  {
    var first, second := LE(magic, 4), LE(|payload| % UINT32_LIMIT, 4);
    U32Inverse(magic);
    U32Inverse(|payload| % UINT32_LIMIT);
    assert bytes[..4] == (first + second + payload)[..4] == first;
    assert bytes[4..HEADER_SIZE] == (first + second + payload)[4..HEADER_SIZE] == second;
  }

  // ----- a frame read while the system reports faults -----

  // The bytes a failing transfer of `n` bytes has moved, when they are all there.
  function Progress(fault: Fault, n: nat): nat
    requires n > 0
  {
    if fault.after < n then fault.after else n - 1
  }

  // An error in the header stage is what the read reports, and part of the header is lost, or
  // of what there is of it.
  lemma HeaderFaultIsReported(magic: nat, bytes: seq<byte>, header: Fault, payload: Fault)
    requires header.code != Success
    ensures var k := Progress(header, HEADER_SIZE);
      k < HEADER_SIZE &&
      FaultyRead(magic, bytes, header, payload) ==
        (Failed(header.code), if k < |bytes| then bytes[k..] else [])
  {}

  lemma FrameBytes(magic: nat, payload: seq<byte>, rest: seq<byte>)
    requires magic < UINT32_LIMIT && |payload| < UINT32_LIMIT
    ensures var bytes := Frame(magic, payload) + rest;
      HEADER_SIZE <= |bytes| && FromLE(bytes[..4]) == magic && FromLE(bytes[4..HEADER_SIZE]) == |payload| &&
      bytes[HEADER_SIZE..] == payload + rest
  {
    var bytes, frame := Frame(magic, payload) + rest, Frame(magic, payload);
    HeaderIsRead(magic, payload, frame);
    assert bytes[..4] == frame[..4] && bytes[4..HEADER_SIZE] == frame[4..HEADER_SIZE];
    assert frame[HEADER_SIZE..] == payload;
  }

  // An error in the payload stage is what the read reports, whatever the payload says; only an
  // empty payload, for which nothing has to be moved, is beyond its reach.
  lemma PayloadFaultIsReported(magic: nat, payload: seq<byte>, rest: seq<byte>, header: Fault, fault: Fault)
    requires magic < UINT32_LIMIT && |payload| < UINT32_LIMIT && header.code == Success && fault.code != Success
    ensures FaultyRead(magic, Frame(magic, payload) + rest, header, fault) ==
      if payload == [] then (Judge([]), rest)
      else (Failed(fault.code), payload[Progress(fault, |payload|)..] + rest)
  {
    FrameBytes(magic, payload, rest);
    if payload == [] {
      WholeFrameIsRead(magic, Judge, [], rest);
    } else {
      var k := Progress(fault, |payload|);
      assert (payload + rest)[k..] == payload[k..] + rest;
    }
  }

  // So a frame is judged exactly if no stage that moves bytes fails.
  lemma CalmFrameIsRead(magic: nat, payload: seq<byte>, rest: seq<byte>, header: Fault, fault: Fault)
    requires magic < UINT32_LIMIT && |payload| < UINT32_LIMIT
    requires header.code == Success && fault.code == Success
    ensures FaultyRead(magic, Frame(magic, payload) + rest, header, fault) == (Judge(payload), rest)
  {
    WholeFrameIsRead(magic, Judge, payload, rest);
  }

  // Of any bytes at all: what is delivered came through both stages without a fault.
  lemma DeliveredIsWhole(magic: nat, bytes: seq<byte>, header: Fault, fault: Fault)
    requires FaultyRead(magic, bytes, header, fault).0.Delivered?
    ensures header.code == Success && HEADER_SIZE <= |bytes| && FromLE(bytes[..4]) == magic
    ensures fault.code != Success ==> FromLE(bytes[4..HEADER_SIZE]) == 0
  {}

  // ----- streams -----

  // One outcome per payload, up to and including the first that ends the session; else the
  // end of the stream.
  function Verdicts(judge: Codec, payloads: seq<seq<byte>>): seq<Outcome> {
    if payloads == [] then [Failed(Eof)]
    else if Ends(judge(payloads[0])) then [judge(payloads[0])]
    else [judge(payloads[0])] + Verdicts(judge, payloads[1..])
  }

  predicate AllFit(payloads: seq<seq<byte>>) {
    forall k :: 0 <= k < |payloads| ==> |payloads[k]| < UINT32_LIMIT
  }

  // The beginning of some frame, but not all of it.
  ghost predicate Partial(magic: nat, tail: seq<byte>) {
    exists payload :: |payload| < UINT32_LIMIT && tail < Frame(magic, payload)
  }

  lemma ShortIsLost(magic: nat, judge: Codec, bytes: seq<byte>)
    requires |bytes| < HEADER_SIZE || |bytes| < HEADER_SIZE + FromLE(bytes[4..HEADER_SIZE])
    ensures ReadAll(magic, judge, bytes) == [Failed(Eof)]
  {}

  lemma PartialIsLost(magic: nat, judge: Codec, tail: seq<byte>)
    requires magic < UINT32_LIMIT && Partial(magic, tail)
    ensures ReadAll(magic, judge, tail) == [Failed(Eof)]
  {
    var payload :| |payload| < UINT32_LIMIT && tail < Frame(magic, payload);
    if HEADER_SIZE <= |tail| {
      HeaderIsRead(magic, payload, tail);
    }
    ShortIsLost(magic, judge, tail);
  }

  // Any well-formed frames followed by part of one more: no message is lost, none is made up,
  // a frame whose text is rejected costs that frame only.
  lemma {:induction false} FramesAreRead(magic: nat, judge: Codec, payloads: seq<seq<byte>>, tail: seq<byte>)
    requires magic < UINT32_LIMIT && AllFit(payloads) && Partial(magic, tail)
    ensures ReadAll(magic, judge, Frames(magic, payloads) + tail) == Verdicts(judge, payloads)
  {
    if payloads == [] {
      assert Frames(magic, payloads) + tail == tail;
      PartialIsLost(magic, judge, tail);
    } else {
      var first, more := Frame(magic, payloads[0]), Frames(magic, payloads[1..]);
      Assoc(first, more, tail);
      WholeFrameIsRead(magic, judge, payloads[0], more + tail);
      FramesAreRead(magic, judge, payloads[1..], tail);
    }
  }

  lemma NothingIsPartial(magic: nat)
    ensures Partial(magic, [])
  {}

  lemma FramesTaken(magic: nat, payloads: seq<seq<byte>>, j: nat)
    requires j < |payloads|
    ensures Frames(magic, payloads[..j + 1]) == Frame(magic, payloads[0]) + Frames(magic, payloads[1..][..j])
  {
    assert payloads[..j + 1][1..] == payloads[1..][..j];
  }

  // Where a cut falls: after `k` whole frames, inside the next one.
  lemma {:induction false} CutPoint(magic: nat, payloads: seq<seq<byte>>, cut: seq<byte>)
    returns (k: nat, tail: seq<byte>)
    requires AllFit(payloads) && cut <= Frames(magic, payloads)
    ensures k <= |payloads| && cut == Frames(magic, payloads[..k]) + tail && Partial(magic, tail)
    ensures k < |payloads| ==> tail < Frame(magic, payloads[k])
  {
    if payloads == [] {
      NothingIsPartial(magic);
      return 0, [];
    }
    var frame, more := Frame(magic, payloads[0]), Frames(magic, payloads[1..]);
    Splits(cut, frame, more);
    if |cut| < |frame| {
      return 0, cut;
    }
    var j;
    j, tail := CutPoint(magic, payloads[1..], cut[|frame|..]);
    k := j + 1;
    FramesTaken(magic, payloads, j);
    Assoc(frame, Frames(magic, payloads[1..][..j]), tail);
  }

  // A stream cut anywhere reads as its whole frames and the loss of the connection.
  lemma Truncation(magic: nat, judge: Codec, payloads: seq<seq<byte>>, cut: seq<byte>)
    requires magic < UINT32_LIMIT && AllFit(payloads) && cut <= Frames(magic, payloads)
    ensures exists k :: (
      0 <= k <= |payloads| &&
      |Frames(magic, payloads[..k])| <= |cut| &&
      (k < |payloads| ==> |cut| < |Frames(magic, payloads[..k])| + |Frame(magic, payloads[k])|) &&
      ReadAll(magic, judge, cut) == Verdicts(judge, payloads[..k]))
  {
    var k, tail := CutPoint(magic, payloads, cut);
    FramesAreRead(magic, judge, payloads[..k], tail);
  }

  // A codec that keeps the payload.
  const KEEP: Codec := payload => Delivered(TransportMessage("", Request, payload))

  // Two lists of payloads never make the same bytes.
  lemma {:induction false} UniqueDecoding(magic: nat, ps: seq<seq<byte>>, qs: seq<seq<byte>>)
    requires magic < UINT32_LIMIT && AllFit(ps) && AllFit(qs) && Frames(magic, ps) == Frames(magic, qs)
    ensures ps == qs
  {
    if ps == [] || qs == [] {
    } else {
      WholeFrameIsRead(magic, KEEP, ps[0], Frames(magic, ps[1..]));
      WholeFrameIsRead(magic, KEEP, qs[0], Frames(magic, qs[1..]));
      assert KEEP(ps[0]) == KEEP(qs[0]);
      UniqueDecoding(magic, ps[1..], qs[1..]);
      assert ps == [ps[0]] + ps[1..] && qs == [qs[0]] + qs[1..];
    }
  }

  // The two header fields, as a read finds them after printing.
  predicate HasHeader(v: Value) {
    var kind, number := At(v, "type"), At(v, "transaction");
    kind.Some? && kind.value.Str? &&
    number.Some? && (number.value.Int64? || (number.value.UInt64? && number.value.n < INT64_LIMIT))
  }

  lemma HeaderIsJudged(v: Value, payload: seq<byte>)
    requires v.Obj? && Parse(BytesText(payload)) == Ok(Normal(v))
    ensures !Ends(Judge(payload)) <==> HasHeader(v)
  {
    NormalKeepsKeys(v.members, "type");
    NormalKeepsKeys(v.members, "transaction");
  }

  // What becomes of the session when a peer sends a printed object: cut short anywhere, or with
  // more than space after it, it ends the session; whole, it does so only without the header fields.
  lemma PayloadSurvives(v: Value, payload: seq<byte>, rest: string)
    requires Valid(v) && v.Obj?
    ensures BytesText(payload) < Print(v) ==>
      Judge(payload) == Failed(Json(Incomplete)) && Ends(Judge(payload))
    ensures BytesText(payload) == Print(v) + rest && SkipSpace(rest) != "" ==>
      Judge(payload) == Failed(Json(ExtraData)) && Ends(Judge(payload))
    ensures BytesText(payload) == Print(v) + rest && SkipSpace(rest) == "" ==>
      (!Ends(Judge(payload)) <==> HasHeader(v))
  {
    var text := BytesText(payload);
    ObjectText(v, text, rest);
    if text == Print(v) + rest && SkipSpace(rest) == "" {
      HeaderIsJudged(v, payload);
    }
  }

  // A whole object with its header fields in which one character is replaced by a control
  // character, or cut off by one, is tolerated, whatever comes after: it costs itself only.
  lemma SpoiltPayloadSurvives(v: Value, payload: seq<byte>, cut: string, bad: string)
    requires Valid(v) && v.Obj? && Clean(v) && cut < Print(v) && Bad(bad) && bad != ""
    requires BytesText(payload) == cut + bad
    ensures Judge(payload) == Failed(Json(Syntax)) && !Ends(Judge(payload))
  {
    SpoiltObject(v, cut, bad);
  }

  // No message survives being cut short inside a frame.
  lemma CutMessageEnds(m: Message, payload: seq<byte>)
    requires Serializable(m) && payload < SerializeMessage(m).payload
    ensures Judge(payload) == Failed(Json(Incomplete)) && Ends(Judge(payload))
  {
    SerializeIsValid(m);
    PrintIsAscii(Serialize(m));
    BytesTextBytes(Print(Serialize(m)));
    var whole := SerializeMessage(m).payload;
    assert payload == whole[..|payload|];
    assert BytesText(payload) == BytesText(whole)[..|payload|];
    PayloadSurvives(Serialize(m), payload, "");
  }

  lemma {:induction false} ItemsAreClean(items: seq<Value>)
    requires forall k :: 0 <= k < |items| ==> Clean(items[k])
    ensures CleanItems(items)
  {
    if items != [] {
      ItemsAreClean(items[1..]);
    }
  }

  lemma {:induction false} MembersAreClean(members: seq<Member>)
    requires forall k :: 0 <= k < |members| ==> NoControl(members[k].key) && Clean(members[k].value)
    ensures CleanMembers(members)
  {
    if members != [] {
      MembersAreClean(members[1..]);
    }
  }

  lemma {:induction false} ByteItemsAreClean(data: seq<byte>)
    ensures CleanItems(ByteItems(data))
  {
    if data != [] {
      ByteItemsAreClean(data[1..]);
    }
  }

  lemma {:induction false} SampleItemsAreClean(samples: seq<Sample>)
    ensures CleanItems(SampleItems(samples))
  {
    if samples != [] {
      ItemsAreClean([Double(samples[0].re), Double(samples[0].im)]);
      SampleItemsAreClean(samples[1..]);
    }
  }

  lemma KeysAreClean()
    ensures NoControl("type") && NoControl("transaction") && NoControl("data")
    ensures NoControl("central_Freq") && NoControl("signal") && NoControl("numberCore")
  {}

  lemma MessageIsClean(m: Message)
    requires Serializable(m) && NoControl(m.kind)
    ensures Clean(Serialize(m))
  {
    KeysAreClean();
    if m.Raw? {
      ByteItemsAreClean(m.data);
    } else if m.Signal? {
      SampleItemsAreClean(m.samples);
    }
    MembersAreClean(HeaderMembers(m) + BodyMembers(m));
  }

  // A byte of any message spoilt on its way: that message is lost, the session goes on.
  lemma SpoiltMessageIsTolerated(m: Message, cut: nat, bad: byte, payload: seq<byte>)
    requires Serializable(m) && NoControl(m.kind) && cut < |SerializeMessage(m).payload| <= |payload|
    requires payload[..cut] == SerializeMessage(m).payload[..cut] && payload[cut] == bad
    requires bad < 0x20 && !IsSpace(bad as char)
    ensures Judge(payload) == Failed(Json(Syntax)) && !Ends(Judge(payload))
  {
    SerializeIsValid(m);
    PrintIsAscii(Serialize(m));
    MessageIsClean(m);
    var text := Print(Serialize(m));
    BytesTextBytes(text);
    assert BytesText(payload)[..cut] == text[..cut];
    assert BytesText(payload) == text[..cut] + BytesText(payload)[cut..];
    SpoiltPayloadSurvives(Serialize(m), payload, text[..cut], BytesText(payload)[cut..]);
  }

  // A text with a wrong character is tolerated and a text that stops short is not.
  lemma UnfinishedTextEnds()
    ensures Judge(TextBytes("]")) == Failed(Json(Syntax)) && !Ends(Judge(TextBytes("]")))
    ensures Judge(TextBytes("{")) == Failed(Json(Incomplete)) && Ends(Judge(TextBytes("{")))
  {}

  // A peer with another magic number gets nothing through.
  lemma WrongMagic(magic: nat, judge: Codec, other: nat, payload: seq<byte>, rest: seq<byte>)
    requires magic < UINT32_LIMIT && other < UINT32_LIMIT && magic != other
    ensures ReadAll(magic, judge, Frame(other, payload) + rest) == [Failed(Eof)]
  {
    U32Inverse(other);
    assert (Frame(other, payload) + rest)[..4] == LE(other, 4);
  }

  // ----- messages through frames -----

  // The two header fields come from the JSON text and agree with the message written.
  lemma MessageIsJudged(m: Message)
    requires Serializable(m)
    ensures Judge(SerializeMessage(m).payload) ==
      Delivered(TransportMessage(m.kind, WireTransaction(m), SerializeMessage(m).payload))
  {
    PayloadIsRead(m);
    FieldIsRead(m, "type");
    FieldIsRead(m, "transaction");
  }

  function Payloads(ms: seq<Message>): (ps: seq<seq<byte>>)
    requires forall k :: 0 <= k < |ms| ==> Serializable(ms[k])
    ensures |ps| == |ms|
    ensures forall k :: 0 <= k < |ms| ==> ps[k] == SerializeMessage(ms[k]).payload
  {
    if ms == [] then [] else [SerializeMessage(ms[0]).payload] + Payloads(ms[1..])
  }

  // What a stream of written messages is delivered as.
  function Deliveries(ms: seq<Message>): seq<Outcome>
    requires forall k :: 0 <= k < |ms| ==> Serializable(ms[k])
  {
    if ms == [] then []
    else
      [Delivered(TransportMessage(ms[0].kind, WireTransaction(ms[0]), SerializeMessage(ms[0]).payload))] +
      Deliveries(ms[1..])
  }

  lemma {:induction false} MessagesAreJudged(ms: seq<Message>)
    requires forall k :: 0 <= k < |ms| ==> Serializable(ms[k])
    ensures Verdicts(Judge, Payloads(ms)) == Deliveries(ms) + [Failed(Eof)]
  {
    if ms != [] {
      MessageIsJudged(ms[0]);
      MessagesAreJudged(ms[1..]);
      assert Payloads(ms)[1..] == Payloads(ms[1..]);
    }
  }

  lemma {:induction false} MessagesAreRead(magic: nat, ms: seq<Message>)
    requires magic < UINT32_LIMIT
    requires forall k :: 0 <= k < |ms| ==> Serializable(ms[k])
    requires AllFit(Payloads(ms))
    ensures ReadAll(magic, Judge, Frames(magic, Payloads(ms))) == Deliveries(ms) + [Failed(Eof)]
  {
    NothingIsPartial(magic);
    FramesAreRead(magic, Judge, Payloads(ms), []);
    assert Frames(magic, Payloads(ms)) + [] == Frames(magic, Payloads(ms));
    MessagesAreJudged(ms);
  }
}
