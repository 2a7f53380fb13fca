/** MessageHandler: messages to and from the payload bytes of a frame. */
module MessageHandler {
  import opened Wrappers
  import opened JsonText
  import opened JsonLaw
  import opened Messages

  datatype TransportMessage = TransportMessage(kind: string, transaction: Transaction, payload: seq<byte>)

  function TextBytes(s: string): (bs: seq<byte>)
    requires IsAscii(s)
    ensures |bs| == |s|
  {
    seq(|s|, k requires 0 <= k < |s| => s[k] as int)
  }

  function BytesText(bs: seq<byte>): string {
    seq(|bs|, k requires 0 <= k < |bs| => bs[k] as char)
  }

  lemma BytesTextBytes(s: string)
    requires IsAscii(s)
    ensures BytesText(TextBytes(s)) == s
  {}

  lemma {:induction false} EscapesAreAscii(s: string)
    requires IsAscii(s)
    ensures IsAscii(EscapeAll(s))
  {
    if s != "" {
      EscapesAreAscii(s[1..]);
    }
  }

  lemma IntsAreAscii(i: int)
    ensures IsAscii(PrintInt(i))
  {
    DigitsAreRead(if i < 0 then -i else i);
  }

  lemma DecimalsAreAscii(d: Decimal)
    requires AllDigits(d.frac)
    ensures IsAscii(PrintDecimal(d))
  {
    DigitsAreRead(d.whole);
    IntsAreAscii(d.exp);
  }

  lemma EnclosedIsAscii(open: char, s: string, close: char)
    requires IsAscii(s) && open as int < 0x80 && close as int < 0x80
    ensures IsAscii([open] + s + [close])
  {}

  lemma WordsAreAscii()
    ensures IsAscii("null") && IsAscii("true") && IsAscii("false")
  {}

  lemma StringIsAscii(s: string)
    requires IsAscii(s)
    ensures IsAscii(PrintString(s))
  {
    EscapesAreAscii(s);
    EnclosedIsAscii('"', EscapeAll(s), '"');
  }

  lemma {:induction false} PrintIsAscii(v: Value)
    requires Valid(v)
    ensures IsAscii(Print(v))
    decreases v, 1
  {
    match v
    case Int64(i) => IntsAreAscii(i);
    case UInt64(n) => IntsAreAscii(n);
    case Double(d) => DecimalsAreAscii(d);
    case Str(s) => StringIsAscii(s);
    case Arr(items) =>
      ItemsAreAscii(items);
      EnclosedIsAscii('[', PrintItems(items), ']');
    case Obj(members) =>
      MembersAreAscii(members);
      EnclosedIsAscii('{', PrintMembers(members), '}');
    case _ => WordsAreAscii();
  }

  lemma {:induction false} ItemsAreAscii(items: seq<Value>)
    requires ValidItems(items)
    ensures IsAscii(PrintItems(items))
    decreases items, 0
  {
    if items != [] {
      PrintIsAscii(items[0]);
      ItemsAreAscii(items[1..]);
    }
  }

  lemma {:induction false} MembersAreAscii(members: seq<Member>)
    requires ValidMembers(members)
    ensures IsAscii(PrintMembers(members))
    decreases members, 0
  {
    if members != [] {
      StringIsAscii(members[0].key);
      PrintIsAscii(members[0].value);
      MembersAreAscii(members[1..]);
    }
  }

  // ----- the values messages serialize to are printable -----

  lemma {:induction false} ByteItemsAreValid(data: seq<byte>)
    ensures ValidItems(ByteItems(data))
  {
    if data != [] {
      ByteItemsAreValid(data[1..]);
    }
  }

  lemma {:induction false} SampleItemsAreValid(samples: seq<Sample>)
    requires forall k :: 0 <= k < |samples| ==> ValidSample(samples[k])
    ensures ValidItems(SampleItems(samples))
  {
    if samples != [] {
      var pair := [Double(samples[0].re), Double(samples[0].im)];
      assert ValidItems(pair[1..][1..]);
      assert ValidItems(pair[1..]);
      assert Valid(Arr(pair));
      SampleItemsAreValid(samples[1..]);
    }
  }

  lemma {:induction false} MembersJoinValid(a: seq<Member>, b: seq<Member>)
    requires ValidMembers(a) && ValidMembers(b)
    ensures ValidMembers(a + b)
  {
    if a == [] {
      assert a + b == b;
    } else {
      MembersJoinValid(a[1..], b);
      assert (a + b)[1..] == a[1..] + b;
    }
  }

  lemma MemberIsValid(m: Member)
    requires IsAscii(m.key) && Valid(m.value)
    ensures ValidMembers([m])
  {}

  lemma BodyIsValid(m: Message)
    requires Serializable(m)
    ensures ValidMembers(BodyMembers(m))
  {
    match m
    case Plain(_, _) =>
    case Raw(_, _, data) =>
      ByteItemsAreValid(data);
      MemberIsValid(Member("data", Arr(ByteItems(data))));
    case Signal(_, t, freq, samples) =>
      MemberIsValid(Member("central_Freq", Int64(freq.value)));
      SampleItemsAreValid(samples);
      MemberIsValid(Member("signal", Arr(SampleItems(samples))));
      MembersJoinValid([Member("central_Freq", Int64(freq.value))], [Member("signal", Arr(SampleItems(samples)))]);
    case Information(_, t, cores) =>
      if t == Response || t == Tests {
        MemberIsValid(Member("numberCore", Int64(cores.value)));
      }
  }

  lemma SerializeIsValid(m: Message)
    requires Serializable(m)
    ensures Valid(Serialize(m))
  {
    var kind, number := Member("type", Str(m.kind)), Member("transaction", Int64(TransactionNumber(m)));
    MemberIsValid(kind);
    MemberIsValid(number);
    MembersJoinValid([kind], [number]);
    assert HeaderMembers(m) == [kind] + [number];
    BodyIsValid(m);
    MembersJoinValid(HeaderMembers(m), BodyMembers(m));
  }

  // ----- MessageHandler -----

  function SerializeMessage(m: Message): (tm: TransportMessage)
    requires Serializable(m)
    ensures tm.kind == m.kind && tm.transaction == m.transaction
  {
    SerializeIsValid(m);
    PrintIsAscii(Serialize(m));
    TransportMessage(m.kind, m.transaction, TextBytes(Print(Serialize(m))))
  }

  function ParseMessage(tm: TransportMessage): Option<Message> {
    match Parse(BytesText(tm.payload))
    case Ok(v) => CreateMessage(tm.kind, tm.transaction, v)
    case Err(_) => None
  }

  // ----- what a message becomes on the other side -----

  // Tests survives only on an InformationMessage; everywhere else it turns into Error.
  function WireTransaction(m: Message): Transaction {
    if m.transaction == Tests && !m.Information? then Error else m.transaction
  }

  // The class is chosen by the type string; the contents survive only in a Response whose
  // type string names its class.
  function WireForm(m: Message): Option<Message> {
    var t := WireTransaction(m);
    if m.kind == "raw" then
      Some(Raw(m.kind, t, if t == Response && m.Raw? then m.data else []))
    else if m.kind == "signal" then
      if t != Response then Some(Signal(m.kind, t, None, []))
      else if m.Signal? then Some(m)
      else None
    else if m.kind == "information" then
      if t != Response then Some(Information(m.kind, t, None))
      else if m.Information? then Some(m)
      else None
    else None
  }

  lemma {:induction false} NormalKeepsKeys(members: seq<Member>, key: string)
    ensures Find(NormalMembers(members), key) ==
      match Find(members, key) case Some(v) => Some(Normal(v)) case None => None
  {
    if members != [] {
      NormalKeepsKeys(members[1..], key);
    }
  }

  lemma FindFirst(m: Member, rest: seq<Member>, key: string)
    ensures Find([m] + rest, key) ==
      if Find(rest, key).Some? then Find(rest, key) else if m.key == key then Some(m.value) else None
  {}

  lemma BodyOf(m: Message, key: string)
    requires Serializable(m)
    ensures Find(BodyMembers(m), key) ==
      if m.Raw? && key == "data" then Some(Arr(ByteItems(m.data)))
      else if m.Signal? && key == "central_Freq" then Some(Int64(m.centralFreq.value))
      else if m.Signal? && key == "signal" && m.transaction == Response then Some(Arr(SampleItems(m.samples)))
      else if m.Information? && key == "numberCore" && (m.transaction == Response || m.transaction == Tests)
      then Some(Int64(m.numberCore.value))
      else None
  {
    if m.Signal? && m.transaction == Response {
      var rest := [Member("signal", Arr(SampleItems(m.samples)))];
      FindFirst(Member("central_Freq", Int64(m.centralFreq.value)), rest, key);
      FindFirst(rest[0], [], key);
      assert rest == [rest[0]] + [];
    } else if BodyMembers(m) != [] {
      var first := BodyMembers(m)[0];
      FindFirst(first, [], key);
      assert BodyMembers(m) == [first] + [];
    }
  }

  // Looking a key up in a serialized message.
  lemma MembersOf(m: Message, key: string)
    requires Serializable(m)
    ensures At(Serialize(m), key) ==
      if key == "type" then Some(Str(m.kind))
      else if key == "transaction" then Some(Int64(TransactionNumber(m)))
      else Find(BodyMembers(m), key)
  {
    var kind, number := Member("type", Str(m.kind)), Member("transaction", Int64(TransactionNumber(m)));
    var body := BodyMembers(m);
    assert HeaderMembers(m) + body == [kind] + ([number] + body);
    FindFirst(kind, [number] + body, key);
    FindFirst(number, body, key);
    BodyOf(m, key);
  }

  lemma {:induction false} BytesSurvive(data: seq<byte>)
    ensures BytesOf(NormalItems(ByteItems(data))) == data
  {
    if data != [] {
      BytesSurvive(data[1..]);
    }
  }

  lemma {:induction false} SamplesSurvive(samples: seq<Sample>)
    ensures SamplesOf(NormalItems(SampleItems(samples))) == Some(samples)
  {
    if samples != [] {
      var pair := [Double(samples[0].re), Double(samples[0].im)];
      assert NormalItems(pair[1..]) == pair[1..];
      assert NormalItems(pair) == pair;
      var items, first := SampleItems(samples), Sample(samples[0].re, samples[0].im);
      var read := NormalItems(items);
      assert items[0] == Arr(pair) && Normal(Arr(pair)) == Arr(pair);
      assert read[0] == Arr(pair) && read[1..] == NormalItems(SampleItems(samples[1..]));
      SamplesSurvive(samples[1..]);
      assert SamplesOf(read) == Some([first] + samples[1..]);
      assert [first] + samples[1..] == samples;
    }
  }

  // A body field of a message, as its reader finds it.
  function ReadField(m: Message, key: string): Option<Value>
    requires Serializable(m)
  {
    if m.Raw? && key == "data" then Some(Arr(NormalItems(ByteItems(m.data))))
    else if m.Signal? && key == "central_Freq" then Some(Int64(m.centralFreq.value))
    else if m.Signal? && key == "signal" && m.transaction == Response then
      Some(Arr(NormalItems(SampleItems(m.samples))))
    else if m.Information? && key == "numberCore" && (m.transaction == Response || m.transaction == Tests) then
      Some(Int64(m.numberCore.value))
    else None
  }

  lemma FieldIsRead(m: Message, key: string)
    requires Serializable(m)
    ensures At(Normal(Serialize(m)), key) ==
      if key == "type" then Some(Str(m.kind))
      else if key == "transaction" then Some(Int64(TransactionNumber(m)))
      else ReadField(m, key)
  {
    NormalKeepsKeys(HeaderMembers(m) + BodyMembers(m), key);
    MembersOf(m, key);
    BodyOf(m, key);
  }

  lemma PayloadIsRead(m: Message)
    requires Serializable(m)
    ensures Parse(BytesText(SerializeMessage(m).payload)) == Ok(Normal(Serialize(m)))
  {
    SerializeIsValid(m);
    PrintIsAscii(Serialize(m));
    BytesTextBytes(Print(Serialize(m)));
    ParsePrint(Serialize(m));
  }

  lemma RawIsRead(m: Message, t: Transaction)
    requires Serializable(m)
    ensures RawFrom(m.kind, t, Normal(Serialize(m))) ==
      Raw(m.kind, t, if t == Response && m.Raw? then m.data else [])
  {
    FieldIsRead(m, "data");
    if m.Raw? {
      BytesSurvive(m.data);
    }
  }

  lemma SignalIsRead(m: Message, t: Transaction)
    requires Serializable(m) && (t == Response ==> m.transaction == Response)
    ensures SignalFrom(m.kind, t, Normal(Serialize(m))) ==
      if t != Response then Some(Signal(m.kind, t, None, [])) else if m.Signal? then Some(m) else None
  {
    FieldIsRead(m, "central_Freq");
    FieldIsRead(m, "signal");
    if m.Signal? {
      SamplesSurvive(m.samples);
    }
  }

  lemma InformationIsRead(m: Message, t: Transaction)
    requires Serializable(m) && (t == Response ==> m.transaction == Response)
    ensures InformationFrom(m.kind, t, Normal(Serialize(m))) ==
      if t != Response then Some(Information(m.kind, t, None)) else if m.Information? then Some(m) else None
  {
    FieldIsRead(m, "numberCore");
  }

  // ----- any object, from whatever peer -----

  // The bytes a RawMessage keeps are those of the items before the first that is not a signed
  // integer, each modulo 256.
  lemma {:induction false} BytesAreThePrefix(items: seq<Value>, k: nat)
    requires k <= |items| && forall j :: 0 <= j < k ==> items[j].Int64?
    requires k < |items| ==> !items[k].Int64?
    ensures |BytesOf(items)| == k && forall j :: 0 <= j < k ==> BytesOf(items)[j] == items[j].i % 0x100
  {
    if k != 0 {
      BytesAreThePrefix(items[1..], k - 1);
    }
  }

  predicate IsPair(v: Value) {
    v.Arr? && |v.items| == 2
  }

  predicate IsComplex(v: Value) {
    IsPair(v) && v.items[0].Double? && v.items[1].Double?
  }

  // A signal is read if and only if every pair in it is one of doubles.
  lemma {:induction false} SamplesNeedDoubles(items: seq<Value>)
    ensures SamplesOf(items).Some? <==> forall k :: 0 <= k < |items| && IsPair(items[k]) ==> IsComplex(items[k])
  {
    if items != [] {
      SamplesNeedDoubles(items[1..]);
      assert forall k :: 0 < k < |items| ==> items[k] == items[1..][k - 1];
      if SamplesOf(items[1..]).None? {
        var k :| 0 <= k < |items[1..]| && IsPair(items[1..][k]) && !IsComplex(items[1..][k]);
        assert items[k + 1] == items[1..][k];
      }
    }
  }

  // What is not a pair in it leaves no trace.
  lemma {:induction false} OthersAreSkipped(before: seq<Value>, other: Value, after: seq<Value>)
    requires !IsPair(other)
    ensures SamplesOf(before + [other] + after) == SamplesOf(before + after)
  {
    if before == [] {
      assert before + [other] + after == [other] + after && before + after == after;
    } else {
      OthersAreSkipped(before[1..], other, after);
      assert (before + [other] + after)[1..] == before[1..] + [other] + after;
      assert (before + after)[1..] == before[1..] + after;
    }
  }

  // Which objects become messages: no Response of signal or information lacks a field, or has
  // one of another kind; every other object of a known type string does.
  lemma CreatedExactly(kind: string, t: Transaction, v: Value)
    ensures CreateMessage(kind, t, v).Some? <==>
      kind == "raw" ||
      (kind == "signal" && (t == Response ==>
        At(v, "central_Freq").Some? && At(v, "central_Freq").value.Int64? &&
        At(v, "signal").Some? && At(v, "signal").value.Arr? &&
        forall k :: 0 <= k < |At(v, "signal").value.items| && IsPair(At(v, "signal").value.items[k]) ==>
          IsComplex(At(v, "signal").value.items[k]))) ||
      (kind == "information" && (t == Response ==>
        At(v, "numberCore").Some? && At(v, "numberCore").value.Int64?))
  {
    assert "signal"[0] == 's' && "information"[0] == 'i' && "raw"[0] == 'r';
    if At(v, "signal").Some? && At(v, "signal").value.Arr? {
      SamplesNeedDoubles(At(v, "signal").value.items);
    }
  }

  // ----- the round trip -----

  // Serialize, print, parse and create, for every message of every class.
  lemma MessageRoundTrip(m: Message)
    requires Serializable(m)
    ensures ParseMessage(TransportMessage(m.kind, WireTransaction(m), SerializeMessage(m).payload)) == WireForm(m)
  {
    PayloadIsRead(m);
    RawIsRead(m, WireTransaction(m));
    SignalIsRead(m, WireTransaction(m));
    InformationIsRead(m, WireTransaction(m));
  }

  // The transaction after the wire is a normal form: a second trip changes neither it nor the
  // contents, with one exception.  An InformationMessage in Tests under the type string of another
  // class arrives as a message of that class, which cannot carry Tests.
  lemma SecondTrip(m: Message)
    requires WireForm(m).Some?
    ensures WireTransaction(WireForm(m).value) == WireTransaction(m) <==>
      !(m.Information? && m.transaction == Tests && m.kind != "information")
    ensures WireForm(WireForm(m).value) == WireForm(m) <==>
      !(m.Information? && m.transaction == Tests && m.kind != "information")
  {}
}
