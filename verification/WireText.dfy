/** The texts that go over the wire, letter by letter, and what is read from them. */
module WireText {
  import opened Wrappers
  import opened JsonText
  import opened Messages
  import opened MessageHandler
  import opened Transport
  import opened Stream
  import opened Sizes
  import opened Client
  import opened JsonLaw

  // ----- objects -----

  // One member, and what follows it.
  function Word(key: string, value: string): string {
    ['"'] + key + ['"', ':'] + value
  }

  function Following(rest: seq<Member>): string
    requires ValidMembers(rest)
  {
    if rest == [] then "" else [','] + PrintMembers(rest)
  }

  lemma MemberIsWritten(key: string, value: Value, rest: seq<Member>)
    requires IsPlain(key) && Valid(value) && ValidMembers(rest)
    ensures ValidMembers([Member(key, value)] + rest)
    ensures PrintMembers([Member(key, value)] + rest) == Word(key, Print(value)) + Following(rest)
  {
    var members := [Member(key, value)] + rest;
    PlainIsPrinted(key);
    assert members[1..] == rest;
    assert ['"'] + key + ['"'] + [':'] + Print(value) + Following(rest) == Word(key, Print(value)) + Following(rest);
  }

  lemma LoneMemberIsWritten(key: string, value: Value)
    requires IsPlain(key) && Valid(value)
    ensures ValidMembers([Member(key, value)])
    ensures PrintMembers([Member(key, value)]) == Word(key, Print(value))
  {
    MemberIsWritten(key, value, []);
    assert [Member(key, value)] + [] == [Member(key, value)];
  }

  lemma TwoMembersAreWritten(a: Member, b: Member, rest: seq<Member>)
    requires IsPlain(a.key) && IsPlain(b.key) && Valid(a.value) && Valid(b.value) && ValidMembers(rest)
    ensures ValidMembers([a, b] + rest)
    ensures PrintMembers([a, b] + rest) ==
      Word(a.key, Print(a.value)) + ([','] + (Word(b.key, Print(b.value)) + Following(rest)))
  {
    MemberIsWritten(b.key, b.value, rest);
    MemberIsWritten(a.key, a.value, [b] + rest);
    assert [a] + ([b] + rest) == [a, b] + rest;
  }

  // ----- headers -----

  // The number each transaction is sent as.
  function NumberText(m: Message): string {
    match m.transaction
    case Request => "0"
    case Response => "1"
    case Tests => if m.Information? then "2" else "-1"
    case Error => "-1"
  }

  lemma NumberIsWritten(m: Message)
    ensures PrintInt(TransactionNumber(m)) == NumberText(m)
  {
    assert Digits(0) == "0" && Digits(1) == "1" && Digits(2) == "2";
  }

  lemma KindIsWritten(kind: string)
    requires IsPlain(kind)
    ensures Valid(Str(kind)) && Print(Str(kind)) == ['"'] + kind + ['"']
  {
    PlainIsPrinted(kind);
  }

  function Start(kind: string, number: string): string {
    "{\"type\":\"" + kind + "\",\"transaction\":" + number
  }

  // Two words, whatever their keys.
  lemma TwoWords(a: string, b: string, kind: string, number: string, tail: string)
    ensures ['{'] + (Word(a, ['"'] + kind + ['"']) + ([','] + (Word(b, number) + tail))) ==
      (['{', '"'] + a + ['"', ':', '"']) + kind + (['"', ',', '"'] + b + ['"', ':']) + number + tail
  {}

  lemma HeaderIsSpelled()
    ensures ['{', '"'] + "type" + ['"', ':', '"'] == "{\"type\":\""
    ensures ['"', ',', '"'] + "transaction" + ['"', ':'] == "\",\"transaction\":"
  {}

  lemma Spelled(kind: string, number: string, tail: string)
    ensures ['{'] + (Word("type", ['"'] + kind + ['"']) + ([','] + (Word("transaction", number) + tail))) ==
      Start(kind, number) + tail
  {
    TwoWords("type", "transaction", kind, number, tail);
    HeaderIsSpelled();
  }

  lemma HeaderIsWritten(kind: string, number: int, rest: seq<Member>)
    requires IsPlain(kind) && Valid(Int64(number)) && ValidMembers(rest)
    ensures var members := [Member("type", Str(kind)), Member("transaction", Int64(number))] + rest;
      ValidMembers(members) && ['{'] + PrintMembers(members) == Start(kind, PrintInt(number)) + Following(rest)
  {
    KeysArePlain();
    KindIsWritten(kind);
    TwoMembersAreWritten(Member("type", Str(kind)), Member("transaction", Int64(number)), rest);
    Spelled(kind, PrintInt(number), Following(rest));
  }

  // Every message begins with its type and the number of its transaction.
  lemma MessageIsWritten(m: Message)
    requires Serializable(m) && IsPlain(m.kind)
    ensures ValidMembers(BodyMembers(m))
    ensures BytesText(SerializeMessage(m).payload) ==
      Start(m.kind, NumberText(m)) + Following(BodyMembers(m)) + ['}']
  {
    BodyIsValid(m);
    NumberIsWritten(m);
    HeaderIsWritten(m.kind, TransactionNumber(m), BodyMembers(m));
    SerializeIsValid(m);
    PrintIsAscii(Serialize(m));
    BytesTextBytes(Print(Serialize(m)));
    assert Serialize(m) == Obj(HeaderMembers(m) + BodyMembers(m));
  }

  // ----- bodies -----

  lemma WordAfterComma(key: string, value: string, tail: string)
    ensures [','] + (Word(key, value) + tail) == (",\"" + key + "\":") + (value + tail)
  {
    var name := ['"'] + key + ['"', ':'];
    Assoc(name, value, tail);
    Assoc([','], name, value + tail);
    assert [','] + name == ",\"" + key + "\":";
  }

  lemma FieldIsWritten(key: string, value: Value, rest: seq<Member>)
    requires IsPlain(key) && Valid(value) && ValidMembers(rest)
    ensures ValidMembers([Member(key, value)] + rest)
    ensures Following([Member(key, value)] + rest) == (",\"" + key + "\":") + (Print(value) + Following(rest))
  {
    MemberIsWritten(key, value, rest);
    WordAfterComma(key, Print(value), Following(rest));
  }

  lemma LastFieldIsWritten(key: string, value: Value)
    requires IsPlain(key) && Valid(value)
    ensures ValidMembers([Member(key, value)])
    ensures Following([Member(key, value)]) == (",\"" + key + "\":") + Print(value)
  {
    FieldIsWritten(key, value, []);
    assert [Member(key, value)] + [] == [Member(key, value)] && Print(value) + "" == Print(value);
  }

  lemma KeysAreSpelled()
    ensures ",\"" + "data" + "\":" == ",\"data\":" && ",\"" + "numberCore" + "\":" == ",\"numberCore\":"
    ensures ",\"" + "central_Freq" + "\":" == ",\"central_Freq\":" && ",\"" + "signal" + "\":" == ",\"signal\":"
  {}

  lemma ArrayIsWritten(items: seq<Value>)
    requires ValidItems(items)
    ensures Valid(Arr(items)) && Print(Arr(items)) == ['['] + PrintItems(items) + [']']
  {}

  // ----- whole messages -----

  function List(items: seq<Value>): string
    requires ValidItems(items)
  {
    ['['] + PrintItems(items) + [']']
  }

  // What follows the header, by class and transaction.
  function BodyText(m: Message): string
    requires Serializable(m)
  {
    match m
    case Plain(_, _) => ""
    case Raw(_, _, data) =>
      ByteItemsAreValid(data);
      ",\"data\":" + List(ByteItems(data))
    case Signal(_, t, freq, samples) =>
      SampleItemsAreValid(samples);
      ",\"central_Freq\":" +
      (PrintInt(freq.value) + if t == Response then ",\"signal\":" + List(SampleItems(samples)) else "")
    case Information(_, t, cores) =>
      if t == Response || t == Tests then ",\"numberCore\":" + PrintInt(cores.value) else ""
  }

  lemma RawIsWritten(data: seq<byte>)
    requires ValidItems(ByteItems(data))
    ensures var body := [Member("data", Arr(ByteItems(data)))];
      ValidMembers(body) && Following(body) == ",\"data\":" + List(ByteItems(data))
  {
    KeysArePlain();
    KeysAreSpelled();
    ArrayIsWritten(ByteItems(data));
    LastFieldIsWritten("data", Arr(ByteItems(data)));
  }

  lemma SamplesAreWritten(samples: seq<Sample>)
    requires ValidItems(SampleItems(samples))
    ensures var body := [Member("signal", Arr(SampleItems(samples)))];
      ValidMembers(body) && Following(body) == ",\"signal\":" + List(SampleItems(samples))
  {
    KeysArePlain();
    KeysAreSpelled();
    ArrayIsWritten(SampleItems(samples));
    LastFieldIsWritten("signal", Arr(SampleItems(samples)));
  }

  lemma FrequencyIsWritten(freq: int, rest: seq<Member>)
    requires Valid(Int64(freq)) && ValidMembers(rest)
    ensures var body := [Member("central_Freq", Int64(freq))] + rest;
      ValidMembers(body) && Following(body) == ",\"central_Freq\":" + (PrintInt(freq) + Following(rest))
  {
    KeysArePlain();
    KeysAreSpelled();
    FieldIsWritten("central_Freq", Int64(freq), rest);
  }

  lemma CoresAreWritten(cores: int)
    requires Valid(Int64(cores))
    ensures var body := [Member("numberCore", Int64(cores))];
      ValidMembers(body) && Following(body) == ",\"numberCore\":" + PrintInt(cores)
  {
    KeysArePlain();
    KeysAreSpelled();
    LastFieldIsWritten("numberCore", Int64(cores));
  }

  lemma BodyIsWritten(m: Message)
    requires Serializable(m)
    ensures ValidMembers(BodyMembers(m)) && Following(BodyMembers(m)) == BodyText(m)
  {
    BodyIsValid(m);
    match m
    case Plain(_, _) =>
    case Raw(_, _, data) =>
      ByteItemsAreValid(data);
      RawIsWritten(data);
    case Signal(_, t, freq, samples) =>
      SampleItemsAreValid(samples);
      SamplesAreWritten(samples);
      FrequencyIsWritten(freq.value, if t == Response then [Member("signal", Arr(SampleItems(samples)))] else []);
    case Information(_, t, cores) =>
      if t == Response || t == Tests {
        CoresAreWritten(cores.value);
      }
  }

  // The text of every message, letter by letter.
  lemma TextOf(m: Message)
    requires Serializable(m) && IsPlain(m.kind)
    ensures BytesText(SerializeMessage(m).payload) == Start(m.kind, NumberText(m)) + BodyText(m) + ['}']
  {
    MessageIsWritten(m);
    BodyIsWritten(m);
  }

  // ----- what is read -----

  // The transaction of a number that arrives: it is cut to 32 bits first.
  function Arrived(n: int): Transaction {
    var k := n % UINT32_LIMIT;
    if k == 0 then Request else if k == 1 then Response else if k == 2 then Tests else Error
  }

  lemma NumberIsUnderstood(n: int)
    ensures TransactionOf(Int32(n)) == Arrived(n)
  {}

  // The number in a header, of either kind.
  function HeaderNumber(v: Value): int
    requires HasHeader(v)
  {
    var number := At(v, "transaction").value;
    if number.Int64? then number.i else number.n
  }

  lemma FieldsAreKept(v: Value)
    requires v.Obj? && HasHeader(v)
    ensures At(Normal(v), "type") == At(v, "type")
    ensures At(Normal(v), "transaction") == Some(Int64(HeaderNumber(v)))
  {
    NormalKeepsKeys(v.members, "type");
    NormalKeepsKeys(v.members, "transaction");
  }

  // Any object with the two header fields is delivered under its type, and its number means what
  // the number written for a transaction means.
  lemma HeaderIsUnderstood(v: Value, payload: seq<byte>)
    requires Valid(v) && v.Obj? && HasHeader(v) && BytesText(payload) == Print(v)
    ensures Judge(payload) ==
      Delivered(TransportMessage(At(v, "type").value.s, Arrived(HeaderNumber(v)), payload))
  {
    ParsePrint(v);
    FieldsAreKept(v);
    NumberIsUnderstood(HeaderNumber(v));
  }

  lemma RawText(items: string)
    ensures Start("raw", "1") + (",\"data\":" + (['['] + items + [']'])) + ['}'] ==
      "{\"type\":\"raw\",\"transaction\":1,\"data\":[" + items + "]}"
  {
    assert Start("raw", "1") + ",\"data\":" + ['['] == "{\"type\":\"raw\",\"transaction\":1,\"data\":[";
    assert [']'] + ['}'] == "]}";
  }

  lemma RequestText(text: seq<byte>)
    requires IsRequest(text)
    ensures BytesText(SerializeMessage(ClientMessage(text)).payload) ==
      "{\"type\":\"" + BytesText(text) + "\",\"transaction\":0}"
  {
    var kind := BytesText(text);
    KeysArePlain();
    TextOf(Plain(kind, Request));
    assert Start(kind, "0") + "" + ['}'] == "{\"type\":\"" + kind + "\",\"transaction\":0}";
  }

  lemma OtherText(text: seq<byte>)
    requires !IsRequest(text)
    ensures ValidItems(ByteItems(text))
    ensures BytesText(SerializeMessage(ClientMessage(text)).payload) ==
      "{\"type\":\"raw\",\"transaction\":1,\"data\":[" + PrintItems(ByteItems(text)) + "]}"
  {
    KeysArePlain();
    ByteItemsAreValid(text);
    TextOf(Raw("raw", Response, text));
    RawText(PrintItems(ByteItems(text)));
  }

  // What the user's texts become on the wire, and what arrives there.
  lemma UserText(text: seq<byte>)
    ensures var payload := SerializeMessage(ClientMessage(text)).payload;
      if IsRequest(text) then
        BytesText(payload) == "{\"type\":\"" + BytesText(text) + "\",\"transaction\":0}" &&
        Judge(payload) == Delivered(TransportMessage(BytesText(text), Request, payload))
      else
        ValidItems(ByteItems(text)) &&
        BytesText(payload) == "{\"type\":\"raw\",\"transaction\":1,\"data\":[" + PrintItems(ByteItems(text)) + "]}" &&
        Judge(payload) == Delivered(TransportMessage("raw", Response, payload))
  {
    MessageIsJudged(ClientMessage(text));
    if IsRequest(text) {
      RequestText(text);
    } else {
      OtherText(text);
    }
  }
}
