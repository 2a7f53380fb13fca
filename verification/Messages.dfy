/** The message hierarchy and its two translations, to and from JSON values. */
module Messages {
  import opened Wrappers
  import opened JsonText

  type byte = b: int | 0 <= b < 0x100

  const INT32_LIMIT: int := 0x8000_0000

  datatype Transaction = Request | Response | Tests | Error

  datatype Sample = Sample(re: Decimal, im: Decimal)

  // The fields `_central_Freq` and `_numberCore` are None until a constructor sets them.
  datatype Message =
    | Plain(kind: string, transaction: Transaction)
    | Raw(kind: string, transaction: Transaction, data: seq<byte>)
    | Signal(kind: string, transaction: Transaction, centralFreq: Option<int>, samples: seq<Sample>)
    | Information(kind: string, transaction: Transaction, numberCore: Option<int>)

  // A conversion to the C++ type `int`.
  function Int32(i: int): (r: int)
    ensures -INT32_LIMIT <= r < INT32_LIMIT
    ensures -INT32_LIMIT <= i < INT32_LIMIT ==> r == i
    ensures (r - i) % UINT32_LIMIT == 0
  {
    (i + INT32_LIMIT) % UINT32_LIMIT - INT32_LIMIT
  }

  // `setTypeTransaction`
  function TransactionOf(n: int): Transaction {
    match n
    case 0 => Request
    case 1 => Response
    case 2 => Tests
    case _ => Error
  }

  // ----- to JSON -----

  // Only an InformationMessage has a number of its own for Tests.
  function TransactionNumber(m: Message): int {
    match m.transaction
    case Request => 0
    case Response => 1
    case Tests => if m.Information? then 2 else -1
    case Error => -1
  }

  predicate IsInt(x: Option<int>) {
    x.Some? && -INT32_LIMIT <= x.value < INT32_LIMIT
  }

  predicate ValidSample(c: Sample) {
    AllDigits(c.re.frac) && AllDigits(c.im.frac)
  }

  // What `serialize` reads has been set.
  predicate Serializable(m: Message) {
    IsAscii(m.kind) &&
    match m
    case Plain(_, _) => true
    case Raw(_, _, _) => true
    case Signal(_, _, freq, samples) =>
      IsInt(freq) && forall k :: 0 <= k < |samples| ==> ValidSample(samples[k])
    case Information(_, t, cores) => t == Response || t == Tests ==> IsInt(cores)
  }

  function HeaderMembers(m: Message): seq<Member> {
    [Member("type", Str(m.kind)), Member("transaction", Int64(TransactionNumber(m)))]
  }

  // A `uint8_t` becomes an unsigned JSON number.
  function ByteItems(data: seq<byte>): seq<Value> {
    if data == [] then [] else [UInt64(data[0])] + ByteItems(data[1..])
  }

  function SampleItems(samples: seq<Sample>): seq<Value> {
    if samples == [] then []
    else [Arr([Double(samples[0].re), Double(samples[0].im)])] + SampleItems(samples[1..])
  }

  function BodyMembers(m: Message): seq<Member>
    requires Serializable(m)
  {
    match m
    case Plain(_, _) => []
    case Raw(_, _, data) => [Member("data", Arr(ByteItems(data)))]
    case Signal(_, t, freq, samples) =>
      [Member("central_Freq", Int64(freq.value))] +
      (if t == Response then [Member("signal", Arr(SampleItems(samples)))] else [])
    case Information(_, t, cores) =>
      if t == Response || t == Tests then [Member("numberCore", Int64(cores.value))] else []
  }

  function Serialize(m: Message): Value
    requires Serializable(m)
  {
    Obj(HeaderMembers(m) + BodyMembers(m))
  }

  method SerializeRaw(m: Message) returns (payload: Value)
    requires m.Raw? && Serializable(m)
    ensures payload == Serialize(m)
  {
    var members := [Member("type", Str(m.kind))];
    if m.transaction == Request {
      members := members + [Member("transaction", Int64(0))];
    } else if m.transaction == Response {
      members := members + [Member("transaction", Int64(1))];
    } else {
      members := members + [Member("transaction", Int64(-1))];
    }
    var items := [];
    for i := 0 to |m.data|
      invariant items + ByteItems(m.data[i..]) == ByteItems(m.data)
    {
      assert m.data[i..][1..] == m.data[i + 1..];
      items := items + [UInt64(m.data[i])];
    }
    assert items == ByteItems(m.data);
    payload := Obj(members + [Member("data", Arr(items))]);
    assert payload.members == HeaderMembers(m) + BodyMembers(m);
  }

  method SerializeSignal(m: Message) returns (payload: Value)
    requires m.Signal? && Serializable(m)
    ensures payload == Serialize(m)
  {
    var members := [Member("type", Str(m.kind))];
    if m.transaction == Request {
      members := members + [Member("transaction", Int64(0))];
    } else if m.transaction == Response {
      members := members + [Member("transaction", Int64(1))];
    } else {
      members := members + [Member("transaction", Int64(-1))];
    }
    members := members + [Member("central_Freq", Int64(m.centralFreq.value))];
    if m.transaction == Response {
      var signal := [];
      for i := 0 to |m.samples|
        invariant signal + SampleItems(m.samples[i..]) == SampleItems(m.samples)
      {
        assert m.samples[i..][1..] == m.samples[i + 1..];
        signal := signal + [Arr([Double(m.samples[i].re), Double(m.samples[i].im)])];
      }
      assert signal == SampleItems(m.samples);
      members := members + [Member("signal", Arr(signal))];
    }
    payload := Obj(members);
    assert members == HeaderMembers(m) + BodyMembers(m);
  }

  // ----- from JSON -----

  // The data a RawMessage keeps: everything before the first item that is not a signed integer.
  function BytesOf(items: seq<Value>): seq<byte> {
    if items == [] || !items[0].Int64? then []
    else [items[0].i % 0x100] + BytesOf(items[1..])
  }

  // The samples of a signal; pairs of doubles count, a pair of anything else is an exception.
  function SamplesOf(items: seq<Value>): Option<seq<Sample>> {
    if items == [] then Some([])
    else if items[0].Arr? && |items[0].items| == 2 then
      if items[0].items[0].Double? && items[0].items[1].Double? && SamplesOf(items[1..]).Some? then
        Some([Sample(items[0].items[0].d, items[0].items[1].d)] + SamplesOf(items[1..]).value)
      else None
    else SamplesOf(items[1..])
  }

  function RawFrom(kind: string, t: Transaction, v: Value): Message {
    var data := At(v, "data");
    Raw(kind, t, if t == Response && data.Some? && data.value.Arr? then BytesOf(data.value.items) else [])
  }

  function SignalFrom(kind: string, t: Transaction, v: Value): Option<Message> {
    if t != Response then Some(Signal(kind, t, None, [])) else
    var freq := At(v, "central_Freq");
    var signal := At(v, "signal");
    if freq.Some? && freq.value.Int64? && signal.Some? && signal.value.Arr? &&
      SamplesOf(signal.value.items).Some?
    then Some(Signal(kind, t, Some(Int32(freq.value.i)), SamplesOf(signal.value.items).value))
    else None
  }

  function InformationFrom(kind: string, t: Transaction, v: Value): Option<Message> {
    if t != Response then Some(Information(kind, t, None)) else
    var cores := At(v, "numberCore");
    if cores.Some? && cores.value.Int64? then Some(Information(kind, t, Some(Int32(cores.value.i)))) else None
  }

  // `CreatorMessage::createMessage` with the three registered types; None is the null message.
  function CreateMessage(kind: string, t: Transaction, v: Value): Option<Message> {
    if kind == "signal" then SignalFrom(kind, t, v)
    else if kind == "information" then InformationFrom(kind, t, v)
    else if kind == "raw" then Some(RawFrom(kind, t, v))
    else None
  }

  method ParseRaw(kind: string, t: Transaction, v: Value) returns (m: Message)
    ensures m == RawFrom(kind, t, v)
  {
    var data: seq<byte> := [];
    if t == Response {
      var field := At(v, "data");
      if field.Some? && field.value.Arr? {
        var items := field.value.items;
        var i := 0;
        while i < |items| && items[i].Int64?
          invariant i <= |items|
          invariant data + BytesOf(items[i..]) == BytesOf(items)
        {
          assert items[i..][1..] == items[i + 1..];
          data := data + [items[i].i % 0x100];
          i := i + 1;
        }
        assert BytesOf(items[i..]) == [];
      }
    }
    m := Raw(kind, t, data);
  }

  method ParseSignal(kind: string, t: Transaction, v: Value) returns (m: Option<Message>)
    ensures m == SignalFrom(kind, t, v)
  {
    if t != Response {
      return Some(Signal(kind, t, None, []));
    }
    var freq, signal := At(v, "central_Freq"), At(v, "signal");
    if freq.None? || !freq.value.Int64? || signal.None? || !signal.value.Arr? {
      return None;
    }
    var items := signal.value.items;
    var samples := [];
    for i := 0 to |items|
      invariant SamplesOf(items).Some? <==> SamplesOf(items[i..]).Some?
      invariant SamplesOf(items).Some? ==> samples + SamplesOf(items[i..]).value == SamplesOf(items).value
    {
      assert items[i..][1..] == items[i + 1..] && items[i..][0] == items[i];
      if items[i].Arr? && |items[i].items| == 2 {
        var pair := items[i].items;
        if !pair[0].Double? || !pair[1].Double? {
          assert SamplesOf(items[i..]).None?;
          return None;
        }
        samples := samples + [Sample(pair[0].d, pair[1].d)];
      }
    }
    assert items[|items|..] == [] && SamplesOf([]) == Some([]);
    assert samples == SamplesOf(items).value;
    m := Some(Signal(kind, t, Some(Int32(freq.value.i)), samples));
  }
}
