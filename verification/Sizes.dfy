/** How long the texts of messages are: which fit in a frame. */
module Sizes {
  import opened Wrappers
  import opened JsonText
  import opened Messages
  import opened MessageHandler
  import opened Exchange

  // ----- numbers -----

  function Power10(k: nat): nat {
    if k == 0 then 1 else 10 * Power10(k - 1)
  }

  lemma {:induction false} DigitsAreShort(n: nat, k: nat)
    requires k > 0 && n < Power10(k)
    ensures |Digits(n)| <= k
  {
    if n >= 10 {
      DigitsAreShort(n / 10, k - 1);
    }
  }

  lemma SmallIntIsShort(i: int)
    requires -100000 < i < 100000
    ensures |PrintInt(i)| <= 6
  {
    assert Power10(5) == 100000 by {
      assert Power10(3) == 1000;
    }
    DigitsAreShort(if i < 0 then -i else i, 5);
  }

  lemma DoubleIsShort(d: Decimal)
    requires IsShortest(d)
    ensures |PrintDecimal(d)| <= 26
  {
    SmallIntIsShort(d.exp);
  }

  // ----- lists -----

  lemma ItemSize(item: Value, rest: seq<Value>)
    requires Valid(item) && ValidItems(rest)
    ensures ValidItems([item] + rest)
    ensures |PrintItems([item] + rest)| == |Print(item)| + if rest == [] then 0 else 1 + |PrintItems(rest)|
  {
    assert ([item] + rest)[1..] == rest;
  }

  lemma SampleIsShort(c: Sample)
    requires IsShortest(c.re) && IsShortest(c.im)
    ensures var pair := Arr([Double(c.re), Double(c.im)]); Valid(pair) && |Print(pair)| <= 55
  {
    DoubleIsShort(c.re);
    DoubleIsShort(c.im);
    ItemSize(Double(c.im), []);
    ItemSize(Double(c.re), [Double(c.im)]);
    assert [Double(c.im)] + [] == [Double(c.im)];
    assert [Double(c.re)] + [Double(c.im)] == [Double(c.re), Double(c.im)];
  }

  lemma {:induction false} SamplesAreShort(samples: seq<Sample>)
    requires forall k :: 0 <= k < |samples| ==> IsShortest(samples[k].re) && IsShortest(samples[k].im)
    ensures ValidItems(SampleItems(samples)) && |PrintItems(SampleItems(samples))| <= 56 * |samples|
  {
    if samples != [] {
      SampleIsShort(samples[0]);
      SamplesAreShort(samples[1..]);
      ItemSize(Arr([Double(samples[0].re), Double(samples[0].im)]), SampleItems(samples[1..]));
    }
  }

  // The decimal digits of a byte, and of bytes with commas between them.
  function ByteSize(b: byte): nat {
    if b < 10 then 1 else if b < 100 then 2 else 3
  }

  function ListSize(data: seq<byte>): (n: nat)
    ensures n <= 4 * |data|
  {
    if data == [] then 0
    else ByteSize(data[0]) + if |data| == 1 then 0 else 1 + ListSize(data[1..])
  }

  lemma {:induction false} DigitsSize(n: nat)
    requires n < 1000
    ensures |Digits(n)| == if n < 10 then 1 else if n < 100 then 2 else 3
  {
    if n >= 10 {
      DigitsSize(n / 10);
    }
  }

  lemma {:induction false} BytesArePrinted(data: seq<byte>)
    ensures ValidItems(ByteItems(data)) && |PrintItems(ByteItems(data))| == ListSize(data)
  {
    if data != [] {
      DigitsSize(data[0]);
      BytesArePrinted(data[1..]);
      ItemSize(UInt64(data[0]), ByteItems(data[1..]));
    }
  }

  // ----- objects -----

  // Nothing in it is escaped.
  predicate IsPlain(s: string) {
    forall k :: 0 <= k < |s| ==> 0x20 <= s[k] as int < 0x80 && s[k] != '"' && s[k] != '\\'
  }

  lemma {:induction false} PlainIsPrinted(s: string)
    requires IsPlain(s)
    ensures IsAscii(s) && EscapeAll(s) == s
  {
    if s != "" {
      PlainIsPrinted(s[1..]);
      assert EscapeAll(s) == [s[0]] + s[1..];
    }
  }

  lemma MemberSize(key: string, value: Value, rest: seq<Member>)
    requires IsPlain(key) && Valid(value) && ValidMembers(rest)
    ensures ValidMembers([Member(key, value)] + rest)
    ensures |PrintMembers([Member(key, value)] + rest)| ==
      |key| + 3 + |Print(value)| + if rest == [] then 0 else 1 + |PrintMembers(rest)|
  {
    var members := [Member(key, value)] + rest;
    PlainIsPrinted(key);
    assert members[1..] == rest;
  }

  lemma LoneMemberSize(key: string, value: Value)
    requires IsPlain(key) && Valid(value)
    ensures ValidMembers([Member(key, value)]) && |PrintMembers([Member(key, value)])| == |key| + 3 + |Print(value)|
  {
    MemberSize(key, value, []);
    assert [Member(key, value)] + [] == [Member(key, value)];
  }

  // Two members before others, for any keys.
  lemma TwoMembersSize(a: Member, b: Member, rest: seq<Member>)
    requires IsPlain(a.key) && IsPlain(b.key) && Valid(a.value) && Valid(b.value) && ValidMembers(rest)
    ensures ValidMembers([a, b] + rest)
    ensures |PrintMembers([a, b] + rest)| ==
      |a.key| + |Print(a.value)| + |b.key| + |Print(b.value)| + 7 + if rest == [] then 0 else 1 + |PrintMembers(rest)|
  {
    MemberSize(b.key, b.value, rest);
    MemberSize(a.key, a.value, [b] + rest);
    assert [a] + ([b] + rest) == [a, b] + rest;
  }

  lemma KeysArePlain()
    ensures IsPlain("type") && IsPlain("transaction") && IsPlain("data") && IsPlain("central_Freq")
    ensures IsPlain("signal") && IsPlain("numberCore") && IsPlain("information") && IsPlain("raw")
  {}

  lemma StringSize(s: string)
    requires IsPlain(s)
    ensures Valid(Str(s)) && |Print(Str(s))| == |s| + 2
  {
    PlainIsPrinted(s);
  }

  lemma HeaderSize(kind: string, number: int, body: seq<Member>)
    requires IsPlain(kind) && Valid(Int64(number)) && ValidMembers(body)
    ensures var members := [Member("type", Str(kind)), Member("transaction", Int64(number))] + body;
      ValidMembers(members) &&
      |PrintMembers(members)| ==
        |kind| + 24 + |PrintInt(number)| + if body == [] then 0 else 1 + |PrintMembers(body)|
  {
    KeysArePlain();
    StringSize(kind);
    TwoMembersSize(Member("type", Str(kind)), Member("transaction", Int64(number)), body);
  }

  lemma ObjectSize(members: seq<Member>)
    requires ValidMembers(members)
    ensures |Print(Obj(members))| == 2 + |PrintMembers(members)|
  {}

  // The text of a message: its two header members and the rest.
  lemma PayloadSize(m: Message)
    requires Serializable(m) && IsPlain(m.kind)
    ensures ValidMembers(BodyMembers(m))
    ensures |SerializeMessage(m).payload| == |m.kind| + 26 + |PrintInt(TransactionNumber(m))| +
      if BodyMembers(m) == [] then 0 else 1 + |PrintMembers(BodyMembers(m))|
  {
    SerializeIsValid(m);
    BodyIsValid(m);
    HeaderSize(m.kind, TransactionNumber(m), BodyMembers(m));
    ObjectSize(HeaderMembers(m) + BodyMembers(m));
    assert Serialize(m) == Obj(HeaderMembers(m) + BodyMembers(m));
  }

  // ----- messages -----

  lemma RequestSize(kind: string)
    requires kind == "signal" || kind == "information"
    ensures |SerializeMessage(Plain(kind, Request)).payload| == 27 + |kind|
  {
    PayloadSize(Plain(kind, Request));
  }

  lemma ArraySize(items: seq<Value>)
    requires ValidItems(items)
    ensures Valid(Arr(items)) && |Print(Arr(items))| == 2 + |PrintItems(items)|
  {}

  lemma RawSize(data: seq<byte>)
    ensures |SerializeMessage(Raw("raw", Response, data)).payload| == 40 + ListSize(data)
  {
    BytesArePrinted(data);
    ArraySize(ByteItems(data));
    LoneMemberSize("data", Arr(ByteItems(data)));
    PayloadSize(Raw("raw", Response, data));
  }

  lemma SignalBodySize(freq: int, samples: seq<Sample>)
    requires 0 <= freq < 100000 && ValidItems(SampleItems(samples))
    ensures var body := [Member("central_Freq", Int64(freq)), Member("signal", Arr(SampleItems(samples)))];
      ValidMembers(body) && |PrintMembers(body)| <= 33 + |PrintItems(SampleItems(samples))|
  {
    var first, second := Member("central_Freq", Int64(freq)), Member("signal", Arr(SampleItems(samples)));
    KeysArePlain();
    SmallIntIsShort(freq);
    ArraySize(SampleItems(samples));
    TwoMembersSize(first, second, []);
    assert [first, second] + [] == [first, second];
  }

  lemma SignalSize(freq: int, samples: seq<Sample>)
    requires 0 <= freq < 100000 && ValidItems(SampleItems(samples))
    requires Serializable(Signal("signal", Response, Some(freq), samples))
    ensures |SerializeMessage(Signal("signal", Response, Some(freq), samples)).payload| <=
      67 + |PrintItems(SampleItems(samples))|
  {
    KeysArePlain();
    SignalBodySize(freq, samples);
    PayloadSize(Signal("signal", Response, Some(freq), samples));
  }

  // Every reply fits in a frame, many times over.
  lemma SignalReplyFits(c: Choice)
    ensures |SerializeMessage(Signal("signal", Response, Some(c.centralFreq), Samples(c))).payload| < 2000
  {
    SamplesAreShort(Samples(c));
    SignalSize(c.centralFreq, Samples(c));
  }

  lemma InformationBodySize(cores: int)
    requires 0 <= cores < 100000
    ensures var body := [Member("numberCore", Int64(cores))]; ValidMembers(body) && |PrintMembers(body)| <= 19
  {
    KeysArePlain();
    SmallIntIsShort(cores);
    LoneMemberSize("numberCore", Int64(cores));
  }

  lemma InformationSize(kind: string, cores: int)
    requires IsPlain(kind) && IsAscii(kind) && 0 <= cores < 100000
    ensures |SerializeMessage(Information(kind, Response, Some(cores))).payload| <= |kind| + 52
  {
    InformationBodySize(cores);
    PayloadSize(Information(kind, Response, Some(cores)));
  }

  lemma InformationReplyFits(c: Choice)
    ensures |SerializeMessage(Information("information", Response, Some(c.numberCore))).payload| < 2000
  {
    KeysArePlain();
    InformationSize("information", c.numberCore);
  }
}
