/**
 The law the message codec rests on: parsing what was printed gives the value back,
 with unsigned integers below 2^63 now signed.
 */
module JsonLaw {
  import opened Wrappers
  import opened JsonText

  // What may follow a printed value without changing how it is read.
  predicate Stops(rest: string) {
    rest == "" || rest[0] == ',' || rest[0] == ']' || rest[0] == '}' || rest[0] as int < 0x20
  }

  // A value whose text has an end of its own, whatever follows it.
  predicate Closed(v: Value) {
    v.Str? || v.Arr? || v.Obj?
  }

  lemma Sliced(a: string, b: string)
    ensures (a + b)[..|a|] == a && (a + b)[|a|..] == b
  {}

  lemma Behead(c: char, s: string)
    ensures ([c] + s)[0] == c && ([c] + s)[1..] == s
  {}

  // ----- numbers -----

  lemma {:induction false} DigitsAreRead(n: nat)
    ensures AllDigits(Digits(n)) && Digits(n) != "" && DigitsValue(Digits(n)) == n
    ensures Digits(n)[0] == '0' ==> n == 0
  {
    var ds := Digits(n);
    if n < 10 {
      assert ds[..|ds| - 1] == "";
    } else {
      DigitsAreRead(n / 10);
      assert ds[..|ds| - 1] == Digits(n / 10);
    }
  }

  lemma {:induction false} SpanStops(ds: string, rest: string)
    requires AllDigits(ds) && (rest == "" || !IsDigit(rest[0]))
    ensures DigitSpan(ds + rest) == |ds|
  {
    if ds == "" {
      assert ds + rest == rest;
    } else {
      assert (ds + rest)[1..] == ds[1..] + rest;
      SpanStops(ds[1..], rest);
    }
  }

  lemma ExponentDigitsAreRead(neg: bool, n: nat, rest: string)
    requires Stops(rest)
    ensures ParseExponentDigits(neg, Digits(n) + rest) == Ok((Some(if neg then -(n as int) else n), rest))
  {
    DigitsAreRead(n);
    SpanStops(Digits(n), rest);
    Sliced(Digits(n), rest);
  }

  // What the sign of an exponent selects, for digits `ds` not looked into.
  lemma ExponentSign(neg: bool, ds: string)
    requires ds != "" && IsDigit(ds[0])
    ensures ParseExponent(['E'] + ((if neg then ['-'] else "") + ds)) == ParseExponentDigits(neg, ds)
  {
    var s := ['E'] + ((if neg then ['-'] else "") + ds);
    if neg {
      assert s[1] == '-' && s[2..] == ds;
    } else {
      assert s[1] == ds[0] && s[1..] == ds;
    }
  }

  lemma ExponentIsRead(e: int, rest: string)
    requires Stops(rest)
    ensures ParseExponent(['E'] + (PrintInt(e) + rest)) == Ok((Some(e), rest))
  {
    var n := if e < 0 then -e else e;
    DigitsAreRead(n);
    ExponentDigitsAreRead(e < 0, n, rest);
    ExponentSign(e < 0, Digits(n) + rest);
    assert PrintInt(e) + rest == (if e < 0 then ['-'] else "") + (Digits(n) + rest);
  }

  lemma FractionIsRead(frac: string, rest: string)
    requires AllDigits(frac)
    requires rest == "" || (!IsDigit(rest[0]) && rest[0] != '.')
    ensures ParseFraction((if frac == "" then "" else ['.'] + frac) + rest) == Ok((frac, rest))
  {
    if frac == "" {
      assert "" + rest == rest;
    } else {
      assert (['.'] + frac + rest)[1..] == frac + rest;
      SpanStops(frac, rest);
      Sliced(frac, rest);
    }
  }

  // The leading digits of a number, followed by `tail`: a fraction, an exponent, both or neither.
  lemma UnsignedIsRead(neg: bool, whole: nat, tail: string, frac: string, exp: Option<int>, mid: string, rest: string)
    requires tail == "" || !IsDigit(tail[0])
    requires ParseFraction(tail) == Ok((frac, mid)) && ParseExponent(mid) == Ok((exp, rest))
    ensures ParseUnsigned(neg, Digits(whole) + tail) == Ok((NumberValue(neg, whole, frac, exp), rest))
  {
    DigitsAreRead(whole);
    SpanStops(Digits(whole), tail);
    Sliced(Digits(whole), tail);
  }

  lemma SignIsRead(neg: bool, whole: nat, tail: string)
    ensures ParseNumber((if neg then ['-'] else "") + (Digits(whole) + tail)) ==
      ParseUnsigned(neg, Digits(whole) + tail)
  {
    DigitsAreRead(whole);
    var s := Digits(whole) + tail;
    assert s[0] == Digits(whole)[0];
    assert "" + s == s;
    assert (['-'] + s)[1..] == s;
  }

  lemma NoFraction(rest: string)
    requires Stops(rest)
    ensures ParseFraction(rest) == Ok(("", rest)) && ParseExponent(rest) == Ok((None, rest))
  {}

  lemma IntegerText(i: int, rest: string)
    ensures PrintInt(i) + rest ==
      (if i < 0 then ['-'] else "") + (Digits(if i < 0 then -i else i) + rest)
  {}

  lemma IntegerIsRead(i: int, rest: string)
    requires Stops(rest) && -INT64_LIMIT <= i < UINT64_LIMIT
    ensures ParseNumber(PrintInt(i) + rest) == Ok((if i < INT64_LIMIT then Int64(i) else UInt64(i), rest))
  {
    var neg, whole := i < 0, if i < 0 then -i else i;
    NoFraction(rest);
    UnsignedIsRead(neg, whole, rest, "", None, rest, rest);
    SignIsRead(neg, whole, rest);
    IntegerText(i, rest);
    assert IntegerValue(neg, whole) == if i < INT64_LIMIT then Int64(i) else UInt64(i);
  }

  lemma DecimalText(sign: string, whole: string, frac: string, exp: string, rest: string)
    ensures (sign + whole + frac + ['E'] + exp) + rest == sign + (whole + (frac + (['E'] + (exp + rest))))
  {}

  lemma DecimalIsRead(d: Decimal, rest: string)
    requires Stops(rest) && AllDigits(d.frac)
    ensures ParseNumber(PrintDecimal(d) + rest) == Ok((Double(d), rest))
  {
    var e := ['E'] + (PrintInt(d.exp) + rest);
    var f := if d.frac == "" then "" else ['.'] + d.frac;
    var tail := f + e;
    FractionIsRead(d.frac, e);
    ExponentIsRead(d.exp, rest);
    UnsignedIsRead(d.neg, d.whole, tail, d.frac, Some(d.exp), e, rest);
    SignIsRead(d.neg, d.whole, tail);
    DecimalText(if d.neg then ['-'] else "", Digits(d.whole), f, PrintInt(d.exp), rest);
  }

  // ----- strings -----

  lemma ControlIsRead(hi: nat, lo: nat, rest: string)
    requires hi < 2 && lo < 16
    ensures ParseHex(['0', '0', HexChar(hi), HexChar(lo)] + rest, 4, 0) == Ok((hi * 16 + lo, rest))
  {
    var s := ['0', '0', HexChar(hi), HexChar(lo)] + rest;
    assert HexValue(HexChar(lo)) == Some(lo);
    assert s[1..][1..][1..][1..] == rest;
    assert ParseHex(rest, 0, hi * 16 + lo) == Ok((hi * 16 + lo, rest));
    assert ParseHex(s[1..][1..][1..], 1, hi) == Ok((hi * 16 + lo, rest));
    assert ParseHex(s[1..][1..], 2, 0) == Ok((hi * 16 + lo, rest));
    assert ParseHex(s[1..], 3, 0) == Ok((hi * 16 + lo, rest));
  }

  lemma CharIsRead(c: char, rest: string)
    requires c as int < 0x80
    ensures Escape(c) != "" && Escape(c)[0] != '"'
    ensures ParseChar(Escape(c) + rest) == Ok((c, rest))
  {
    var s := Escape(c) + rest;
    if |Escape(c)| == 6 {
      var hi, lo := c as int / 16, c as int % 16;
      ControlIsRead(hi, lo, rest);
      assert s[2..] == ['0', '0', HexChar(hi), HexChar(lo)] + rest;
    } else if |Escape(c)| == 2 {
      assert s[2..] == rest;
    } else {
      assert s[1..] == rest;
    }
  }

  lemma CharStep(s: string, c: char, t: string)
    requires s != "" && s[0] != '"' && ParseChar(s) == Ok((c, t)) && ParseChars(t).Ok?
    ensures ParseChars(s) == Ok(([c] + ParseChars(t).value.0, ParseChars(t).value.1))
  {}

  lemma {:induction false} CharsAreRead(cs: string, rest: string)
    requires IsAscii(cs)
    ensures ParseChars(EscapeAll(cs) + (['"'] + rest)) == Ok((cs, rest))
  {
    var end := ['"'] + rest;
    Behead('"', rest);
    if cs == "" {
      assert EscapeAll(cs) + end == end;
    } else {
      var more := EscapeAll(cs[1..]) + end;
      CharsAreRead(cs[1..], rest);
      CharIsRead(cs[0], more);
      Assoc(Escape(cs[0]), EscapeAll(cs[1..]), end);
      CharStep(Escape(cs[0]) + more, cs[0], more);
      assert [cs[0]] + cs[1..] == cs;
    }
  }

  // ----- values -----

  lemma PrintStarts(v: Value)
    requires Valid(v)
    ensures Print(v) != "" && !IsSpace(Print(v)[0]) && Print(v)[0] != ']' && Print(v)[0] != '}'
    ensures (v.Int64? || v.UInt64? || v.Double?) ==> Print(v)[0] == '-' || IsDigit(Print(v)[0])
  {
    if v.Int64? || v.UInt64? {
      var i := if v.Int64? then v.i else v.n;
      DigitsAreRead(if i < 0 then -i else i);
    } else if v.Double? {
      DigitsAreRead(v.d.whole);
    }
  }

  // The first character decides what kind of value is read.
  lemma NumberStarts(s: string)
    requires s != "" && (s[0] == '-' || IsDigit(s[0]))
    ensures ParseValue(s) == ParseNumber(s)
  {}

  lemma NumberValueIsRead(v: Value, rest: string)
    requires Valid(v) && Stops(rest) && (v.Int64? || v.UInt64? || v.Double?)
    ensures ParseValue(Print(v) + rest) == Ok((Normal(v), rest))
  {
    PrintStarts(v);
    NumberStarts(Print(v) + rest);
    if v.Int64? {
      IntegerIsRead(v.i, rest);
    } else if v.UInt64? {
      IntegerIsRead(v.n, rest);
    } else {
      DecimalIsRead(v.d, rest);
    }
  }

  lemma QuotedText(s: string, tail: string)
    ensures (['"'] + s + ['"']) + tail == ['"'] + (s + (['"'] + tail))
  {}

  // A string after its opening quote.
  lemma StringOpens(t: string)
    ensures ParseValue(['"'] + t) ==
      match ParseChars(t) case Ok((cs, rest)) => Ok((Str(cs), rest)) case Err(e) => Err(e)
  {
    Behead('"', t);
  }

  lemma KeyOpens(t: string)
    ensures ParseChars(t).Err? ==> ParseKey(['"'] + t) == Err(ParseChars(t).error)
    ensures ParseChars(t).Ok? ==>
      var c := SkipSpace(ParseChars(t).value.1);
      ParseKey(['"'] + t) == if c == "" || c[0] != ':' then Wrong(c) else Ok((ParseChars(t).value.0, c[1..]))
  {
    Behead('"', t);
  }

  lemma StringIsRead(cs: string, rest: string)
    requires IsAscii(cs)
    ensures ParseValue(PrintString(cs) + rest) == Ok((Str(cs), rest))
  {
    var t := EscapeAll(cs) + (['"'] + rest);
    CharsAreRead(cs, rest);
    StringOpens(t);
    QuotedText(EscapeAll(cs), rest);
  }

  lemma {:induction false} ValueIsRead(v: Value, rest: string)
    requires Valid(v) && (Closed(v) || Stops(rest))
    ensures ParseValue(Print(v) + rest) == Ok((Normal(v), rest))
    decreases v, 1
  {
    var s := Print(v) + rest;
    match v
    case Null => assert s[4..] == rest;
    case Bool(b) => assert s[if b then 4 else 5..] == rest;
    case Int64(_) => NumberValueIsRead(v, rest);
    case UInt64(_) => NumberValueIsRead(v, rest);
    case Double(_) => NumberValueIsRead(v, rest);
    case Str(cs) => StringIsRead(cs, rest);
    case Arr(items) => ArrayIsRead(items, rest);
    case Obj(members) => ObjectIsRead(members, rest);
  }

  // A list with something in it, or nothing yet, after its opening bracket.
  lemma ArrayOpens(t: string)
    requires t == "" || (!IsSpace(t[0]) && t[0] != ']')
    ensures ParseValue(['['] + t) ==
      match ParseItems(t) case Ok((items, rest)) => Ok((Arr(items), rest)) case Err(e) => Err(e)
  {
    Behead('[', t);
  }

  lemma ObjectOpens(t: string)
    requires t == "" || (!IsSpace(t[0]) && t[0] != '}')
    ensures ParseValue(['{'] + t) ==
      match ParseMembers(t) case Ok((members, rest)) => Ok((Obj(members), rest)) case Err(e) => Err(e)
  {
    Behead('{', t);
  }

  lemma {:induction false} ArrayIsRead(items: seq<Value>, rest: string)
    requires ValidItems(items)
    ensures ParseValue(Print(Arr(items)) + rest) == Ok((Normal(Arr(items)), rest))
    decreases items, 1
  {
    var t := PrintItems(items) + ([']'] + rest);
    assert Print(Arr(items)) + rest == ['['] + t;
    if items == [] {
      Behead('[', t);
      assert t[0] == ']' && t[1..] == rest;
    } else {
      PrintStarts(items[0]);
      assert t[0] == Print(items[0])[0];
      ArrayOpens(t);
      ItemsAreRead(items, rest);
    }
  }

  lemma {:induction false} ObjectIsRead(members: seq<Member>, rest: string)
    requires ValidMembers(members)
    ensures ParseValue(Print(Obj(members)) + rest) == Ok((Normal(Obj(members)), rest))
    decreases members, 1
  {
    var t := PrintMembers(members) + (['}'] + rest);
    assert Print(Obj(members)) + rest == ['{'] + t;
    if members == [] {
      Behead('{', t);
      assert t[0] == '}' && t[1..] == rest;
    } else {
      assert t[0] == '"';
      ObjectOpens(t);
      MembersAreRead(members, rest);
    }
  }

  lemma ItemIsRead(text: string, v: Value, after: string)
    requires ParseValue(text) == Ok((v, after))
    requires after != "" && (after[0] == ']' || after[0] == ',')
    ensures after[0] == ']' ==> ParseItems(text) == Ok(([v], after[1..]))
    ensures after[0] == ',' && ParseItems(after[1..]).Ok? ==>
      ParseItems(text) == Ok(([v] + ParseItems(after[1..]).value.0, ParseItems(after[1..]).value.1))
  {}

  lemma {:induction false} ItemsAreRead(items: seq<Value>, rest: string)
    requires items != [] && ValidItems(items)
    ensures ParseItems(PrintItems(items) + ([']'] + rest)) == Ok((NormalItems(items), rest))
    decreases items, 0
  {
    var v, end := items[0], [']'] + rest;
    var text := PrintItems(items) + end;
    Behead(']', rest);
    if |items| == 1 {
      assert Print(v) + "" == Print(v);
      ValueIsRead(v, end);
      ItemIsRead(text, Normal(v), end);
      assert NormalItems(items) == [Normal(v)];
    } else {
      var more := PrintItems(items[1..]);
      Behead(',', more + end);
      Assoc(Print(v), [','] + more, end);
      Assoc([','], more, end);
      ValueIsRead(v, [','] + (more + end));
      ItemIsRead(text, Normal(v), [','] + (more + end));
      ItemsAreRead(items[1..], rest);
    }
  }

  lemma KeyIsRead(key: string, rest: string)
    requires IsAscii(key)
    ensures ParseKey(PrintString(key) + ([':'] + rest)) == Ok((key, rest))
  {
    var t := EscapeAll(key) + (['"'] + ([':'] + rest));
    CharsAreRead(key, [':'] + rest);
    KeyOpens(t);
    QuotedText(EscapeAll(key), [':'] + rest);
    Behead(':', rest);
  }

  // One member of an object, from what its key and its value read as.
  lemma MemberIsRead(text: string, key: string, t: string, v: Value, after: string)
    requires ParseKey(text) == Ok((key, t)) && ParseValue(t) == Ok((v, after))
    requires after != "" && (after[0] == '}' || after[0] == ',')
    ensures after[0] == '}' ==> ParseMembers(text) == Ok(([Member(key, v)], after[1..]))
    ensures after[0] == ',' && ParseMembers(after[1..]).Ok? ==>
      ParseMembers(text) ==
        Ok(([Member(key, v)] + ParseMembers(after[1..]).value.0, ParseMembers(after[1..]).value.1))
  {}

  lemma MemberText(key: string, value: string, tail: string, end: string)
    ensures (key + [':'] + value + tail) + end == key + ([':'] + (value + (tail + end)))
  {}

  lemma {:induction false} MembersAreRead(members: seq<Member>, rest: string)
    requires members != [] && ValidMembers(members)
    ensures ParseMembers(PrintMembers(members) + (['}'] + rest)) == Ok((NormalMembers(members), rest))
    decreases members, 0
  {
    var m, end := members[0], ['}'] + rest;
    var tail := if |members| == 1 then "" else [','] + PrintMembers(members[1..]);
    var text, after := PrintMembers(members) + end, tail + end;
    MemberText(PrintString(m.key), Print(m.value), tail, end);
    Behead('}', rest);
    if |members| == 1 {
      assert after == end;
      KeyIsRead(m.key, Print(m.value) + after);
      ValueIsRead(m.value, after);
      MemberIsRead(text, m.key, Print(m.value) + after, Normal(m.value), after);
      assert NormalMembers(members) == [Member(m.key, Normal(m.value))];
    } else {
      var more := PrintMembers(members[1..]);
      Assoc([','], more, end);
      Behead(',', more + end);
      KeyIsRead(m.key, Print(m.value) + after);
      ValueIsRead(m.value, after);
      MemberIsRead(text, m.key, Print(m.value) + after, Normal(m.value), after);
      MembersAreRead(members[1..], rest);
    }
  }

  // parse(serialize(v)) == v, up to the kind of small unsigned integers.
  lemma ParsePrint(v: Value)
    requires Valid(v)
    ensures Parse(Print(v)) == Ok(Normal(v))
  {
    ValueIsRead(v, "");
    assert Print(v) + "" == Print(v);
  }

  // The four characters that count as space (section 2 of RFC 8259).
  predicate AllSpace(s: string) {
    forall k :: 0 <= k < |s| ==> s[k] == ' ' || s[k] == '\t' || s[k] == '\n' || s[k] == '\r'
  }

  lemma {:induction false} SpaceIsSkipped(space: string, s: string)
    requires AllSpace(space)
    ensures SkipSpace(space + s) == SkipSpace(s) && ParseValue(space + s) == ParseValue(s)
  {
    if space == "" {
      assert space + s == s;
    } else {
      assert (space + s)[1..] == space[1..] + s;
      SpaceIsSkipped(space[1..], s);
    }
  }

  // Space around a text changes nothing.
  lemma ParseSurrounded(v: Value, before: string, after: string)
    requires Valid(v) && (Closed(v) || after == "") && AllSpace(before) && AllSpace(after)
    ensures Parse(before + (Print(v) + after)) == Ok(Normal(v))
  {
    SpaceIsSkipped(before, Print(v) + after);
    ValueIsRead(v, after);
    SpaceIsSkipped(after, "");
    assert after + "" == after;
  }

  // ----- escapes of any peer -----

  lemma HexIsRead(a: nat, b: nat, c: nat, d: nat, rest: string)
    requires a < 16 && b < 16 && c < 16 && d < 16
    ensures ParseHex([HexChar(a), HexChar(b), HexChar(c), HexChar(d)] + rest, 4, 0) ==
      Ok((((a * 16 + b) * 16 + c) * 16 + d, rest))
  {
    var s := [HexChar(a), HexChar(b), HexChar(c), HexChar(d)] + rest;
    assert s[1..][1..][1..][1..] == rest;
    assert ParseHex(rest, 0, ((a * 16 + b) * 16 + c) * 16 + d) == Ok((((a * 16 + b) * 16 + c) * 16 + d, rest));
    assert ParseHex(s[1..][1..][1..], 1, (a * 16 + b) * 16 + c) == Ok((((a * 16 + b) * 16 + c) * 16 + d, rest));
    assert ParseHex(s[1..][1..], 2, a * 16 + b) == Ok((((a * 16 + b) * 16 + c) * 16 + d, rest));
    assert ParseHex(s[1..], 3, a) == Ok((((a * 16 + b) * 16 + c) * 16 + d, rest));
  }

  function HexText(n: nat): (s: string)
    requires n < 0x10000
    ensures |s| == 4
  {
    [HexChar(n / 0x1000), HexChar(n / 0x100 % 16), HexChar(n / 0x10 % 16), HexChar(n % 16)]
  }

  lemma HexTextIsRead(n: nat, rest: string)
    requires n < 0x10000
    ensures ParseHex(HexText(n) + rest, 4, 0) == Ok((n, rest))
  {
    HexIsRead(n / 0x1000, n / 0x100 % 16, n / 0x10 % 16, n % 16, rest);
    assert n / 0x10 == n / 0x100 * 16 + n / 0x10 % 16 && n / 0x100 == n / 0x1000 * 16 + n / 0x100 % 16;
  }

  // A single escape is its character, unless it is half of one.
  lemma EscapeIsRead(n: nat, rest: string)
    requires n < 0x10000
    ensures n < 0xD800 || 0xDFFF < n ==> ParseUnicode(HexText(n) + rest) == Ok((n as char, rest))
    ensures 0xDC00 <= n <= 0xDFFF ==> ParseUnicode(HexText(n) + rest) == Err(IllegalLeadingSurrogate)
  {
    HexTextIsRead(n, rest);
  }

  // Two halves are one character, if the second is a second half.
  lemma PairIsRead(high: nat, low: nat, rest: string)
    requires 0xD800 <= high <= 0xDBFF && low < 0x10000
    ensures ParseUnicode(HexText(high) + (['\\', 'u'] + (HexText(low) + rest))) ==
      if 0xDC00 <= low <= 0xDFFF then Ok(((0x10000 + (high - 0xD800) * 0x400 + low - 0xDC00) as char, rest))
      else Err(IllegalTrailingSurrogate)
  {
    var next := ['\\', 'u'] + (HexText(low) + rest);
    HexTextIsRead(high, next);
    HexTextIsRead(low, rest);
    assert next[0] == '\\' && next[1] == 'u' && next[2..] == HexText(low) + rest;
  }
}
