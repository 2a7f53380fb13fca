/**
 The JSON text codec the messages travel in: `json::serialize` and `json::parse`
 restricted to ASCII text (sections 2 to 7 of RFC 8259).  A value keeps its kind,
 because the readers of messages ask for one kind only; printing forgets the
 difference between the two integer kinds, and parsing picks the signed one
 whenever it fits.  A finite double is an opaque decimal token.
 */
module JsonText {
  import opened Wrappers

  const INT64_LIMIT: int := 0x8000_0000_0000_0000
  const UINT64_LIMIT: int := 0x1_0000_0000_0000_0000

  datatype Decimal = Decimal(neg: bool, whole: nat, frac: string, exp: int)

  datatype Value =
    | Null
    | Bool(b: bool)
    | Int64(i: int)
    | UInt64(n: nat)
    | Double(d: Decimal)
    | Str(s: string)
    | Arr(items: seq<Value>)
    | Obj(members: seq<Member>)

  datatype Member = Member(key: string, value: Value)

  // What `json::parse` reports; only Syntax is a tolerated error (ErrorHandler).
  datatype JsonError =
    | Syntax
    | Incomplete
    | ExtraData
    | ExpectedHexDigit
    | ExpectedUtf16Escape
    | IllegalLeadingSurrogate
    | IllegalTrailingSurrogate

  type Parsed<T> = Result<(T, string), JsonError>

  // ----- values -----

  predicate IsDigit(c: char) {
    '0' <= c <= '9'
  }

  predicate AllDigits(s: string) {
    forall k :: 0 <= k < |s| ==> IsDigit(s[k])
  }

  predicate IsAscii(s: string) {
    forall k :: 0 <= k < |s| ==> s[k] as int < 0x80
  }

  // Values a `json::value` of the modelled kinds can hold.
  predicate Valid(v: Value)
    decreases v, 1
  {
    match v
    case Int64(i) => -INT64_LIMIT <= i < INT64_LIMIT
    case UInt64(n) => n < UINT64_LIMIT
    case Double(d) => AllDigits(d.frac)
    case Str(s) => IsAscii(s)
    case Arr(items) => ValidItems(items)
    case Obj(members) => ValidMembers(members)
    case _ => true
  }

  predicate ValidItems(items: seq<Value>)
    decreases items, 0
  {
    items == [] || (Valid(items[0]) && ValidItems(items[1..]))
  }

  predicate ValidMembers(members: seq<Member>)
    decreases members, 0
  {
    members == [] ||
    (IsAscii(members[0].key) && Valid(members[0].value) && ValidMembers(members[1..]))
  }

  // The kind a value has after a trip through text.
  function Normal(v: Value): Value
    decreases v, 1
  {
    match v
    case UInt64(n) => if n < INT64_LIMIT then Int64(n) else v
    case Arr(items) => Arr(NormalItems(items))
    case Obj(members) => Obj(NormalMembers(members))
    case _ => v
  }

  function NormalItems(items: seq<Value>): seq<Value>
    decreases items, 0
  {
    if items == [] then [] else [Normal(items[0])] + NormalItems(items[1..])
  }

  function NormalMembers(members: seq<Member>): seq<Member>
    decreases members, 0
  {
    if members == [] then []
    else [Member(members[0].key, Normal(members[0].value))] + NormalMembers(members[1..])
  }

  function Find(members: seq<Member>, key: string): Option<Value> {
    if members == [] then None
    else if Find(members[1..], key).Some? then Find(members[1..], key)
    else if members[0].key == key then Some(members[0].value)
    else None
  }

  // `value.at(key)`: None stands for the exception; of two equal keys the last one counts.
  function At(v: Value, key: string): Option<Value> {
    if v.Obj? then Find(v.members, key) else None
  }

  // ----- printing -----

  function DigitChar(d: nat): (c: char)
    requires d < 10
    ensures IsDigit(c) && c as int - '0' as int == d
  {
    ('0' as int + d) as char
  }

  function Digits(n: nat): string {
    if n < 10 then [DigitChar(n)] else Digits(n / 10) + [DigitChar(n % 10)]
  }

  function PrintInt(i: int): string {
    if i < 0 then ['-'] + Digits(-i) else Digits(i)
  }

  function PrintDecimal(d: Decimal): string {
    (if d.neg then ['-'] else "") + Digits(d.whole) +
    (if d.frac == "" then "" else ['.'] + d.frac) + ['E'] + PrintInt(d.exp)
  }

  function HexChar(d: nat): (c: char)
    requires d < 16
    ensures c as int < 0x80
  {
    if d < 10 then DigitChar(d) else ('a' as int + d - 10) as char
  }

  function Escape(c: char): string
    requires c as int < 0x80
  {
    if c == '"' then ['\\', '"']
    else if c == '\\' then ['\\', '\\']
    else if c as int == 8 then ['\\', 'b']
    else if c as int == 9 then ['\\', 't']
    else if c as int == 10 then ['\\', 'n']
    else if c as int == 12 then ['\\', 'f']
    else if c as int == 13 then ['\\', 'r']
    else if c as int < 0x20 then ['\\', 'u', '0', '0', HexChar(c as int / 16), HexChar(c as int % 16)]
    else [c]
  }

  function EscapeAll(s: string): string
    requires IsAscii(s)
  {
    if s == "" then "" else Escape(s[0]) + EscapeAll(s[1..])
  }

  function PrintString(s: string): string
    requires IsAscii(s)
  {
    ['"'] + EscapeAll(s) + ['"']
  }

  function Print(v: Value): string
    requires Valid(v)
    decreases v, 1
  {
    match v
    case Null => "null"
    case Bool(b) => if b then "true" else "false"
    case Int64(i) => PrintInt(i)
    case UInt64(n) => PrintInt(n)
    case Double(d) => PrintDecimal(d)
    case Str(s) => PrintString(s)
    case Arr(items) => ['['] + PrintItems(items) + [']']
    case Obj(members) => ['{'] + PrintMembers(members) + ['}']
  }

  function PrintItems(items: seq<Value>): string
    requires ValidItems(items)
    decreases items, 0
  {
    if items == [] then ""
    else Print(items[0]) + (if |items| == 1 then "" else [','] + PrintItems(items[1..]))
  }

  function PrintMembers(members: seq<Member>): string
    requires ValidMembers(members)
    decreases members, 0
  {
    if members == [] then ""
    else
      PrintString(members[0].key) + [':'] + Print(members[0].value) +
      (if |members| == 1 then "" else [','] + PrintMembers(members[1..]))
  }

  // ----- parsing -----

  predicate IsSpace(c: char) {
    c as int == 32 || c as int == 9 || c as int == 10 || c as int == 13
  }

  function SkipSpace(s: string): (r: string)
    ensures |r| <= |s|
    ensures r != "" ==> !IsSpace(r[0])
  {
    if s != "" && IsSpace(s[0]) then SkipSpace(s[1..]) else s
  }

  // A character of the wrong sort, or no character at all.
  function Wrong<T>(s: string): Result<T, JsonError> {
    Err(if s == "" then Incomplete else Syntax)
  }

  function DigitSpan(s: string): (k: nat)
    ensures k <= |s|
  {
    if s != "" && IsDigit(s[0]) then 1 + DigitSpan(s[1..]) else 0
  }

  function DigitValue(c: char): nat {
    if IsDigit(c) then c as int - '0' as int else 0
  }

  function DigitsValue(s: string): nat {
    if s == "" then 0 else DigitsValue(s[..|s| - 1]) * 10 + DigitValue(s[|s| - 1])
  }

  function ParseFraction(s: string): (r: Parsed<string>)
    ensures r.Ok? ==> |r.value.1| <= |s|
  {
    if s == "" || s[0] != '.' then Ok(("", s)) else
    var k := DigitSpan(s[1..]);
    if k == 0 then Wrong(s[1..]) else Ok((s[1..][..k], s[1..][k..]))
  }

  function ParseExponentDigits(neg: bool, s: string): (r: Parsed<Option<int>>)
    ensures r.Ok? ==> |r.value.1| <= |s|
  {
    var k := DigitSpan(s);
    if k == 0 then Wrong(s) else
    var n: int := DigitsValue(s[..k]);
    Ok((Some(if neg then -n else n), s[k..]))
  }

  function ParseExponent(s: string): (r: Parsed<Option<int>>)
    ensures r.Ok? ==> |r.value.1| <= |s|
  {
    if s == "" || (s[0] != 'e' && s[0] != 'E') then Ok((None, s))
    else if |s| > 1 && s[1] == '-' then ParseExponentDigits(true, s[2..])
    else if |s| > 1 && s[1] == '+' then ParseExponentDigits(false, s[2..])
    else ParseExponentDigits(false, s[1..])
  }

  // The kind of an integer literal: signed if it fits, else unsigned, else a double.
  function IntegerValue(neg: bool, whole: nat): Value {
    var i: int := if neg then -(whole as int) else whole;
    if -INT64_LIMIT <= i < INT64_LIMIT then Int64(i)
    else if 0 <= i < UINT64_LIMIT then UInt64(i)
    else Double(Decimal(neg, whole, "", 0))
  }

  function NumberValue(neg: bool, whole: nat, frac: string, exp: Option<int>): Value {
    if frac == "" && exp.None? then IntegerValue(neg, whole)
    else Double(Decimal(neg, whole, frac, if exp.Some? then exp.value else 0))
  }

  function ParseUnsigned(neg: bool, s: string): (r: Parsed<Value>)
    ensures r.Ok? ==> |r.value.1| < |s|
  {
    if s == "" || !IsDigit(s[0]) then Wrong(s) else
    var w := if s[0] == '0' then 1 else DigitSpan(s);
    var whole := DigitsValue(s[..w]);
    var (frac, r) :- ParseFraction(s[w..]);
    var (exp, rest) :- ParseExponent(r);
    Ok((NumberValue(neg, whole, frac, exp), rest))
  }

  function ParseNumber(s: string): (r: Parsed<Value>)
    requires s != ""
    ensures r.Ok? ==> |r.value.1| < |s|
  {
    if s[0] == '-' then ParseUnsigned(true, s[1..]) else ParseUnsigned(false, s)
  }

  function HexValue(c: char): (r: Option<nat>)
    ensures r.Some? ==> r.value < 16
  {
    if IsDigit(c) then Some(c as int - '0' as int)
    else if 'a' <= c <= 'f' then Some(c as int - 'a' as int + 10)
    else if 'A' <= c <= 'F' then Some(c as int - 'A' as int + 10)
    else None
  }

  // A bound on `digits` more hexadecimal digits making a 16-bit number.
  function HexLimit(digits: nat): nat {
    match digits case 0 => 0x10000 case 1 => 0x1000 case 2 => 0x100 case 3 => 0x10 case _ => 1
  }

  function ParseHex(s: string, digits: nat, acc: nat): (r: Parsed<nat>)
    requires digits <= 4 && acc < HexLimit(digits)
    ensures r.Ok? ==> |r.value.1| <= |s| && r.value.0 < 0x10000
  {
    if digits == 0 then Ok((acc, s))
    else if s == "" then Err(Incomplete)
    else if HexValue(s[0]).None? then Err(ExpectedHexDigit)
    else ParseHex(s[1..], digits - 1, acc * 16 + HexValue(s[0]).value)
  }

  // The rest of a `\u` escape: one character, or the first of the two halves of one.
  function ParseUnicode(s: string): (r: Parsed<char>)
    ensures r.Ok? ==> |r.value.1| <= |s|
  {
    var (code, rest) :- ParseHex(s, 4, 0);
    if code < 0xD800 || 0xDFFF < code then Ok((code as char, rest))
    else if 0xDBFF < code then Err(IllegalLeadingSurrogate)
    else if rest == "" || rest == "\\" then Err(Incomplete)
    else if rest[0] != '\\' || rest[1] != 'u' then Err(ExpectedUtf16Escape)
    else
      var (low, end) :- ParseHex(rest[2..], 4, 0);
      if 0xDC00 <= low <= 0xDFFF then Ok((((code - 0xD800) * 0x400 + low - 0xDC00 + 0x10000) as char, end))
      else Err(IllegalTrailingSurrogate)
  }

  // One character of a string, escaped or not.
  function ParseChar(s: string): (r: Parsed<char>)
    ensures r.Ok? ==> |r.value.1| < |s|
  {
    if s == "" || s[0] as int < 0x20 || s[0] as int >= 0x80 then Wrong(s)
    else if s[0] != '\\' then Ok((s[0], s[1..]))
    else if |s| == 1 then Err(Incomplete)
    else if s[1] == '"' || s[1] == '\\' || s[1] == '/' then Ok((s[1], s[2..]))
    else if s[1] == 'b' then Ok((8 as char, s[2..]))
    else if s[1] == 't' then Ok((9 as char, s[2..]))
    else if s[1] == 'n' then Ok((10 as char, s[2..]))
    else if s[1] == 'f' then Ok((12 as char, s[2..]))
    else if s[1] == 'r' then Ok((13 as char, s[2..]))
    else if s[1] == 'u' then ParseUnicode(s[2..])
    else Err(Syntax)
  }

  // The rest of a string, after its opening quote.
  function ParseChars(s: string): (r: Parsed<string>)
    ensures r.Ok? ==> |r.value.1| < |s|
    decreases |s|
  {
    if s != "" && s[0] == '"' then Ok(("", s[1..])) else
    var (c, t) :- ParseChar(s);
    var (cs, rest) :- ParseChars(t);
    Ok(([c] + cs, rest))
  }

  function ParseLiteral(s: string, word: string, v: Value): (r: Parsed<Value>)
    requires word != ""
    ensures r.Ok? ==> |r.value.1| < |s|
  {
    if word <= s then Ok((v, s[|word|..]))
    else if s <= word then Err(Incomplete)
    else Err(Syntax)
  }

  function ParseWord(s: string): (r: Parsed<Value>)
    requires s != ""
    ensures r.Ok? ==> |r.value.1| < |s|
  {
    if s[0] == 't' then ParseLiteral(s, "true", Bool(true))
    else if s[0] == 'f' then ParseLiteral(s, "false", Bool(false))
    else if s[0] == 'n' then ParseLiteral(s, "null", Null)
    else Err(Syntax)
  }

  function ParseValue(text: string): (r: Parsed<Value>)
    ensures r.Ok? ==> |r.value.1| < |text|
    decreases |text|, 1
  {
    var s := SkipSpace(text);
    if s == "" then Err(Incomplete)
    else if s[0] == '"' then
      var (cs, rest) :- ParseChars(s[1..]);
      Ok((Str(cs), rest))
    else if s[0] == '[' then
      var t := SkipSpace(s[1..]);
      if t != "" && t[0] == ']' then Ok((Arr([]), t[1..])) else
      var (items, rest) :- ParseItems(s[1..]);
      Ok((Arr(items), rest))
    else if s[0] == '{' then
      var t := SkipSpace(s[1..]);
      if t != "" && t[0] == '}' then Ok((Obj([]), t[1..])) else
      var (members, rest) :- ParseMembers(s[1..]);
      Ok((Obj(members), rest))
    else if s[0] == '-' || IsDigit(s[0]) then ParseNumber(s)
    else ParseWord(s)
  }

  // One or more items and the closing bracket.
  function ParseItems(text: string): (r: Parsed<seq<Value>>)
    ensures r.Ok? ==> |r.value.1| < |text|
    decreases |text|, 2
  {
    var (v, t) :- ParseValue(text);
    var s := SkipSpace(t);
    if s != "" && s[0] == ']' then Ok(([v], s[1..]))
    else if s != "" && s[0] == ',' then
      var (vs, rest) :- ParseItems(s[1..]);
      Ok(([v] + vs, rest))
    else Wrong(s)
  }

  // A member's name and the colon after it.
  function ParseKey(text: string): (r: Parsed<string>)
    ensures r.Ok? ==> |r.value.1| < |text|
  {
    var q := SkipSpace(text);
    if q == "" || q[0] != '"' then Wrong(q) else
    var (key, t) :- ParseChars(q[1..]);
    var c := SkipSpace(t);
    if c == "" || c[0] != ':' then Wrong(c) else Ok((key, c[1..]))
  }

  // One or more members and the closing brace.
  function ParseMembers(text: string): (r: Parsed<seq<Member>>)
    ensures r.Ok? ==> |r.value.1| < |text|
    decreases |text|, 2
  {
    var (key, t) :- ParseKey(text);
    var (v, u) :- ParseValue(t);
    var s := SkipSpace(u);
    if s != "" && s[0] == '}' then Ok(([Member(key, v)], s[1..]))
    else if s != "" && s[0] == ',' then
      var (ms, rest) :- ParseMembers(s[1..]);
      Ok(([Member(key, v)] + ms, rest))
    else Wrong(s)
  }

  // A whole text: one value and nothing but space after it.
  function Parse(text: string): Result<Value, JsonError> {
    var (v, rest) :- ParseValue(text);
    if SkipSpace(rest) == "" then Ok(v) else Err(ExtraData)
  }
}
