/**
 What the parser says of a printed object that is cut: `incomplete`, if that is all, and
 `syntax`, if a character comes that no text may hold, wherever the cut falls.
 */
module JsonPrefix {
  import opened Wrappers
  import opened JsonText
  import opened JsonLaw

  // What comes after the cut: nothing, or a control character and anything.
  predicate Bad(s: string) {
    s == "" || (s[0] as int < 0x20 && !IsSpace(s[0]))
  }

  function Blame(bad: string): JsonError {
    if bad == "" then Incomplete else Syntax
  }

  // The parser has stopped at the cut, or blames it.
  predicate OutOf<T>(r: Parsed<T>, bad: string) {
    r == Err(Blame(bad)) || (r.Ok? && r.value.1 == bad)
  }

  // Strings without control characters, whose escapes are two characters long.
  predicate NoControl(s: string) {
    forall k :: 0 <= k < |s| ==> 0x20 <= s[k] as int
  }

  predicate Clean(v: Value)
    decreases v, 1
  {
    match v
    case Str(s) => NoControl(s)
    case Arr(items) => CleanItems(items)
    case Obj(members) => CleanMembers(members)
    case _ => true
  }

  predicate CleanItems(items: seq<Value>)
    decreases items, 0
  {
    items == [] || (Clean(items[0]) && CleanItems(items[1..]))
  }

  predicate CleanMembers(members: seq<Member>)
    decreases members, 0
  {
    members == [] || (NoControl(members[0].key) && Clean(members[0].value) && CleanMembers(members[1..]))
  }

  // ----- numbers -----

  lemma ExponentDigitsEnd(neg: bool, ds: string, bad: string)
    requires AllDigits(ds) && Bad(bad)
    ensures OutOf(ParseExponentDigits(neg, ds + bad), bad)
  {
    SpanStops(ds, bad);
    Sliced(ds, bad);
  }

  // No exponent yet, or its letter and sign only.
  lemma BareExponents(bad: string)
    requires Bad(bad)
    ensures ParseFraction(bad) == Ok(("", bad)) && ParseExponent(bad) == Ok((None, bad))
    ensures ParseExponent(['E'] + bad) == Err(Blame(bad)) && ParseExponent(['E'] + (['-'] + bad)) == Err(Blame(bad))
  {
    assert (['E'] + bad)[1..] == bad && (['E'] + (['-'] + bad))[2..] == bad;
  }

  // An exponent cut among its digits.
  lemma ExponentDigitsCut(neg: bool, ds: string, bad: string)
    requires AllDigits(ds) && ds != "" && Bad(bad)
    ensures OutOf(ParseExponent(['E'] + ((if neg then ['-'] else "") + (ds + bad))), bad)
  {
    ExponentSign(neg, ds + bad);
    ExponentDigitsEnd(neg, ds, bad);
  }

  lemma SignedExponentEnds(neg: bool, digits: string, p: string, bad: string)
    requires AllDigits(digits) && p < ['E'] + ((if neg then ['-'] else "") + digits) && Bad(bad)
    ensures OutOf(ParseExponent(p + bad), bad)
  {
    var sign := if neg then ['-'] else "";
    BareExponents(bad);
    if p == "" {
      assert p + bad == bad;
    } else {
      var q := p[1..];
      SplitsWith(p, ['E'], sign + digits, bad);
      SplitsWith(q, sign, digits, bad);
      if |q| < |sign| || q[|sign|..] == "" {
        assert q + bad == bad || q + bad == ['-'] + bad;
      } else {
        ExponentDigitsCut(neg, q[|sign|..], bad);
      }
    }
  }

  lemma SignAndDigits(i: int)
    ensures PrintInt(i) == (if i < 0 then ['-'] else "") + Digits(if i < 0 then -i else i)
  {}

  lemma ExponentEnds(e: int, p: string, bad: string)
    requires p < ['E'] + PrintInt(e) && Bad(bad)
    ensures OutOf(ParseExponent(p + bad), bad)
  {
    SignAndDigits(e);
    DigitsAreRead(if e < 0 then -e else e);
    SignedExponentEnds(e < 0, Digits(if e < 0 then -e else e), p, bad);
  }

  // The part of a number after its leading digits.
  function Tail(frac: string, exp: int): string {
    (if frac == "" then "" else ['.'] + frac) + (['E'] + PrintInt(exp))
  }

  predicate TailEnds(s: string, bad: string) {
    var r := ParseFraction(s);
    r == Err(Blame(bad)) || (r.Ok? && OutOf(ParseExponent(r.value.1), bad))
  }

  // A point and some of the digits after it.
  lemma PointEnds(ds: string, bad: string)
    requires AllDigits(ds) && Bad(bad)
    ensures TailEnds(['.'] + ds + bad, bad)
  {
    var s := ['.'] + ds + bad;
    assert s[1..] == ds + bad;
    SpanStops(ds, bad);
    Sliced(ds, bad);
    BareExponents(bad);
  }

  // A fraction, and a cut in the exponent after it.
  lemma FractionCut(frac: string, exp: int, q: string, bad: string)
    requires AllDigits(frac) && q < ['E'] + PrintInt(exp) && Bad(bad)
    ensures TailEnds((if frac == "" then "" else ['.'] + frac) + (q + bad), bad)
  {
    assert q == "" ==> q + bad == bad;
    assert q != "" ==> (q + bad)[0] == 'E';
    FractionIsRead(frac, q + bad);
    ExponentEnds(exp, q, bad);
  }

  lemma FractionEnds(frac: string, exp: int, p: string, bad: string)
    requires AllDigits(frac) && p < Tail(frac, exp) && Bad(bad)
    ensures TailEnds(p + bad, bad)
  {
    var f, e := if frac == "" then "" else ['.'] + frac, ['E'] + PrintInt(exp);
    SplitsWith(p, f, e, bad);
    if |p| < |f| {
      if p == "" {
        BareExponents(bad);
        assert p + bad == bad;
      } else {
        SplitsWith(p, ['.'], frac, bad);
        PointEnds(p[1..], bad);
        Assoc(['.'], p[1..], bad);
      }
    } else {
      FractionCut(frac, exp, p[|f|..], bad);
    }
  }

  // The digits a number begins with, cut or whole.
  lemma DigitsEnd(neg: bool, whole: nat, p: string, bad: string)
    requires p <= Digits(whole) && Bad(bad)
    ensures OutOf(ParseUnsigned(neg, p + bad), bad)
  {
    DigitsAreRead(whole);
    if p == "" {
      assert p + bad == bad;
    } else {
      SpanStops(p, bad);
      Sliced(p, bad);
      BareExponents(bad);
      assert p[0] == '0' ==> p == "0";
    }
  }

  lemma UnsignedEnds(neg: bool, whole: nat, s: string, bad: string)
    requires s == "" || !IsDigit(s[0])
    requires TailEnds(s, bad)
    ensures OutOf(ParseUnsigned(neg, Digits(whole) + s), bad)
  {
    DigitsAreRead(whole);
    SpanStops(Digits(whole), s);
    Sliced(Digits(whole), s);
  }

  // What a cut in the rest of a number comes to.
  ghost predicate RestEnds(tail: string, bad: string) {
    forall q :: q < tail ==> (q == "" || q[0] == '.' || q[0] == 'E') && TailEnds(q + bad, bad)
  }

  lemma UnsignedCut(neg: bool, whole: nat, tail: string, u: string, bad: string)
    requires u < Digits(whole) + tail && Bad(bad) && RestEnds(tail, bad)
    ensures OutOf(ParseUnsigned(neg, u + bad), bad)
  {
    var ds := Digits(whole);
    SplitsWith(u, ds, tail, bad);
    if |u| < |ds| {
      DigitsEnd(neg, whole, u, bad);
    } else {
      var q := u[|ds|..];
      assert q == "" ==> q + bad == bad;
      UnsignedEnds(neg, whole, q + bad, bad);
    }
  }

  lemma Signed(neg: bool, s: string)
    requires neg || (s != "" && IsDigit(s[0]))
    ensures ParseNumber((if neg then ['-'] else "") + s) == ParseUnsigned(neg, s)
  {
    if neg {
      Behead('-', s);
    } else {
      assert "" + s == s;
    }
  }

  lemma NumberEnds(neg: bool, whole: nat, tail: string, p: string, bad: string)
    requires p < (if neg then ['-'] else "") + (Digits(whole) + tail) && p != ""
    requires Bad(bad) && RestEnds(tail, bad)
    ensures (p[0] == '-' || IsDigit(p[0])) && OutOf(ParseNumber(p + bad), bad)
  {
    var sign := if neg then ['-'] else "";
    DigitsAreRead(whole);
    assert ([] + (Digits(whole) + tail))[0] == Digits(whole)[0];
    SplitsWith(p, sign, Digits(whole) + tail, bad);
    var u := p[|sign|..];
    UnsignedCut(neg, whole, tail, u, bad);
    Signed(neg, u + bad);
  }

  lemma NumberText(d: Decimal)
    ensures PrintDecimal(d) == (if d.neg then ['-'] else "") + (Digits(d.whole) + Tail(d.frac, d.exp))
  {
    var f := if d.frac == "" then "" else ['.'] + d.frac;
    DecimalText(if d.neg then ['-'] else "", Digits(d.whole), f, PrintInt(d.exp), "");
    assert PrintDecimal(d) + "" == PrintDecimal(d) && PrintInt(d.exp) + "" == PrintInt(d.exp);
  }

  lemma PrintedNumberEnds(v: Value, p: string, bad: string)
    requires Valid(v) && (v.Int64? || v.UInt64? || v.Double?) && p < Print(v) && p != "" && Bad(bad)
    ensures OutOf(ParseValue(p + bad), bad)
  {
    if v.Double? {
      var tail := Tail(v.d.frac, v.d.exp);
      forall q | q < tail ensures (q == "" || q[0] == '.' || q[0] == 'E') && TailEnds(q + bad, bad) {
        FractionEnds(v.d.frac, v.d.exp, q, bad);
      }
      NumberText(v.d);
      NumberEnds(v.d.neg, v.d.whole, tail, p, bad);
    } else {
      var i := if v.Int64? then v.i else v.n;
      IntegerText(i, "");
      assert PrintInt(i) + "" == PrintInt(i);
      NumberEnds(i < 0, if i < 0 then -i else i, "", p, bad);
    }
    NumberStarts(p + bad);
  }

  // ----- strings -----

  lemma {:induction false} HexEnds(s: string, digits: nat, acc: nat)
    requires |s| < digits <= 4 && acc < HexLimit(digits) && forall k :: 0 <= k < |s| ==> HexValue(s[k]).Some?
    ensures ParseHex(s, digits, acc) == Err(Incomplete)
  {
    if s != "" {
      HexEnds(s[1..], digits - 1, acc * 16 + HexValue(s[0]).value);
    }
  }

  lemma CharEnds(c: char, p: string, bad: string)
    requires c as int < 0x80 && p < Escape(c) && Bad(bad) && (bad == "" || 0x20 <= c as int)
    ensures ParseChar(p + bad) == Err(Blame(bad)) && (p + bad != "" ==> (p + bad)[0] != '"')
  {
    if p == "" {
      assert p + bad == bad;
    } else if 2 <= |p| {
      assert p[1] == 'u' && |Escape(c)| == 6 && p + bad == p;
      HexEnds(p[2..], 4, 0);
    }
  }

  lemma CharFails(s: string, c: char, t: string, e: JsonError)
    requires s != "" && s[0] != '"' && ParseChar(s) == Ok((c, t)) && ParseChars(t) == Err(e)
    ensures ParseChars(s) == Err(e)
  {}

  lemma {:induction false} CharsEnd(cs: string, p: string, bad: string)
    requires IsAscii(cs) && p < EscapeAll(cs) + ['"'] && Bad(bad) && (bad == "" || NoControl(cs))
    ensures ParseChars(p + bad) == Err(Blame(bad))
  {
    if cs == "" {
      assert p == "" && p + bad == bad;
    } else {
      var first, more := Escape(cs[0]), EscapeAll(cs[1..]) + ['"'];
      Assoc(first, EscapeAll(cs[1..]), ['"']);
      SplitsWith(p, first, more, bad);
      if |p| < |first| {
        CharEnds(cs[0], p, bad);
      } else {
        var q := p[|first|..];
        CharIsRead(cs[0], q + bad);
        CharsEnd(cs[1..], q, bad);
        CharFails(first + (q + bad), cs[0], q + bad, Blame(bad));
      }
    }
  }

  lemma KeyEnds(key: string, p: string, bad: string)
    requires IsAscii(key) && p < PrintString(key) + [':'] && Bad(bad) && (bad == "" || NoControl(key))
    ensures ParseKey(p + bad) == Err(Blame(bad))
  {
    if p == "" {
      assert p + bad == bad;
    } else {
      var q, text := p[1..], EscapeAll(key) + ['"'];
      assert PrintString(key) + [':'] == ['"'] + (text + [':']);
      SplitsWith(p, ['"'], text + [':'], bad);
      SplitsWith(q, text, [':'], bad);
      KeyOpens(q + bad);
      if |q| < |text| {
        CharsEnd(key, q, bad);
      } else {
        assert q[|text|..] + bad == bad;
        Assoc(EscapeAll(key), ['"'], bad);
        CharsAreRead(key, bad);
      }
    }
  }

  // ----- values -----

  lemma WordEnds(word: string, v: Value, p: string, bad: string)
    requires p < word && p != "" && Bad(bad) && NoControl(word)
    ensures ParseLiteral(p + bad, word, v) == Err(Blame(bad))
  {
    if bad == "" {
      assert p + bad == p;
    } else {
      assert (p + bad)[|p|] == bad[0] && word[|p|] != bad[0];
    }
  }

  // The cut falls before the value.
  lemma NothingEnds(bad: string)
    requires Bad(bad)
    ensures ParseValue(bad) == Err(Blame(bad)) && ParseItems(bad) == Err(Blame(bad))
    ensures ParseMembers(bad) == Err(Blame(bad))
  {}

  lemma ConstantEnds(v: Value, p: string, bad: string)
    requires (v.Null? || v.Bool?) && p < Print(v) && p != "" && Bad(bad)
    ensures ParseValue(p + bad) == Err(Blame(bad))
  {
    WordEnds(Print(v), v, p, bad);
    assert (p + bad)[0] == p[0] == Print(v)[0];
  }

  lemma StringEnds(cs: string, p: string, bad: string)
    requires IsAscii(cs) && p < PrintString(cs) && p != "" && Bad(bad) && (bad == "" || NoControl(cs))
    ensures ParseValue(p + bad) == Err(Blame(bad))
  {
    var text := EscapeAll(cs) + ['"'];
    Assoc(['"'], EscapeAll(cs), ['"']);
    SplitsWith(p, ['"'], text, bad);
    CharsEnd(cs, p[1..], bad);
    StringOpens(p[1..] + bad);
  }

  lemma {:induction false} ValueEnds(v: Value, p: string, bad: string)
    requires Valid(v) && p < Print(v) && Bad(bad) && (bad == "" || Clean(v))
    ensures OutOf(ParseValue(p + bad), bad) && (Closed(v) ==> ParseValue(p + bad) == Err(Blame(bad)))
    decreases v, 1
  {
    if p == "" {
      assert p + bad == bad;
      NothingEnds(bad);
    } else {
      match v
      case Null => ConstantEnds(v, p, bad);
      case Bool(_) => ConstantEnds(v, p, bad);
      case Int64(_) => PrintedNumberEnds(v, p, bad);
      case UInt64(_) => PrintedNumberEnds(v, p, bad);
      case Double(_) => PrintedNumberEnds(v, p, bad);
      case Str(cs) => StringEnds(cs, p, bad);
      case Arr(items) => ArrayEnds(items, p, bad);
      case Obj(members) => ObjectEnds(members, p, bad);
    }
  }

  lemma {:induction false} ArrayEnds(items: seq<Value>, p: string, bad: string)
    requires ValidItems(items) && p < Print(Arr(items)) && p != "" && Bad(bad) && (bad == "" || CleanItems(items))
    ensures ParseValue(p + bad) == Err(Blame(bad))
    decreases items, 1
  {
    var q, text := p[1..], PrintItems(items) + [']'];
    assert Print(Arr(items)) == ['['] + text;
    SplitsWith(p, ['['], text, bad);
    if items != [] {
      PrintStarts(items[0]);
      assert text[0] == Print(items[0])[0];
      ArrayOpens(q + bad);
      ItemsEnd(items, q, bad);
    } else {
      assert q == "" && q + bad == bad;
      ArrayOpens(bad);
      NothingEnds(bad);
    }
  }

  lemma {:induction false} ObjectEnds(members: seq<Member>, p: string, bad: string)
    requires ValidMembers(members) && p < Print(Obj(members)) && p != "" && Bad(bad)
    requires bad == "" || CleanMembers(members)
    ensures ParseValue(p + bad) == Err(Blame(bad))
    decreases members, 1
  {
    var q, text := p[1..], PrintMembers(members) + ['}'];
    assert Print(Obj(members)) == ['{'] + text;
    SplitsWith(p, ['{'], text, bad);
    if members != [] {
      assert text[0] == '"';
      ObjectOpens(q + bad);
      MembersEnd(members, q, bad);
    } else {
      assert q == "" && q + bad == bad;
      ObjectOpens(bad);
      NothingEnds(bad);
    }
  }

  // What an item's end comes to.
  lemma ItemFails(s: string, bad: string)
    requires Bad(bad)
    ensures OutOf(ParseValue(s), bad) ==> ParseItems(s) == Err(Blame(bad))
    ensures ParseValue(s).Ok? ==>
      var r := ParseValue(s).value.1;
      r != "" && r[0] == ',' && ParseItems(r[1..]) == Err(Blame(bad)) ==> ParseItems(s) == Err(Blame(bad))
  {}

  lemma {:induction false} ItemsEnd(items: seq<Value>, p: string, bad: string)
    requires items != [] && ValidItems(items) && p < PrintItems(items) + [']'] && Bad(bad)
    requires bad == "" || CleanItems(items)
    ensures ParseItems(p + bad) == Err(Blame(bad))
    decreases items, 0, 1
  {
    var first := Print(items[0]);
    var more := if |items| == 1 then "" else [','] + PrintItems(items[1..]);
    Assoc(first, more, [']']);
    SplitsWith(p, first, more + [']'], bad);
    ItemFails(p + bad, bad);
    if |p| < |first| {
      ValueEnds(items[0], p, bad);
    } else {
      OtherItemsEnd(items, p[|first|..], bad);
    }
  }

  // What follows an item.
  lemma {:induction false} OtherItemsEnd(items: seq<Value>, q: string, bad: string)
    requires items != [] && ValidItems(items) && Bad(bad) && (bad == "" || CleanItems(items))
    requires q < (if |items| == 1 then "" else [','] + PrintItems(items[1..])) + [']']
    ensures ParseValue(Print(items[0]) + (q + bad)) == Ok((Normal(items[0]), q + bad))
    ensures if q == "" then q + bad == bad
      else (q + bad)[0] == ',' && ParseItems((q + bad)[1..]) == Err(Blame(bad))
    decreases items, 0, 0
  {
    if q == "" {
      assert q + bad == bad;
    } else {
      var more := PrintItems(items[1..]);
      Assoc([','], more, [']']);
      SplitsWith(q, [','], more + [']'], bad);
      ItemsEnd(items[1..], q[1..], bad);
      Behead(',', q[1..] + bad);
    }
    ValueIsRead(items[0], q + bad);
  }

  lemma MemberFails(s: string, key: string, t: string, bad: string)
    requires ParseKey(s) == Ok((key, t)) && Bad(bad)
    ensures OutOf(ParseValue(t), bad) ==> ParseMembers(s) == Err(Blame(bad))
    ensures ParseValue(t).Ok? ==>
      var r := ParseValue(t).value.1;
      r != "" && r[0] == ',' && ParseMembers(r[1..]) == Err(Blame(bad)) ==> ParseMembers(s) == Err(Blame(bad))
  {}

  lemma KeyFails(s: string, e: JsonError)
    requires ParseKey(s) == Err(e)
    ensures ParseMembers(s) == Err(e)
  {}

  lemma {:induction false} MembersEnd(members: seq<Member>, p: string, bad: string)
    requires members != [] && ValidMembers(members) && p < PrintMembers(members) + ['}'] && Bad(bad)
    requires bad == "" || CleanMembers(members)
    ensures ParseMembers(p + bad) == Err(Blame(bad))
    decreases members, 0, 2
  {
    var m, end := members[0], ['}'];
    var key, value := PrintString(m.key) + [':'], Print(m.value);
    var more := if |members| == 1 then "" else [','] + PrintMembers(members[1..]);
    MemberText(PrintString(m.key), value, more, end);
    Assoc(PrintString(m.key), [':'], value + (more + end));
    SplitsWith(p, key, value + (more + end), bad);
    if |p| < |key| {
      KeyEnds(m.key, p, bad);
      KeyFails(p + bad, Blame(bad));
    } else {
      var q := p[|key|..];
      AfterKeyEnds(members, q, bad);
      Assoc(PrintString(m.key), [':'], q + bad);
      KeyIsRead(m.key, q + bad);
      MemberFails(p + bad, m.key, q + bad, bad);
    }
  }

  // What follows a member's key.
  lemma {:induction false} AfterKeyEnds(members: seq<Member>, q: string, bad: string)
    requires members != [] && ValidMembers(members) && Bad(bad) && (bad == "" || CleanMembers(members))
    requires q < Print(members[0].value) +
      ((if |members| == 1 then "" else [','] + PrintMembers(members[1..])) + ['}'])
    ensures var t := q + bad;
      OutOf(ParseValue(t), bad) ||
      (ParseValue(t).Ok? &&
       var r := ParseValue(t).value.1;
       r != "" && r[0] == ',' && ParseMembers(r[1..]) == Err(Blame(bad)))
    decreases members, 0, 1
  {
    var value := Print(members[0].value);
    var more := if |members| == 1 then "" else [','] + PrintMembers(members[1..]);
    SplitsWith(q, value, more + ['}'], bad);
    if |q| < |value| {
      ValueEnds(members[0].value, q, bad);
    } else {
      OtherMembersEnd(members, q[|value|..], bad);
    }
  }

  // What follows a member's value.
  lemma {:induction false} OtherMembersEnd(members: seq<Member>, r: string, bad: string)
    requires members != [] && ValidMembers(members) && Bad(bad) && (bad == "" || CleanMembers(members))
    requires r < (if |members| == 1 then "" else [','] + PrintMembers(members[1..])) + ['}']
    ensures ParseValue(Print(members[0].value) + (r + bad)) == Ok((Normal(members[0].value), r + bad))
    ensures if r == "" then r + bad == bad
      else (r + bad)[0] == ',' && ParseMembers((r + bad)[1..]) == Err(Blame(bad))
    decreases members, 0, 0
  {
    if r == "" {
      assert r + bad == bad;
    } else {
      var more := PrintMembers(members[1..]);
      Assoc([','], more, ['}']);
      SplitsWith(r, [','], more + ['}'], bad);
      MembersEnd(members[1..], r[1..], bad);
      Behead(',', r[1..] + bad);
    }
    ValueIsRead(members[0].value, r + bad);
  }

  // ----- whole texts -----

  // Of a printed object: every part that is not the whole is incomplete, and anything but
  // space after it is too much.
  lemma ObjectText(v: Value, p: string, rest: string)
    requires Valid(v) && v.Obj?
    ensures p < Print(v) ==> Parse(p) == Err(Incomplete)
    ensures Parse(Print(v) + rest) == if SkipSpace(rest) == "" then Ok(Normal(v)) else Err(ExtraData)
  {
    if p < Print(v) {
      ValueEnds(v, p, "");
      assert p + "" == p;
    }
    ValueIsRead(v, rest);
  }

  // And with a control character in the place of what should come next, it is a syntax error.
  lemma SpoiltObject(v: Value, p: string, bad: string)
    requires Valid(v) && v.Obj? && Clean(v) && p < Print(v) && Bad(bad) && bad != ""
    ensures Parse(p + bad) == Err(Syntax)
  {
    ValueEnds(v, p, bad);
  }
}
