/** The decoder reads back what the printer writes, and reading is stable under appended text. */
module JsonRoundTrip {
  import opened Options
  import opened Json

  // ----- string literals -------------------------------------------------------------------------

  lemma {:induction false} HexRoundTrip(d: int)
    requires 0 <= d < 16
    ensures HexValue(HexDigit(d)) == Some(d)
  {
  }

  lemma {:induction false} Hex4RoundTrip(n: int, rest: string)
    requires 0 <= n < 0x10000
    ensures ParseHex4(Hex4(n) + rest) == Some(n)
  {
    var s := Hex4(n) + rest;
    HexRoundTrip(n / 0x1000);
    HexRoundTrip(n / 0x100 % 16);
    HexRoundTrip(n / 16 % 16);
    HexRoundTrip(n % 16);
    assert s[0] == HexDigit(n / 0x1000) && s[1] == HexDigit(n / 0x100 % 16);
    assert s[2] == HexDigit(n / 16 % 16) && s[3] == HexDigit(n % 16);
    assert n / 0x100 == n / 0x1000 * 16 + n / 0x100 % 16;
    assert n / 16 == n / 0x100 * 16 + n / 16 % 16;
  }

  lemma {:induction false} ReadPair(s: string, high: int, low: int, c: char)
    requires |s| >= 11 && s[0] == 'u' && s[5] == '\\' && s[6] == 'u'
    requires ParseHex4(s[1..]) == Some(high) && ParseHex4(s[7..]) == Some(low)
    requires 0xd800 <= high < 0xdc00 && 0xdc00 <= low < 0xe000
    requires c as int == 0x10000 + (high - 0xd800) * 0x400 + (low - 0xdc00)
    ensures ParseEscape(s) == Some((c, 11))
  {
  }

  lemma {:induction false} PairShape(a: string, b: string, rest: string)
    requires |a| == 4 && |b| == 4
    ensures var s := (("\\u" + a) + ("\\u" + b))[1..] + rest;
            && |s| >= 11 && s[0] == 'u' && s[5] == '\\' && s[6] == 'u'
            && s[1..] == a + (("\\u" + b) + rest) && s[7..] == b + rest
  {
  }

  /** The two halves of a character outside the basic plane. */
  lemma {:induction false} Halves(c: char) returns (high: int, low: int)
    requires c as int >= 0x10000
    ensures 0xd800 <= high < 0xdc00 && 0xdc00 <= low < 0xe000
    ensures c as int == 0x10000 + (high - 0xd800) * 0x400 + (low - 0xdc00)
    ensures Escape(c, true) == UnicodeEscape(high) + UnicodeEscape(low)
  {
    var n := c as int - 0x10000;
    high, low := 0xd800 + n / 0x400, 0xdc00 + n % 0x400;
  }

  lemma {:induction false} SurrogateRoundTrip(c: char, rest: string)
    requires c as int >= 0x10000
    ensures ParseEscape(Escape(c, true)[1..] + rest) == Some((c, 11))
  {
    var high, low := Halves(c);
    PairShape(Hex4(high), Hex4(low), rest);
    Hex4RoundTrip(high, ("\\u" + Hex4(low)) + rest);
    Hex4RoundTrip(low, rest);
    ReadPair((UnicodeEscape(high) + UnicodeEscape(low))[1..] + rest, high, low, c);
  }

  /** An escaped character is read back as that character, and costs no other. */
  lemma {:induction false} EscapeRoundTrip(c: char, ascii: bool, rest: string)
    requires ParseChars(rest).Some?
    ensures var r := ParseChars(rest).value;
            ParseChars(Escape(c, ascii) + rest) == Some(([c] + r.0, r.1))
  {
    var e := Escape(c, ascii);
    var s := e + rest;
    if |e| == 1 {
      assert s[1..] == rest;
    } else if |e| == 2 {
      assert s[1] == e[1] && s[2..] == rest;
      assert ParseEscape(s[1..]) == Some((c, 1));
    } else if |e| == 6 {
      assert s[1..] == e[1..] + rest;
      assert s[1..][1..] == Hex4(c as int) + rest;
      Hex4RoundTrip(c as int, rest);
      assert ParseEscape(s[1..]) == Some((c, 5));
      assert s[6..] == rest;
    } else {
      SurrogateRoundTrip(c, rest);
      assert s[1..] == e[1..] + rest;
      assert s[12..] == rest;
    }
  }

  lemma {:induction false} Regroup(a: string, b: string, c: string, d: string)
    ensures a + b + c + d == a + (b + c + d)
  {
  }

  lemma {:induction false} CharsRoundTrip(s: string, ascii: bool, rest: string)
    ensures ParseChars(EscapeAll(s, ascii) + "\"" + rest) == Some((s, rest))
  {
    if s == [] {
      assert EscapeAll(s, ascii) + "\"" + rest == "\"" + rest;
    } else {
      CharsRoundTrip(s[1..], ascii, rest);
      var tail := EscapeAll(s[1..], ascii) + "\"" + rest;
      EscapeRoundTrip(s[0], ascii, tail);
      Regroup(Escape(s[0], ascii), EscapeAll(s[1..], ascii), "\"", rest);
      assert [s[0]] + s[1..] == s;
    }
  }

  /** Decoding a dumped string gives the string back and leaves the text after it alone. */
  lemma {:induction false} QuoteRoundTrip(s: string, ascii: bool, rest: string)
    ensures ParseString(Quote(s, ascii) + rest) == Some((s, rest))
  {
    CharsRoundTrip(s, ascii, rest);
    assert (Quote(s, ascii) + rest)[1..] == EscapeAll(s, ascii) + "\"" + rest;
  }

  // ----- numbers ---------------------------------------------------------------------------------

  /** Text that may follow a number token without extending it. */
  predicate EndsNumber(rest: string) {
    rest == [] || !(IsDigit(rest[0]) || rest[0] == '.' || rest[0] == 'e' || rest[0] == 'E')
  }

  lemma {:induction false} DigitRunExtends(s: string, rest: string)
    requires rest == [] || !IsDigit(rest[0]) || DigitRun(s) < |s|
    ensures DigitRun(s + rest) == DigitRun(s)
  {
    if s == [] {
      assert s + rest == rest;
    } else if IsDigit(s[0]) {
      assert (s + rest)[1..] == s[1..] + rest;
      DigitRunExtends(s[1..], rest);
    }
  }

  lemma {:induction false} FractionExtends(s: string, rest: string)
    requires EndsNumber(s[FractionLength(s)..] + rest)
    ensures FractionLength(s + rest) == FractionLength(s)
  {
    if s == [] {
      assert s[0..] + rest == rest;
      assert s + rest == rest;
    } else if s[0] == '.' {
      assert (s + rest)[1..] == s[1..] + rest;
      assert FractionLength(s) > 0;
      DigitRunExtends(s[1..], rest);
    }
  }

  lemma {:induction false} ExponentExtends(s: string, rest: string)
    requires EndsNumber(s[ExponentLength(s)..] + rest)
    ensures ExponentLength(s + rest) == ExponentLength(s)
  {
    if s == [] {
      assert s[0..] + rest == rest;
      assert s + rest == rest;
    } else if s[0] == 'e' || s[0] == 'E' {
      assert ExponentLength(s) > 0;
      var sign := SignLength(s[1..]);
      assert (s + rest)[1..] == s[1..] + rest;
      assert (s + rest)[1 + sign..] == s[1 + sign..] + rest;
      DigitRunExtends(s[1 + sign..], rest);
    }
  }

  lemma {:induction false} IntExtends(s: string, rest: string)
    requires IntLength(s) > 0
    requires EndsNumber(s[IntLength(s)..] + rest) || IntLength(s) < |s|
    ensures IntLength(s + rest) == IntLength(s)
  {
    if s[0] != '0' {
      if DigitRun(s) == |s| {
        assert s[DigitRun(s)..] + rest == rest;
      }
      DigitRunExtends(s, rest);
    }
  }

  lemma {:induction false} FractionStays(s: string, rest: string)
    requires var f := FractionLength(s);
             EndsNumber(s[f..][ExponentLength(s[f..])..] + rest)
    ensures FractionLength(s + rest) == FractionLength(s)
  {
    var f := FractionLength(s);
    if ExponentLength(s[f..]) == 0 {
      assert s[f..][0..] == s[f..];
      FractionExtends(s, rest);
    } else {
      FractionBeforeExponent(s, rest);
    }
  }

  lemma {:induction false} DropExtends(s: string, i: nat, rest: string)
    requires i <= |s|
    ensures (s + rest)[i..] == s[i..] + rest
  {
  }

  lemma {:induction false} DropTwice(s: string, i: nat, k: nat)
    requires i + k <= |s|
    ensures s[i..][k..] == s[i + k..]
  {
  }

  lemma {:induction false} PartsExtend(s: string, i: nat, j: nat, rest: string)
    requires i == IntLength(s) > 0 && j == i + FractionLength(s[i..])
    requires EndsNumber(s[j..][ExponentLength(s[j..])..] + rest)
    ensures IntLength(s + rest) == i
    ensures FractionLength((s + rest)[i..]) == FractionLength(s[i..])
    ensures ExponentLength((s + rest)[j..]) == ExponentLength(s[j..])
  {
    DropExtends(s, i, rest);
    DropExtends(s, j, rest);
    DropTwice(s, i, FractionLength(s[i..]));
    if i == |s| {
      assert s[j..][ExponentLength(s[j..])..] + rest == s[i..] + rest;
    }
    IntExtends(s, rest);
    FractionStays(s[i..], rest);
    ExponentExtends(s[j..], rest);
  }

  lemma {:induction false} UnsignedExtends(s: string, rest: string)
    requires UnsignedLength(s) > 0 && EndsNumber(s[UnsignedLength(s)..] + rest)
    ensures UnsignedLength(s + rest) == UnsignedLength(s)
  {
    var i := IntLength(s);
    var j := i + FractionLength(s[i..]);
    assert s[j..][ExponentLength(s[j..])..] == s[UnsignedLength(s)..];
    PartsExtend(s, i, j, rest);
  }

  /** A number token is read to the same length whatever text ends it. */
  lemma {:induction false} NumberExtends(s: string, rest: string)
    requires NumberLength(s) > 0
    requires EndsNumber(s[NumberLength(s)..] + rest)
    ensures NumberLength(s + rest) == NumberLength(s)
  {
    if s[0] == '-' {
      assert (s + rest)[1..] == s[1..] + rest;
      assert s[1..][UnsignedLength(s[1..])..] == s[NumberLength(s)..];
      UnsignedExtends(s[1..], rest);
    } else {
      UnsignedExtends(s, rest);
    }
  }

  lemma {:induction false} FractionBeforeExponent(s: string, rest: string)
    requires ExponentLength(s[FractionLength(s)..]) > 0
    ensures FractionLength(s + rest) == FractionLength(s)
  {
    if s[0] == '.' {
      assert (s + rest)[1..] == s[1..] + rest;
      assert FractionLength(s) > 0;
      DigitRunStops(s[1..]);
      DigitRunExtends(s[1..], rest);
    }
  }

  lemma {:induction false} DigitRunStops(s: string)
    ensures DigitRun(s) < |s| ==> !IsDigit(s[DigitRun(s)])
  {
    if s != [] && IsDigit(s[0]) {
      DigitRunStops(s[1..]);
    }
  }

  // ----- values ----------------------------------------------------------------------------------

  lemma {:induction false} SkipBlanksOver(blanks: string, rest: string)
    requires forall i | 0 <= i < |blanks| :: IsBlank(blanks[i])
    ensures SkipBlanks(blanks + rest) == SkipBlanks(rest)
  {
    if blanks == [] {
      assert blanks + rest == rest;
    } else {
      assert (blanks + rest)[1..] == blanks[1..] + rest;
      SkipBlanksOver(blanks[1..], rest);
    }
  }

  lemma {:induction false} SkipNewLine(n: nat, rest: string)
    requires rest != [] && !IsBlank(rest[0])
    ensures SkipBlanks(NewLine(n) + rest) == rest
  {
    SkipBlanksOver(NewLine(n), rest);
  }

  lemma {:induction false} DumpStarts(v: Json, n: nat)
    requires WellFormed(v)
    ensures Dump(v, n) != [] && !IsBlank(Dump(v, n)[0])
    ensures Dump(v, n)[0] != ']'
  {
    if v.Num? {
      assert v.token[0] == '-' || IsDigit(v.token[0]);
    }
  }

  lemma {:induction false} DumpItemsStarts(items: seq<Json>, n: nat)
    requires items != [] && forall i | 0 <= i < |items| :: WellFormed(items[i])
    ensures DumpItems(items, n) != [] && !IsBlank(DumpItems(items, n)[0])
    ensures DumpItems(items, n)[0] != ']'
  {
    DumpStarts(items[0], n);
  }

  // Unfoldings of the decoder, one per shape of its input.

  lemma {:induction false} ReadArray(s: string, inner: string, items: seq<Json>, rest: string)
    requires s != [] && s[0] == '[' && SkipBlanks(s[1..]) == inner
    requires inner != [] && inner[0] != ']' && ParseItems(inner) == Some((items, rest))
    ensures ParseValue(s) == Some((Arr(items), rest))
  {
  }

  lemma {:induction false} ReadObject(s: string, inner: string, members: seq<Member>, rest: string)
    requires s != [] && s[0] == '{' && SkipBlanks(s[1..]) == inner
    requires inner != [] && inner[0] != '}' && ParseMembers(inner) == Some((members, rest))
    ensures ParseValue(s) == Some((Obj(members), rest))
  {
  }

  lemma {:induction false} ReadLastItem(s: string, v: Json, after: string, rest: string)
    requires ParseValue(s) == Some((v, after)) && SkipBlanks(after) == "]" + rest
    ensures ParseItems(s) == Some(([v], rest))
  {
    assert ("]" + rest)[1..] == rest;
  }

  lemma {:induction false} ReadNextItem(s: string, v: Json, after: string, more: string, vs: seq<Json>, rest: string)
    requires ParseValue(s) == Some((v, after))
    requires SkipBlanks(after) == "," + more && ParseItems(SkipBlanks(more)) == Some((vs, rest))
    ensures ParseItems(s) == Some(([v] + vs, rest))
  {
    assert ("," + more)[1..] == more;
  }

  lemma {:induction false} ReadMember(s: string, key: string, more: string, v: Json, rest: string)
    requires ParseString(s) == Some((key, ":" + more))
    requires ParseValue(SkipBlanks(more)) == Some((v, rest))
    ensures ParseMember(s) == Some((Member(key, v), rest))
  {
    assert SkipBlanks(":" + more) == ":" + more;
    assert (":" + more)[1..] == more;
  }

  lemma {:induction false} ReadLastMember(s: string, m: Member, after: string, rest: string)
    requires ParseMember(s) == Some((m, after)) && SkipBlanks(after) == "}" + rest
    ensures ParseMembers(s) == Some(([m], rest))
  {
    assert ("}" + rest)[1..] == rest;
  }

  lemma {:induction false} ReadNextMember(s: string, m: Member, after: string, more: string, ms: seq<Member>,
                                          rest: string)
    requires ParseMember(s) == Some((m, after))
    requires SkipBlanks(after) == "," + more && ParseMembers(SkipBlanks(more)) == Some((ms, rest))
    ensures ParseMembers(s) == Some(([m] + ms, rest))
  {
    assert ("," + more)[1..] == more;
  }

  lemma {:induction false} ReadNumber(s: string, n: nat)
    requires s != [] && (s[0] == '-' || IsDigit(s[0])) && n == NumberLength(s) > 0
    ensures ParseValue(s) == Some((Num(s[..n]), s[n..]))
  {
  }

  lemma {:induction false} NumberRoundTrip(token: string, rest: string)
    requires IsNumber(token) && EndsNumber(rest)
    ensures ParseValue(token + rest) == Some((Num(token), rest))
  {
    var s := token + rest;
    assert token[|token|..] + rest == rest;
    NumberExtends(token, rest);
    NumberStarts(token);
    ReadNumber(s, |token|);
    assert s[..|token|] == token && s[|token|..] == rest;
  }

  lemma {:induction false} NumberStarts(token: string)
    requires NumberLength(token) > 0
    ensures token[0] == '-' || IsDigit(token[0])
  {
  }

  lemma {:induction false} ReadString(s: string, str: string, rest: string)
    requires ParseString(s) == Some((str, rest))
    ensures ParseValue(s) == Some((Str(str), rest))
  {
  }

  lemma {:induction false} ScalarRoundTrip(v: Json, n: nat, rest: string)
    requires !v.Arr? && !v.Obj? && WellFormed(v) && EndsNumber(rest)
    ensures ParseValue(Dump(v, n) + rest) == Some((v, rest))
  {
    var s := Dump(v, n) + rest;
    match v
    case Null =>
      assert s[4..] == rest;
    case Bool(b) =>
      if b { assert s[4..] == rest; } else { assert s[5..] == rest; }
    case Num(token) =>
      NumberRoundTrip(token, rest);
    case Str(str) =>
      QuoteRoundTrip(str, false, rest);
      ReadString(s, str, rest);
  }

  lemma {:induction false} EmptyRoundTrip(n: nat, rest: string)
    ensures ParseValue(Dump(Arr([]), n) + rest) == Some((Arr([]), rest))
    ensures ParseValue(Dump(Obj([]), n) + rest) == Some((Obj([]), rest))
  {
    assert ("[]" + rest)[1..] == "]" + rest;
    assert ("]" + rest)[1..] == rest;
    assert ("{}" + rest)[1..] == "}" + rest;
    assert ("}" + rest)[1..] == rest;
  }

  lemma {:induction false} DumpArrayShape(items: seq<Json>, n: nat, rest: string)
    requires items != []
    ensures Dump(Arr(items), n) + rest
         == "[" + (NewLine(n + 1) + (DumpItems(items, n + 1) + (NewLine(n) + ("]" + rest))))
  {
  }

  lemma {:induction false} DumpObjectShape(members: seq<Member>, n: nat, rest: string)
    requires members != []
    ensures Dump(Obj(members), n) + rest
         == "{" + (NewLine(n + 1) + (DumpMembers(members, n + 1) + (NewLine(n) + ("}" + rest))))
  {
  }

  lemma {:induction false} DumpItemsShape(items: seq<Json>, n: nat, rest: string)
    requires |items| > 1
    ensures DumpItems(items, n) + rest
         == Dump(items[0], n) + ("," + (NewLine(n) + (DumpItems(items[1..], n) + rest)))
  {
  }

  lemma {:induction false} DumpMembersShape(members: seq<Member>, n: nat, rest: string)
    requires |members| > 1
    ensures DumpMembers(members, n) + rest
         == DumpMember(members[0], n) + ("," + (NewLine(n) + (DumpMembers(members[1..], n) + rest)))
  {
  }

  /**
   The round trip: decoding a dumped value, at any indentation and before any text that does not
   extend a number, gives back the value and exactly that text.
   */
  lemma {:induction false} DumpRoundTrip(v: Json, n: nat, rest: string)
    requires WellFormed(v) && EndsNumber(rest)
    ensures ParseValue(Dump(v, n) + rest) == Some((v, rest))
    decreases v, 0
  {
    if !v.Arr? && !v.Obj? {
      ScalarRoundTrip(v, n, rest);
    } else if v == Arr([]) || v == Obj([]) {
      EmptyRoundTrip(n, rest);
    } else if v.Arr? {
      ArrayRoundTrip(v.items, n, rest);
    } else {
      ObjectRoundTrip(v.members, n, rest);
    }
  }

  lemma {:induction false} ArrayRoundTrip(items: seq<Json>, n: nat, rest: string)
    requires items != [] && forall i | 0 <= i < |items| :: WellFormed(items[i])
    ensures ParseValue(Dump(Arr(items), n) + rest) == Some((Arr(items), rest))
    decreases items, 2
  {
    var body := DumpItems(items, n + 1) + (NewLine(n) + ("]" + rest));
    var s := "[" + (NewLine(n + 1) + body);
    DumpArrayShape(items, n, rest);
    DumpItemsStarts(items, n + 1);
    assert s[1..] == NewLine(n + 1) + body;
    SkipNewLine(n + 1, body);
    ItemsRoundTrip(items, n + 1, n, rest);
    ReadArray(s, body, items, rest);
  }

  lemma {:induction false} ItemsRoundTrip(items: seq<Json>, n: nat, outer: nat, rest: string)
    requires items != [] && forall i | 0 <= i < |items| :: WellFormed(items[i])
    ensures ParseItems(DumpItems(items, n) + (NewLine(outer) + ("]" + rest))) == Some((items, rest))
    decreases items, 1
  {
    var close := NewLine(outer) + ("]" + rest);
    if |items| == 1 {
      DumpRoundTrip(items[0], n, close);
      SkipNewLine(outer, "]" + rest);
      ReadLastItem(DumpItems(items, n) + close, items[0], close, rest);
      assert [items[0]] == items;
    } else {
      var tail := DumpItems(items[1..], n) + close;
      DumpItemsShape(items, n, close);
      DumpRoundTrip(items[0], n, "," + (NewLine(n) + tail));
      DumpItemsStarts(items[1..], n);
      SkipNewLine(n, tail);
      ItemsRoundTrip(items[1..], n, outer, rest);
      ReadNextItem(DumpItems(items, n) + close, items[0], "," + (NewLine(n) + tail), NewLine(n) + tail, items[1..],
        rest);
      assert [items[0]] + items[1..] == items;
    }
  }

  lemma {:induction false} ObjectRoundTrip(members: seq<Member>, n: nat, rest: string)
    requires members != [] && forall i | 0 <= i < |members| :: WellFormed(members[i].value)
    ensures ParseValue(Dump(Obj(members), n) + rest) == Some((Obj(members), rest))
    decreases members, 2
  {
    var body := DumpMembers(members, n + 1) + (NewLine(n) + ("}" + rest));
    var s := "{" + (NewLine(n + 1) + body);
    DumpObjectShape(members, n, rest);
    assert s[1..] == NewLine(n + 1) + body;
    assert body[0] == '\"';
    SkipNewLine(n + 1, body);
    MembersRoundTrip(members, n + 1, n, rest);
    ReadObject(s, body, members, rest);
  }

  lemma {:induction false} MemberRoundTrip(m: Member, n: nat, rest: string)
    requires WellFormed(m.value) && EndsNumber(rest)
    ensures ParseMember(DumpMember(m, n) + rest) == Some((m, rest))
    decreases m, 0
  {
    var value := Dump(m.value, n) + rest;
    assert DumpMember(m, n) + rest == Quote(m.key, false) + (":" + (" " + value));
    QuoteRoundTrip(m.key, false, ":" + (" " + value));
    DumpStarts(m.value, n);
    SkipBlanksOver(" ", value);
    DumpRoundTrip(m.value, n, rest);
    ReadMember(DumpMember(m, n) + rest, m.key, " " + value, m.value, rest);
  }

  lemma {:induction false} MembersRoundTrip(members: seq<Member>, n: nat, outer: nat, rest: string)
    requires members != [] && forall i | 0 <= i < |members| :: WellFormed(members[i].value)
    ensures ParseMembers(DumpMembers(members, n) + (NewLine(outer) + ("}" + rest))) == Some((members, rest))
    decreases members, 1
  {
    if |members| == 1 {
      LastMember(members, n, outer, rest);
    } else {
      NextMembers(members, n, outer, rest);
    }
  }

  lemma {:induction false} LastMember(members: seq<Member>, n: nat, outer: nat, rest: string)
    requires |members| == 1 && WellFormed(members[0].value)
    ensures ParseMembers(DumpMembers(members, n) + (NewLine(outer) + ("}" + rest))) == Some((members, rest))
    decreases members, 1, 0
  {
    var close := NewLine(outer) + ("}" + rest);
    MemberRoundTrip(members[0], n, close);
    SkipNewLine(outer, "}" + rest);
    ReadLastMember(DumpMembers(members, n) + close, members[0], close, rest);
    assert [members[0]] == members;
  }

  lemma {:induction false} MembersStart(members: seq<Member>, n: nat, close: string)
    requires members != []
    ensures var s := DumpMembers(members, n) + close; s != [] && s[0] == '\"'
  {
  }

  lemma {:induction false} NextMembers(members: seq<Member>, n: nat, outer: nat, rest: string)
    requires |members| > 1 && forall i | 0 <= i < |members| :: WellFormed(members[i].value)
    ensures ParseMembers(DumpMembers(members, n) + (NewLine(outer) + ("}" + rest))) == Some((members, rest))
    decreases members, 1, 0
  {
    var close := NewLine(outer) + ("}" + rest);
    var tail := DumpMembers(members[1..], n) + close;
    DumpMembersShape(members, n, close);
    MemberRoundTrip(members[0], n, "," + (NewLine(n) + tail));
    MembersStart(members[1..], n, close);
    SkipNewLine(n, tail);
    MembersRoundTrip(members[1..], n, outer, rest);
    ReadNextMember(DumpMembers(members, n) + close, members[0], "," + (NewLine(n) + tail), NewLine(n) + tail,
      members[1..], rest);
    assert [members[0]] + members[1..] == members;
  }

  /** Two values with the same dump are the same value. */
  lemma {:induction false} DumpInjective(v: Json, w: Json, n: nat)
    requires WellFormed(v) && WellFormed(w) && Dump(v, n) == Dump(w, n)
    ensures v == w
  {
    DumpRoundTrip(v, n, []);
    DumpRoundTrip(w, n, []);
  }
}
