/** Reading a complete JSON text gives the same result when more text follows it. */
module JsonExtension {
  import opened Options
  import opened Json
  import opened JsonRoundTrip

  lemma {:induction false} HexExtends(s: string, rest: string)
    requires ParseHex4(s).Some?
    ensures ParseHex4(s + rest) == ParseHex4(s)
  {
    assert (s + rest)[0] == s[0] && (s + rest)[1] == s[1] && (s + rest)[2] == s[2] && (s + rest)[3] == s[3];
  }

  lemma {:induction false} EscapeExtends(s: string, rest: string)
    requires ParseEscape(s).Some?
    ensures ParseEscape(s + rest) == ParseEscape(s)
  {
    assert (s + rest)[0] == s[0];
    if s[0] == 'u' {
      assert (s + rest)[1..] == s[1..] + rest;
      HexExtends(s[1..], rest);
      if |s| >= 7 {
        assert (s + rest)[5] == s[5] && (s + rest)[6] == s[6] && (s + rest)[7..] == s[7..] + rest;
        if ParseHex4(s[7..]).Some? {
          HexExtends(s[7..], rest);
        }
      }
    }
  }

  lemma {:induction false} CharsExtend(s: string, rest: string)
    requires ParseChars(s).Some?
    ensures var r := ParseChars(s).value; ParseChars(s + rest) == Some((r.0, r.1 + rest))
  {
    if s[0] == '\"' {
      assert (s + rest)[1..] == s[1..] + rest;
    } else if s[0] == '\\' {
      var n := ParseEscape(s[1..]).value.1;
      assert (s + rest)[1..] == s[1..] + rest;
      EscapeExtends(s[1..], rest);
      assert (s + rest)[1 + n..] == s[1 + n..] + rest;
      CharsExtend(s[1 + n..], rest);
    } else {
      assert (s + rest)[1..] == s[1..] + rest;
      CharsExtend(s[1..], rest);
    }
  }

  lemma {:induction false} StringExtends(s: string, rest: string)
    requires ParseString(s).Some?
    ensures var r := ParseString(s).value; ParseString(s + rest) == Some((r.0, r.1 + rest))
  {
    CharsExtend(s[1..], rest);
    assert (s + rest)[1..] == s[1..] + rest;
  }

  lemma {:induction false} SkipBlanksExtends(s: string, rest: string)
    requires SkipBlanks(s) != []
    ensures SkipBlanks(s + rest) == SkipBlanks(s) + rest
  {
    if IsBlank(s[0]) {
      assert (s + rest)[1..] == s[1..] + rest;
      SkipBlanksExtends(s[1..], rest);
    }
  }

  /** Blanks and the punctuation after a value do not extend a number. */
  lemma {:induction false} PunctuationEnds(s: string, rest: string)
    requires SkipBlanks(s) != [] && SkipBlanks(s)[0] in ",]}"
    ensures EndsNumber(s + rest)
  {
  }

  /** Whatever follows, a complete value is read as before, and so is the text after it. */
  lemma {:induction false} ValueExtends(s: string, rest: string)
    requires ParseValue(s).Some? && EndsNumber(ParseValue(s).value.1 + rest)
    ensures var r := ParseValue(s).value; ParseValue(s + rest) == Some((r.0, r.1 + rest))
    decreases |s|, 1
  {
    if s[0] == '[' {
      ArrayExtends(s, rest);
    } else if s[0] == '{' {
      ObjectExtends(s, rest);
    } else {
      ScalarExtends(s, rest);
    }
  }

  lemma {:induction false} ScalarExtends(s: string, rest: string)
    requires ParseValue(s).Some? && EndsNumber(ParseValue(s).value.1 + rest)
    requires s[0] != '[' && s[0] != '{'
    ensures var r := ParseValue(s).value; ParseValue(s + rest) == Some((r.0, r.1 + rest))
  {
    if s[0] == '\"' {
      StringExtends(s, rest);
      var r := ParseString(s).value;
      ReadString(s + rest, r.0, r.1 + rest);
    } else if "null" <= s || "true" <= s || "false" <= s {
      LiteralExtends(s, rest);
    } else {
      NumberValueExtends(s, NumberLength(s), rest);
    }
  }

  lemma {:induction false} NumberValueExtends(s: string, n: nat, rest: string)
    requires n == NumberLength(s) > 0 && EndsNumber(s[n..] + rest)
    ensures ParseValue(s + rest) == Some((Num(s[..n]), s[n..] + rest))
  {
    NumberExtends(s, rest);
    NumberStarts(s);
    CutConcat(s, rest, n);
    ReadNumberAs(s + rest, n, s[..n], s[n..] + rest);
  }

  lemma {:induction false} CutConcat(s: string, rest: string, n: nat)
    requires 0 < n <= |s|
    ensures (s + rest)[0] == s[0] && (s + rest)[..n] == s[..n] && (s + rest)[n..] == s[n..] + rest
  {
  }

  lemma {:induction false} ReadNumberAs(s: string, n: nat, token: string, after: string)
    requires s != [] && (s[0] == '-' || IsDigit(s[0])) && n == NumberLength(s) > 0
    requires s[..n] == token && s[n..] == after
    ensures ParseValue(s) == Some((Num(token), after))
  {
    ReadNumber(s, n);
  }

  lemma {:induction false} LiteralExtends(s: string, rest: string)
    requires "null" <= s || "true" <= s || "false" <= s
    ensures ParseValue(s).Some?
    ensures var r := ParseValue(s).value; ParseValue(s + rest) == Some((r.0, r.1 + rest))
  {
    if "false" <= s {
      assert (s + rest)[5..] == s[5..] + rest;
    } else {
      assert (s + rest)[4..] == s[4..] + rest;
    }
  }

  lemma {:induction false} ArrayExtends(s: string, rest: string)
    requires ParseValue(s).Some? && s[0] == '['
    ensures var r := ParseValue(s).value; ParseValue(s + rest) == Some((r.0, r.1 + rest))
    decreases |s|, 0
  {
    var inner := SkipBlanks(s[1..]);
    assert (s + rest)[1..] == s[1..] + rest;
    SkipBlanksExtends(s[1..], rest);
    if inner[0] == ']' {
      assert (inner + rest)[1..] == inner[1..] + rest;
    } else {
      ItemsExtend(inner, rest);
      var r := ParseItems(inner).value;
      ReadArray(s + rest, inner + rest, r.0, r.1 + rest);
    }
  }

  /** How a non-empty list was read: its first element, and what follows it. */
  lemma {:induction false} ItemsAre(s: string) returns (v: Json, after: string, next: string)
    requires ParseItems(s).Some?
    ensures ParseValue(s) == Some((v, after)) && SkipBlanks(after) == next && next != [] && next[0] in ",]"
    ensures next[0] == ']' ==> ParseItems(s) == Some(([v], next[1..]))
    ensures next[0] == ',' ==>
              && |SkipBlanks(next[1..])| < |s| && ParseItems(SkipBlanks(next[1..])).Some?
              && var r := ParseItems(SkipBlanks(next[1..])).value; ParseItems(s) == Some(([v] + r.0, r.1))
  {
    v, after := ParseValue(s).value.0, ParseValue(s).value.1;
    next := SkipBlanks(after);
  }

  lemma {:induction false} ItemsExtend(s: string, rest: string)
    requires ParseItems(s).Some?
    ensures var r := ParseItems(s).value; ParseItems(s + rest) == Some((r.0, r.1 + rest))
    decreases |s|, 2
  {
    var v, after, next := ItemsAre(s);
    PunctuationEnds(after, rest);
    ValueExtends(s, rest);
    SkipBlanksExtends(after, rest);
    if next[0] == ']' {
      assert next == "]" + next[1..];
      LastItemExtends(s, v, after, next[1..], rest);
    } else {
      assert next == "," + next[1..];
      var more := SkipBlanks(next[1..]);
      ItemsExtend(more, rest);
      NextItemExtends(s, v, after, next[1..], ParseItems(more).value.0, ParseItems(more).value.1, rest);
    }
  }

  lemma {:induction false} LastItemExtends(s: string, v: Json, after: string, more: string, rest: string)
    requires ParseValue(s + rest) == Some((v, after + rest))
    requires SkipBlanks(after + rest) == "]" + more + rest
    ensures ParseItems(s + rest) == Some(([v], more + rest))
  {
    assert "]" + more + rest == "]" + (more + rest);
    ReadLastItem(s + rest, v, after + rest, more + rest);
  }

  lemma {:induction false} CommaRest(more: string, rest: string)
    ensures "," + more + rest == "," + (more + rest)
  {
  }

  lemma {:induction false} NextItemExtends(s: string, v: Json, after: string, more: string, vs: seq<Json>, end: string,
                                           rest: string)
    requires ParseValue(s + rest) == Some((v, after + rest))
    requires SkipBlanks(after + rest) == "," + more + rest
    requires SkipBlanks(more) != [] && ParseItems(SkipBlanks(more) + rest) == Some((vs, end + rest))
    ensures ParseItems(s + rest) == Some(([v] + vs, end + rest))
  {
    SkipBlanksExtends(more, rest);
    CommaRest(more, rest);
    ReadNextItem(s + rest, v, after + rest, more + rest, vs, end + rest);
  }

  lemma {:induction false} ObjectExtends(s: string, rest: string)
    requires ParseValue(s).Some? && s[0] == '{'
    ensures var r := ParseValue(s).value; ParseValue(s + rest) == Some((r.0, r.1 + rest))
    decreases |s|, 0
  {
    var inner := SkipBlanks(s[1..]);
    assert (s + rest)[1..] == s[1..] + rest;
    SkipBlanksExtends(s[1..], rest);
    if inner[0] == '}' {
      assert (inner + rest)[1..] == inner[1..] + rest;
    } else {
      MembersExtend(inner, rest);
      var r := ParseMembers(inner).value;
      ReadObject(s + rest, inner + rest, r.0, r.1 + rest);
    }
  }

  lemma {:induction false} ReadPadded(s: string, key: string, after: string, colon: string, value: string, v: Json,
                                      left: string)
    requires ParseString(s) == Some((key, after)) && SkipBlanks(after) == colon && colon != [] && colon[0] == ':'
    requires SkipBlanks(colon[1..]) == value && ParseValue(value) == Some((v, left))
    ensures ParseMember(s) == Some((Member(key, v), left))
  {
  }

  lemma {:induction false} PaddedExtends(s: string, rest: string, key: string, after: string, colon: string,
                                         value: string, v: Json, left: string)
    requires ParseString(s + rest) == Some((key, after + rest)) && SkipBlanks(after + rest) == colon + rest
    requires colon != [] && colon[0] == ':'
    requires SkipBlanks(colon[1..] + rest) == value + rest && ParseValue(value + rest) == Some((v, left + rest))
    ensures ParseMember(s + rest) == Some((Member(key, v), left + rest))
  {
    assert (colon + rest)[1..] == colon[1..] + rest;
    ReadPadded(s + rest, key, after + rest, colon + rest, value + rest, v, left + rest);
  }

  /** The parts of a member, as the decoder reads them. */
  lemma {:induction false} MemberParts(s: string) returns (key: string, after: string, colon: string, value: string,
                                       v: Json, left: string)
    requires ParseMember(s).Some?
    ensures ParseString(s) == Some((key, after)) && SkipBlanks(after) == colon && colon != [] && colon[0] == ':'
    ensures SkipBlanks(colon[1..]) == value && ParseValue(value) == Some((v, left))
    ensures ParseMember(s) == Some((Member(key, v), left))
    ensures |value| < |s|
  {
    key, after := ParseString(s).value.0, ParseString(s).value.1;
    colon := SkipBlanks(after);
    value := SkipBlanks(colon[1..]);
    v, left := ParseValue(value).value.0, ParseValue(value).value.1;
  }

  lemma {:induction false} MemberExtends(s: string, rest: string)
    requires ParseMember(s).Some? && EndsNumber(ParseMember(s).value.1 + rest)
    ensures var r := ParseMember(s).value; ParseMember(s + rest) == Some((r.0, r.1 + rest))
    decreases |s|, 1
  {
    var key, after, colon, value, v, left := MemberParts(s);
    StringExtends(s, rest);
    SkipBlanksExtends(after, rest);
    SkipBlanksExtends(colon[1..], rest);
    ValueExtends(value, rest);
    PaddedExtends(s, rest, key, after, colon, value, v, left);
  }

  /** How a non-empty list was read: its first element, and what follows it. */
  lemma {:induction false} MembersAre(s: string) returns (m: Member, after: string, next: string)
    requires ParseMembers(s).Some?
    ensures ParseMember(s) == Some((m, after)) && SkipBlanks(after) == next && next != [] && next[0] in ",}"
    ensures next[0] == '}' ==> ParseMembers(s) == Some(([m], next[1..]))
    ensures next[0] == ',' ==>
              && |SkipBlanks(next[1..])| < |s| && ParseMembers(SkipBlanks(next[1..])).Some?
              && var r := ParseMembers(SkipBlanks(next[1..])).value; ParseMembers(s) == Some(([m] + r.0, r.1))
  {
    m, after := ParseMember(s).value.0, ParseMember(s).value.1;
    next := SkipBlanks(after);
  }

  lemma {:induction false} MembersExtend(s: string, rest: string)
    requires ParseMembers(s).Some?
    ensures var r := ParseMembers(s).value; ParseMembers(s + rest) == Some((r.0, r.1 + rest))
    decreases |s|, 2
  {
    var m, after, next := MembersAre(s);
    PunctuationEnds(after, rest);
    MemberExtends(s, rest);
    SkipBlanksExtends(after, rest);
    if next[0] == '}' {
      assert next == "}" + next[1..];
      LastMemberExtends(s, m, after, next[1..], rest);
    } else {
      assert next == "," + next[1..];
      var more := SkipBlanks(next[1..]);
      MembersExtend(more, rest);
      NextMemberExtends(s, m, after, next[1..], ParseMembers(more).value.0, ParseMembers(more).value.1, rest);
    }
  }

  lemma {:induction false} LastMemberExtends(s: string, m: Member, after: string, more: string, rest: string)
    requires ParseMember(s + rest) == Some((m, after + rest))
    requires SkipBlanks(after + rest) == "}" + more + rest
    ensures ParseMembers(s + rest) == Some(([m], more + rest))
  {
    assert "}" + more + rest == "}" + (more + rest);
    ReadLastMember(s + rest, m, after + rest, more + rest);
  }

  lemma {:induction false} NextMemberExtends(s: string, m: Member, after: string, more: string, ms: seq<Member>,
                                             end: string, rest: string)
    requires ParseMember(s + rest) == Some((m, after + rest))
    requires SkipBlanks(after + rest) == "," + more + rest
    requires SkipBlanks(more) != [] && ParseMembers(SkipBlanks(more) + rest) == Some((ms, end + rest))
    ensures ParseMembers(s + rest) == Some(([m] + ms, end + rest))
  {
    SkipBlanksExtends(more, rest);
    CommaRest(more, rest);
    ReadNextMember(s + rest, m, after + rest, more + rest, ms, end + rest);
  }

  // ----- no raw control character in a string literal ----------------------------------------------

  lemma {:induction false} HexVisibleAt(s: string, k: nat)
    requires k <= |s| && ParseHex4(s[k..]).Some?
    ensures forall i | k <= i < k + 4 :: s[i] >= ' '
  {
    HexVisible(s[k..]);
    assert forall i | k <= i < k + 4 :: s[i] == s[k..][i - k];
  }

  lemma {:induction false} EscapeVisible(s: string)
    requires ParseEscape(s).Some?
    ensures forall i | 0 <= i < ParseEscape(s).value.1 :: s[i] >= ' '
  {
    if s[0] == 'u' {
      HexVisibleAt(s, 1);
      if ParseEscape(s).value.1 == 11 {
        HexVisibleAt(s, 7);
      }
    }
  }

  lemma {:induction false} HexVisible(s: string)
    requires ParseHex4(s).Some?
    ensures s[0] >= ' ' && s[1] >= ' ' && s[2] >= ' ' && s[3] >= ' '
  {
  }

  /** Section 7 of RFC 8259: a string literal holds no raw line break. */
  lemma {:induction false} CharsVisible(s: string)
    requires ParseChars(s).Some?
    ensures forall i | 0 <= i < |s| - |ParseChars(s).value.1| :: s[i] >= ' '
  {
    if s[0] == '\\' {
      var n := ParseEscape(s[1..]).value.1;
      EscapeVisible(s[1..]);
      CharsVisible(s[1 + n..]);
      assert forall i | 1 <= i < 1 + n :: s[i] == s[1..][i - 1];
      assert forall i | 1 + n <= i < |s| :: s[i] == s[1 + n..][i - 1 - n];
    } else if s[0] != '\"' {
      CharsVisible(s[1..]);
      assert forall i | 1 <= i < |s| :: s[i] == s[1..][i - 1];
    }
  }
}
