/** The layout that json.dumps prints, and what re-indenting it does. */
module CatalogLayout {
  import opened Options
  import opened Json
  import opened JsonRoundTrip
  import opened JsonExtension
  import opened CatalogText

  // ----- the layout printed by json.dumps ------------------------------------------------------------

  lemma {:induction false} IndentConcat(a: string, b: string)
    ensures Indent(a + b) == Indent(a) + Indent(b)
  {
    if a == [] {
      assert a + b == b;
    } else {
      assert (a + b)[1..] == a[1..] + b;
      IndentConcat(a[1..], b);
    }
  }

  lemma {:induction false} IndentOneLine(s: string)
    requires forall i | 0 <= i < |s| :: s[i] != '\n'
    ensures Indent(s) == s
  {
    if s != [] {
      IndentOneLine(s[1..]);
      assert s == [s[0]] + s[1..];
    }
  }

  lemma {:induction false} IndentNewLine(n: nat)
    ensures Indent(NewLine(n)) == NewLine(n + 1)
  {
    assert NewLine(n)[1..] == Spaces(2 * n);
    IndentOneLine(Spaces(2 * n));
  }

  lemma {:induction false} EscapeOneLine(c: char, ascii: bool)
    ensures forall i | 0 <= i < |Escape(c, ascii)| :: Escape(c, ascii)[i] != '\n'
  {
  }

  lemma {:induction false} QuoteOneLine(s: string, ascii: bool)
    ensures forall i | 0 <= i < |EscapeAll(s, ascii)| :: EscapeAll(s, ascii)[i] != '\n'
    ensures forall i | 0 <= i < |Quote(s, ascii)| :: Quote(s, ascii)[i] != '\n'
  {
    if s != [] {
      EscapeOneLine(s[0], ascii);
      QuoteOneLine(s[1..], ascii);
    }
  }

  lemma {:induction false} DigitsOneLine(s: string)
    ensures forall i | 0 <= i < DigitRun(s) :: IsDigit(s[i])
  {
    if s != [] && IsDigit(s[0]) {
      DigitsOneLine(s[1..]);
      assert forall i | 1 <= i < DigitRun(s) :: s[i] == s[1..][i - 1];
    }
  }

  /** Every character of a number token is a digit, a sign, a point or an exponent mark. */
  lemma {:induction false} UnsignedChars(s: string)
    ensures forall i | 0 <= i < UnsignedLength(s) :: IsDigit(s[i]) || s[i] in "+-.eE"
    ensures UnsignedLength(s) > 0 ==> IsDigit(s[UnsignedLength(s) - 1])
  {
    var i := IntLength(s);
    if i > 0 {
      DigitsOneLine(s);
      FractionChars(s[i..]);
      var j := i + FractionLength(s[i..]);
      assert forall k | i <= k < j :: s[k] == s[i..][k - i];
      ExponentChars(s[j..]);
      assert forall k | j <= k < UnsignedLength(s) :: s[k] == s[j..][k - j];
    }
  }

  lemma {:induction false} FractionChars(s: string)
    ensures forall i | 0 <= i < FractionLength(s) :: IsDigit(s[i]) || s[i] in "+-.eE"
    ensures FractionLength(s) > 0 ==> IsDigit(s[FractionLength(s) - 1])
  {
    if FractionLength(s) > 0 {
      DigitsOneLine(s[1..]);
      assert forall k | 1 <= k < FractionLength(s) :: s[k] == s[1..][k - 1];
    }
  }

  lemma {:induction false} ExponentChars(s: string)
    ensures forall i | 0 <= i < ExponentLength(s) :: IsDigit(s[i]) || s[i] in "+-.eE"
    ensures ExponentLength(s) > 0 ==> IsDigit(s[ExponentLength(s) - 1])
  {
    if ExponentLength(s) > 0 {
      var k := 1 + SignLength(s[1..]);
      DigitsOneLine(s[k..]);
      assert forall i | k <= i < ExponentLength(s) :: s[i] == s[k..][i - k];
    }
  }

  lemma {:induction false} NumberChars(token: string)
    requires IsNumber(token)
    ensures forall i | 0 <= i < |token| :: token[i] != '\n'
    ensures IsDigit(token[|token| - 1])
  {
    if token[0] == '-' {
      UnsignedChars(token[1..]);
      assert forall i | 1 <= i < |token| :: token[i] == token[1..][i - 1];
    } else {
      UnsignedChars(token);
    }
  }

  /** What holds of the text that json.dumps prints for a value inside a member. */
  predicate Quiet(s: string) {
    forall p | 0 <= p < |s| && s[p] == '\n' :: p + 3 < |s| && s[p + 3] != '\"'
  }

  lemma {:induction false} QuietConcat(a: string, b: string)
    requires Quiet(a) && Quiet(b)
    ensures Quiet(a + b)
  {
    var s := a + b;
    forall p | 0 <= p < |s| && s[p] == '\n'
      ensures p + 3 < |s| && s[p + 3] != '\"'
    {
      if p >= |a| {
        assert b[p - |a|] == '\n';
      }
    }
  }

  lemma {:induction false} QuietBreaks(n: nat, close: string)
    requires n > 0 && |close| == 1 && close[0] != '\"' && close[0] != '\n'
    ensures Quiet(NewLine(n + 1)) && Quiet(NewLine(n) + close)
  {
  }

  lemma {:induction false} ScalarLayout(v: Json, n: nat)
    requires WellFormed(v) && (v.Arr? ==> v.items == []) && (v.Obj? ==> v.members == [])
    ensures Indent(Dump(v, n)) == Dump(v, n + 1)
    ensures Quiet(Dump(v, n))
  {
    match v
    case Num(token) => NumberChars(token); IndentOneLine(token);
    case Str(s) => QuoteOneLine(s, false); IndentOneLine(Quote(s, false));
    case _ => IndentOneLine(Dump(v, n));
  }

  lemma {:induction false} BracketLayout(open: string, inner: string, inner': string, close: string, n: nat)
    requires open in ["[", "{"] && close in ["]", "}"] && Indent(inner) == inner'
    ensures Indent(open + NewLine(n + 1) + inner + NewLine(n) + close)
         == open + NewLine(n + 2) + inner' + NewLine(n + 1) + close
  {
    IndentConcat(open + NewLine(n + 1) + inner + NewLine(n), close);
    IndentConcat(open + NewLine(n + 1) + inner, NewLine(n));
    IndentConcat(open + NewLine(n + 1), inner);
    IndentConcat(open, NewLine(n + 1));
    IndentOneLine(open);
    IndentOneLine(close);
    IndentNewLine(n);
    IndentNewLine(n + 1);
  }

  lemma {:induction false} BracketQuiet(open: string, inner: string, close: string, n: nat)
    requires open in ["[", "{"] && close in ["]", "}"] && n > 0 && Quiet(inner)
    ensures Quiet(open + NewLine(n + 1) + inner + NewLine(n) + close)
  {
    QuietBreaks(n, close);
    QuietConcat(open, NewLine(n + 1));
    QuietConcat(open + NewLine(n + 1), inner);
    QuietConcat(open + NewLine(n + 1) + inner, NewLine(n) + close);
    assert open + NewLine(n + 1) + inner + NewLine(n) + close
        == open + NewLine(n + 1) + inner + (NewLine(n) + close);
  }

  lemma {:induction false} SeparatorLayout(a: string, a': string, b: string, b': string, n: nat)
    requires Indent(a) == a' && Indent(b) == b'
    ensures Indent(a + "," + NewLine(n) + b) == a' + "," + NewLine(n + 1) + b'
  {
    IndentConcat(a + "," + NewLine(n), b);
    IndentConcat(a + ",", NewLine(n));
    IndentConcat(a, ",");
    IndentOneLine(",");
    IndentNewLine(n);
  }

  lemma {:induction false} SeparatorQuiet(a: string, b: string, n: nat)
    requires n > 1 && Quiet(a) && Quiet(b)
    ensures Quiet(a + "," + NewLine(n) + b)
  {
    QuietBreaks(n - 1, "]");
    QuietConcat(a, ",");
    QuietConcat(a + ",", NewLine(n));
    QuietConcat(a + "," + NewLine(n), b);
  }

  /** Shifting a dump by one level gives the dump at the next level: no string hides a line break. */
  lemma {:induction false} DumpLayout(v: Json, n: nat)
    requires WellFormed(v)
    ensures Indent(Dump(v, n)) == Dump(v, n + 1)
    ensures n > 0 ==> Quiet(Dump(v, n))
    decreases v, 0
  {
    if v.Arr? && v.items != [] {
      ItemsLayout(v.items, n + 1);
      BracketLayout("[", DumpItems(v.items, n + 1), DumpItems(v.items, n + 2), "]", n);
      if n > 0 { BracketQuiet("[", DumpItems(v.items, n + 1), "]", n); }
    } else if v.Obj? && v.members != [] {
      MembersLayout(v.members, n + 1);
      BracketLayout("{", DumpMembers(v.members, n + 1), DumpMembers(v.members, n + 2), "}", n);
      if n > 0 { BracketQuiet("{", DumpMembers(v.members, n + 1), "}", n); }
    } else {
      ScalarLayout(v, n);
    }
  }

  lemma {:induction false} ItemsLayout(items: seq<Json>, n: nat)
    requires items != [] && forall i | 0 <= i < |items| :: WellFormed(items[i])
    ensures Indent(DumpItems(items, n)) == DumpItems(items, n + 1)
    ensures n > 1 ==> Quiet(DumpItems(items, n))
    decreases items, 1
  {
    DumpLayout(items[0], n);
    if |items| > 1 {
      ItemsLayout(items[1..], n);
      SeparatorLayout(Dump(items[0], n), Dump(items[0], n + 1), DumpItems(items[1..], n),
        DumpItems(items[1..], n + 1), n);
      if n > 1 { SeparatorQuiet(Dump(items[0], n), DumpItems(items[1..], n), n); }
    }
  }

  lemma {:induction false} MemberLayout(m: Member, n: nat)
    requires WellFormed(m.value)
    ensures Indent(DumpMember(m, n)) == DumpMember(m, n + 1)
    ensures n > 0 ==> Quiet(DumpMember(m, n))
    decreases m, 0
  {
    var key := Quote(m.key, false) + ": ";
    QuoteOneLine(m.key, false);
    IndentOneLine(key);
    IndentConcat(key, Dump(m.value, n));
    DumpLayout(m.value, n);
    if n > 0 { QuietConcat(key, Dump(m.value, n)); }
  }

  lemma {:induction false} MembersLayout(members: seq<Member>, n: nat)
    requires members != [] && forall i | 0 <= i < |members| :: WellFormed(members[i].value)
    ensures Indent(DumpMembers(members, n)) == DumpMembers(members, n + 1)
    ensures n > 1 ==> Quiet(DumpMembers(members, n))
    decreases members, 1
  {
    MemberLayout(members[0], n);
    if |members| > 1 {
      MembersLayout(members[1..], n);
      SeparatorLayout(DumpMember(members[0], n), DumpMember(members[0], n + 1), DumpMembers(members[1..], n),
        DumpMembers(members[1..], n + 1), n);
      if n > 1 { SeparatorQuiet(DumpMember(members[0], n), DumpMembers(members[1..], n), n); }
    }
  }

  lemma {:induction false} DumpEnds(v: Json, n: nat)
    requires WellFormed(v)
    ensures Dump(v, n) != [] && !IsSpace(Dump(v, n)[|Dump(v, n)| - 1])
  {
    if v.Num? {
      NumberChars(v.token);
    }
  }

  lemma {:induction false} KeyTextValid(name: string)
    ensures KeyLiteral(KeyText(name)) && ParseString(KeyText(name)).value.0 == name
  {
    QuoteRoundTrip(name, true, []);
    assert KeyText(name) + [] == KeyText(name);
  }

  lemma {:induction false} RenderedIsDump(entry: Json)
    requires WellFormed(entry)
    ensures Rendered(entry) == Dump(entry, 1)
    ensures ParseValue(Rendered(entry)) == Some((entry, []))
  {
    DumpLayout(entry, 0);
    WholeDump(entry, 1);
  }

  lemma {:induction false} AppendNothing(s: string)
    ensures s + [] == s
  {
  }

  lemma {:induction false} WholeDump(v: Json, n: nat)
    requires WellFormed(v)
    ensures ParseValue(Dump(v, n)) == Some((v, []))
  {
    DumpRoundTrip(v, n, []);
    AppendNothing(Dump(v, n));
  }

  lemma {:induction false} QuietHasNoKeyLine(s: string)
    requires Quiet(s)
    ensures NoKeyLine(s)
  {
  }

  lemma {:induction false} RenderedValid(entry: Json)
    requires WellFormed(entry)
    ensures ValueText(Rendered(entry)) && ParseValue(Rendered(entry)).value.0 == entry
  {
    RenderedIsDump(entry);
    DumpLayout(entry, 1);
    DumpEnds(entry, 1);
    QuietHasNoKeyLine(Rendered(entry));
  }

  /** The member that a splice writes is laid out like the members already in the file. */
  lemma {:induction false} RenderedEntryValid(name: string, entry: Json)
    requires WellFormed(entry)
    ensures var e := Entry(KeyText(name), Rendered(entry));
            ValidEntry(e) && Meaning(e) == Member(name, entry)
  {
    KeyTextValid(name);
    RenderedValid(entry);
  }
}
