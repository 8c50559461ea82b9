/** Whatever the decoder accepts is well formed: its number tokens are JSON numbers. */
module JsonWellFormed {
  import opened Options
  import opened Json

  lemma {:induction false} DigitRunPrefix(s: string, k: nat)
    requires k <= |s|
    ensures DigitRun(s[..k]) == if DigitRun(s) < k then DigitRun(s) else k
  {
    if k > 0 && IsDigit(s[0]) {
      assert s[..k][1..] == s[1..][..k - 1];
      DigitRunPrefix(s[1..], k - 1);
    }
  }

  lemma {:induction false} FractionPrefix(s: string, k: nat)
    requires FractionLength(s) <= k <= |s| && (FractionLength(s) == 0 ==> k == 0 || s[0] != '.')
    ensures FractionLength(s[..k]) == FractionLength(s)
  {
    if FractionLength(s) > 0 {
      assert s[..k][1..] == s[1..][..k - 1];
      DigitRunPrefix(s[1..], k - 1);
    }
  }

  lemma {:induction false} ExponentPrefix(s: string)
    ensures ExponentLength(s[..ExponentLength(s)]) == ExponentLength(s)
  {
    var k := ExponentLength(s);
    if k > 0 {
      var sign := SignLength(s[1..]);
      assert s[..k][1..] == s[1..][..k - 1];
      assert SignLength(s[1..][..k - 1]) == sign;
      assert s[..k][1 + sign..] == s[1 + sign..][..k - 1 - sign];
      DigitRunPrefix(s[1 + sign..], k - 1 - sign);
    }
  }

  lemma {:induction false} IntPrefix(s: string, k: nat)
    requires IntLength(s) <= k <= |s|
    ensures IntLength(s[..k]) == IntLength(s)
  {
    if s != [] && s[0] != '0' {
      DigitRunPrefix(s, k);
    }
  }

  lemma {:induction false} UnsignedPrefix(s: string)
    ensures UnsignedLength(s[..UnsignedLength(s)]) == UnsignedLength(s)
  {
    var n := UnsignedLength(s);
    var i := IntLength(s);
    if i > 0 {
      var j := i + FractionLength(s[i..]);
      IntPrefix(s, n);
      SliceDrop(s, n, i);
      FractionPrefix(s[i..], n - i);
      SliceDrop(s, n, j);
      ExponentPrefix(s[j..]);
    }
  }

  lemma {:induction false} SliceDrop(s: string, n: nat, i: nat)
    requires i <= n <= |s|
    ensures s[..n][i..] == s[i..][..n - i]
  {
  }

  lemma {:induction false} NumberPrefix(s: string)
    requires NumberLength(s) > 0
    ensures IsNumber(s[..NumberLength(s)])
  {
    var n := NumberLength(s);
    if s[0] == '-' {
      SliceDrop(s, n, 1);
      UnsignedPrefix(s[1..]);
    } else {
      UnsignedPrefix(s);
    }
  }

  lemma {:induction false} ValueWellFormed(s: string)
    requires ParseValue(s).Some?
    ensures WellFormed(ParseValue(s).value.0)
    decreases |s|, 0
  {
    var inner := SkipBlanks(s[1..]);
    if s[0] == '[' {
      if inner[0] != ']' { ItemsWellFormed(inner); }
    } else if s[0] == '{' {
      if inner[0] != '}' { MembersWellFormed(inner); }
    } else if s[0] != '\"' && !("null" <= s) && !("true" <= s) && !("false" <= s) {
      NumberPrefix(s);
    }
  }

  lemma {:induction false} ItemsWellFormed(s: string)
    requires ParseItems(s).Some?
    ensures forall i | 0 <= i < |ParseItems(s).value.0| :: WellFormed(ParseItems(s).value.0[i])
    decreases |s|, 1
  {
    ValueWellFormed(s);
    var next := SkipBlanks(ParseValue(s).value.1);
    if next[0] == ',' {
      ItemsWellFormed(SkipBlanks(next[1..]));
    }
  }

  lemma {:induction false} MembersWellFormed(s: string)
    requires ParseMembers(s).Some?
    ensures forall i | 0 <= i < |ParseMembers(s).value.0| :: WellFormed(ParseMembers(s).value.0[i].value)
    decreases |s|, 1
  {
    var after := ParseString(s).value.1;
    ValueWellFormed(SkipBlanks(SkipBlanks(after)[1..]));
    var next := SkipBlanks(ParseMember(s).value.1);
    if next[0] == ',' {
      MembersWellFormed(SkipBlanks(next[1..]));
    }
  }
}
