/** str.replace, and when replacing twice is the same as replacing once. */
module TextReplace {

  predicate At(t: string, p: string, i: int) {
    0 <= i && i + |p| <= |t| && t[i..i + |p|] == p
  }

  ghost predicate Contains(t: string, p: string) {
    exists i :: At(t, p, i)
  }

  /** t.replace(pattern, text): leftmost matches first, and no match inside what was put in. */
  function Replace(t: string, pattern: string, text: string): string
    requires pattern != []
  {
    if |t| < |pattern| then t
    else if At(t, pattern, 0) then text + Replace(t[|pattern|..], pattern, text)
    else [t[0]] + Replace(t[1..], pattern, text)
  }

  lemma {:induction false} AtDrop(t: string, p: string, k: nat, i: nat)
    requires k <= |t|
    ensures At(t[k..], p, i) <==> At(t, p, i + k)
  {
    if i + k + |p| <= |t| {
      assert t[k..][i..i + |p|] == t[i + k..i + k + |p|];
    }
  }

  lemma {:induction false} ContainsDrop(t: string, p: string, k: nat)
    requires k <= |t| && Contains(t[k..], p)
    ensures Contains(t, p)
  {
    var i :| At(t[k..], p, i);
    AtDrop(t, p, k, i);
  }

  // ----- fixed points ---------------------------------------------------------------------------------------

  lemma {:induction false} ReplaceAbsent(t: string, pattern: string, text: string)
    requires pattern != [] && !Contains(t, pattern)
    ensures Replace(t, pattern, text) == t
  {
    if |t| >= |pattern| {
      assert !At(t, pattern, 0);
      if Contains(t[1..], pattern) {
        ContainsDrop(t, pattern, 1);
      }
      ReplaceAbsent(t[1..], pattern, text);
    }
  }

  lemma {:induction false} ReplaceSame(t: string, pattern: string)
    requires pattern != []
    ensures Replace(t, pattern, pattern) == t
  {
    if |t| >= |pattern| {
      if At(t, pattern, 0) {
        ReplaceSame(t[|pattern|..], pattern);
        assert t == t[..|pattern|] + t[|pattern|..] && t[0..|pattern|] == t[..|pattern|];
      } else {
        ReplaceSame(t[1..], pattern);
      }
    }
  }

  lemma {:induction false} ReplaceGrows(t: string, pattern: string, text: string)
    requires pattern != []
    ensures |text| >= |pattern| ==> |Replace(t, pattern, text)| >= |t|
    ensures |text| <= |pattern| ==> |Replace(t, pattern, text)| <= |t|
    ensures Contains(t, pattern) && |text| > |pattern| ==> |Replace(t, pattern, text)| > |t|
    ensures Contains(t, pattern) && |text| < |pattern| ==> |Replace(t, pattern, text)| < |t|
  {
    if |t| >= |pattern| {
      if At(t, pattern, 0) {
        ReplaceGrows(t[|pattern|..], pattern, text);
      } else {
        ReplaceGrows(t[1..], pattern, text);
        if Contains(t, pattern) {
          var i :| At(t, pattern, i);
          AtDrop(t, pattern, 1, i - 1);
        }
      }
    }
  }

  lemma {:induction false} ReplaceChanges(t: string, pattern: string, text: string)
    requires pattern != [] && text != pattern && Contains(t, pattern)
    ensures Replace(t, pattern, text) != t
  {
    if |text| != |pattern| {
      ReplaceGrows(t, pattern, text);
    } else if At(t, pattern, 0) {
      var r := Replace(t, pattern, text);
      assert r[..|text|] == text && t[..|pattern|] == pattern;
    } else {
      var i :| At(t, pattern, i);
      AtDrop(t, pattern, 1, i - 1);
      ReplaceChanges(t[1..], pattern, text);
      assert ([t[0]] + Replace(t[1..], pattern, text))[1..] == Replace(t[1..], pattern, text);
    }
  }

  /** Replacing leaves a text alone if and only if it lacks the pattern or the pattern is put back. */
  lemma {:induction false} FixedExactly(t: string, pattern: string, text: string)
    requires pattern != []
    ensures Replace(t, pattern, text) == t <==> !Contains(t, pattern) || text == pattern
  {
    if !Contains(t, pattern) {
      ReplaceAbsent(t, pattern, text);
    } else if text == pattern {
      ReplaceSame(t, pattern);
    } else {
      ReplaceChanges(t, pattern, text);
    }
  }

  // ----- new matches ------------------------------------------------------------------------------------------

  /** The two strings agree as far as both go. */
  predicate Agree(a: string, b: string) {
    forall m | 0 <= m < |a| && m < |b| :: a[m] == b[m]
  }

  /** Some end of the text is a beginning of p, short of all of it. */
  predicate Begins(text: string, p: string) {
    exists k | 0 < k < |p| && k <= |text| :: text[|text| - k..] == p[..k]
  }

  /**
   Replacing brings no new p into t: the text does not hold or begin p, and where it could end p
   after some characters before it, the text t has not these characters before a match.
   */
  ghost predicate Safe(t: string, pattern: string, text: string, p: string) {
    && !Contains(text, p) && !Begins(text, p)
    && forall j | 0 < j < |p| && Agree(p[j..], text) :: |text| >= |p| - j && !Contains(t, p[..j] + pattern)
  }

  lemma {:induction false} SafeDrop(t: string, pattern: string, text: string, p: string, k: nat)
    requires Safe(t, pattern, text, p) && k <= |t|
    ensures Safe(t[k..], pattern, text, p)
  {
    forall j | 0 < j < |p| && Agree(p[j..], text) ensures !Contains(t[k..], p[..j] + pattern) {
      if Contains(t[k..], p[..j] + pattern) {
        ContainsDrop(t, p[..j] + pattern, k);
      }
    }
  }

  /** Where an occurrence in text + rest can lie. */
  lemma {:induction false} OccursIn(text: string, rest: string, p: string, i: int)
    requires p != [] && At(text + rest, p, i)
    ensures At(text, p, i) || Begins(text, p) || (i >= |text| && At(rest, p, i - |text|))
  {
    var whole := text + rest;
    if i + |p| <= |text| {
      assert text[i..i + |p|] == whole[i..i + |p|];
    } else if i < |text| {
      var k := |text| - i;
      assert text[|text| - k..] == whole[i..|text|] == whole[i..i + |p|][..k] == p[..k];
    } else {
      assert whole[i..i + |p|] == rest[i - |text|..i - |text| + |p|];
    }
  }

  /** The first match, or the end. */
  function First(t: string, pattern: string): (j: nat)
    ensures j <= |t|
  {
    if |t| < |pattern| then |t| else if At(t, pattern, 0) then 0 else if t == [] then 0 else 1 + First(t[1..], pattern)
  }

  lemma {:induction false} FirstIs(t: string, pattern: string)
    requires pattern != []
    ensures var j := First(t, pattern); (j == |t| || At(t, pattern, j)) && forall i | 0 <= i < j :: !At(t, pattern, i)
  {
    if |t| >= |pattern| && !At(t, pattern, 0) {
      var k := First(t[1..], pattern);
      FirstIs(t[1..], pattern);
      AtDrop(t, pattern, 1, k);
      forall i | 0 <= i < k + 1 ensures !At(t, pattern, i) {
        if i > 0 {
          AtDrop(t, pattern, 1, i - 1);
        }
      }
    }
  }

  lemma {:induction false} SkipTo(t: string, pattern: string, text: string, k: nat)
    requires pattern != [] && k <= |t| && forall i | 0 <= i < k :: !At(t, pattern, i)
    ensures Replace(t, pattern, text) == t[..k] + Replace(t[k..], pattern, text)
  {
    if k == 0 {
      assert t[..0] == [] && t[0..] == t;
    } else if |t| < |pattern| {
      assert t[..k] + t[k..] == t;
    } else {
      assert !At(t, pattern, 0);
      NoneLater(t, pattern, k);
      SkipTo(t[1..], pattern, text, k - 1);
      SkipStep(t, k, Replace(t[k..], pattern, text));
      assert t[1..][k - 1..] == t[k..];
    }
  }

  lemma {:induction false} NoneLater(t: string, pattern: string, k: nat)
    requires 0 < k <= |t| && forall i | 0 <= i < k :: !At(t, pattern, i)
    ensures forall i | 0 <= i < k - 1 :: !At(t[1..], pattern, i)
  {
    forall i | 0 <= i < k - 1 ensures !At(t[1..], pattern, i) {
      AtDrop(t, pattern, 1, i);
      assert !At(t, pattern, i + 1);
    }
  }

  lemma {:induction false} SkipStep(t: string, k: nat, tail: string)
    requires 0 < k <= |t|
    ensures [t[0]] + (t[1..][..k - 1] + tail) == t[..k] + tail
  {
    assert [t[0]] + t[1..][..k - 1] == t[..k];
  }

  /** The part before the first match is kept. */
  lemma {:induction false} FirstMatch(t: string, pattern: string, text: string)
    requires pattern != []
    ensures var j := First(t, pattern);
            if j == |t| then Replace(t, pattern, text) == t
            else && At(t, pattern, j)
                 && Replace(t, pattern, text) == t[..j] + (text + Replace(t[j + |pattern|..], pattern, text))
  {
    var j := First(t, pattern);
    FirstIs(t, pattern);
    SkipTo(t, pattern, text, j);
    if j < |t| {
      AtDrop(t, pattern, j, 0);
      assert t[j..][|pattern|..] == t[j + |pattern|..];
    }
  }

  /** An occurrence of p that the replacement completes at offset j. */
  ghost predicate Completes(t: string, pattern: string, text: string, p: string, j: int) {
    0 < j < |p| && Agree(p[j..], text) && At(t, p[..j] + pattern, 0)
  }

  lemma {:induction false} PrefixOf(a: string, b: string, p: string)
    requires At(a + b, p, 0)
    ensures |p| <= |a| ==> At(a, p, 0)
    ensures |p| > |a| ==> p[..|a|] == a && Agree(p[|a|..], b)
  {
    var whole := a + b;
    assert whole[0..|p|] == p;
    if |p| <= |a| {
      assert a[0..|p|] == whole[0..|p|];
    } else {
      assert p[..|a|] == whole[..|a|] == a;
      forall m | 0 <= m < |p[|a|..]| && m < |b| ensures p[|a|..][m] == b[m] {
        assert p[|a|..][m] == p[|a| + m] == whole[|a| + m] == b[m];
      }
    }
  }

  lemma {:induction false} AgreeLeft(p: string, text: string, rest: string)
    requires Agree(p, text + rest)
    ensures Agree(p, text)
  {
    assert forall m | 0 <= m < |text| :: (text + rest)[m] == text[m];
  }

  /** An occurrence of p at the very start was there, or is completed by the first replacement. */
  lemma {:induction false} StartShows(t: string, pattern: string, text: string, p: string)
    requires pattern != [] && p != [] && !At(t, pattern, 0) && At(Replace(t, pattern, text), p, 0)
    ensures At(t, p, 0) || Completes(t, pattern, text, p, First(t, pattern))
  {
    var j := First(t, pattern);
    FirstMatch(t, pattern, text);
    if j < |t| {
      StartAt(t, pattern, text, p, j, Replace(t[j + |pattern|..], pattern, text));
    }
  }

  lemma {:induction false} StartAt(t: string, pattern: string, text: string, p: string, j: nat, rest: string)
    requires p != [] && At(t, pattern, j) && !At(t, pattern, 0) && At(t[..j] + (text + rest), p, 0)
    ensures At(t, p, 0) || Completes(t, pattern, text, p, j)
  {
    PrefixOf(t[..j], text + rest, p);
    if |p| <= j {
      assert t[..j][0..|p|] == t[0..|p|];
    } else {
      AgreeLeft(p[j..], text, rest);
      assert j > 0;
      assert t[0..j + |pattern|] == t[..j] + t[j..j + |pattern|];
    }
  }

  /** A safe replacement leaves no p: neither an old one (unless it is the pattern, which goes) nor a new one. */
  lemma {:induction false} ReplaceClean(t: string, pattern: string, text: string, p: string)
    requires pattern != [] && p != [] && Safe(t, pattern, text, p) && (p == pattern || !Contains(t, p))
    ensures !Contains(Replace(t, pattern, text), p)
  {
    forall i ensures !At(Replace(t, pattern, text), p, i) {
      CleanAt(t, pattern, text, p, i);
    }
  }

  lemma {:induction false} StillAbsent(t: string, pattern: string, text: string, p: string, k: nat)
    requires Safe(t, pattern, text, p) && (p == pattern || !Contains(t, p)) && k <= |t|
    ensures Safe(t[k..], pattern, text, p) && (p == pattern || !Contains(t[k..], p))
  {
    SafeDrop(t, pattern, text, p, k);
    if Contains(t[k..], p) {
      ContainsDrop(t, p, k);
    }
  }

  lemma {:induction false} CleanAt(t: string, pattern: string, text: string, p: string, i: int)
    requires pattern != [] && p != [] && Safe(t, pattern, text, p) && (p == pattern || !Contains(t, p))
    ensures !At(Replace(t, pattern, text), p, i)
    decreases |t|
  {
    var r := Replace(t, pattern, text);
    if |t| >= |pattern| && At(t, pattern, 0) {
      var rest := t[|pattern|..];
      StillAbsent(t, pattern, text, p, |pattern|);
      CleanAt(rest, pattern, text, p, i - |text|);
      if At(r, p, i) {
        OccursIn(text, Replace(rest, pattern, text), p, i);
      }
    } else if |t| >= |pattern| && i == 0 {
      if At(r, p, 0) {
        StartShows(t, pattern, text, p);
      }
    } else if |t| >= |pattern| && i > 0 {
      StillAbsent(t, pattern, text, p, 1);
      CleanAt(t[1..], pattern, text, p, i - 1);
      assert r[1..] == Replace(t[1..], pattern, text);
      AtDrop(r, p, 1, i - 1);
    }
  }

  // ----- what a replacement leaves in place -------------------------------------------------------------------

  /** No match of the pattern begins before y + z and reaches into it, and none begins in y. */
  ghost predicate Clear(y: string, z: string, pattern: string) {
    && (forall j | 0 < j < |pattern| :: !Agree(pattern[j..], y + z))
    && (forall j | 0 <= j < |y| :: !Agree((y + z)[j..], pattern))
  }

  /** Two strings found in one text agree where they overlap. */
  lemma {:induction false} Overlap(t: string, a: string, i: nat, b: string, k: nat)
    requires At(t, a, i) && At(t, b, k) && i <= k <= i + |a|
    ensures Agree(a[k - i..], b) && Agree(b, a[k - i..])
  {
    var c := a[k - i..];
    forall m | 0 <= m < |c| && m < |b| ensures c[m] == b[m] {
      assert c[m] == a[k - i + m] == t[i..i + |a|][k - i + m] == t[k + m];
      assert b[m] == t[k..k + |b|][m] == t[k + m];
    }
  }

  lemma {:induction false} NoOverlap(t: string, y: string, z: string, pattern: string, i: nat)
    requires Clear(y, z, pattern) && At(t, pattern, 0) && At(t, y + z, i) && i > 0
    ensures |pattern| <= i
  {
    if i < |pattern| {
      Overlap(t, pattern, 0, y + z, i);
      assert false;
    }
  }

  lemma {:induction false} Shifted(a: string, b: string, u: string, k: nat)
    requires At(b, u, k)
    ensures At(a + b, u, k + |a|)
  {
    assert (a + b)[|a|..] == b;
    AtDrop(a + b, u, |a|, k);
  }

  /** What y + z becomes. */
  function Became(y: string, z: string, text: string): string {
    y + if z == [] then [] else text
  }

  /** In a clear place y stays, and a pattern after it becomes the text. */
  lemma {:induction false} CarriedAt(t: string, y: string, z: string, pattern: string, text: string, i: nat)
    returns (k: nat)
    requires pattern != [] && (z == [] || z == pattern) && Clear(y, z, pattern) && At(t, y + z, i)
    ensures At(Replace(t, pattern, text), Became(y, z, text), k)
    decreases |t|, 1
  {
    if i == 0 {
      CarriedHere(t, y, z, pattern, text);
      k := 0;
    } else if |t| < |pattern| {
      assert y + z == y == Became(y, z, text);
      k := i;
    } else {
      k := CarriedLater(t, y, z, pattern, text, i);
    }
  }

  lemma {:induction false} CarriedLater(t: string, y: string, z: string, pattern: string, text: string, i: nat)
    returns (k: nat)
    requires pattern != [] && (z == [] || z == pattern) && Clear(y, z, pattern) && At(t, y + z, i)
    requires i > 0 && |t| >= |pattern|
    ensures At(Replace(t, pattern, text), Became(y, z, text), k)
    decreases |t|, 0
  {
    var n := if At(t, pattern, 0) then |pattern| else 1;
    if At(t, pattern, 0) {
      NoOverlap(t, y, z, pattern, i);
    }
    AtDrop(t, y + z, n, i - n);
    k := CarriedAt(t[n..], y, z, pattern, text, i - n);
    var head := if At(t, pattern, 0) then text else [t[0]];
    Shifted(head, Replace(t[n..], pattern, text), Became(y, z, text), k);
    k := k + |head|;
  }

  lemma {:induction false} CarriedHere(t: string, y: string, z: string, pattern: string, text: string)
    requires pattern != [] && (z == [] || z == pattern) && Clear(y, z, pattern) && At(t, y + z, 0)
    ensures At(Replace(t, pattern, text), Became(y, z, text), 0)
  {
    forall i | 0 <= i < |y| ensures !At(t, pattern, i) {
      if At(t, pattern, i) {
        Overlap(t, y + z, 0, pattern, i);
      }
    }
    SkipTo(t, pattern, text, |y|);
    assert t[..|y|] == y by {
      assert t[0..|y + z|][..|y|] == (y + z)[..|y|];
    }
    if z != [] {
      assert t[|y|..][0..|pattern|] == t[0..|y + z|][|y|..] == z;
    }
  }

  lemma {:induction false} Carried(t: string, y: string, z: string, pattern: string, text: string)
    requires pattern != [] && (z == [] || z == pattern) && Clear(y, z, pattern) && Contains(t, y + z)
    ensures Contains(Replace(t, pattern, text), y + (if z == [] then [] else text))
  {
    var i :| At(t, y + z, i);
    var k := CarriedAt(t, y, z, pattern, text, i);
  }

  /** What contains a string contains its parts. */
  lemma {:induction false} ContainsPart(t: string, a: string, p: string, b: string)
    requires Contains(t, a + p + b)
    ensures Contains(t, p)
  {
    var s := a + p + b;
    var i :| At(t, s, i);
    forall j | 0 <= j < |p| ensures t[i + |a| + j] == p[j] {
      assert t[i..i + |s|][|a| + j] == s[|a| + j];
    }
    assert t[i + |a|..i + |a| + |p|] == p;
    assert At(t, p, i + |a|);
  }
}
