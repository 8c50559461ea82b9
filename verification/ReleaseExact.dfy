/** Exactly which texts the text renderer needs two runs for, under the shipped configuration. */
module ReleaseExact {
  import opened TextReplace
  import opened ReleaseChannel

  // ----- the names, by the letters that matter ------------------------------------------------------------------

  /** A g that could begin the host name stands only at the front. */
  predicate OneHost(s: string) {
    forall j | 0 < j < |s| && s[j] == 'g' :: j + 1 < |s| && s[j + 1] != 'h'
  }

  /** An upstream name, or one without its last letter. */
  predicate Name(s: string, first: char, n: nat) {
    && |s| == n && 22 <= n <= 23 && s[0] == first && s[1] == 'u' && s[2] == 'c' && s[20] == 'l' && s[21] == 'u'
    && s[10] == '/' && s[12] == 'u' && (n == 23 ==> s[22] == 's')
    && forall j | 0 < j < n ::
      s[j] != 'L' && (s[j] == 'l' ==> j == 20) && (s[j] == 's' ==> j == 11 || j == 22) && (s[j] == 'g' ==> j == 9)
  }

  predicate Host(s: string) {
    && |s| == 8 && s[0] == 'g' && s[1] == 'h'
    && forall j | 0 <= j < 8 :: s[j] != 'L' && s[j] != 'l' && s[j] != 's' && (j > 0 ==> s[j] != 'g')
  }

  predicate Own(s: string) {
    && |s| == 25 && s[0] == 's' && s[1] == 'k' && s[12] == 'g' && s[24] != 'g'
    && (forall j | 0 <= j < 24 && s[j] == 'g' :: s[j + 1] != 'h')
    && forall j | 0 <= j < 25 :: s[j] != 'L' && s[j] != 'l' && (j > 0 ==> s[j] != 's')
  }

  predicate Image(s: string) {
    && |s| == 32 && s[8] == 's' && s[20] == 's' && s[0] == 'g' && s[1] == 'h' && s[31] == 's' && OneHost(s)
    && forall j | 0 <= j < 32 :: s[j] != 'L' && (s[j] == 'l' ==> j == 29)
  }

  /**
   The names of a configuration: host, upstream name in both spellings, both without the last letter,
   repository, image.
   */
  datatype Names = Names(g: string, c: string, d: string, c1: string, d1: string, r: string, i: string) {
    predicate Valid() {
      && Host(g) && Name(c, 'L', 23) && Name(d, 'l', 23) && Name(c1, 'L', 22) && Name(d1, 'l', 22) && Own(r) && Image(i)
      && c == c1 + ['s'] && d == d1 + ['s']
    }

    function A(): string { g + r }
    function B(): string { g + d }
  }

  const STEM: string := "LuckyKuang/sub2api-plu"
  const STEM_LOWER: string := "luckykuang/sub2api-plu"

  const SHIPPED: Names := Names(HOST, UPSTREAM, UPSTREAM_LOWER, STEM, STEM_LOWER, SHIPPED_REPOSITORY, SHIPPED_IMAGE)

  lemma {:induction false} UpstreamNames(c: string, d: string)
    requires c == UPSTREAM && d == UPSTREAM_LOWER
    ensures Name(c, 'L', 23) && Name(d, 'l', 23)
  {
  }

  lemma {:induction false} StemNames(c1: string, d1: string)
    requires c1 == STEM && d1 == STEM_LOWER
    ensures Name(c1, 'L', 22) && Name(d1, 'l', 22)
  {
  }

  lemma {:induction false} Stems(c: string, d: string, c1: string, d1: string)
    requires c == UPSTREAM && d == UPSTREAM_LOWER && c1 == STEM && d1 == STEM_LOWER
    ensures c == c1 + ['s'] && d == d1 + ['s']
  {
  }

  lemma {:induction false} HostName(g: string)
    requires g == HOST
    ensures Host(g)
  {
  }

  lemma {:induction false} OwnName(r: string)
    requires r == SHIPPED_REPOSITORY
    ensures Own(r)
  {
    assert |r| == 25 && r[6] == 'g' && r[7] == 'n' && r[12] == 'g' && r[13] == 'o';
    assert forall j | 0 <= j < 25 :: r[j] != 'L' && r[j] != 'l' && (j > 0 ==> r[j] != 's');
    assert forall j | 0 <= j < 25 && r[j] == 'g' :: j == 6 || j == 12;
  }

  lemma {:induction false} ImageName(i: string)
    requires i == SHIPPED_IMAGE
    ensures Image(i)
  {
    assert |i| == 32 && i[0] == 'g' && i[14] == 'g' && i[15] == 'n';
    assert forall j | 0 <= j < 32 && i[j] == 'g' :: j == 0 || j == 14;
    assert forall j | 0 <= j < 32 :: i[j] != 'L' && (i[j] == 'l' ==> j == 29);
  }

  lemma {:induction false} UpstreamImage(g: string, d: string)
    requires g == HOST && d == UPSTREAM_LOWER
    ensures g + d == UPSTREAM_IMAGE
  {
  }

  lemma {:induction false} ShippedNames(n: Names)
    requires n.g == HOST && n.c == UPSTREAM && n.d == UPSTREAM_LOWER && n.c1 == STEM && n.d1 == STEM_LOWER
    requires n.r == SHIPPED_REPOSITORY && n.i == SHIPPED_IMAGE
    ensures n.Valid() && n.B() == UPSTREAM_IMAGE
  {
    UpstreamNames(n.c, n.d);
    StemNames(n.c1, n.d1);
    Stems(n.c, n.d, n.c1, n.d1);
    HostName(n.g);
    OwnName(n.r);
    ImageName(n.i);
    UpstreamImage(n.g, n.d);
  }

  // ----- the shapes a pattern can have ------------------------------------------------------------------------------

  /** A string that begins like a host or an upstream name. */
  predicate Starts(p: string) {
    && |p| >= 21 && OneHost(p)
    && (p[0] == 'L' || (p[0] == 'l' && p[2] == 'c') || (p[0] == 'g' && p[1] == 'h'))
  }

  lemma {:induction false} Differ(a: string, b: string, k: nat)
    requires k < |a| && k < |b| && a[k] != b[k]
    ensures !Agree(a, b) && !Agree(b, a)
  {
  }

  lemma {:induction false} NotAt(t: string, p: string, k: int, m: nat)
    requires k >= 0 && m < |p| && k + m < |t| && t[k + m] != p[m]
    ensures !At(t, p, k)
  {
    if k + |p| <= |t| {
      assert t[k..k + |p|][m] == t[k + m];
    }
  }

  lemma {:induction false} NotBegun(t: string, p: string, k: nat, m: nat)
    requires m < k <= |t| && k <= |p| && t[|t| - k + m] != p[m]
    ensures t[|t| - k..] != p[..k]
  {
    assert t[|t| - k..][m] == t[|t| - k + m] && p[..k][m] == p[m];
  }

  /** The image name neither holds, begins nor completes such a string, unless they begin alike. */
  lemma {:induction false} ImageKeepsOut(t: string, pattern: string, i: string, p: string)
    requires Image(i) && Starts(p) && !Agree(p, i)
    ensures Safe(t, pattern, i, p)
  {
    var d :| 0 <= d < |p| && d < |i| && p[d] != i[d];
    forall k ensures !At(i, p, k) {
      if k == 0 {
        NotAt(i, p, 0, d);
      } else if 0 < k <= |i| - |p| {
        NotAt(i, p, k, if i[k] != p[0] then 0 else 1);
      }
    }
    forall k | 0 < k < |p| && k <= |i| ensures i[|i| - k..] != p[..k] {
      var s := |i| - k;
      NotBegun(i, p, k, if s == 0 then d else if i[s] != p[0] then 0 else if p[0] == 'l' then 2 else 1);
    }
    forall j | 0 < j < |p| ensures !Agree(p[j..], i) {
      ImageNotInside(i, p, j);
    }
  }

  lemma {:induction false} ImageNotInside(i: string, p: string, j: nat)
    requires Image(i) && OneHost(p) && 0 < j < |p|
    ensures !Agree(p[j..], i)
  {
    if p[j] != 'g' {
      assert p[j..][0] == p[j];
      Differ(p[j..], i, 0);
    } else {
      assert p[j..][1] == p[j + 1];
      Differ(p[j..], i, 1);
    }
  }

  ghost predicate Blocked(t: string, pattern: string, text: string, p: string, j: nat)
    requires j <= |p|
  {
    |text| >= |p| - j && !Contains(t, p[..j] + pattern)
  }

  /**
   The repository name neither holds nor begins such a string; it can complete one only where an s stands at
   its end or before a k.
   */
  lemma {:induction false} OwnKeepsOut(t: string, pattern: string, r: string, p: string)
    requires Own(r) && Starts(p)
    requires forall j | 0 < j < |p| && p[j] == 's' && (j + 1 == |p| || p[j + 1] == 'k') :: Blocked(t, pattern, r, p, j)
    ensures Safe(t, pattern, r, p)
  {
    forall k ensures !At(r, p, k) {
      if 0 <= k <= |r| - |p| {
        NotAt(r, p, k, if r[k] != p[0] then 0 else 1);
      }
    }
    forall k | 0 < k < |p| && k <= |r| ensures r[|r| - k..] != p[..k] {
      NotBegun(r, p, k, if r[|r| - k] != p[0] then 0 else 1);
    }
    forall j | 0 < j < |p| && Agree(p[j..], r) ensures |r| >= |p| - j && !Contains(t, p[..j] + pattern) {
      assert p[j..][0] == p[j] && p[j] == 's';
      if j + 1 < |p| {
        assert p[j..][1] == p[j + 1] && p[j + 1] == 'k';
      }
      assert p[j] == 's' && (j + 1 == |p| || p[j + 1] == 'k');
      assert Blocked(t, pattern, r, p, j);
    }
  }

  /** For a string that ends in s after a stem, and has no sk inside, only the stem before the pattern matters. */
  lemma {:induction false} OwnAfterStem(t: string, pattern: string, r: string, p: string, stem: string)
    requires Own(r) && Starts(p) && p == stem + ['s'] && !Contains(t, stem + pattern)
    requires forall j | 0 < j < |p| - 1 && p[j] == 's' :: p[j + 1] != 'k'
    ensures Safe(t, pattern, r, p)
  {
    assert p[..|p| - 1] == stem;
    assert Blocked(t, pattern, r, p, |p| - 1);
    OwnKeepsOut(t, pattern, r, p);
  }

  // ----- the strings that need a second run -------------------------------------------------------------------------

  /**
   What a text must not hold: the host before the mixed-case name, and names that an upstream name cut
   short stands before, so that the replacement of the second supplies the missing letter of the first.
   */
  function Reviving(n: Names): seq<string> {
    [n.g + n.c, n.g + n.d1 + n.c, n.c1 + n.c, n.c1 + n.d, n.c1 + n.d1 + n.c, n.d1 + n.d, n.d1 + n.d1 + n.c]
  }

  /** Such a string meets no match of the first two rules, and differs from both images. */
  ghost predicate Shape(n: Names, x: string) {
    Starts(x) && !Agree(x, n.A()) && !Agree(x, n.B()) && !Agree(n.d, x) && !Agree(x, n.i)
  }

  lemma {:induction false} OneHostConcat(a: string, b: string)
    requires OneHost(a) && OneHost(b) && b != [] && b[0] != 'g'
    ensures OneHost(a + b)
  {
    var s := a + b;
    forall j | 0 < j < |s| && s[j] == 'g' ensures j + 1 < |s| && s[j + 1] != 'h' {
      if j < |a| {
        assert a[j] == 'g' && s[j + 1] == a[j + 1];
      } else {
        assert b[j - |a|] == 'g' && s[j + 1] == b[j - |a| + 1];
      }
    }
  }

  lemma {:induction false} NameHost(s: string, first: char, k: nat)
    requires Name(s, first, k)
    ensures OneHost(s)
  {
  }

  /** The host before a name. */
  lemma {:induction false} HostShape(n: Names, y: string)
    requires n.Valid() && OneHost(y) && |y| >= 23 && (y[0] == 'L' || (y[0] == 'l' && y[22] != 's'))
    ensures Shape(n, n.g + y)
  {
    var x := n.g + y;
    OneHostConcat(n.g, y);
    assert x[8] == y[0] && x[30] == y[22] && x[0] == 'g' && x[1] == 'h';
    Differ(x, n.A(), 8);
    Differ(x, n.B(), if y[0] == 'L' then 8 else 30);
    Differ(n.d, x, 0);
    Differ(x, n.i, 8);
  }

  /** A name cut short before another. */
  lemma {:induction false} StemShape(n: Names, stem: string, y: string)
    requires n.Valid() && (stem == n.c1 || stem == n.d1) && OneHost(y) && y != [] && y[0] != 'g' && y[0] != 's'
    ensures Shape(n, stem + y)
  {
    var x := stem + y;
    assert Name(stem, stem[0], 22);
    NameHost(stem, stem[0], 22);
    OneHostConcat(stem, y);
    assert x[0] == stem[0] && x[2] == stem[2] && x[22] == y[0];
    Differ(x, n.A(), 0);
    Differ(x, n.B(), 0);
    Differ(n.d, x, if stem[0] == 'L' then 0 else 22);
    Differ(x, n.i, 0);
  }

  lemma {:induction false} RevivingShapes(n: Names)
    requires n.Valid()
    ensures Shape(n, n.g + n.c) && Shape(n, n.g + n.d1 + n.c)
    ensures Shape(n, n.c1 + n.c) && Shape(n, n.c1 + n.d) && Shape(n, n.c1 + n.d1 + n.c)
    ensures Shape(n, n.d1 + n.d) && Shape(n, n.d1 + n.d1 + n.c)
  {
    NameHost(n.c, 'L', 23);
    NameHost(n.d, 'l', 23);
    HostShape(n, n.c);
    StemShape(n, n.c1, n.c);
    StemShape(n, n.c1, n.d);
    StemShape(n, n.d1, n.d);
    LongShapes(n);
  }

  lemma {:induction false} LongShapes(n: Names)
    requires n.Valid()
    ensures Shape(n, n.g + n.d1 + n.c) && Shape(n, n.c1 + n.d1 + n.c) && Shape(n, n.d1 + n.d1 + n.c)
  {
    var y := n.d1 + n.c;
    NameHost(n.c, 'L', 23);
    NameHost(n.d1, 'l', 22);
    OneHostConcat(n.d1, n.c);
    assert y[0] == 'l' && y[22] == 'L';
    HostShape(n, y);
    StemShape(n, n.c1, y);
    StemShape(n, n.d1, y);
    assert n.g + n.d1 + n.c == n.g + y && n.c1 + n.d1 + n.c == n.c1 + y && n.d1 + n.d1 + n.c == n.d1 + y;
  }

  // ----- the first two rules neither bring in nor remove such a string ---------------------------------------------

  lemma {:induction false} HostedClear(n: Names, pattern: string, x: string)
    requires n.Valid() && Shape(n, x) && (pattern == n.A() || pattern == n.B())
    ensures Clear(x, [], pattern)
  {
    assert x + [] == x;
    forall j | 0 < j < |pattern| ensures !Agree(pattern[j..], x) {
      HostedBefore(n, pattern, x, j);
    }
    forall j | 0 <= j < |x| ensures !Agree(x[j..], pattern) {
      if j == 0 {
        assert x[0..] == x;
      } else if x[j] != 'g' {
        Differ(x[j..], pattern, 0);
      } else {
        assert x[j..][1] == x[j + 1];
        Differ(x[j..], pattern, 1);
      }
    }
  }

  lemma {:induction false} HostedBefore(n: Names, pattern: string, x: string, j: nat)
    requires n.Valid() && Shape(n, x) && (pattern == n.A() || pattern == n.B()) && 0 < j < |pattern|
    ensures !Agree(pattern[j..], x)
  {
    var rest := if pattern == n.A() then n.r else n.d;
    assert pattern == n.g + rest;
    if j < 8 {
      assert pattern[j..][0] == n.g[j];
      Differ(pattern[j..], x, 0);
    } else if pattern == n.B() && j == 8 {
      assert pattern[8..] == n.d;
    } else {
      assert pattern[j..][0] == rest[j - 8];
      if j + 1 < |pattern| {
        assert pattern[j..][1] == rest[j - 7];
      }
      if pattern == n.B() && j == 28 {
        assert pattern[j..][2] == rest[22] == 's';
        Differ(pattern[j..], x, if x[0] == 'l' then 2 else 0);
      } else {
        Differ(pattern[j..], x, if rest[j - 8] != x[0] then 0 else 1);
      }
    }
  }

  /** A string of this shape is in the text after one of the first two rules if and only if it was there before. */
  lemma {:induction false} HostedKeeps(n: Names, t: string, pattern: string, x: string)
    requires n.Valid() && Shape(n, x) && (pattern == n.A() || pattern == n.B())
    ensures Contains(Replace(t, pattern, n.i), x) <==> Contains(t, x)
  {
    ImageKeepsOut(t, pattern, n.i, x);
    if Contains(t, x) {
      assert x + [] == x;
      HostedClear(n, pattern, x);
      Carried(t, x, [], pattern, n.i);
    } else {
      ReplaceClean(t, pattern, n.i, x);
    }
  }

  lemma {:induction false} Images(n: Names)
    requires n.Valid()
    ensures Starts(n.A()) && !Agree(n.A(), n.i) && Starts(n.B()) && !Agree(n.B(), n.i)
    ensures n.A() != [] && n.B() != [] && n.c != [] && n.d != []
  {
    NameHost(n.d, 'l', 23);
    OneHostConcat(n.g, n.d);
    OneHostConcat(n.g, n.r);
    assert n.A()[20] == n.r[12] && n.B()[8] == n.d[0];
    Differ(n.A(), n.i, 20);
    Differ(n.B(), n.i, 8);
  }

  /** The text after the first two rules. */
  function Hosted(n: Names, t: string): string
    requires n.Valid()
  {
    Replace(Replace(t, n.A(), n.i), n.B(), n.i)
  }

  lemma {:induction false} HostedText(n: Names, t: string)
    requires n.Valid()
    ensures !Contains(Hosted(n, t), n.A()) && !Contains(Hosted(n, t), n.B())
  {
    var t1 := Replace(t, n.A(), n.i);
    Images(n);
    ImageKeepsOut(t, n.A(), n.i, n.A());
    ReplaceClean(t, n.A(), n.i, n.A());
    ImageKeepsOut(t1, n.B(), n.i, n.A());
    ReplaceClean(t1, n.B(), n.i, n.A());
    ImageKeepsOut(t1, n.B(), n.i, n.B());
    ReplaceClean(t1, n.B(), n.i, n.B());
  }

  lemma {:induction false} HostedSame(n: Names, t: string, x: string)
    requires n.Valid() && Shape(n, x)
    ensures Contains(Hosted(n, t), x) <==> Contains(t, x)
  {
    HostedKeeps(n, t, n.A(), x);
    HostedKeeps(n, Replace(t, n.A(), n.i), n.B(), x);
  }

  // ----- the last two rules, on a text without such a string -------------------------------------------------------

  /** A replaced name brings the own image in only where the host stands before the name. */
  lemma {:induction false} NoOwnImage(n: Names, t: string, pattern: string)
    requires n.Valid() && pattern != [] && !Contains(t, n.A()) && !Contains(t, n.g + pattern)
    ensures !Contains(Replace(t, pattern, n.r), n.A())
  {
    var p := n.A();
    Images(n);
    assert p[..8] == n.g;
    assert Blocked(t, pattern, n.r, p, 8);
    forall j | 0 < j < |p| && p[j] == 's' ensures j == 8 {
      if j >= 8 {
        assert p[j] == n.r[j - 8];
      }
    }
    OwnKeepsOut(t, pattern, n.r, p);
    ReplaceClean(t, pattern, n.r, p);
  }

  /** Names, and strings of them, hold no sk. */
  predicate NoRepository(p: string) {
    forall j | 0 < j < |p| - 1 && p[j] == 's' :: p[j + 1] != 'k'
  }

  /** A replaced name completes a string that ends in s only where the rest of that string stands before the name. */
  lemma {:induction false} NoCompletion(n: Names, t: string, pattern: string, stem: string)
    requires n.Valid() && pattern != [] && Starts(stem + ['s']) && NoRepository(stem + ['s'])
    requires pattern == stem + ['s'] || !Contains(t, stem + ['s'])
    requires !Contains(t, stem + pattern)
    ensures !Contains(Replace(t, pattern, n.r), stem + ['s'])
  {
    OwnAfterStem(t, pattern, n.r, stem + ['s'], stem);
    ReplaceClean(t, pattern, n.r, stem + ['s']);
  }

  lemma {:induction false} NameParts(n: Names, head: string)
    requires n.Valid() && OneHost(head) && (head == n.g || head == n.c1 || head == n.d1)
    ensures head + n.d == head + n.d1 + ['s'] && NoRepository(head + n.d) && Starts(head + n.d)
  {
    var p := head + n.d;
    NameHost(n.d, 'l', 23);
    OneHostConcat(head, n.d);
    forall j | 0 < j < |p| - 1 && p[j] == 's' ensures p[j + 1] != 'k' {
      if j < |head| {
        assert head[j] == 's';
        assert p[j + 1] == head[12];
      } else {
        assert p[j + 1] == n.d[j + 1 - |head|];
      }
    }
  }

  lemma {:induction false} NameStarts(p: string, first: char)
    requires Name(p, first, 23) && (first == 'L' || first == 'l')
    ensures Starts(p) && NoRepository(p)
  {
    NameHost(p, first, 23);
  }

  ghost predicate Lacks(t: string, x: string) { !Contains(t, x) }

  lemma {:induction false} ThirdRule(n: Names, t: string)
    requires n.Valid() && Lacks(t, n.A()) && Lacks(t, n.B()) && Lacks(t, n.g + n.c) && Lacks(t, n.g + n.d1 + n.c)
    requires Lacks(t, n.c1 + n.c) && Lacks(t, n.c1 + n.d) && Lacks(t, n.c1 + n.d1 + n.c)
    requires Lacks(t, n.d1 + n.d) && Lacks(t, n.d1 + n.d1 + n.c)
    ensures var u := Replace(t, n.c, n.r);
            Lacks(u, n.A()) && Lacks(u, n.B()) && Lacks(u, n.c) && Lacks(u, n.c1 + n.d) && Lacks(u, n.d1 + n.d)
  {
    NoOwnImage(n, t, n.c);
    NameStarts(n.c, 'L');
    NoCompletion(n, t, n.c, n.c1);
    NameHost(n.c1, 'L', 22);
    NameHost(n.d1, 'l', 22);
    NameParts(n, n.g);
    NameParts(n, n.c1);
    NameParts(n, n.d1);
    NoCompletion(n, t, n.c, n.g + n.d1);
    NoCompletion(n, t, n.c, n.c1 + n.d1);
    NoCompletion(n, t, n.c, n.d1 + n.d1);
  }

  lemma {:induction false} FourthRule(n: Names, t: string)
    requires n.Valid() && Lacks(t, n.A()) && Lacks(t, n.B()) && Lacks(t, n.c) && Lacks(t, n.c1 + n.d)
    requires Lacks(t, n.d1 + n.d)
    ensures var u := Replace(t, n.d, n.r); Lacks(u, n.A()) && Lacks(u, n.B()) && Lacks(u, n.c) && Lacks(u, n.d)
  {
    NoOwnImage(n, t, n.d);
    NameStarts(n.c, 'L');
    NameStarts(n.d, 'l');
    NoCompletion(n, t, n.d, n.c1);
    NoCompletion(n, t, n.d, n.d1);
    var u := Replace(t, n.d, n.r);
    if Contains(u, n.B()) {
      assert n.B() == n.g + n.d + [];
      ContainsPart(u, n.g, n.d, []);
    }
  }

  // ----- the last two rules, on a text with such a string ----------------------------------------------------------

  /** No match of the mixed-case name touches what stands before z. */
  lemma {:induction false} MixedClear(n: Names, y: string, z: string)
    requires n.Valid() && Starts(y + z) && |y + z| > 22 && ((y + z)[0] == 'L' ==> (y + z)[22] != 's')
    requires forall j | 0 < j < |y| :: y[j] != 'L'
    ensures Clear(y, z, n.c)
  {
    var x := y + z;
    forall j | 0 < j < 23 ensures !Agree(n.c[j..], x) {
      NameAfter(n.c, 'L', x, j);
    }
    forall j | 0 <= j < |y| ensures !Agree(x[j..], n.c) {
      assert x[j..][0] == y[j];
      if j == 0 && y[0] == 'L' {
        assert x[0..] == x;
        Differ(x, n.c, 22);
      } else {
        Differ(x[j..], n.c, 0);
      }
    }
  }

  lemma {:induction false} NameAfter(name: string, first: char, x: string, j: nat)
    requires Name(name, first, 23) && Starts(x) && 0 < j < 23
    ensures !Agree(name[j..], x)
  {
    assert name[j..][0] == name[j];
    if name[j] != x[0] {
      Differ(name[j..], x, 0);
    } else if x[0] == 'g' {
      assert name[j..][1] == name[10];
      Differ(name[j..], x, 1);
    } else {
      assert name[j..][2] == name[22];
      Differ(name[j..], x, 2);
    }
  }

  /** An l in y that does not begin the lower-case name. */
  predicate NoLower(y: string, x: string) {
    forall j | 0 <= j < |y| && y[j] == 'l' ::
      (j == 0 && |x| > 22 && x[22] != 's') || (j + 2 < |x| && x[j + 2] != 'c')
  }

  lemma {:induction false} LowerClear(n: Names, y: string, z: string)
    requires n.Valid() && Starts(y + z) && NoLower(y, y + z)
    ensures Clear(y, z, n.d)
  {
    var x := y + z;
    forall j | 0 < j < 23 ensures !Agree(n.d[j..], x) {
      NameAfter(n.d, 'l', x, j);
    }
    forall j | 0 <= j < |y| ensures !Agree(x[j..], n.d) {
      assert x[j..][0] == y[j];
      if y[j] != 'l' {
        Differ(x[j..], n.d, 0);
      } else if j + 2 < |x| && x[j + 2] != 'c' {
        assert x[j..][2] == x[j + 2];
        Differ(x[j..], n.d, 2);
      } else {
        assert x[0..] == x;
        Differ(x, n.d, 22);
      }
    }
  }

  /** What the third rule leaves of a string that needs two runs. */
  ghost predicate Half(n: Names, t: string) {
    Contains(t, n.A()) || Contains(t, n.c) || Contains(t, n.g + n.d) || Contains(t, n.c1 + n.d)
      || Contains(t, n.d1 + n.d)
  }

  /** The first letter of the repository completes the name cut short before it. */
  lemma {:induction false} Completed(t: string, head: string, stem: string, name: string, r: string)
    requires Own(r) && name == stem + ['s'] && Contains(t, head + stem + r)
    ensures Contains(t, head + name)
  {
    assert head + stem + r == [] + (head + name) + r[1..];
    ContainsPart(t, [], head + name, r[1..]);
  }

  lemma {:induction false} ThirdCarries(n: Names, t: string, y: string)
    requires n.Valid() && Shape(n, y + n.c) && Contains(t, y + n.c) && |y| >= 8
    requires forall j | 0 < j < |y| :: y[j] != 'L'
    requires y[0] == 'L' ==> |y| >= 22 && (y + n.c)[22] != 's'
    ensures Contains(Replace(t, n.c, n.r), y + n.r)
  {
    MixedClear(n, y, n.c);
    Carried(t, y, n.c, n.c, n.r);
  }

  lemma {:induction false} OneMixed(n: Names, head: string)
    requires n.Valid() && (head == n.g || head == n.c1 || head == n.d1)
    ensures var y := head + n.d1;
            && |y| >= 8 && (forall j | 0 < j < |y| :: y[j] != 'L')
            && (y[0] == 'L' ==> |y| >= 22 && (y + n.c)[22] != 's')
  {
    var y := head + n.d1;
    assert forall j | 0 < j < |y| :: y[j] == if j < |head| then head[j] else n.d1[j - |head|];
  }

  lemma {:induction false} ThirdTwo(n: Names, t: string, head: string)
    requires n.Valid() && (head == n.g || head == n.c1 || head == n.d1) && Contains(t, head + n.d1 + n.c)
    ensures Contains(Replace(t, n.c, n.r), head + n.d)
  {
    var y := head + n.d1;
    RevivingShapes(n);
    OneMixed(n, head);
    ThirdCarries(n, t, y);
    Completed(Replace(t, n.c, n.r), head, n.d1, n.d, n.r);
  }

  lemma {:induction false} ThirdOne(n: Names, t: string)
    requires n.Valid() && (Contains(t, n.g + n.c) || Contains(t, n.c1 + n.c))
    ensures Half(n, Replace(t, n.c, n.r))
  {
    RevivingShapes(n);
    if Contains(t, n.g + n.c) {
      ThirdCarries(n, t, n.g);
    } else {
      ThirdCarries(n, t, n.c1);
      assert [] + n.c1 + n.r == n.c1 + n.r && [] + n.c == n.c;
      Completed(Replace(t, n.c, n.r), [], n.c1, n.c, n.r);
    }
  }

  lemma {:induction false} ThirdLeaves(n: Names, t: string, stem: string)
    requires n.Valid() && (stem == n.c1 || stem == n.d1) && Contains(t, stem + n.d)
    ensures Contains(Replace(t, n.c, n.r), stem + n.d)
  {
    var x := stem + n.d;
    RevivingShapes(n);
    assert x + [] == x;
    assert forall j | 22 <= j < |x| :: x[j] == n.d[j - 22];
    MixedClear(n, x, []);
    Carried(t, x, [], n.c, n.r);
  }

  lemma {:induction false} ThirdHalf(n: Names, t: string, x: string)
    requires n.Valid() && x in Reviving(n) && Contains(t, x)
    ensures Half(n, Replace(t, n.c, n.r))
  {
    if x == n.g + n.c || x == n.c1 + n.c {
      ThirdOne(n, t);
    } else if x == n.c1 + n.d {
      ThirdLeaves(n, t, n.c1);
    } else if x == n.d1 + n.d {
      ThirdLeaves(n, t, n.d1);
    } else {
      var head := if x == n.g + n.d1 + n.c then n.g else if x == n.c1 + n.d1 + n.c then n.c1 else n.d1;
      ThirdTwo(n, t, head);
    }
  }

  lemma {:induction false} FourthCarries(n: Names, t: string, y: string)
    requires n.Valid() && (y == n.g || y == n.c1 || y == n.d1) && Contains(t, y + n.d)
    ensures Contains(Replace(t, n.d, n.r), y + n.r)
  {
    NameHost(n.c1, 'L', 22);
    NameHost(n.d1, 'l', 22);
    NameParts(n, y);
    LowerClear(n, y, n.d);
    Carried(t, y, n.d, n.d, n.r);
  }

  lemma {:induction false} FourthLeaves(n: Names, t: string, x: string)
    requires n.Valid() && (x == n.A() || x == n.c) && Contains(t, x)
    ensures Contains(Replace(t, n.d, n.r), x)
  {
    assert x + [] == x;
    Images(n);
    NameStarts(n.c, 'L');
    LowerClear(n, x, []);
    Carried(t, x, [], n.d, n.r);
  }

  lemma {:induction false} FourthWhole(n: Names, t: string)
    requires n.Valid() && Half(n, t)
    ensures var u := Replace(t, n.d, n.r); Contains(u, n.A()) || Contains(u, n.c) || Contains(u, n.d)
  {
    var u := Replace(t, n.d, n.r);
    if Contains(t, n.A()) {
      FourthLeaves(n, t, n.A());
    } else if Contains(t, n.c) {
      FourthLeaves(n, t, n.c);
    } else if Contains(t, n.g + n.d) {
      FourthCarries(n, t, n.g);
    } else if Contains(t, n.c1 + n.d) {
      FourthCarries(n, t, n.c1);
      assert [] + n.c1 + n.r == n.c1 + n.r && [] + n.c == n.c;
      Completed(u, [], n.c1, n.c, n.r);
    } else {
      FourthCarries(n, t, n.d1);
      assert [] + n.d1 + n.r == n.d1 + n.r && [] + n.d == n.d;
      Completed(u, [], n.d1, n.d, n.r);
    }
  }

  // ----- exactly when one run is enough ----------------------------------------------------------------------------

  function Rendered(n: Names, t: string): string
    requires n.Valid()
  {
    Replace(Replace(Hosted(n, t), n.c, n.r), n.d, n.r)
  }

  lemma {:induction false} RenderedExactly(n: Names, t: string)
    requires n.Valid()
    ensures var u := Rendered(n, t);
            (Lacks(u, n.A()) && Lacks(u, n.B()) && Lacks(u, n.c) && Lacks(u, n.d))
              <==> forall x | x in Reviving(n) :: Lacks(t, x)
  {
    var h := Hosted(n, t);
    HostedText(n, t);
    RevivingShapes(n);
    forall x | x in Reviving(n) ensures Lacks(h, x) <==> Lacks(t, x) {
      HostedSame(n, t, x);
    }
    if forall x | x in Reviving(n) :: Lacks(t, x) {
      AllSeven(n, h);
      ThirdRule(n, h);
      FourthRule(n, Replace(h, n.c, n.r));
    } else {
      var x :| x in Reviving(n) && !Lacks(t, x);
      ThirdHalf(n, h, x);
      FourthWhole(n, Replace(h, n.c, n.r));
    }
  }

  lemma {:induction false} AllSeven(n: Names, t: string)
    requires forall x | x in Reviving(n) :: Lacks(t, x)
    ensures Lacks(t, n.g + n.c) && Lacks(t, n.g + n.d1 + n.c)
    ensures Lacks(t, n.c1 + n.c) && Lacks(t, n.c1 + n.d) && Lacks(t, n.c1 + n.d1 + n.c)
    ensures Lacks(t, n.d1 + n.d) && Lacks(t, n.d1 + n.d1 + n.c)
  {
    var all := Reviving(n);
    assert forall k | 0 <= k < 7 :: all[k] in all;
    assert all[0] == n.g + n.c && all[1] == n.g + n.d1 + n.c && all[2] == n.c1 + n.c && all[3] == n.c1 + n.d;
    assert all[4] == n.c1 + n.d1 + n.c && all[5] == n.d1 + n.d && all[6] == n.d1 + n.d1 + n.c;
  }

  lemma {:induction false} SettledFour(t: string, n: Names, rules: seq<Rule>)
    requires n.Valid()
    requires rules == [Rule(n.A(), n.i), Rule(n.B(), n.i), Rule(n.c, n.r), Rule(n.d, n.r)]
    ensures AllSettled(t, rules) <==> Lacks(t, n.A()) && Lacks(t, n.B()) && Lacks(t, n.c) && Lacks(t, n.d)
  {
    Images(n);
    assert n.c[0] != n.r[0] && n.d[0] != n.r[0];
    assert Settled(t, rules[0]) <==> Lacks(t, n.A());
    assert Settled(t, rules[1]) <==> Lacks(t, n.B());
    assert Settled(t, rules[2]) <==> Lacks(t, n.c);
    assert Settled(t, rules[3]) <==> Lacks(t, n.d);
  }

  function Shipped(t: string): string { RenderText(t, SHIPPED_REPOSITORY, SHIPPED_IMAGE) }

  lemma {:induction false} ShippedRendered(n: Names, t: string)
    requires n == SHIPPED && n.Valid() && n.B() == UPSTREAM_IMAGE
    ensures Shipped(t) == Rendered(n, t)
  {
    ShippedLower();
    RenderSteps(t, SHIPPED_REPOSITORY, SHIPPED_IMAGE);
  }

  /**
   Under the shipped configuration a second run of the text renderer changes nothing, and --check
   accepts after a write, if and only if the text holds none of the seven strings of Reviving.
   */
  lemma {:induction false} ShippedIdempotentExactly(t: string)
    ensures Shipped(Shipped(t)) == Shipped(t) <==> forall x | x in Reviving(SHIPPED) :: !Contains(t, x)
  {
    var n, rules := SHIPPED, Rules(SHIPPED_REPOSITORY, SHIPPED_IMAGE);
    ShippedNames(n);
    ShippedRendered(n, t);
    ShippedCheckExact(Shipped(t));
    ShippedRules(rules);
    SettledFour(Shipped(t), n, rules);
    RenderedExactly(n, t);
    assert (forall x | x in Reviving(n) :: Lacks(t, x)) <==> forall x | x in Reviving(n) :: !Contains(t, x);
  }

  /** A name cut short before the whole name needs two runs, though the text holds no image name. */
  lemma {:induction false} CutNameNeedsTwoRuns()
    ensures Shipped(Shipped(STEM + UPSTREAM)) != Shipped(STEM + UPSTREAM)
  {
    RevivingNeedsTwoRuns(STEM + UPSTREAM, 2);
  }

  lemma {:induction false} RevivingNeedsTwoRuns(t: string, k: nat)
    requires k < 7 && t == Reviving(SHIPPED)[k]
    ensures Shipped(Shipped(t)) != Shipped(t)
  {
    ShippedIdempotentExactly(t);
    assert At(t, t, 0);
    assert Contains(t, t) && t in Reviving(SHIPPED);
  }

  /** The one pair of names that looks like these and is harmless: the lower-case stem before the mixed-case name. */
  lemma {:induction false} LowerStemNeedsOneRun()
    ensures Shipped(Shipped(STEM_LOWER + UPSTREAM)) == Shipped(STEM_LOWER + UPSTREAM)
  {
    var n := SHIPPED;
    ShippedNames(n);
    forall x | x in Reviving(n) ensures !Contains(n.d1 + n.c, x) {
      LowerStemLacks(n, x);
    }
    ShippedIdempotentExactly(STEM_LOWER + UPSTREAM);
  }

  lemma {:induction false} LowerStemLacks(n: Names, x: string)
    requires n.Valid() && x in Reviving(n)
    ensures !Contains(n.d1 + n.c, x)
  {
    var t := n.d1 + n.c;
    assert t[22] == 'L' && t[0] == 'l';
    forall k ensures !At(t, x, k) {
      if 0 <= k <= |t| - |x| {
        if x == n.g + n.c {
          assert t[k] == n.d1[k] && t[k + 1] == n.d1[k + 1];
          NotAt(t, x, k, if t[k] != 'g' then 0 else 1);
        } else {
          NotAt(t, x, k, if x == n.d1 + n.d then 22 else 0);
        }
      }
    }
  }
}
