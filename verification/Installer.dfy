/** The generated block of deploy/install.sh. */
module Installer {
  import opened Options
  import opened TextReplace
  import Json

  datatype Pair = Pair(begin: string, end: string)

  type Markers = m: Pair | m.begin != [] && m.end != [] witness Pair("begin", "end")

  const MARKERS: Markers := Pair("# BEGIN GENERATED RELEASE CHANNEL\n", "\n# END GENERATED RELEASE CHANNEL")

  // ----- repository names ----------------------------------------------------------------------------------

  predicate NameChar(c: char) {
    'A' <= c <= 'Z' || 'a' <= c <= 'z' || '0' <= c <= '9' || c == '_' || c == '.' || c == '-'
  }

  /** REPOSITORY_RE.fullmatch */
  predicate ValidRepository(s: string) {
    exists k | 0 < k < |s| - 1 :: s[k] == '/' && forall i | 0 <= i < |s| && i != k :: NameChar(s[i])
  }

  lemma {:induction false} PlainQuote(s: string)
    requires forall i | 0 <= i < |s| :: NameChar(s[i]) || s[i] == '/'
    ensures Json.EscapeAll(s, true) == s
  {
    if s != [] {
      PlainQuote(s[1..]);
    }
  }

  /** The assignment line: a repository name is quoted as it stands, so the template has no escapes. */
  function Line(repository: string): string {
    "GITHUB_REPO=" + Json.Quote(repository, true)
  }

  lemma {:induction false} NotInLine(c: char, name: string, value: string)
    requires c !in name && c !in value && c != '\"'
    ensures c !in name + ("\"" + value + "\"")
  {
  }

  lemma {:induction false} LineIsPlain(repository: string)
    requires ValidRepository(repository)
    ensures '\n' !in Line(repository) && '\\' !in Line(repository)
  {
    PlainQuote(repository);
    NotInLine('\n', "GITHUB_REPO=", repository);
    NotInLine('\\', "GITHUB_REPO=", repository);
  }

  /** installer_block */
  function Block(m: Markers, line: string): string { m.begin + line + m.end }

  // ----- re.subn with the lazy, dot-all block pattern ----------------------------------------------------------

  /** The first end marker from here on. */
  function FindEnd(m: Markers, t: string, from: nat): (j: Option<nat>)
    ensures j.Some? ==> from <= j.value && At(t, m.end, j.value) && forall i | from <= i < j.value :: !At(t, m.end, i)
    ensures j.None? ==> forall i | from <= i :: !At(t, m.end, i)
    decreases |t| - from
  {
    if from + |m.end| > |t| then None
    else if At(t, m.end, from) then Some(from)
    else FindEnd(m, t, from + 1)
  }

  /** The end of a block that starts the text, if one does. */
  function BlockEnd(m: Markers, t: string): (e: Option<nat>)
    ensures e.Some? ==> 0 < e.value <= |t|
  {
    if !At(t, m.begin, 0) then None
    else
      var j := FindEnd(m, t, |m.begin|);
      if j.None? then None else Some(j.value + |m.end|)
  }

  /** The text with every block replaced, and the number of blocks. */
  function Subn(m: Markers, t: string, block: string): (r: (string, nat))
    decreases |t|
  {
    var e := BlockEnd(m, t);
    if e.Some? then
      var (rest, n) := Subn(m, t[e.value..], block);
      (block + rest, n + 1)
    else if t == [] then ([], 0)
    else
      var (rest, n) := Subn(m, t[1..], block);
      ([t[0]] + rest, n)
  }

  // ----- what one substitution does ------------------------------------------------------------------------------

  /** A block and nothing more: its end marker is the first after its begin marker. */
  predicate IsBlock(m: Markers, b: string) { BlockEnd(m, b) == Some(|b|) }

  lemma {:induction false} AtConcat(a: string, b: string, p: string, i: nat)
    requires i + |p| <= |a|
    ensures At(a + b, p, i) <==> At(a, p, i)
  {
    assert (a + b)[i..i + |p|] == a[i..i + |p|];
  }

  lemma {:induction false} EndAt(m: Markers, t: string, j: nat)
    requires At(t, m.begin, 0) && At(t, m.end, j) && |m.begin| <= j && forall i | |m.begin| <= i < j :: !At(t, m.end, i)
    ensures BlockEnd(m, t) == Some(j + |m.end|)
  {
    var found := FindEnd(m, t, |m.begin|);
    assert found == Some(j);
  }

  lemma {:induction false} BlockAhead(m: Markers, b: string, post: string)
    requires IsBlock(m, b)
    ensures BlockEnd(m, b + post) == Some(|b|)
  {
    var j := |b| - |m.end|;
    AtConcat(b, post, m.begin, 0);
    AtConcat(b, post, m.end, j);
    forall i | |m.begin| <= i < j ensures !At(b + post, m.end, i) {
      AtConcat(b, post, m.end, i);
    }
    EndAt(m, b + post, j);
  }

  lemma {:induction false} BlockOf(m: Markers, t: string)
    requires BlockEnd(m, t).Some?
    ensures IsBlock(m, t[..BlockEnd(m, t).value])
  {
    var e := BlockEnd(m, t).value;
    var b, j := t[..e], e - |m.end|;
    assert t == b + t[e..];
    AtConcat(b, t[e..], m.begin, 0);
    AtConcat(b, t[e..], m.end, j);
    forall i | |m.begin| <= i < j ensures !At(b, m.end, i) {
      AtConcat(b, t[e..], m.end, i);
    }
    EndAt(m, b, j);
  }

  lemma {:induction false} SubnSkip(m: Markers, t: string, block: string)
    requires t != [] && BlockEnd(m, t).None?
    ensures Subn(m, t, block) == ([t[0]] + Subn(m, t[1..], block).0, Subn(m, t[1..], block).1)
  {
  }

  lemma {:induction false} SubnBlock(m: Markers, t: string, block: string)
    requires BlockEnd(m, t).Some?
    ensures var rest := Subn(m, t[BlockEnd(m, t).value..], block);
            Subn(m, t, block) == (block + rest.0, rest.1 + 1)
  {
  }

  lemma {:induction false} NoneIsSame(m: Markers, t: string, block: string)
    requires Subn(m, t, block).1 == 0
    ensures Subn(m, t, block).0 == t
    decreases |t|
  {
    if t != [] {
      NoneIsSame(m, t[1..], block);
    }
  }

  /** No block starts before the given position. */
  predicate NoBlockBefore(m: Markers, t: string, n: nat) {
    forall i | 0 <= i < n && i <= |t| :: BlockEnd(m, t[i..]).None?
  }

  lemma {:induction false} SubnSplit(m: Markers, t: string, block: string)
    returns (pre: string, b: string, post: string)
    requires Subn(m, t, block).1 == 1
    ensures t == pre + b + post && IsBlock(m, b) && NoBlockBefore(m, t, |pre|) && Subn(m, post, block).1 == 0
    ensures Subn(m, t, block).0 == pre + block + post
    decreases |t|
  {
    var e := BlockEnd(m, t);
    if e.Some? {
      pre, b, post := [], t[..e.value], t[e.value..];
      BlockOf(m, t);
      SubnBlock(m, t, block);
      NoneIsSame(m, post, block);
      NothingBefore(t, block, e.value);
    } else {
      SubnSkip(m, t, block);
      var rest;
      rest, b, post := SubnSplit(m, t[1..], block);
      pre := [t[0]] + rest;
      NoBlockStep(m, t, |rest|);
      SkipHead(t, rest, b, post);
      SkipHead(t, rest, block, post);
    }
  }

  lemma {:induction false} NothingBefore(t: string, block: string, e: nat)
    requires e <= |t|
    ensures [] + t[..e] + t[e..] == t && [] + block + t[e..] == block + t[e..]
  {
  }

  lemma {:induction false} SkipHead(t: string, rest: string, b: string, post: string)
    requires t != []
    ensures [t[0]] + (rest + b + post) == [t[0]] + rest + b + post
    ensures t[1..] == rest + b + post ==> t == [t[0]] + rest + b + post
  {
  }

  lemma {:induction false} NoBlockStep(m: Markers, t: string, n: nat)
    requires t != []
    ensures NoBlockBefore(m, t, n + 1) <==> BlockEnd(m, t).None? && NoBlockBefore(m, t[1..], n)
  {
    assert t[0..] == t;
    assert forall i | 0 <= i <= |t| - 1 :: t[1..][i..] == t[i + 1..];
    if NoBlockBefore(m, t, n + 1) {
      assert BlockEnd(m, t[0..]).None?;
      forall i | 0 <= i < n && i <= |t[1..]| ensures BlockEnd(m, t[1..][i..]).None? {
        assert BlockEnd(m, t[i + 1..]).None?;
      }
    }
    if BlockEnd(m, t).None? && NoBlockBefore(m, t[1..], n) {
      forall i | 0 <= i < n + 1 && i <= |t| ensures BlockEnd(m, t[i..]).None? {
        if i > 0 {
          assert t[1..][i - 1..] == t[i..];
        }
      }
    }
  }

  lemma {:induction false} SubnHere(m: Markers, b: string, post: string, block: string)
    requires IsBlock(m, b) && Subn(m, post, block).1 == 0
    ensures Subn(m, b + post, block) == (block + post, 1)
  {
    BlockAhead(m, b, post);
    assert (b + post)[|b|..] == post;
    SubnBlock(m, b + post, block);
    NoneIsSame(m, post, block);
  }

  lemma {:induction false} SubnAfter(m: Markers, c: char, t: string, text: string, block: string)
    requires BlockEnd(m, [c] + t).None? && Subn(m, t, block) == (text, 1)
    ensures Subn(m, [c] + t, block) == ([c] + text, 1)
  {
    assert ([c] + t)[1..] == t;
    SubnSkip(m, [c] + t, block);
  }

  lemma {:induction false} HeadOf(pre: string, b: string, post: string)
    requires pre != []
    ensures pre + b + post == [pre[0]] + (pre[1..] + b + post)
    ensures (pre + b + post)[1..] == pre[1..] + b + post
  {
    assert pre == [pre[0]] + pre[1..];
  }

  lemma {:induction false} SubnJoin(m: Markers, pre: string, b: string, post: string, block: string)
    requires IsBlock(m, b) && NoBlockBefore(m, pre + b + post, |pre|) && Subn(m, post, block).1 == 0
    ensures Subn(m, pre + b + post, block) == (pre + block + post, 1)
  {
    var t := pre + b + post;
    if pre == [] {
      assert t == b + post && pre + block + post == block + post;
      SubnHere(m, b, post, block);
    } else {
      var rest := pre[1..];
      HeadOf(pre, b, post);
      HeadOf(pre, block, post);
      NoBlockStep(m, t, |rest|);
      SubnJoin(m, rest, b, post, block);
      SubnAfter(m, pre[0], rest + b + post, rest + block + post, block);
    }
  }

  // ----- the fixed point -------------------------------------------------------------------------------------------

  lemma {:induction false} RenderedBlock(m: Markers, line: string)
    requires m.end[0] !in line
    ensures IsBlock(m, Block(m, line))
  {
    MarkedBlock(m.begin, line, m.end, Block(m, line));
    EndAt(m, Block(m, line), |m.begin| + |line|);
  }

  lemma {:induction false} MarkedBlock(begin: string, line: string, end: string, b: string)
    requires b == begin + line + end && end != [] && end[0] !in line
    ensures At(b, begin, 0) && At(b, end, |begin| + |line|)
    ensures forall i | |begin| <= i < |begin| + |line| :: !At(b, end, i)
  {
    assert b[0..|begin|] == begin;
    assert b[|begin| + |line|..|begin| + |line| + |end|] == end;
    forall i | |begin| <= i < |begin| + |line| ensures !At(b, end, i) {
      assert b[i] == line[i - |begin|];
      if i + |end| <= |b| {
        assert b[i..i + |end|][0] == b[i];
      }
    }
  }

  lemma {:induction false} MarkerFinds(m: Markers, t: string, i: nat, j: nat)
    requires At(t, m.begin, i) && At(t, m.end, j) && i + |m.begin| <= j
    ensures BlockEnd(m, t[i..]).Some?
  {
    AtDrop(t, m.begin, i, 0);
    AtDrop(t, m.end, i, j - i);
    assert At(t[i..], m.end, j - i);
  }

  /** A begin marker before the block would have found the block's end: so there is none. */
  lemma {:induction false} NoMarkerBefore(m: Markers, pre: string, b: string, post: string, i: nat)
    requires IsBlock(m, b) && NoBlockBefore(m, pre + b + post, |pre|) && i < |pre|
    ensures !At(pre + b + post, m.begin, i)
  {
    var t, j := pre + b + post, |pre| + |b| - |m.end|;
    assert t[j..j + |m.end|] == b[|b| - |m.end|..];
    assert BlockEnd(m, t[i..]).None?;
    if At(t, m.begin, i) {
      MarkerFinds(m, t, i, j);
    }
  }

  /** The begin marker is all that a search for earlier blocks sees of a block. */
  lemma {:induction false} SameStart(m: Markers, pre: string, b: string, c: string, post: string, i: nat)
    requires IsBlock(m, b) && IsBlock(m, c) && i < |pre| && At(pre + c + post, m.begin, i)
    ensures At(pre + b + post, m.begin, i)
  {
    var t, u, n := pre + b + post, pre + c + post, |pre| + |m.begin|;
    assert b[..|m.begin|] == m.begin == c[..|m.begin|] by {
      assert b[0..|m.begin|] == b[..|m.begin|] && c[0..|m.begin|] == c[..|m.begin|];
    }
    assert t[..n] == pre + b[..|m.begin|] && u[..n] == pre + c[..|m.begin|];
    assert u[i..i + |m.begin|] == u[..n][i..i + |m.begin|];
    assert t[i..i + |m.begin|] == t[..n][i..i + |m.begin|];
  }

  lemma {:induction false} NoBlockStill(m: Markers, pre: string, b: string, c: string, post: string)
    requires IsBlock(m, b) && IsBlock(m, c) && NoBlockBefore(m, pre + b + post, |pre|)
    ensures NoBlockBefore(m, pre + c + post, |pre|)
  {
    var u := pre + c + post;
    forall i | 0 <= i < |pre| && i <= |u| ensures BlockEnd(m, u[i..]).None? {
      NoMarkerBefore(m, pre, b, post, i);
      AtDrop(u, m.begin, i, 0);
      if At(u, m.begin, i) {
        SameStart(m, pre, b, c, post, i);
      }
    }
  }

  /** render_installer */
  function RenderInstaller(t: string, repository: string): Option<string> {
    var (text, n) := Subn(MARKERS, t, Block(MARKERS, Line(repository)));
    if n == 1 then Some(text) else None
  }

  /** No block starts anywhere in the text. */
  predicate NoBlockIn(m: Markers, t: string) { NoBlockBefore(m, t, |t| + 1) }

  /** The text has one block and no other: none starts before it, and none in what follows it. */
  ghost predicate OneBlock(m: Markers, t: string, pre: string, b: string, post: string) {
    t == pre + b + post && IsBlock(m, b) && NoBlockBefore(m, t, |pre|) && NoBlockIn(m, post)
  }

  lemma {:induction false} NoneCounted(m: Markers, t: string, block: string)
    ensures Subn(m, t, block).1 == 0 <==> NoBlockIn(m, t)
    decreases |t|
  {
    assert t[0..] == t;
    if BlockEnd(m, t).None? && t != [] {
      SubnSkip(m, t, block);
      NoneCounted(m, t[1..], block);
      NoBlockStep(m, t, |t|);
    } else if BlockEnd(m, t).Some? {
      SubnBlock(m, t, block);
      assert BlockEnd(m, t[0..]).Some?;
    } else {
      assert forall i | 0 <= i < |t| + 1 && i <= |t| :: t[i..] == t;
    }
  }

  /** Rendering succeeds if and only if the text has exactly one block. */
  lemma {:induction false} InstallerSucceeds(t: string, repository: string)
    ensures RenderInstaller(t, repository).Some? <==> exists pre, b, post :: OneBlock(MARKERS, t, pre, b, post)
  {
    var block := Block(MARKERS, Line(repository));
    if RenderInstaller(t, repository).Some? {
      var pre, b, post := SubnSplit(MARKERS, t, block);
      NoneCounted(MARKERS, post, block);
      assert OneBlock(MARKERS, t, pre, b, post);
    }
    if exists pre, b, post :: OneBlock(MARKERS, t, pre, b, post) {
      var pre, b, post :| OneBlock(MARKERS, t, pre, b, post);
      NoneCounted(MARKERS, post, block);
      SubnJoin(MARKERS, pre, b, post, block);
    }
  }

  /**
   Rendering an installer changes its one block and nothing else; the result again has exactly one
   block, the new one, and is a fixed point, so that --check accepts it.
   */
  lemma {:induction false} InstallerFixpoint(t: string, repository: string)
    returns (pre: string, b: string, post: string)
    requires ValidRepository(repository) && RenderInstaller(t, repository).Some?
    ensures OneBlock(MARKERS, t, pre, b, post)
    ensures RenderInstaller(t, repository) == Some(pre + Block(MARKERS, Line(repository)) + post)
    ensures OneBlock(MARKERS, RenderInstaller(t, repository).value, pre, Block(MARKERS, Line(repository)), post)
    ensures RenderInstaller(RenderInstaller(t, repository).value, repository) == RenderInstaller(t, repository)
  {
    var block := Block(MARKERS, Line(repository));
    LineIsPlain(repository);
    RenderedBlock(MARKERS, Line(repository));
    pre, b, post := SubnSplit(MARKERS, t, block);
    NoneCounted(MARKERS, post, block);
    NoBlockStill(MARKERS, pre, b, block, post);
    SubnJoin(MARKERS, pre, block, post, block);
  }
}
