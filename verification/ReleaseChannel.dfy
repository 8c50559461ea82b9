/** The renderers of the release channel: --check after a write accepts only if rendering twice is rendering once. */
module ReleaseChannel {
  import opened TextReplace

  const HOST: string := "ghcr.io/"
  const UPSTREAM_IMAGE: string := "ghcr.io/luckykuang/sub2api-plus"
  const UPSTREAM: string := "LuckyKuang/sub2api-plus"
  const UPSTREAM_LOWER: string := "luckykuang/sub2api-plus"

  // ----- the image renderer -----------------------------------------------------------------------------------

  function RenderImage(t: string, image: string): string {
    Replace(t, UPSTREAM_IMAGE, image)
  }

  lemma {:induction false} HostOnce(j: nat)
    requires 0 < j < |UPSTREAM_IMAGE|
    ensures !(UPSTREAM_IMAGE[j] == 'g' && (j + 1 == |UPSTREAM_IMAGE| || UPSTREAM_IMAGE[j + 1] == 'h'))
  {
  }

  /** No image of the registry can complete the upstream image name from the right. */
  lemma {:induction false} ImageSafe(t: string, image: string)
    requires HOST <= image && !Contains(image, UPSTREAM_IMAGE) && !Begins(image, UPSTREAM_IMAGE)
    ensures Safe(t, UPSTREAM_IMAGE, image, UPSTREAM_IMAGE)
  {
    var p := UPSTREAM_IMAGE;
    assert image[0] == HOST[0] == 'g' && image[1] == HOST[1] == 'h';
    forall j | 0 < j < |p| ensures !Agree(p[j..], image) {
      HostOnce(j);
      assert p[j..][0] == p[j];
      if j + 1 < |p| {
        assert p[j..][1] == p[j + 1];
      }
    }
  }

  lemma {:induction false} ReplaceHead(pattern: string, text: string, q: string)
    requires |q| < |pattern|
    ensures Replace(pattern + q, pattern, text) == text + q
  {
    assert (pattern + q)[0..|pattern|] == pattern;
    assert (pattern + q)[|pattern|..] == q;
    assert At(pattern + q, pattern, 0);
  }

  /**
   Rendering every text twice is rendering it once, if and only if the release image is the upstream
   image, or neither holds the upstream image name nor ends in a beginning of it.
   */
  lemma {:induction false} ImageIdempotent(image: string)
    requires HOST <= image
    ensures (forall t :: RenderImage(RenderImage(t, image), image) == RenderImage(t, image))
       <==> image == UPSTREAM_IMAGE || (!Contains(image, UPSTREAM_IMAGE) && !Begins(image, UPSTREAM_IMAGE))
  {
    var p := UPSTREAM_IMAGE;
    if image == p {
      forall t ensures RenderImage(RenderImage(t, image), image) == RenderImage(t, image) {
        ReplaceSame(t, p);
      }
    } else if !Contains(image, p) && !Begins(image, p) {
      forall t ensures RenderImage(RenderImage(t, image), image) == RenderImage(t, image) {
        ImageSafe(t, image);
        ReplaceClean(t, p, image, p);
        FixedExactly(RenderImage(t, image), p, image);
      }
    } else {
      var t := Witness(p, image);
      FixedExactly(RenderImage(t, image), p, image);
      assert RenderImage(RenderImage(t, image), image) != RenderImage(t, image);
    }
  }

  /** A text that the replacement turns into one that holds the pattern again. */
  lemma {:induction false} Witness(p: string, image: string) returns (t: string)
    requires p != [] && (Contains(image, p) || Begins(image, p))
    ensures Contains(Replace(t, p, image), p)
  {
    if Contains(image, p) {
      t := p + [];
      ReplaceHead(p, image, []);
      assert image + [] == image;
    } else {
      var k :| 0 < k < |p| && k <= |image| && image[|image| - k..] == p[..k];
      t := p + p[k..];
      ReplaceHead(p, image, p[k..]);
      var r, i := image + p[k..], |image| - k;
      assert r[i..i + |p|] == image[i..] + p[k..] == p[..k] + p[k..] == p;
      assert At(r, p, i);
    }
  }

  // ----- the text renderer: a chain of replacements ---------------------------------------------------------------

  datatype Rule = Rule(pattern: string, text: string)

  function LowerChar(c: char): char {
    if 'A' <= c <= 'Z' then (c as int + 32) as char else c
  }

  function Lower(s: string): (r: string)
    ensures |r| == |s| && forall i | 0 <= i < |s| :: r[i] == LowerChar(s[i])
  {
    seq(|s|, i requires 0 <= i < |s| => LowerChar(s[i]))
  }

  /** The four replacements, in order. */
  function Rules(repository: string, image: string): seq<Rule> {
    [Rule(HOST + Lower(repository), image), Rule(UPSTREAM_IMAGE, image), Rule(UPSTREAM, repository),
      Rule(UPSTREAM_LOWER, Lower(repository))]
  }

  predicate Proper(rules: seq<Rule>) {
    forall i | 0 <= i < |rules| :: rules[i].pattern != []
  }

  function Apply(t: string, rules: seq<Rule>): string
    requires Proper(rules)
    decreases |rules|
  {
    if rules == [] then t else Apply(Replace(t, rules[0].pattern, rules[0].text), rules[1..])
  }

  function RenderText(t: string, repository: string, image: string): string {
    Apply(t, Rules(repository, image))
  }

  /** A rule that has nothing to do in the text. */
  ghost predicate Settled(t: string, rule: Rule) {
    rule.pattern == rule.text || !Contains(t, rule.pattern)
  }

  ghost predicate AllSettled(t: string, rules: seq<Rule>) {
    forall i | 0 <= i < |rules| :: Settled(t, rules[i])
  }

  /** No replacement of the chain brings in a match of its own rule or of one before it. */
  ghost predicate NoNewMatches(t: string, done: seq<Rule>, rules: seq<Rule>)
    requires Proper(rules)
    decreases |rules|
  {
    rules == [] ||
    (var rule := rules[0];
     && (forall i | 0 <= i < |done + [rule]| ::
           rule.pattern != rule.text ==> Safe(t, rule.pattern, rule.text, (done + [rule])[i].pattern))
     && NoNewMatches(Replace(t, rule.pattern, rule.text), done + [rule], rules[1..]))
  }

  lemma {:induction false} SettledApply(t: string, rules: seq<Rule>)
    requires Proper(rules) && AllSettled(t, rules)
    ensures Apply(t, rules) == t
  {
    if rules != [] {
      assert Settled(t, rules[0]);
      FixedExactly(t, rules[0].pattern, rules[0].text);
      SettledApply(t, rules[1..]);
    }
  }

  lemma {:induction false} StepSettles(t: string, done: seq<Rule>, rule: Rule)
    requires rule.pattern != [] && Proper(done) && AllSettled(t, done)
    requires forall i | 0 <= i < |done + [rule]| ::
               rule.pattern != rule.text ==> Safe(t, rule.pattern, rule.text, (done + [rule])[i].pattern)
    ensures AllSettled(Replace(t, rule.pattern, rule.text), done + [rule])
  {
    var u, all := Replace(t, rule.pattern, rule.text), done + [rule];
    if rule.pattern == rule.text {
      ReplaceSame(t, rule.pattern);
    } else {
      forall i | 0 <= i < |all| ensures Settled(u, all[i]) {
        if i < |done| {
          assert Settled(t, done[i]);
        }
        if all[i].pattern != all[i].text {
          ReplaceClean(t, rule.pattern, rule.text, all[i].pattern);
        }
      }
    }
  }

  lemma {:induction false} ApplySettles(t: string, done: seq<Rule>, rules: seq<Rule>)
    requires Proper(done) && Proper(rules) && AllSettled(t, done) && NoNewMatches(t, done, rules)
    ensures AllSettled(Apply(t, rules), done + rules)
    decreases |rules|
  {
    if rules == [] {
      assert done + rules == done;
    } else {
      StepSettles(t, done, rules[0]);
      ApplySettles(Replace(t, rules[0].pattern, rules[0].text), done + [rules[0]], rules[1..]);
      assert done + [rules[0]] + rules[1..] == done + rules;
    }
  }

  /** The text renderer is idempotent on a text for which no step brings in a new match. */
  lemma {:induction false} TextIdempotent(t: string, repository: string, image: string)
    requires NoNewMatches(t, [], Rules(repository, image))
    ensures RenderText(RenderText(t, repository, image), repository, image) == RenderText(t, repository, image)
  {
    var rules := Rules(repository, image);
    ApplySettles(t, [], rules);
    assert [] + rules == rules;
    SettledApply(Apply(t, rules), rules);
  }

  /** What a configuration must avoid for every text: a replacement that holds, begins or completes a pattern. */
  ghost predicate Apart(text: string, pattern: string) {
    && !Contains(text, pattern) && !Begins(text, pattern)
    && (forall j | 0 < j < |pattern| :: !Agree(pattern[j..], text))
  }

  ghost predicate AllApart(rules: seq<Rule>) {
    forall i, j | 0 <= i < |rules| && 0 <= j <= i && rules[i].pattern != rules[i].text ::
      Apart(rules[i].text, rules[j].pattern)
  }

  lemma {:induction false} ApartSafe(t: string, pattern: string, text: string, p: string)
    requires Apart(text, p)
    ensures Safe(t, pattern, text, p)
  {
  }

  lemma {:induction false} ApartRules(t: string, done: seq<Rule>, rules: seq<Rule>)
    requires Proper(rules) && AllApart(done + rules)
    ensures NoNewMatches(t, done, rules)
    decreases |rules|
  {
    if rules != [] {
      var rule, all, n := rules[0], done + rules, |done|;
      assert all[n] == rule;
      forall i | 0 <= i < |done + [rule]| && rule.pattern != rule.text
        ensures Safe(t, rule.pattern, rule.text, (done + [rule])[i].pattern)
      {
        assert (done + [rule])[i] == all[i] && Apart(all[n].text, all[i].pattern);
        ApartSafe(t, rule.pattern, rule.text, all[i].pattern);
      }
      assert done + [rule] + rules[1..] == all;
      ApartRules(Replace(t, rule.pattern, rule.text), done + [rule], rules[1..]);
    }
  }

  /** With a configuration whose replacements stay apart from the patterns, --check accepts every text after a write. */
  lemma {:induction false} ApartIdempotent(repository: string, image: string, t: string)
    requires AllApart(Rules(repository, image))
    ensures RenderText(RenderText(t, repository, image), repository, image) == RenderText(t, repository, image)
  {
    assert [] + Rules(repository, image) == Rules(repository, image);
    ApartRules(t, [], Rules(repository, image));
    TextIdempotent(t, repository, image);
  }

  // ----- the shipped configuration is not of that kind -------------------------------------------------------------

  const SHIPPED_REPOSITORY: string := "skyqingname/gotocc-router"
  const SHIPPED_IMAGE: string := "ghcr.io/skyqingname/sub2api-plus"

  lemma {:induction false} ReplaceSkip(c: char, rest: string, pattern: string, text: string)
    requires pattern != [] && c != pattern[0]
    ensures Replace([c] + rest, pattern, text) == [c] + Replace(rest, pattern, text)
  {
    var t := [c] + rest;
    assert t[1..] == rest;
    if |t| >= |pattern| {
      assert t[0..|pattern|][0] == c;
    }
  }

  lemma {:induction false} ReplaceTail(x: string, pattern: string, text: string)
    requires pattern != [] && forall i | 0 <= i < |x| :: x[i] != pattern[0]
    ensures Replace(x + pattern, pattern, text) == x + text
  {
    if x == [] {
      assert x + pattern == pattern && x + text == text;
      ReplaceWhole(pattern, text);
    } else {
      assert x + pattern == [x[0]] + (x[1..] + pattern);
      ReplaceSkip(x[0], x[1..] + pattern, pattern, text);
      ReplaceTail(x[1..], pattern, text);
    }
  }

  lemma {:induction false} ReplaceNone(t: string, pattern: string, text: string)
    requires pattern != [] && forall i | 0 <= i <= |t| - |pattern| :: t[i] != pattern[0]
    ensures Replace(t, pattern, text) == t
  {
    if |t| >= |pattern| {
      assert t[0..|pattern|][0] == t[0];
      ReplaceNone(t[1..], pattern, text);
    }
  }

  lemma {:induction false} RenderSteps(t: string, repository: string, image: string)
    ensures var hosted := Replace(Replace(t, HOST + Lower(repository), image), UPSTREAM_IMAGE, image);
            RenderText(t, repository, image)
            == Replace(Replace(hosted, UPSTREAM, repository), UPSTREAM_LOWER, Lower(repository))
  {
    var rules := Rules(repository, image);
    var t1 := Replace(t, rules[0].pattern, rules[0].text);
    var t2 := Replace(t1, rules[1].pattern, rules[1].text);
    var t3 := Replace(t2, rules[2].pattern, rules[2].text);
    assert rules[1..][1..] == rules[2..] && rules[2..][1..] == rules[3..] && rules[3..][1..] == [];
    assert Apply(t3, rules[3..]) == Replace(t3, rules[3].pattern, rules[3].text);
    assert Apply(t2, rules[2..]) == Apply(t3, rules[3..]);
    assert Apply(t1, rules[1..]) == Apply(t2, rules[2..]);
  }

  lemma {:induction false} ShippedLower()
    ensures Lower(SHIPPED_REPOSITORY) == SHIPPED_REPOSITORY
  {
  }

  /** The mixed-case image name becomes the repository's image name, which only a second run replaces. */
  lemma {:induction false} MixedCaseNeedsTwoRuns()
    ensures var once := RenderText(HOST + UPSTREAM, SHIPPED_REPOSITORY, SHIPPED_IMAGE);
            && once == HOST + SHIPPED_REPOSITORY
            && RenderText(once, SHIPPED_REPOSITORY, SHIPPED_IMAGE) == SHIPPED_IMAGE
            && once != SHIPPED_IMAGE
  {
    FirstRender();
    SecondRender();
  }

  lemma {:induction false} FirstRender()
    ensures RenderText(HOST + UPSTREAM, SHIPPED_REPOSITORY, SHIPPED_IMAGE) == HOST + SHIPPED_REPOSITORY
  {
    ShippedLower();
    RenderSteps(HOST + UPSTREAM, SHIPPED_REPOSITORY, SHIPPED_IMAGE);
    assert Replace(HOST + UPSTREAM, HOST + SHIPPED_REPOSITORY, SHIPPED_IMAGE) == HOST + UPSTREAM;
    UpperIsNotUpstream();
    ReplaceTail(HOST, UPSTREAM, SHIPPED_REPOSITORY);
    NoLowerUpstream();
  }

  lemma {:induction false} SecondRender()
    ensures RenderText(HOST + SHIPPED_REPOSITORY, SHIPPED_REPOSITORY, SHIPPED_IMAGE) == SHIPPED_IMAGE
  {
    ShippedLower();
    RenderSteps(HOST + SHIPPED_REPOSITORY, SHIPPED_REPOSITORY, SHIPPED_IMAGE);
    SecondRun();
    ImageIsFinal();
  }

  lemma {:induction false} UpperIsNotUpstream()
    ensures Replace(HOST + UPSTREAM, UPSTREAM_IMAGE, SHIPPED_IMAGE) == HOST + UPSTREAM
  {
    var t := HOST + UPSTREAM;
    assert t[8] == 'L' && UPSTREAM_IMAGE[8] == 'l' && |t| == |UPSTREAM_IMAGE|;
    assert t[0..|UPSTREAM_IMAGE|][8] == t[8];
  }

  lemma {:induction false} NoLowerUpstream()
    ensures Replace(HOST + SHIPPED_REPOSITORY, UPSTREAM_LOWER, SHIPPED_REPOSITORY) == HOST + SHIPPED_REPOSITORY
  {
    ReplaceNone(HOST + SHIPPED_REPOSITORY, UPSTREAM_LOWER, SHIPPED_REPOSITORY);
  }

  lemma {:induction false} OneLonger(t: string, pattern: string, text: string)
    requires |t| == |pattern| + 1 && |pattern| > 8 && t[8] != pattern[8] && t[1] != pattern[0]
    ensures Replace(t, pattern, text) == t
  {
    assert t[0..|pattern|][8] == t[8];
    assert t[1..][0..|pattern|][0] == t[1];
    assert Replace(t[1..], pattern, text) == t[1..];
  }

  lemma {:induction false} SecondRun()
    ensures Replace(HOST + SHIPPED_REPOSITORY, HOST + SHIPPED_REPOSITORY, SHIPPED_IMAGE) == SHIPPED_IMAGE
    ensures Replace(SHIPPED_IMAGE, UPSTREAM_IMAGE, SHIPPED_IMAGE) == SHIPPED_IMAGE
  {
    ReplaceWhole(HOST + SHIPPED_REPOSITORY, SHIPPED_IMAGE);
    OneLonger(SHIPPED_IMAGE, UPSTREAM_IMAGE, SHIPPED_IMAGE);
  }

  lemma {:induction false} ReplaceWhole(pattern: string, text: string)
    requires pattern != []
    ensures Replace(pattern, pattern, text) == text
  {
    ReplaceHead(pattern, text, []);
    assert pattern + [] == pattern && text + [] == text;
  }

  /** In texts this short, only the first ten characters can start a match. */
  lemma {:induction false} NoStart(t: string, pattern: string, text: string)
    requires 10 <= |t| <= |pattern| + 9 && pattern != []
    requires pattern[0] !in t[..10]
    ensures Replace(t, pattern, text) == t
  {
    forall i | 0 <= i <= |t| - |pattern| ensures t[i] != pattern[0] {
      assert t[..10][i] == t[i];
    }
    ReplaceNone(t, pattern, text);
  }

  lemma {:induction false} ImageIsFinal()
    ensures Replace(SHIPPED_IMAGE, UPSTREAM, SHIPPED_REPOSITORY) == SHIPPED_IMAGE
    ensures Replace(SHIPPED_IMAGE, UPSTREAM_LOWER, SHIPPED_REPOSITORY) == SHIPPED_IMAGE
  {
    assert SHIPPED_IMAGE[..10] == "ghcr.io/sk";
    NoStart(SHIPPED_IMAGE, UPSTREAM, SHIPPED_REPOSITORY);
    NoStart(SHIPPED_IMAGE, UPSTREAM_LOWER, SHIPPED_REPOSITORY);
  }

  // ----- exactly when --check accepts a text under the shipped configuration ----------------------------------------

  /** The letters k and K: a replacement of an upstream name loses one, and that of the own image name loses none. */
  function Weight(s: string): nat {
    if s == [] then 0 else (if s[0] == 'k' || s[0] == 'K' then 1 else 0) + Weight(s[1..])
  }

  lemma {:induction false} WeightConcat(a: string, b: string)
    ensures Weight(a + b) == Weight(a) + Weight(b)
  {
    if a == [] {
      assert a + b == b;
    } else {
      assert (a + b)[1..] == a[1..] + b;
      WeightConcat(a[1..], b);
    }
  }

  lemma {:induction false} WeightNone(s: string)
    requires 'k' !in s && 'K' !in s
    ensures Weight(s) == 0
  {
    if s != [] {
      WeightNone(s[1..]);
    }
  }

  predicate IsK(c: char) { c == 'k' || c == 'K' }

  lemma {:induction false} WeightAt(s: string, j: nat)
    requires j < |s| && IsK(s[j]) && forall i | 0 <= i < j :: !IsK(s[i])
    ensures Weight(s) == 1 + Weight(s[j + 1..])
  {
    if j > 0 {
      WeightAt(s[1..], j - 1);
      assert s[1..][j..] == s[j + 1..];
    }
  }

  /** A string with one k or K, at j. */
  lemma {:induction false} WeightOne(s: string, j: nat)
    requires j < |s| && IsK(s[j]) && forall i | 0 <= i < |s| && i != j :: !IsK(s[i])
    ensures Weight(s) == 1
  {
    WeightAt(s, j);
    WeightNone(s[j + 1..]);
  }

  /** A string with two, at j and k. */
  lemma {:induction false} WeightTwo(s: string, j: nat, k: nat)
    requires j < k < |s| && IsK(s[j]) && IsK(s[k]) && forall i | 0 <= i < |s| && i != j && i != k :: !IsK(s[i])
    ensures Weight(s) == 2
  {
    WeightAt(s, j);
    WeightOne(s[j + 1..], k - j - 1);
  }

  lemma {:induction false} ReplaceWeight(t: string, pattern: string, text: string)
    requires pattern != [] && Weight(text) <= Weight(pattern)
    ensures Weight(Replace(t, pattern, text)) <= Weight(t)
    ensures Contains(t, pattern) && Weight(text) < Weight(pattern) ==> Weight(Replace(t, pattern, text)) < Weight(t)
  {
    if |t| >= |pattern| {
      if At(t, pattern, 0) {
        var rest := t[|pattern|..];
        assert t == pattern + rest by {
          assert t[0..|pattern|] == pattern;
        }
        ReplaceWeight(rest, pattern, text);
        WeightConcat(pattern, rest);
        WeightConcat(text, Replace(rest, pattern, text));
      } else {
        ReplaceWeight(t[1..], pattern, text);
        assert ([t[0]] + Replace(t[1..], pattern, text))[1..] == Replace(t[1..], pattern, text);
        if Contains(t, pattern) {
          var i :| At(t, pattern, i);
          AtDrop(t, pattern, 1, i - 1);
        }
      }
    }
  }

  lemma {:induction false} RepositoryWeight(s: string)
    requires s == SHIPPED_REPOSITORY
    ensures Weight(s) == 1
  {
    WeightOne(s, 1);
  }

  lemma {:induction false} ImageWeight(s: string)
    requires s == SHIPPED_IMAGE
    ensures Weight(s) == 1
  {
    WeightOne(s, 9);
  }

  lemma {:induction false} UpstreamWeight(s: string)
    requires s == UPSTREAM || s == UPSTREAM_LOWER
    ensures Weight(s) == 2
  {
    WeightTwo(s, 3, 5);
  }

  lemma {:induction false} HostWeight(s: string, name: string)
    requires s == HOST
    ensures Weight(s + name) == Weight(name)
  {
    WeightNone(s);
    WeightConcat(s, name);
  }

  lemma {:induction false} FirstRule(r: Rule)
    requires r == Rule(HOST + SHIPPED_REPOSITORY, SHIPPED_IMAGE)
    ensures Weight(r.text) == Weight(r.pattern) && |r.pattern| > |r.text|
  {
    var host, name := r.pattern[..8], r.pattern[8..];
    assert r.pattern == host + name && host == HOST && name == SHIPPED_REPOSITORY;
    HostWeight(host, name);
    RepositoryWeight(name);
    ImageWeight(r.text);
  }

  lemma {:induction false} SecondRule(r: Rule)
    requires r == Rule(UPSTREAM_IMAGE, SHIPPED_IMAGE)
    ensures Weight(r.text) < Weight(r.pattern) && r.pattern != []
  {
    var host, name := r.pattern[..8], r.pattern[8..];
    assert r.pattern == host + name && host == HOST && name == UPSTREAM_LOWER;
    HostWeight(host, name);
    UpstreamWeight(name);
    ImageWeight(r.text);
  }

  lemma {:induction false} LastRules(r: Rule)
    requires r == Rule(UPSTREAM, SHIPPED_REPOSITORY) || r == Rule(UPSTREAM_LOWER, SHIPPED_REPOSITORY)
    ensures Weight(r.text) < Weight(r.pattern) && r.pattern != []
  {
    UpstreamWeight(r.pattern);
    RepositoryWeight(r.text);
  }

  /** All steps but the first lose weight, and the first loses length. */
  predicate Lossy(rules: seq<Rule>) {
    && |rules| == 4 && Proper(rules)
    && Weight(rules[0].text) == Weight(rules[0].pattern) && |rules[0].text| < |rules[0].pattern|
    && forall i | 0 < i < 4 :: Weight(rules[i].text) < Weight(rules[i].pattern)
  }

  lemma {:induction false} LossyRules(first: Rule, second: Rule, third: Rule, fourth: Rule)
    requires Weight(first.text) == Weight(first.pattern) && |first.text| < |first.pattern|
    requires Weight(second.text) < Weight(second.pattern) && second.pattern != []
    requires Weight(third.text) < Weight(third.pattern) && third.pattern != []
    requires Weight(fourth.text) < Weight(fourth.pattern) && fourth.pattern != []
    ensures Lossy([first, second, third, fourth])
  {
  }

  lemma {:induction false} ShippedLossy(first: Rule, second: Rule, third: Rule, fourth: Rule)
    requires first == Rule(HOST + SHIPPED_REPOSITORY, SHIPPED_IMAGE) && second == Rule(UPSTREAM_IMAGE, SHIPPED_IMAGE)
    requires third == Rule(UPSTREAM, SHIPPED_REPOSITORY) && fourth == Rule(UPSTREAM_LOWER, SHIPPED_REPOSITORY)
    ensures Lossy([first, second, third, fourth])
  {
    FirstRule(first);
    SecondRule(second);
    LastRules(third);
    LastRules(fourth);
    LossyRules(first, second, third, fourth);
  }

  /** A chain whose other steps lose weight and that gives back its weight leaves the text to its first step. */
  lemma {:induction false} LossySteps(t: string, rules: seq<Rule>)
    requires Proper(rules) && forall i | 0 <= i < |rules| :: Weight(rules[i].text) < Weight(rules[i].pattern)
    ensures Weight(Apply(t, rules)) <= Weight(t)
    ensures Weight(Apply(t, rules)) == Weight(t) ==> Apply(t, rules) == t && AllSettled(t, rules)
    decreases |rules|
  {
    if rules != [] {
      var rule := rules[0];
      var next := Replace(t, rule.pattern, rule.text);
      ReplaceWeight(t, rule.pattern, rule.text);
      FixedExactly(t, rule.pattern, rule.text);
      LossySteps(next, rules[1..]);
      if Weight(Apply(t, rules)) == Weight(t) {
        forall i | 0 <= i < |rules| ensures Settled(t, rules[i]) {
          if i > 0 {
            assert rules[i] == rules[1..][i - 1];
          }
        }
      }
    }
  }

  /** For such rules a text is a fixed point if and only if no pattern is left in it. */
  lemma {:induction false} LossyExact(t: string, rules: seq<Rule>)
    requires Lossy(rules)
    ensures Apply(t, rules) == t <==> AllSettled(t, rules)
  {
    if AllSettled(t, rules) {
      SettledApply(t, rules);
    }
    if Apply(t, rules) == t {
      var next := Replace(t, rules[0].pattern, rules[0].text);
      ReplaceWeight(t, rules[0].pattern, rules[0].text);
      LossySteps(next, rules[1..]);
      FixedExactly(t, rules[0].pattern, rules[0].text);
      forall i | 0 <= i < |rules| ensures Settled(t, rules[i]) {
        if i > 0 {
          assert rules[i] == rules[1..][i - 1];
        }
      }
    }
  }

  lemma {:induction false} ShippedRules(rules: seq<Rule>)
    requires rules == Rules(SHIPPED_REPOSITORY, SHIPPED_IMAGE)
    ensures rules == [Rule(HOST + SHIPPED_REPOSITORY, SHIPPED_IMAGE), Rule(UPSTREAM_IMAGE, SHIPPED_IMAGE),
                      Rule(UPSTREAM, SHIPPED_REPOSITORY), Rule(UPSTREAM_LOWER, SHIPPED_REPOSITORY)]
  {
    ShippedLower();
  }

  lemma {:induction false} ShippedAreLossy(rules: seq<Rule>)
    requires rules == Rules(SHIPPED_REPOSITORY, SHIPPED_IMAGE)
    ensures Lossy(rules)
  {
    ShippedRules(rules);
    ShippedLossy(rules[0], rules[1], rules[2], rules[3]);
    assert rules == [rules[0], rules[1], rules[2], rules[3]];
  }

  /** Under the shipped configuration --check accepts a text if and only if none of the four names is left in it. */
  lemma {:induction false} ShippedCheckExact(t: string)
    ensures RenderText(t, SHIPPED_REPOSITORY, SHIPPED_IMAGE) == t
       <==> AllSettled(t, Rules(SHIPPED_REPOSITORY, SHIPPED_IMAGE))
  {
    ShippedAreLossy(Rules(SHIPPED_REPOSITORY, SHIPPED_IMAGE));
    LossyExact(t, Rules(SHIPPED_REPOSITORY, SHIPPED_IMAGE));
  }
}
