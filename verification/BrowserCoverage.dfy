/** browser_coverage_errors: what an empty list of errors means. */
module BrowserCoverage {
  import opened Options

  // The report of the browser run.  An absent list is an empty one, as with dict.get(key, []).

  datatype Test = Test(projectName: Option<string>, expectedStatus: Option<string>, status: Option<string>,
    results: seq<Option<string>>)

  datatype Case = Case(title: Option<string>, tests: seq<Test>)

  datatype Suite = Suite(specs: seq<Case>, suites: seq<Suite>)

  datatype Report = Report(suites: seq<Suite>, errors: bool)

  datatype Error =
    | NothingSelected
    | Unexpected(title: Option<string>)
    | Duplicate(title: Option<string>)
    | NotOneTest(title: Option<string>)
    | NotPassed(title: Option<string>)
    | Missing(name: string)
    | GlobalError

  predicate Passed(test: Test) {
    && test.projectName == Some("chromium") && test.expectedStatus == Some("passed") && test.status == Some("expected")
    && |test.results| == 1 && test.results[0] == Some("passed")
  }

  // ----- the walk ------------------------------------------------------------------------------------------

  /** All specs of a forest of suites, in the order of the walk. */
  function Flatten(suites: seq<Suite>): seq<Case>
    decreases suites
  {
    if suites == [] then []
    else suites[0].specs + Flatten(suites[0].suites) + Flatten(suites[1..])
  }

  predicate IsExpected(titles: seq<string>, title: Option<string>) {
    title.Some? && title.value in titles
  }

  datatype Found = Found(errors: seq<Error>, observed: set<string>)

  /** One spec of the walk. */
  function See(titles: seq<string>, found: Found, spec: Case): Found {
    if !IsExpected(titles, spec.title) then found.(errors := found.errors + [Unexpected(spec.title)])
    else
      var repeated := if spec.title.value in found.observed then [Duplicate(spec.title)] else [];
      var failed := if |spec.tests| != 1 then [NotOneTest(spec.title)]
                    else if !Passed(spec.tests[0]) then [NotPassed(spec.title)]
                    else [];
      Found(found.errors + repeated + failed, found.observed + {spec.title.value})
  }

  function SeeAll(titles: seq<string>, found: Found, specs: seq<Case>): Found
    decreases |specs|
  {
    if specs == [] then found else SeeAll(titles, See(titles, found, specs[0]), specs[1..])
  }

  lemma {:induction false} SeeConcat(titles: seq<string>, found: Found, a: seq<Case>, b: seq<Case>)
    ensures SeeAll(titles, found, a + b) == SeeAll(titles, SeeAll(titles, found, a), b)
    decreases |a|
  {
    if a == [] {
      assert a + b == b;
    } else {
      assert (a + b)[1..] == a[1..] + b;
      SeeConcat(titles, See(titles, found, a[0]), a[1..], b);
    }
  }

  /** The accumulators of the check; `titles` are the expected titles, sorted. */
  class Coverage {
    const titles: seq<string>
    var errors: seq<Error>
    var observed: set<string>

    ghost function View(): Found
      reads this
    {
      Found(errors, observed)
    }

    constructor (titles: seq<string>)
      ensures this.titles == titles && errors == [] && observed == {}
    {
      this.titles := titles;
      errors, observed := [], {};
    }

    method VisitSpec(spec: Case)
      modifies this
      ensures View() == See(titles, old(View()), spec)
    {
      if spec.title.None? || spec.title.value !in titles {
        errors := errors + [Unexpected(spec.title)];
        return;
      }
      if spec.title.value in observed {
        errors := errors + [Duplicate(spec.title)];
      }
      observed := observed + {spec.title.value};
      if |spec.tests| != 1 {
        errors := errors + [NotOneTest(spec.title)];
        return;
      }
      var test := spec.tests[0];
      if test.projectName != Some("chromium") || test.expectedStatus != Some("passed")
        || test.status != Some("expected")
         || |test.results| != 1 || test.results[0] != Some("passed")
      {
        errors := errors + [NotPassed(spec.title)];
      }
    }

    method Visit(suites: seq<Suite>)
      modifies this
      ensures View() == SeeAll(titles, old(View()), Flatten(suites))
      decreases suites
    {
      if suites == [] {
        return;
      }
      VisitSpecs(suites[0].specs);
      Visit(suites[0].suites);
      Visit(suites[1..]);
      SeeConcat(titles, old(View()), suites[0].specs, Flatten(suites[0].suites));
      SeeConcat(titles, old(View()), suites[0].specs + Flatten(suites[0].suites), Flatten(suites[1..]));
    }

    /** The titles that no spec has, in sorted order. */
    method ReportMissing()
      modifies this
      ensures observed == old(observed) && errors == old(errors) + MissingFrom(titles, observed)
    {
      for i := 0 to |titles|
        invariant observed == old(observed)
        invariant errors + MissingFrom(titles[i..], observed) == old(errors) + MissingFrom(titles, observed)
      {
        if titles[i] !in observed {
          errors := errors + [Missing(titles[i])];
        }
      }
    }

    method VisitSpecs(specs: seq<Case>)
      modifies this
      ensures View() == SeeAll(titles, old(View()), specs)
    {
      for i := 0 to |specs|
        invariant SeeAll(titles, View(), specs[i..]) == SeeAll(titles, old(View()), specs)
      {
        VisitSpec(specs[i]);
      }
    }
  }

  function MissingFrom(titles: seq<string>, observed: set<string>): seq<Error> {
    if titles == [] then []
    else (if titles[0] in observed then [] else [Missing(titles[0])]) + MissingFrom(titles[1..], observed)
  }

  /** The whole list of errors. */
  function Errors(titles: seq<string>, report: Report): seq<Error> {
    var first := if titles == [] then [NothingSelected] else [];
    var found := SeeAll(titles, Found(first, {}), Flatten(report.suites));
    found.errors + MissingFrom(titles, found.observed) + if report.errors then [GlobalError] else []
  }

  /** browser_coverage_errors, for the sorted titles that the filter selects. */
  method CoverageErrors(titles: seq<string>, report: Report) returns (errors: seq<Error>)
    ensures errors == Errors(titles, report)
  {
    var c := new Coverage(titles);
    if |titles| == 0 {
      c.errors := c.errors + [NothingSelected];
    }
    assert c.View() == Found(if titles == [] then [NothingSelected] else [], {});
    c.Visit(report.suites);
    c.ReportMissing();
    if report.errors {
      c.errors := c.errors + [GlobalError];
    }
    return c.errors;
  }

  // ----- what no error means -----------------------------------------------------------------------------------

  predicate PassedOnce(spec: Case) { |spec.tests| == 1 && Passed(spec.tests[0]) }

  /** Every spec is expected, passed once, and is not a repetition. */
  predicate Clean(titles: seq<string>, observed: set<string>, specs: seq<Case>)
    decreases |specs|
  {
    specs == [] ||
    (IsExpected(titles, specs[0].title) && specs[0].title.value !in observed && PassedOnce(specs[0])
     && Clean(titles, observed + {specs[0].title.value}, specs[1..]))
  }

  lemma {:induction false} SeeAllKeeps(titles: seq<string>, found: Found, specs: seq<Case>)
    ensures |found.errors| <= |SeeAll(titles, found, specs).errors|
    decreases |specs|
  {
    if specs != [] {
      SeeAllKeeps(titles, See(titles, found, specs[0]), specs[1..]);
    }
  }

  lemma {:induction false} SeeAllClean(titles: seq<string>, found: Found, specs: seq<Case>)
    ensures |SeeAll(titles, found, specs).errors| == |found.errors| <==> Clean(titles, found.observed, specs)
    ensures Clean(titles, found.observed, specs) ==>
              forall t :: t in SeeAll(titles, found, specs).observed
                <==> t in found.observed || exists k | 0 <= k < |specs| :: specs[k].title == Some(t)
    decreases |specs|
  {
    if specs != [] {
      var next := See(titles, found, specs[0]);
      SeeAllKeeps(titles, next, specs[1..]);
      SeeAllClean(titles, next, specs[1..]);
      if Clean(titles, found.observed, specs) {
        forall t ensures t in SeeAll(titles, found, specs).observed
          <==> t in found.observed || exists k | 0 <= k < |specs| :: specs[k].title == Some(t) {
          TitleStep(specs, t);
        }
      }
    }
  }

  lemma {:induction false} TitleStep(specs: seq<Case>, t: string)
    requires specs != []
    ensures (exists k | 0 <= k < |specs| :: specs[k].title == Some(t))
       <==> specs[0].title == Some(t) || exists k | 0 <= k < |specs[1..]| :: specs[1..][k].title == Some(t)
  {
    if exists k | 0 <= k < |specs[1..]| :: specs[1..][k].title == Some(t) {
      var k :| 0 <= k < |specs[1..]| && specs[1..][k].title == Some(t);
      assert specs[k + 1].title == Some(t);
    }
    if exists k | 0 <= k < |specs| :: specs[k].title == Some(t) {
      var k :| 0 <= k < |specs| && specs[k].title == Some(t);
      if k > 0 {
        assert specs[1..][k - 1].title == Some(t);
      }
    }
  }

  predicate NoRepeats(specs: seq<Case>) {
    forall i, j | 0 <= i < j < |specs| :: specs[i].title != specs[j].title
  }

  lemma {:induction false} CleanExact(titles: seq<string>, observed: set<string>, specs: seq<Case>)
    ensures Clean(titles, observed, specs)
       <==> NoRepeats(specs)
            && forall k | 0 <= k < |specs| ::
                 IsExpected(titles, specs[k].title) && specs[k].title.value !in observed && PassedOnce(specs[k])
    decreases |specs|
  {
    if specs != [] {
      if IsExpected(titles, specs[0].title) {
        var rest := specs[1..];
        CleanExact(titles, observed + {specs[0].title.value}, rest);
        assert forall k | 0 < k < |specs| :: specs[k] == rest[k - 1];
      }
    }
  }

  lemma {:induction false} NoneMissing(titles: seq<string>, observed: set<string>)
    ensures MissingFrom(titles, observed) == [] <==> forall k | 0 <= k < |titles| :: titles[k] in observed
  {
    if titles != [] {
      NoneMissing(titles[1..], observed);
      assert forall k | 0 < k < |titles| :: titles[k] == titles[1..][k - 1];
    }
  }

  /** The coverage that the check asks for. */
  ghost predicate Covered(titles: seq<string>, report: Report) {
    var specs := Flatten(report.suites);
    && titles != []
    && (forall k | 0 <= k < |specs| :: IsExpected(titles, specs[k].title) && PassedOnce(specs[k]))
    && NoRepeats(specs)
    && (forall t | t in titles :: exists k | 0 <= k < |specs| :: specs[k].title == Some(t))
    && !report.errors
  }

  /**
   No error, if and only if something is expected, the specs of the whole suite tree are the expected
   titles once each, each with one successful Chromium run, and no global error is reported.
   */
  lemma {:induction false} EmptyExactly(titles: seq<string>, report: Report)
    ensures Errors(titles, report) == [] <==> Covered(titles, report)
  {
    var specs := Flatten(report.suites);
    ErrorsEmpty(titles, report);
    CleanExact(titles, {}, specs);
    if Clean(titles, {}, specs) {
      assert (forall k | 0 <= k < |titles| :: SeenIn(specs, titles[k])) <==> forall t | t in titles :: SeenIn(specs, t);
    }
  }

  ghost predicate SeenIn(specs: seq<Case>, title: string) {
    exists k | 0 <= k < |specs| :: specs[k].title == Some(title)
  }

  lemma {:induction false} ErrorsEmpty(titles: seq<string>, report: Report)
    ensures var specs := Flatten(report.suites);
            Errors(titles, report) == []
            <==> && titles != [] && Clean(titles, {}, specs) && !report.errors
                 && forall k | 0 <= k < |titles| :: SeenIn(specs, titles[k])
  {
    var specs := Flatten(report.suites);
    var start := Found(if titles == [] then [NothingSelected] else [], {});
    var found := SeeAll(titles, start, specs);
    SeeAllKeeps(titles, start, specs);
    SeeAllClean(titles, start, specs);
    NoneMissing(titles, found.observed);
    assert Errors(titles, report) == []
      <==> found.errors == [] && MissingFrom(titles, found.observed) == [] && !report.errors;
    if Clean(titles, {}, specs) {
      forall t ensures t in found.observed <==> SeenIn(specs, t) {
      }
    }
  }
}
