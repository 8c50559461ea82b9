/** For every hook that is not straight, and for every hook that is not honest, a bulk that shows it. */
module BulkLaws {
  import opened Options
  import opened AccountCreate
  import opened BulkCreate
  import opened BulkTrace
  import opened BulkComplete
  import opened BulkMilestones

  // ----- small bulks that show what a hook can do ------------------------------------------------------------------

  /** No defaults, and every value is valid. */
  const FREE: Config := Config(field => None, (field, value) => true)

  /** A hook that only changes the mutation. */
  function Editing(edit: Mutation -> Mutation): Hook {
    Hook(None, edit, m => None, 0, os => false, os => if os == [] then Success else os[|os| - 1])
  }

  const DROP: Hook := Editing(m => map[])

  function Full(): (m: Mutation)
    ensures Complete(m)
  {
    map field | field in REQUIRED :: Int(0)
  }

  const FILL: Hook := Editing(m => Full())

  function Refusing(e: Error): Hook { Editing(m => m).(answer := Some(Failure(e))) }

  /** One builder, with the hook in question outside another one. */
  function Pair(m: Mutation, h: Hook, inner: Hook, driver: seq<Option<Mutation>> -> Outcome): (bulk: Bulk)
    ensures |bulk.builders| == 1 && bulk.builders[0] == Builder(m, [h, inner]) && bulk.err.None?
  {
    Bulk(None, [Builder(m, [h, inner])], FREE, driver)
  }

  lemma {:induction false} NoDefaults(m: Mutation, fields: seq<Field>)
    ensures Defaulted(FREE, m, fields) == m
    decreases |fields|
  {
    if fields != [] {
      NoDefaults(m, fields[1..]);
    }
  }

  lemma {:induction false} FreeCheck(m: Mutation)
    ensures CheckError(FREE, m, CHECKS) == None <==> Complete(m)
  {
    CheckExact(FREE, m);
  }

  /** The start of a run of a single builder. */
  lemma {:induction false} SingleStart(bulk: Bulk, m: Mutation, hooks: seq<Hook>)
    requires bulk.builders == [Builder(m, hooks)] && bulk.err.None? && bulk.config == FREE
    ensures Prepared(bulk) == State([[m]], [0], [None], [{}], [])
    ensures Saved(bulk) == Mutate(bulk, Prepared(bulk), 0, 0, 0)
  {
    NoDefaults(m, DEFAULTED);
    assert Prepared(bulk).objects == [[m]];
  }

  /** An inner hook that edits the mutation and calls once: what it passes to the innermost function. */
  lemma {:induction false} EditingIs(bulk: Bulk, s: State, i: nat, k: nat, m: nat, edit: Mutation -> Mutation)
    requires Callable(bulk, s, i, k, m) && k + 1 == |bulk.builders[i].hooks|
    requires bulk.builders[i].hooks[k] == Editing(edit)
    ensures Handed(bulk, s, i, k, m) == m
    ensures var r := Core(bulk, Log(InHook(bulk, s, i, k, m), Open(CoreFrame(i))), i, m);
            Mutate(bulk, s, i, k, m) == (r.0, Log(Log(r.1, Close(CoreFrame(i))), Close(HookFrame(i, k))))
  {
    MutateHook(bulk, s, i, k, m);
    MutateCore(bulk, InHook(bulk, s, i, k, m), i, m);
    var first := FirstCall(bulk, s, i, k, m);
    RepeatStep(bulk, first.1, i, k, m, [first.0]);
  }

  /** What an inner hook hands the innermost function for its check, and what the spec is built from. */
  function Checked(s: State, m: nat, edit: Mutation -> Mutation): Mutation
    requires |s.objects| == |s.own| == 1 && s.own[0] < |s.objects[0]| && m < |s.objects[0]|
  {
    if m == s.own[0] then edit(s.objects[0][m]) else s.objects[0][s.own[0]]
  }

  /** One call of the hook in question, through an inner hook that edits, in full. */
  ghost predicate Called(bulk: Bulk, s: State, m: nat, edit: Mutation -> Mutation, r: (Outcome, State))
    requires Callable(bulk, s, 0, 0, m) && |bulk.builders| == 1 && Fits(bulk, r.1)
  {
    var o, t := r.0, r.1;
    var spec := edit(s.objects[0][m]);
    && t.objects == [s.objects[0][m := spec]]
    && (if Complete(Checked(s, m, edit))
        then && t.own == [m] && t.specs == [Some(spec)] && o == bulk.driver([Some(spec)])
             && Milestones(t.trace) == Milestones(s.trace) + [Batch([Some(spec)])] + if o.Success? then [Done(0)]
               else []
        else t.own == s.own && t.specs == s.specs && o.Failure? && Milestones(t.trace) == Milestones(s.trace))
  }

  lemma {:induction false} CoreCalled(bulk: Bulk, s: State, m: nat)
    requires Callable(bulk, s, 0, 0, m) && |bulk.builders| == 1 && bulk.config == FREE
    ensures Called(bulk, s, m, x => x, Core(bulk, s, 0, m))
  {
    FreeCheck(s.objects[0][s.own[0]]);
    CoreIs(bulk, s, 0, m);
    assert s.objects[0][m := s.objects[0][m]] == s.objects[0];
    if Complete(s.objects[0][s.own[0]]) {
      SentCalled(bulk, s, m);
    }
  }

  lemma {:induction false} SentCalled(bulk: Bulk, s: State, m: nat)
    requires Callable(bulk, s, 0, 0, m) && |bulk.builders| == 1
    ensures var built := AfterBuilt(bulk, s, 0, m);
            var sent := Log(built, Batch(built.specs));
            && built.specs == [Some(s.objects[0][m])] && built.own == [m]
            && Milestones(sent.trace) == Milestones(s.trace) + [Batch([Some(s.objects[0][m])])]
            && Milestones(AfterDone(bulk, sent, 0, m).trace) == Milestones(sent.trace) + [Done(0)]
  {
    var built := AfterBuilt(bulk, s, 0, m);
    var sent := Log(built, Batch(built.specs));
    MilestonesLog(s, Built(0));
    MilestonesLog(built, Batch(built.specs));
    MilestonesLog(sent, Done(0));
  }

  lemma {:induction false} InnerCalled(bulk: Bulk, s: State, m: nat, edit: Mutation -> Mutation)
    requires Callable(bulk, s, 0, 1, m) && |bulk.builders| == 1 && bulk.config == FREE
    requires |bulk.builders[0].hooks| == 2 && bulk.builders[0].hooks[1] == Editing(edit)
    ensures Called(bulk, s, m, edit, Mutate(bulk, s, 0, 1, m))
  {
    EditingIs(bulk, s, 0, 1, m, edit);
    var t := InHook(bulk, s, 0, 1, m);
    var inside := Log(t, Open(CoreFrame(0)));
    CoreCalled(bulk, inside, m);
    var r := Core(bulk, inside, 0, m);
    MilestonesLog(s, Open(HookFrame(0, 1)));
    MilestonesLog(t, Open(CoreFrame(0)));
    MilestonesLog(r.1, Close(CoreFrame(0)));
    MilestonesLog(Log(r.1, Close(CoreFrame(0))), Close(HookFrame(0, 1)));
    assert t.objects[0] == s.objects[0][m := edit(s.objects[0][m])];
  }

  /** The bulks in question: one free builder with two hooks, the inner one editing. */
  ghost predicate Around(bulk: Bulk, h: Hook, edit: Mutation -> Mutation) {
    bulk.err.None? && |bulk.builders| == 1 && bulk.config == FREE && bulk.builders[0].hooks == [h, Editing(edit)]
  }

  /** Further calls take no milestone back; they build nothing else and add nothing if the check cannot pass. */
  lemma {:induction false} RepeatCalled(bulk: Bulk, s: State, h: Hook, edit: Mutation -> Mutation, m: nat,
                                        os: seq<Outcome>)
    requires Callable(bulk, s, 0, 0, m) && Around(bulk, h, edit)
    ensures var t := Repeat(bulk, s, 0, 0, m, os).1;
            && Milestones(s.trace) <= Milestones(t.trace)
            && (s.specs == [Some(map[])] && (forall x :: edit(x) == map[]) ==> t.specs == s.specs)
            && (m != s.own[0] && !Complete(s.objects[0][s.own[0]]) ==> Milestones(t.trace) == Milestones(s.trace))
    decreases h.retries + 1 - |os|
  {
    RepeatStep(bulk, s, 0, 0, m, os);
    if |os| <= h.retries && h.again(os) {
      InnerCalled(bulk, s, m, edit);
      var r := Mutate(bulk, s, 0, 1, m);
      RepeatCalled(bulk, r.1, h, edit, m, os + [r.0]);
    }
  }

  /** The run of such a bulk from its outer hook on. */
  lemma {:induction false} AroundRun(bulk: Bulk, m: Mutation, h: Hook, edit: Mutation -> Mutation)
    requires Around(bulk, h, edit) && bulk.builders[0].mutation == m && h.answer.None?
    ensures Prepared(bulk) == State([[m]], [0], [None], [{}], [])
    ensures var s := Prepared(bulk);
            var t, calls := InHook(bulk, s, 0, 0, 0), Calls(bulk, s, 0, 0, 0);
            && t.objects == [[h.edit(m)] + if h.hand(h.edit(m)).Some? then [h.hand(h.edit(m)).value] else []]
            && t.own == [0] && t.specs == [None] && Milestones(t.trace) == []
            && Handed(bulk, s, 0, 0, 0) == (if h.hand(h.edit(m)).Some? then 1 else 0)
            && Saved(bulk).0 == h.after(calls.0) && Saved(bulk).1.specs == calls.1.specs
            && Milestones(Saved(bulk).1.trace) == Milestones(calls.1.trace)
  {
    assert bulk.builders == [Builder(m, [h, Editing(edit)])];
    SingleStart(bulk, m, [h, Editing(edit)]);
    var s := Prepared(bulk);
    MutateHook(bulk, s, 0, 0, 0);
    MilestonesLog(s, Open(HookFrame(0, 0)));
    MilestonesLog(Calls(bulk, s, 0, 0, 0).1, Close(HookFrame(0, 0)));
    assert [m][0 := h.edit(m)] == [h.edit(m)];
  }

  // ----- handing on another mutation ---------------------------------------------------------------------------------

  /** A complete mutation passes the check, and the one handed on in its place is built unchecked. */
  lemma {:induction false} UncheckedSpec(m: Mutation, h: Hook, driver: seq<Option<Mutation>> -> Outcome)
    requires h.answer.None? && Complete(h.edit(m)) && h.hand(h.edit(m)).Some?
    ensures var s := Saved(Pair(m, h, DROP, driver)).1;
            s.specs == [Some(map[])] && Milestones(s.trace) != [] && !CompleteSpecs(s)
  {
    var bulk, drop := Pair(m, h, DROP, driver), m => map[];
    AroundRun(bulk, m, h, drop);
    var t := InHook(bulk, Prepared(bulk), 0, 0, 0);
    InnerCalled(bulk, t, 1, drop);
    var r := Mutate(bulk, t, 0, 1, 1);
    RepeatCalled(bulk, r.1, h, drop, 1, [r.0]);
    assert Name in REQUIRED && !Complete(Saved(bulk).1.specs[0].value);
  }

  ghost predicate StraightBut(bulk: Bulk, h: Hook) {
    forall i, k | 0 <= i < |bulk.builders| && 0 <= k < |bulk.builders[i].hooks| ::
      bulk.builders[i].hooks[k] == h || Straight(bulk.builders[i].hooks[k])
  }

  /**
   The hooks that are safe for the check, exactly: no bulk with this hook, and else straight ones,
   builds a spec without a required field if and only if the hook hands complete mutations on as they are.
   */
  lemma {:induction false} StraightExactly(h: Hook)
    ensures Straight(h) <==> forall bulk | StraightBut(bulk, h) :: CompleteSpecs(Saved(bulk).1)
  {
    if Straight(h) {
      forall bulk | StraightBut(bulk, h) ensures CompleteSpecs(Saved(bulk).1) {
        assert AllStraight(bulk);
        StraightSuffices(bulk);
      }
    } else {
      var m :| Complete(h.edit(m)) && h.hand(h.edit(m)) != None;
      var bulk := Pair(m, h, DROP, specs => Success);
      UncheckedSpec(m, h, specs => Success);
      assert StraightBut(bulk, h);
      assert !CompleteSpecs(Saved(bulk).1);
    }
  }

  // ----- the hooks that keep a bulk all-or-nothing -----------------------------------------------------------------

  ghost predicate AllOrNoneRun(bulk: Bulk)
    requires bulk.builders != []
  {
    AllOrNone(bulk, Saved(bulk).0, Saved(bulk).1)
  }

  /** Which of these bulks are savable, and what their batch holds. */
  lemma {:induction false} PairSavable(bulk: Bulk, m: Mutation, h: Hook, inner: Hook)
    requires bulk.err.None? && bulk.builders == [Builder(m, [h, inner])] && bulk.config == FREE
    ensures AllSavable(bulk) <==> h.answer.None? && inner.answer.None? && Complete(inner.edit(h.edit(m)))
    ensures AllSpecs(bulk) == [Some(inner.edit(h.edit(m)))]
  {
    var hooks, ms := [h, inner], Contents(bulk, Prepared(bulk));
    SingleStart(bulk, m, hooks);
    assert ms[0] == m;
    var last := inner.edit(h.edit(m));
    assert Edited(hooks, 2, last) == last;
    assert Edited(hooks, 1, h.edit(m)) == last;
    assert Edited(hooks, 0, m) == last;
    assert CallsThrough(hooks, 0) <==> hooks[0].answer.None? && hooks[1].answer.None?;
    assert Savable(FREE, last) <==> Complete(last);
  }

  /** A hook that answers with success writes nothing and reports success. */
  lemma {:induction false} ClaimedSuccess(h: Hook)
    requires h.answer == Some(Success)
    ensures !AllOrNoneRun(Pair(map[], h, DROP, specs => Success))
  {
    var bulk := Pair(map[], h, DROP, specs => Success);
    PairSavable(bulk, map[], h, DROP);
    MutateHook(bulk, Prepared(bulk), 0, 0, 0);
  }

  /** Another mutation in place of a complete one: a batch is sent though no builder is savable. */
  lemma {:induction false} HandedPastCheck(m: Mutation, h: Hook)
    requires h.answer.None? && Complete(h.edit(m)) && h.hand(h.edit(m)).Some?
    ensures !AllOrNoneRun(Pair(m, h, DROP, specs => Success))
  {
    var bulk := Pair(m, h, DROP, specs => Success);
    UncheckedSpec(m, h, specs => Success);
    PairSavable(bulk, m, h, DROP);
    assert Name in REQUIRED;
  }

  /** Another mutation in place of an incomplete one: the check fails though every hook called through. */
  lemma {:induction false} HandedBeforeCheck(m: Mutation, h: Hook)
    requires h.answer.None? && !Complete(h.edit(m)) && h.hand(h.edit(m)).Some?
    ensures !AllOrNoneRun(Pair(m, h, FILL, specs => Success))
  {
    var bulk, fill := Pair(m, h, FILL, specs => Success), m => Full();
    AroundRun(bulk, m, h, fill);
    var t := InHook(bulk, Prepared(bulk), 0, 0, 0);
    InnerCalled(bulk, t, 1, fill);
    var r := Mutate(bulk, t, 0, 1, 1);
    RepeatCalled(bulk, r.1, h, fill, 1, [r.0]);
    PairSavable(bulk, m, h, FILL);
  }

  /** How many batches were sent. */
  function Batches(events: seq<Event>): nat {
    if events == [] then 0
    else Batches(events[..|events| - 1]) + if events[|events| - 1].Batch? then 1 else 0
  }

  lemma {:induction false} MoreBatches(a: seq<Event>, b: seq<Event>)
    requires a <= b
    ensures Batches(a) <= Batches(b)
  {
    if a != b {
      MoreBatches(a, b[..|b| - 1]);
    }
  }

  /** What two calls log. */
  lemma {:induction false} TwoBatches(first: Event, second: Event, done: seq<Event>)
    requires first.Batch? && second.Batch? && |done| <= 1
    ensures Batches([first] + done + [second]) >= 2
  {
    var before := [first] + done;
    assert (before + [second])[..|before|] == before;
    MoreBatches([first], before);
    assert [first][..0] == [];
    assert Batches([first]) == 1;
  }

  /** One call through FILL: a batch, and a done mark if it succeeds. */
  function FillLog(o: Outcome): seq<Event> {
    [Batch([Some(Full())])] + if o.Success? then [Done(0)] else []
  }

  lemma {:induction false} FillCalled(bulk: Bulk, s: State, h: Hook, o: Outcome)
    requires Callable(bulk, s, 0, 1, 0) && Around(bulk, h, m => Full()) && s.own == [0]
    requires forall specs :: bulk.driver(specs) == o
    ensures var r := Mutate(bulk, s, 0, 1, 0);
            r.0 == o && r.1.own == [0] && Milestones(r.1.trace) == Milestones(s.trace) + FillLog(o)
  {
    InnerCalled(bulk, s, 0, m => Full());
  }

  lemma {:induction false} FillRepeated(bulk: Bulk, s: State, h: Hook, o: Outcome)
    requires Callable(bulk, s, 0, 0, 0) && Around(bulk, h, m => Full()) && s.own == [0]
    requires (forall specs :: bulk.driver(specs) == o) && h.retries > 0 && h.again([o])
    ensures Milestones(s.trace) + FillLog(o) <= Milestones(Repeat(bulk, s, 0, 0, 0, [o]).1.trace)
  {
    RepeatStep(bulk, s, 0, 0, 0, [o]);
    FillCalled(bulk, s, h, o);
    var r := Mutate(bulk, s, 0, 1, 0);
    RepeatCalled(bulk, r.1, h, m => Full(), 0, [o] + [r.0]);
  }

  /** The milestones of a run whose hook calls again start with two batches. */
  lemma {:induction false} TwoCalls(bulk: Bulk, m: Mutation, h: Hook, o: Outcome)
    requires Around(bulk, h, m => Full()) && bulk.builders[0].mutation == m
    requires h.answer.None? && HandsOn(h) && h.retries > 0 && h.again([o])
    requires forall specs :: bulk.driver(specs) == o
    ensures FillLog(o) + FillLog(o) <= Milestones(Saved(bulk).1.trace)
  {
    AroundRun(bulk, m, h, m => Full());
    var t := InHook(bulk, Prepared(bulk), 0, 0, 0);
    FillCalled(bulk, t, h, o);
    var r := Mutate(bulk, t, 0, 1, 0);
    assert Milestones(r.1.trace) == FillLog(o);
    FillRepeated(bulk, r.1, h, o);
    assert Calls(bulk, Prepared(bulk), 0, 0, 0) == Repeat(bulk, r.1, 0, 0, 0, [o]);
  }

  /** A second call sends a second batch. */
  lemma {:induction false} CalledTwice(m: Mutation, h: Hook, o: Outcome)
    requires h.answer.None? && HandsOn(h) && h.retries > 0 && h.again([o])
    ensures var bulk := Pair(m, h, FILL, specs => o);
            Batches(Milestones(Saved(bulk).1.trace)) >= 2 && !AllOrNoneRun(bulk)
  {
    var bulk := Pair(m, h, FILL, specs => o);
    TwoCalls(bulk, m, h, o);
    SentTwice(FillLog(o), Milestones(Saved(bulk).1.trace));
    PairSavable(bulk, m, h, FILL);
    OneDone();
  }

  lemma {:induction false} SentTwice(call: seq<Event>, all: seq<Event>)
    requires 1 <= |call| <= 2 && call[0].Batch? && call + call <= all
    ensures Batches(all) >= 2
  {
    TwoBatches(call[0], call[0], call[1..]);
    assert call + call[..1] == [call[0]] + call[1..] + [call[0]];
    MoreBatches(call + call[..1], all);
  }

  lemma {:induction false} OneDone()
    ensures DoneDown(1, 0) == [Done(0)]
  {
    assert DoneDown(1, 1) == [];
  }

  /** A hook that turns a failure into a success reports a success that nothing stands for. */
  lemma {:induction false} SwallowedFailure(m: Mutation, h: Hook, e: Error)
    requires h.answer.None? && HandsOn(h) && CallsOnce(h) && h.after([Failure(e)]) == Success
    ensures !AllOrNoneRun(Pair(m, h, Refusing(e), specs => Success))
  {
    var bulk := Pair(m, h, Refusing(e), specs => Success);
    PairSavable(bulk, m, h, Refusing(e));
    SingleStart(bulk, m, [h, Refusing(e)]);
    var s := Prepared(bulk);
    MutateHook(bulk, s, 0, 0, 0);
    var first := FirstCall(bulk, s, 0, 0, 0);
    MutateHook(bulk, InHook(bulk, s, 0, 0, 0), 0, 1, 0);
    RepeatStep(bulk, first.1, 0, 0, 0, [first.0]);
  }

  /** A hook that turns a success into a failure reports a failure after the batch was written. */
  lemma {:induction false} WithheldSuccess(m: Mutation, h: Hook)
    requires h.answer.None? && HandsOn(h) && CallsOnce(h) && h.after([Success]) != Success
    ensures !AllOrNoneRun(Pair(m, h, FILL, specs => Success))
    ensures Saved(Pair(m, h, FILL, specs => Success)).0.Failure?
    ensures Milestones(Saved(Pair(m, h, FILL, specs => Success)).1.trace) == [Batch([Some(Full())]), Done(0)]
  {
    FilledRun(m, h);
    PairSavable(Pair(m, h, FILL, specs => Success), m, h, FILL);
  }

  /** One call through to the batch, which succeeds. */
  lemma {:induction false} FilledRun(m: Mutation, h: Hook)
    requires h.answer.None? && HandsOn(h) && CallsOnce(h)
    ensures var run := Saved(Pair(m, h, FILL, specs => Success));
            run.0 == h.after([Success]) && Milestones(run.1.trace) == [Batch([Some(Full())]), Done(0)]
  {
    var bulk, fill := Pair(m, h, FILL, specs => Success), m => Full();
    AroundRun(bulk, m, h, fill);
    var t := InHook(bulk, Prepared(bulk), 0, 0, 0);
    InnerCalled(bulk, t, 0, fill);
    var r := Mutate(bulk, t, 0, 1, 0);
    RepeatStep(bulk, r.1, 0, 0, 0, [r.0]);
  }

  ghost predicate HonestBut(bulk: Bulk, h: Hook) {
    forall i, k | 0 <= i < |bulk.builders| && 0 <= k < |bulk.builders[i].hooks| ::
      bulk.builders[i].hooks[k] == h || Honest(bulk.builders[i].hooks[k])
  }

  lemma {:induction false} InnerHonest(e: Error)
    ensures Honest(DROP) && Honest(FILL) && Honest(Refusing(e))
  {
  }

  /** Every hook that is not honest breaks all-or-nothing in some bulk whose other hooks are honest. */
  lemma {:induction false} DishonestBreaks(h: Hook) returns (bulk: Bulk)
    requires !Honest(h)
    ensures bulk.builders != [] && HonestBut(bulk, h) && !AllOrNoneRun(bulk)
  {
    InnerHonest(Missing(Name));
    if h.answer.Some? {
      ClaimedSuccess(h);
      bulk := Pair(map[], h, DROP, specs => Success);
    } else if !HandsOn(h) {
      var m :| h.hand(h.edit(m)) != None;
      if Complete(h.edit(m)) {
        HandedPastCheck(m, h);
        bulk := Pair(m, h, DROP, specs => Success);
      } else {
        HandedBeforeCheck(m, h);
        bulk := Pair(m, h, FILL, specs => Success);
      }
    } else if !CallsOnce(h) {
      var o :| h.again([o]);
      CalledTwice(map[], h, o);
      bulk := Pair(map[], h, FILL, specs => o);
    } else if h.after([Success]) != Success {
      WithheldSuccess(map[], h);
      bulk := Pair(map[], h, FILL, specs => Success);
    } else {
      var e :| h.after([Failure(e)]).Success?;
      InnerHonest(e);
      SwallowedFailure(map[], h, e);
      bulk := Pair(map[], h, Refusing(e), specs => Success);
    }
  }

  /**
   Honesty is the exact condition: a hook is honest if and only if every bulk with this hook, and else
   honest ones, is saved all or nothing.
   */
  lemma {:induction false} HonestExactly(h: Hook)
    ensures Honest(h)
       <==> forall bulk: Bulk | bulk.builders != [] && HonestBut(bulk, h) :: AllOrNoneRun(bulk)
  {
    if Honest(h) {
      forall bulk: Bulk | bulk.builders != [] && HonestBut(bulk, h) ensures AllOrNoneRun(bulk) {
        assert AllHonest(bulk);
        AllOrNothing(bulk);
      }
    } else {
      var bulk := DishonestBreaks(h);
    }
  }
}
