/** Batches and done marks of AccountCreateBulk.Save: one batch or none, then done marks in reverse. */
module BulkMilestones {
  import opened Options
  import opened AccountCreate
  import opened BulkCreate
  import opened BulkTrace

  // ----- who reaches the batch ------------------------------------------------------------------------------------

  /** The mutation after the edits of the hooks from k on. */
  function Edited(hooks: seq<Hook>, k: nat, m: Mutation): Mutation
    requires k <= |hooks|
    decreases |hooks| - k
  {
    if k == |hooks| then m else Edited(hooks, k + 1, hooks[k].edit(m))
  }

  predicate CallsThrough(hooks: seq<Hook>, k: nat) {
    forall j | k <= j < |hooks| :: hooks[j].answer.None?
  }

  /** Builder i, from hook k on, and all builders after it reach their innermost functions and pass their checks. */
  predicate Reaches(bulk: Bulk, ms: seq<Mutation>, i: nat, k: nat)
    requires |ms| == |bulk.builders| && i < |ms| && k <= |bulk.builders[i].hooks|
    decreases |ms| - i
  {
    && CallsThrough(bulk.builders[i].hooks, k)
    && Savable(bulk.config, Edited(bulk.builders[i].hooks, k, ms[i]))
    && (i + 1 < |ms| ==> Reaches(bulk, ms, i + 1, 0))
  }

  /** The specs from builder i on: each from its own mutation, as its hooks left it. */
  function SpecsFrom(bulk: Bulk, ms: seq<Mutation>, i: nat, k: nat): (specs: seq<Option<Mutation>>)
    requires |ms| == |bulk.builders| && i < |ms| && k <= |bulk.builders[i].hooks|
    ensures |specs| == |ms| - i
    decreases |ms| - i
  {
    [Some(Edited(bulk.builders[i].hooks, k, ms[i]))] + if i + 1 < |ms| then SpecsFrom(bulk, ms, i + 1, 0) else []
  }

  /** The edit of hook k is the first of the edits from k on, and touches no other builder. */
  lemma {:induction false} HookStep(bulk: Bulk, ms: seq<Mutation>, i: nat, k: nat)
    requires |ms| == |bulk.builders| && i < |ms| && k < |bulk.builders[i].hooks|
    requires bulk.builders[i].hooks[k].answer.None?
    ensures var next := ms[i := bulk.builders[i].hooks[k].edit(ms[i])];
            && (Reaches(bulk, next, i, k + 1) <==> Reaches(bulk, ms, i, k))
            && SpecsFrom(bulk, next, i, k + 1) == SpecsFrom(bulk, ms, i, k)
  {
    var next := ms[i := bulk.builders[i].hooks[k].edit(ms[i])];
    if i + 1 < |ms| {
      LaterOnly(bulk, ms, next, i + 1);
    }
  }

  lemma {:induction false} LaterOnly(bulk: Bulk, ms: seq<Mutation>, other: seq<Mutation>, i: nat)
    requires |ms| == |other| == |bulk.builders| && i < |ms| && ms[i..] == other[i..]
    ensures Reaches(bulk, ms, i, 0) <==> Reaches(bulk, other, i, 0)
    ensures SpecsFrom(bulk, ms, i, 0) == SpecsFrom(bulk, other, i, 0)
    decreases |ms| - i
  {
    assert ms[i] == ms[i..][0] && other[i] == other[i..][0];
    if i + 1 < |ms| {
      assert ms[i + 1..] == ms[i..][1..] && other[i + 1..] == other[i..][1..];
      LaterOnly(bulk, ms, other, i + 1);
    }
  }

  // ----- batches and done marks -------------------------------------------------------------------------------------

  /** Batches and done marks, in order. */
  function Milestones(trace: seq<Event>): seq<Event> {
    if trace == [] then []
    else
      var before, e := Milestones(trace[..|trace| - 1]), trace[|trace| - 1];
      if e.Batch? || e.Done? then before + [e] else before
  }

  lemma {:induction false} MilestonesLog(s: State, e: Event)
    ensures Milestones(Log(s, e).trace) == Milestones(s.trace) + if e.Batch? || e.Done? then [e] else []
  {
    assert (s.trace + [e])[..|s.trace|] == s.trace;
  }

  /** The done marks of builders n - 1 down to m. */
  function DoneDown(n: nat, m: nat): (es: seq<Event>)
    requires m <= n
    decreases n - m
  {
    if m == n then [] else DoneDown(n, m + 1) + [Done(m)]
  }

  lemma {:induction false} DownStep(start: seq<Event>, n: nat, i: nat)
    requires i < n
    ensures start + DoneDown(n, i + 1) + [Done(i)] == start + DoneDown(n, i)
  {
  }

  /** The done marks when those of the builders from m on were added. */
  function Marked(done: seq<set<nat>>, own: seq<nat>, m: nat): seq<set<nat>>
    requires m <= |done| == |own|
  {
    seq(|done|, j requires 0 <= j < |done| => if m <= j then done[j] + {own[j]} else done[j])
  }

  lemma {:induction false} MarkedAll(done: seq<set<nat>>, own: seq<nat>)
    requires |done| == |own|
    ensures Marked(done, own, |done|) == done
  {
  }

  lemma {:induction false} MarkedStep(done: seq<set<nat>>, own: seq<nat>, i: nat)
    requires i < |done| == |own|
    ensures var later := Marked(done, own, i + 1); Marked(done, own, i) == later[i := later[i] + {own[i]}]
  {
  }

  /** What the builders' own mutations hold. */
  function Contents(bulk: Bulk, s: State): (ms: seq<Mutation>)
    requires Fits(bulk, s)
    ensures |ms| == |bulk.builders| && forall i | 0 <= i < |ms| :: ms[i] == s.objects[i][s.own[i]]
  {
    seq(|bulk.builders|, i requires 0 <= i < |bulk.builders| => s.objects[i][s.own[i]])
  }

  // ----- hooks that propagate failures -----------------------------------------------------------------------------

  /** The hook hands on the mutation it was given, whatever that holds. */
  ghost predicate HandsOn(h: Hook) {
    forall m :: h.hand(h.edit(m)) == None
  }

  /** The hook is content with the first answer. */
  ghost predicate CallsOnce(h: Hook) {
    h.retries == 0 || forall o :: !h.again([o])
  }

  /**
   A hook that claims no success of its own: it refuses, or it calls once, with its own mutation, and passes
   failures on.
   */
  ghost predicate Propagates(h: Hook) {
    match h.answer
    case Some(o) => o.Failure?
    case None => HandsOn(h) && CallsOnce(h) && forall e :: h.after([Failure(e)]).Failure?
  }

  ghost predicate AllPropagate(bulk: Bulk) {
    forall i, k | 0 <= i < |bulk.builders| && 0 <= k < |bulk.builders[i].hooks| :: Propagates(bulk.builders[i].hooks[k])
  }

  /** Such a hook, in one equation. */
  lemma {:induction false} PropagatingHook(bulk: Bulk, s: State, i: nat, k: nat, m: nat)
    requires Callable(bulk, s, i, k, m) && k < |bulk.builders[i].hooks| && m == s.own[i]
    requires bulk.builders[i].hooks[k].answer.None? && Propagates(bulk.builders[i].hooks[k])
    ensures var t, hook := InHook(bulk, s, i, k, m), bulk.builders[i].hooks[k];
            && t.own == s.own && t.specs == s.specs && t.done == s.done
            && Contents(bulk, t) == Contents(bulk, s)[i := hook.edit(Contents(bulk, s)[i])]
            && var (o, u) := Mutate(bulk, t, i, k + 1, m);
               Mutate(bulk, s, i, k, m) == (hook.after([o]), Log(u, Close(HookFrame(i, k))))
  {
    MutateHook(bulk, s, i, k, m);
    var first := FirstCall(bulk, s, i, k, m);
    assert bulk.builders[i].hooks[k].hand(EditedBy(bulk, s, i, k, m)) == None;
    RepeatStep(bulk, first.1, i, k, m, [first.0]);
  }

  /** What builder i from hook k on adds to a run: the builders from m on end up done. */
  ghost predicate Adds(bulk: Bulk, s: State, i: nat, k: nat, o: Outcome, t: State, m: nat)
    requires Fits(bulk, s) && Fits(bulk, t) && i < |bulk.builders| && k <= |bulk.builders[i].hooks|
    requires m <= |bulk.builders|
  {
    var n, sent := |bulk.builders|, s.specs[..i] + SpecsFrom(bulk, Contents(bulk, s), i, k);
    && i <= m && t.done == Marked(s.done, s.own, m) && t.own == s.own
    && (if Reaches(bulk, Contents(bulk, s), i, k)
        then && Milestones(t.trace) == Milestones(s.trace) + [Batch(sent)] + DoneDown(n, m)
             && (bulk.driver(sent).Failure? ==> m == n)
             && (o.Success? ==> m == i && bulk.driver(sent).Success?)
        else Milestones(t.trace) == Milestones(s.trace) && m == n && o.Failure?)
  }

  lemma {:induction false} AddsHook(bulk: Bulk, s: State, i: nat, k: nat, o: Outcome, t: State, m: nat)
    requires Fits(bulk, s) && Fits(bulk, t) && i < |bulk.builders| && k < |bulk.builders[i].hooks|
    requires m <= |bulk.builders|
    requires bulk.builders[i].hooks[k].answer.None? && Propagates(bulk.builders[i].hooks[k])
    requires Adds(bulk, InHook(bulk, s, i, k, s.own[i]), i, k + 1, o, t, m)
    ensures Adds(bulk, s, i, k, bulk.builders[i].hooks[k].after([o]), Log(t, Close(HookFrame(i, k))), m)
  {
    PropagatingHook(bulk, s, i, k, s.own[i]);
    MilestonesLog(s, Open(HookFrame(i, k)));
    MilestonesLog(t, Close(HookFrame(i, k)));
    HookStep(bulk, Contents(bulk, s), i, k);
  }

  lemma {:induction false} AddsAnswer(bulk: Bulk, s: State, i: nat, k: nat)
    requires Fits(bulk, s) && i < |bulk.builders| && k < |bulk.builders[i].hooks|
    requires bulk.builders[i].hooks[k].answer.Some? && Propagates(bulk.builders[i].hooks[k])
    ensures Adds(bulk, s, i, k, bulk.builders[i].hooks[k].answer.value,
                 Log(Log(s, Open(HookFrame(i, k))), Close(HookFrame(i, k))), |bulk.builders|)
  {
    MilestonesLog(s, Open(HookFrame(i, k)));
    MilestonesLog(Log(s, Open(HookFrame(i, k))), Close(HookFrame(i, k)));
    MarkedAll(s.done, s.own);
  }

  lemma {:induction false} AddsCore(bulk: Bulk, s: State, i: nat, o: Outcome, t: State, m: nat)
    requires Fits(bulk, s) && Fits(bulk, t) && i < |bulk.builders| && m <= |bulk.builders|
    requires Adds(bulk, Log(s, Open(CoreFrame(i))), i, |bulk.builders[i].hooks|, o, t, m)
    ensures Adds(bulk, s, i, |bulk.builders[i].hooks|, o, Log(t, Close(CoreFrame(i))), m)
  {
    MilestonesLog(s, Open(CoreFrame(i)));
    MilestonesLog(t, Close(CoreFrame(i)));
    assert Contents(bulk, Log(s, Open(CoreFrame(i)))) == Contents(bulk, s);
  }

  lemma {:induction false} MutateAdds(bulk: Bulk, s: State, i: nat, k: nat) returns (m: nat)
    requires Fits(bulk, s) && i < |bulk.builders| && k <= |bulk.builders[i].hooks| && AllPropagate(bulk)
    ensures m <= |bulk.builders|
    ensures Adds(bulk, s, i, k, Mutate(bulk, s, i, k, s.own[i]).0, Mutate(bulk, s, i, k, s.own[i]).1, m)
    decreases |bulk.builders| - i, |bulk.builders[i].hooks| - k, 1
  {
    if k == |bulk.builders[i].hooks| {
      var inside := Log(s, Open(CoreFrame(i)));
      MutateCore(bulk, s, i, s.own[i]);
      m := CoreAdds(bulk, inside, i);
      AddsCore(bulk, s, i, Core(bulk, inside, i, s.own[i]).0, Core(bulk, inside, i, s.own[i]).1, m);
    } else {
      m := HookAdds(bulk, s, i, k);
    }
  }

  lemma {:induction false} HookAdds(bulk: Bulk, s: State, i: nat, k: nat) returns (m: nat)
    requires Fits(bulk, s) && i < |bulk.builders| && k < |bulk.builders[i].hooks| && AllPropagate(bulk)
    ensures m <= |bulk.builders|
    ensures Adds(bulk, s, i, k, Mutate(bulk, s, i, k, s.own[i]).0, Mutate(bulk, s, i, k, s.own[i]).1, m)
    decreases |bulk.builders| - i, |bulk.builders[i].hooks| - k, 0
  {
    assert Propagates(bulk.builders[i].hooks[k]);
    if bulk.builders[i].hooks[k].answer.Some? {
      m := |bulk.builders|;
      MutateHook(bulk, s, i, k, s.own[i]);
      AddsAnswer(bulk, s, i, k);
    } else {
      var inside := InHook(bulk, s, i, k, s.own[i]);
      PropagatingHook(bulk, s, i, k, s.own[i]);
      m := MutateAdds(bulk, inside, i, k + 1);
      var r := Mutate(bulk, inside, i, k + 1, s.own[i]);
      AddsHook(bulk, s, i, k, r.0, r.1, m);
    }
  }

  /** What the rest of the chain adds to the state in which the spec of builder i is built. */
  ghost predicate RestAdds(bulk: Bulk, s: State, i: nat, o: Outcome, t: State, m: nat)
    requires Fits(bulk, s) && Fits(bulk, t) && i < |bulk.builders| && m <= |bulk.builders|
  {
    var n, sent := |bulk.builders|, s.specs[..i] + SpecsFrom(bulk, Contents(bulk, s), i, |bulk.builders[i].hooks|);
    && i < m && t.done == Marked(s.done, s.own, m) && t.own == s.own
    && (if i + 1 < n ==> Reaches(bulk, Contents(bulk, s), i + 1, 0)
        then && Milestones(t.trace) == Milestones(s.trace) + [Batch(sent)] + DoneDown(n, m)
             && (bulk.driver(sent).Failure? ==> m == n)
             && (o.Success? ==> m == i + 1 && bulk.driver(sent).Success?)
        else Milestones(t.trace) == Milestones(s.trace) && m == n && o.Failure?)
  }

  /** Building the spec of a builder's own mutation changes no mutation. */
  lemma {:induction false} BuiltSame(bulk: Bulk, s: State, i: nat)
    requires Fits(bulk, s) && i < |bulk.builders|
    ensures var built := AfterBuilt(bulk, s, i, s.own[i]);
            && built.own == s.own && built.done == s.done && Contents(bulk, built) == Contents(bulk, s)
            && built.specs[i] == Some(Contents(bulk, s)[i]) && Milestones(built.trace) == Milestones(s.trace)
  {
    MilestonesLog(s, Built(i));
  }

  lemma {:induction false} SentSpecs(bulk: Bulk, s: State, i: nat)
    requires Fits(bulk, s) && i < |bulk.builders|
    ensures var built, ms := AfterBuilt(bulk, s, i, s.own[i]), Contents(bulk, s);
            var rest := SpecsFrom(bulk, ms, i, |bulk.builders[i].hooks|);
            && s.specs[..i] + rest == built.specs[..i] + rest
            && (i + 1 < |bulk.builders| ==> built.specs[..i + 1] + SpecsFrom(bulk, ms, i + 1, 0) == s.specs[..i] + rest)
            && (i + 1 == |bulk.builders| ==> built.specs == s.specs[..i] + rest)
  {
  }

  lemma {:induction false} LastAdds(bulk: Bulk, s: State, i: nat)
    requires Fits(bulk, s) && i + 1 == |bulk.builders| && s.specs[i] == Some(Contents(bulk, s)[i])
    ensures RestAdds(bulk, s, i, bulk.driver(s.specs), Log(s, Batch(s.specs)), |bulk.builders|)
  {
    MilestonesLog(s, Batch(s.specs));
    MarkedAll(s.done, s.own);
    assert s.specs == s.specs[..i] + SpecsFrom(bulk, Contents(bulk, s), i, |bulk.builders[i].hooks|);
  }

  lemma {:induction false} NextAdds(bulk: Bulk, s: State, i: nat, o: Outcome, t: State, m: nat)
    requires Fits(bulk, s) && Fits(bulk, t) && i + 1 < |bulk.builders| && m <= |bulk.builders|
    requires s.specs[i] == Some(Contents(bulk, s)[i]) && Adds(bulk, s, i + 1, 0, o, t, m)
    ensures RestAdds(bulk, s, i, o, t, m)
  {
    var ms := Contents(bulk, s);
    assert s.specs[..i + 1] == s.specs[..i] + [Some(ms[i])];
    assert s.specs[..i + 1] + SpecsFrom(bulk, ms, i + 1, 0)
      == s.specs[..i] + SpecsFrom(bulk, ms, i, |bulk.builders[i].hooks|);
  }

  lemma {:induction false} DoneAdds(bulk: Bulk, s: State, i: nat, t: State)
    requires Fits(bulk, s) && Fits(bulk, t) && i < |bulk.builders| && Savable(bulk.config, Contents(bulk, s)[i])
    requires RestAdds(bulk, AfterBuilt(bulk, s, i, s.own[i]), i, Success, t, i + 1)
    ensures Adds(bulk, s, i, |bulk.builders[i].hooks|, Success, AfterDone(bulk, t, i, s.own[i]), i)
  {
    BuiltSame(bulk, s, i);
    SentSpecs(bulk, s, i);
    MilestonesLog(t, Done(i));
    MarkedStep(s.done, s.own, i);
    var ms, hooks := Contents(bulk, s), bulk.builders[i].hooks;
    assert Edited(hooks, |hooks|, ms[i]) == ms[i];
    DownStep(Milestones(s.trace) + [Batch(s.specs[..i] + SpecsFrom(bulk, ms, i, |hooks|))], |bulk.builders|, i);
  }

  lemma {:induction false} FailedAdds(bulk: Bulk, s: State, i: nat, o: Outcome, t: State, m: nat)
    requires Fits(bulk, s) && Fits(bulk, t) && i < |bulk.builders| && m <= |bulk.builders|
    requires Savable(bulk.config, Contents(bulk, s)[i])
    requires o.Failure? && RestAdds(bulk, AfterBuilt(bulk, s, i, s.own[i]), i, o, t, m)
    ensures Adds(bulk, s, i, |bulk.builders[i].hooks|, o, t, m)
  {
    BuiltSame(bulk, s, i);
    SentSpecs(bulk, s, i);
  }

  lemma {:induction false} CoreAdds(bulk: Bulk, s: State, i: nat) returns (m: nat)
    requires Fits(bulk, s) && i < |bulk.builders| && AllPropagate(bulk)
    ensures m <= |bulk.builders|
    ensures Adds(bulk, s, i, |bulk.builders[i].hooks|, Core(bulk, s, i, s.own[i]).0, Core(bulk, s, i, s.own[i]).1, m)
    decreases |bulk.builders| - i, 0, 0
  {
    var n, ms := |bulk.builders|, Contents(bulk, s);
    CheckExact(bulk.config, ms[i]);
    CoreIs(bulk, s, i, s.own[i]);
    if !Savable(bulk.config, ms[i]) {
      m := n;
      MarkedAll(s.done, s.own);
    } else {
      var built := AfterBuilt(bulk, s, i, s.own[i]);
      BuiltSame(bulk, s, i);
      var o, t := Rest(bulk, built, i).0, Rest(bulk, built, i).1;
      if i + 1 < n {
        m := MutateAdds(bulk, built, i + 1, 0);
        NextAdds(bulk, built, i, o, t, m);
      } else {
        m := n;
        LastAdds(bulk, built, i);
      }
      if o.Success? {
        DoneAdds(bulk, s, i, t);
        m := i;
      } else {
        FailedAdds(bulk, s, i, o, t, m);
      }
    }
  }

  // ----- the whole Save ------------------------------------------------------------------------------------------

  /** Every hook calls through and every mutation, with its defaults and as its hooks left it, may be saved. */
  predicate AllSavable(bulk: Bulk) {
    bulk.err.None? && bulk.builders != [] && Reaches(bulk, Contents(bulk, Prepared(bulk)), 0, 0)
  }

  function AllSpecs(bulk: Bulk): seq<Option<Mutation>>
    requires bulk.builders != []
  {
    SpecsFrom(bulk, Contents(bulk, Prepared(bulk)), 0, 0)
  }

  /** The done marks when the own mutations of the builders from m on are done, and no others. */
  function Flags(n: nat, m: nat): (flags: seq<set<nat>>)
    ensures |flags| == n && forall j | 0 <= j < n :: flags[j] == if m <= j then {0} else {}
  {
    seq(n, j => if m <= j then {0} else {})
  }

  ghost predicate SavedUpTo(bulk: Bulk, o: Outcome, s: State, m: nat) {
    var n := |bulk.builders|;
    && n > 0 && m <= n && s.done == Flags(n, m)
    && (if AllSavable(bulk)
        then && Milestones(s.trace) == [Batch(AllSpecs(bulk))] + DoneDown(n, m)
             && (bulk.driver(AllSpecs(bulk)).Failure? ==> m == n)
             && (o.Success? ==> m == 0 && bulk.driver(AllSpecs(bulk)).Success?)
        else Milestones(s.trace) == [] && m == n && o.Failure?)
  }

  /**
   With hooks that propagate failures: no batch and no done mark if any builder is rejected; else
   exactly one batch, with the spec of builder i at i, and done marks in reverse builder order, only
   after the batch succeeded.  Save succeeds only if all builders were marked done.
   */
  lemma {:induction false} SaveMilestones(bulk: Bulk) returns (m: nat)
    requires AllPropagate(bulk) && bulk.err.None? && bulk.builders != []
    ensures SavedUpTo(bulk, Saved(bulk).0, Saved(bulk).1, m)
  {
    var s := Prepared(bulk);
    m := MutateAdds(bulk, s, 0, 0);
    FromAdds(bulk, Mutate(bulk, s, 0, 0, 0).0, Mutate(bulk, s, 0, 0, 0).1, m);
  }

  lemma {:induction false} FromAdds(bulk: Bulk, o: Outcome, t: State, m: nat)
    requires bulk.err.None? && bulk.builders != [] && Fits(bulk, t) && m <= |bulk.builders|
    requires Adds(bulk, Prepared(bulk), 0, 0, o, t, m)
    ensures SavedUpTo(bulk, o, t, m)
  {
    StartFlags(bulk, m);
    StartTrace(Prepared(bulk), AllSpecs(bulk));
  }

  lemma {:induction false} StartFlags(bulk: Bulk, m: nat)
    requires m <= |bulk.builders|
    ensures Marked(Prepared(bulk).done, Prepared(bulk).own, m) == Flags(|bulk.builders|, m)
  {
    FlagsAre(|bulk.builders|, Prepared(bulk).done, Prepared(bulk).own, m);
  }

  lemma {:induction false} FlagsAre(n: nat, done: seq<set<nat>>, own: seq<nat>, m: nat)
    requires m <= |done| == |own| == n && forall j | 0 <= j < n :: done[j] == {} && own[j] == 0
    ensures Marked(done, own, m) == Flags(n, m)
  {
    forall j | 0 <= j < n ensures Marked(done, own, m)[j] == Flags(n, m)[j] {
      assert done[j] + {own[j]} == {0};
    }
  }

  lemma {:induction false} StartTrace(s: State, specs: seq<Option<Mutation>>)
    requires s.trace == []
    ensures s.specs[..0] + specs == specs && Milestones(s.trace) + [Batch(specs)] == [Batch(specs)]
    ensures Milestones(s.trace) == []
  {
  }

  /** Hooks that also let a success pass. */
  ghost predicate Honest(h: Hook) {
    Propagates(h) && (h.answer.None? ==> h.after([Success]) == Success)
  }

  ghost predicate AllHonest(bulk: Bulk) {
    forall i, k | 0 <= i < |bulk.builders| && 0 <= k < |bulk.builders[i].hooks| :: Honest(bulk.builders[i].hooks[k])
  }

  lemma {:induction false} HonestSuccess(bulk: Bulk, s: State, i: nat, k: nat)
    requires Fits(bulk, s) && i < |bulk.builders| && k <= |bulk.builders[i].hooks| && AllHonest(bulk)
    requires Reaches(bulk, Contents(bulk, s), i, k)
    requires bulk.driver(s.specs[..i] + SpecsFrom(bulk, Contents(bulk, s), i, k)).Success?
    ensures Mutate(bulk, s, i, k, s.own[i]).0.Success?
    decreases |bulk.builders| - i, |bulk.builders[i].hooks| - k, 1
  {
    if k == |bulk.builders[i].hooks| {
      CoreSucceeds(bulk, s, i);
    } else {
      assert Honest(bulk.builders[i].hooks[k]);
      PropagatingHook(bulk, s, i, k, s.own[i]);
      HookStep(bulk, Contents(bulk, s), i, k);
      HonestSuccess(bulk, InHook(bulk, s, i, k, s.own[i]), i, k + 1);
    }
  }

  lemma {:induction false} CoreSucceeds(bulk: Bulk, s: State, i: nat)
    requires Fits(bulk, s) && i < |bulk.builders| && AllHonest(bulk)
    requires Reaches(bulk, Contents(bulk, s), i, |bulk.builders[i].hooks|)
    requires bulk.driver(s.specs[..i] + SpecsFrom(bulk, Contents(bulk, s), i, |bulk.builders[i].hooks|)).Success?
    ensures Mutate(bulk, s, i, |bulk.builders[i].hooks|, s.own[i]).0.Success?
    decreases |bulk.builders| - i, 0, 0
  {
    var inside := Log(s, Open(CoreFrame(i)));
    MutateCore(bulk, s, i, s.own[i]);
    assert Contents(bulk, inside) == Contents(bulk, s);
    CheckExact(bulk.config, Contents(bulk, s)[i]);
    CoreIs(bulk, inside, i, s.own[i]);
    SentSpecs(bulk, inside, i);
    BuiltSame(bulk, inside, i);
    if i + 1 < |bulk.builders| {
      HonestSuccess(bulk, AfterBuilt(bulk, inside, i, s.own[i]), i + 1, 0);
    }
  }

  ghost predicate AllOrNone(bulk: Bulk, o: Outcome, s: State)
    requires bulk.builders != []
  {
    var n := |bulk.builders|;
    && (o.Success? <==> AllSavable(bulk) && bulk.driver(AllSpecs(bulk)).Success?)
    && s.done == Flags(n, if o.Success? then 0 else n)
    && Milestones(s.trace)
      == (if AllSavable(bulk) then [Batch(AllSpecs(bulk))] else []) + (if o.Success? then DoneDown(n, 0) else [])
  }

  lemma {:induction false} FromMilestones(bulk: Bulk, o: Outcome, s: State, m: nat)
    requires SavedUpTo(bulk, o, s, m)
    requires AllSavable(bulk) && bulk.driver(AllSpecs(bulk)).Success? ==> o.Success?
    ensures AllOrNone(bulk, o, s)
  {
    var n := |bulk.builders|;
    assert DoneDown(n, n) == [];
    if AllSavable(bulk) {
      assert [Batch(AllSpecs(bulk))] + [] == [Batch(AllSpecs(bulk))];
    }
  }

  lemma {:induction false} HonestPropagate(bulk: Bulk)
    requires AllHonest(bulk)
    ensures AllPropagate(bulk)
  {
    forall i, k | 0 <= i < |bulk.builders| && 0 <= k < |bulk.builders[i].hooks|
      ensures Propagates(bulk.builders[i].hooks[k])
    {
      assert Honest(bulk.builders[i].hooks[k]);
    }
  }

  /**
   All or nothing: Save succeeds if and only if every builder is savable and the one batch succeeds;
   then all builders are done, in reverse order, and otherwise none is.
   */
  lemma {:induction false} AllOrNothing(bulk: Bulk)
    requires AllHonest(bulk) && bulk.builders != []
    ensures AllOrNone(bulk, Saved(bulk).0, Saved(bulk).1)
  {
    if bulk.err.Some? {
      return;
    }
    HonestPropagate(bulk);
    var m := SaveMilestones(bulk);
    if AllSavable(bulk) && bulk.driver(AllSpecs(bulk)).Success? {
      assert Prepared(bulk).specs[..0] + AllSpecs(bulk) == AllSpecs(bulk);
      HonestSuccess(bulk, Prepared(bulk), 0, 0);
    }
    FromMilestones(bulk, Saved(bulk).0, Saved(bulk).1, m);
  }
}
