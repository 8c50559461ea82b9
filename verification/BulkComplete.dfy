/** The hooks with which bulk create builds complete specs only. */
module BulkComplete {
  import opened Options
  import opened AccountCreate
  import opened BulkCreate
  import opened BulkTrace

  ghost predicate Complete(m: Mutation) {
    forall field | field in REQUIRED :: field in m
  }

  // ----- the hooks that build complete specs only ----------------------------------------------------------------

  /** The hook hands on the mutation it was given whenever that one is complete. */
  ghost predicate Straight(h: Hook) {
    h.answer.Some? || forall m :: Complete(h.edit(m)) ==> h.hand(h.edit(m)) == None
  }

  ghost predicate AllStraight(bulk: Bulk) {
    forall i, k | 0 <= i < |bulk.builders| && 0 <= k < |bulk.builders[i].hooks| :: Straight(bulk.builders[i].hooks[k])
  }

  ghost predicate CompleteSpecs(s: State) {
    forall j | 0 <= j < |s.specs| && s.specs[j].Some? :: Complete(s.specs[j].value)
  }

  /** The mutation handed on is the one that is checked, or the check will fail. */
  ghost predicate Sound(bulk: Bulk, s: State, i: nat, m: nat)
    requires Callable(bulk, s, i, 0, m)
  {
    m == s.own[i] || !Complete(s.objects[i][s.own[i]])
  }

  /**
   What a run from a sound call leaves: complete specs, the same own mutations, and the checked one untouched
   if it is another.
   */
  ghost predicate Keeps(bulk: Bulk, s: State, i: nat, m: nat, t: State)
    requires Callable(bulk, s, i, 0, m) && Fits(bulk, t)
  {
    && CompleteSpecs(t) && t.own == s.own
    && (m != s.own[i] ==> t.objects[i][s.own[i]] == s.objects[i][s.own[i]])
  }

  lemma {:induction false} InHookSound(bulk: Bulk, s: State, i: nat, k: nat, m: nat)
    requires Callable(bulk, s, i, k, m) && k < |bulk.builders[i].hooks| && Sound(bulk, s, i, m)
    requires bulk.builders[i].hooks[k].answer.None? && Straight(bulk.builders[i].hooks[k])
    ensures var t, h := InHook(bulk, s, i, k, m), Handed(bulk, s, i, k, m);
            && Sound(bulk, t, i, h) && t.own == s.own && t.specs == s.specs
            && (m != s.own[i] ==> h != s.own[i] && t.objects[i][s.own[i]] == s.objects[i][s.own[i]])
  {
  }

  lemma {:induction false} MutateKeeps(bulk: Bulk, s: State, i: nat, k: nat, m: nat)
    requires Callable(bulk, s, i, k, m) && AllStraight(bulk) && CompleteSpecs(s) && Sound(bulk, s, i, m)
    ensures Keeps(bulk, s, i, m, Mutate(bulk, s, i, k, m).1)
    decreases |bulk.builders| - i, |bulk.builders[i].hooks| - k, Rank(bulk, i, k)
  {
    if k == |bulk.builders[i].hooks| {
      MutateCore(bulk, s, i, m);
      CoreKeeps(bulk, Log(s, Open(CoreFrame(i))), i, m);
    } else {
      assert Straight(bulk.builders[i].hooks[k]);
      MutateHook(bulk, s, i, k, m);
      if bulk.builders[i].hooks[k].answer.None? {
        InHookSound(bulk, s, i, k, m);
        var h, inside, first := Handed(bulk, s, i, k, m), InHook(bulk, s, i, k, m), FirstCall(bulk, s, i, k, m);
        MutateKeeps(bulk, inside, i, k + 1, h);
        RepeatKeeps(bulk, first.1, i, k, h, [first.0]);
      }
    }
  }

  lemma {:induction false} RepeatKeeps(bulk: Bulk, s: State, i: nat, k: nat, h: nat, os: seq<Outcome>)
    requires Callable(bulk, s, i, k, h) && k < |bulk.builders[i].hooks|
    requires AllStraight(bulk) && CompleteSpecs(s) && Sound(bulk, s, i, h)
    ensures Keeps(bulk, s, i, h, Repeat(bulk, s, i, k, h, os).1)
    decreases |bulk.builders| - i, |bulk.builders[i].hooks| - k, bulk.builders[i].hooks[k].retries + 1 - |os|
  {
    var hook := bulk.builders[i].hooks[k];
    RepeatStep(bulk, s, i, k, h, os);
    if |os| <= hook.retries && hook.again(os) {
      MutateKeeps(bulk, s, i, k + 1, h);
      var r := Mutate(bulk, s, i, k + 1, h);
      RepeatKeeps(bulk, r.1, i, k, h, os + [r.0]);
    }
  }

  lemma {:induction false} CoreKeeps(bulk: Bulk, s: State, i: nat, m: nat)
    requires Callable(bulk, s, i, 0, m) && AllStraight(bulk) && CompleteSpecs(s) && Sound(bulk, s, i, m)
    ensures Keeps(bulk, s, i, m, Core(bulk, s, i, m).1)
    decreases |bulk.builders| - i, 0, 0
  {
    CoreIs(bulk, s, i, m);
    CheckExact(bulk.config, s.objects[i][s.own[i]]);
    if Savable(bulk.config, s.objects[i][s.own[i]]) {
      var built := AfterBuilt(bulk, s, i, m);
      assert CompleteSpecs(built) && built.own == s.own;
      if i + 1 < |bulk.builders| {
        MutateKeeps(bulk, built, i + 1, 0, built.own[i + 1]);
      }
    }
  }

  /** Hooks that hand on complete mutations as they are never let an incomplete spec be built. */
  lemma {:induction false} StraightSuffices(bulk: Bulk)
    requires AllStraight(bulk)
    ensures CompleteSpecs(Saved(bulk).1)
  {
    if bulk.err.None? && bulk.builders != [] {
      MutateKeeps(bulk, Prepared(bulk), 0, 0, 0);
    }
  }
}
