/** AccountCreateBulk.Save: n mutators that call each other through hooks and fire a batch at the end. */
module BulkCreate {
  import opened Options
  import opened AccountCreate

  datatype Outcome = Success | Failure(error: Error)

  /**
   A hook around a mutator.  It may answer at once.  Otherwise it may change the mutation it was
   given, may hand on another mutation in its place, and calls the next mutator; it calls again, up
   to `retries` more times, as long as `again` wants to after the answers so far, and answers with a
   function of all of them.
   */
  datatype Hook = Hook(
    answer: Option<Outcome>,
    edit: Mutation -> Mutation,
    hand: Mutation -> Option<Mutation>,
    retries: nat,
    again: seq<Outcome> -> bool,
    after: seq<Outcome> -> Outcome)

  datatype Builder = Builder(mutation: Mutation, hooks: seq<Hook>)

  /** A call on the stack: hook k of builder i, or the innermost function of builder i. */
  datatype Frame = HookFrame(builder: nat, hook: nat) | CoreFrame(builder: nat)

  datatype Event =
    | Open(frame: Frame)
    | Close(frame: Frame)
    | Built(builder: nat)
    | Batch(specs: seq<Option<Mutation>>)
    | Done(builder: nat)

  /**
   The variables of Save.  `objects[i]` are the mutation objects of builder i, `own[i]` is the one
   that builder.mutation refers to, and `done[i]` those that are marked done.
   */
  datatype State = State(
    objects: seq<seq<Mutation>>,
    own: seq<nat>,
    specs: seq<Option<Mutation>>,
    done: seq<set<nat>>,
    trace: seq<Event>)

  /** The bulk builder: an error of its construction, the builders, the package variables and BatchCreate. */
  datatype Bulk = Bulk(err: Option<Error>, builders: seq<Builder>, config: Config,
    driver: seq<Option<Mutation>> -> Outcome)

  predicate Fits(bulk: Bulk, s: State) {
    var n := |bulk.builders|;
    && |s.objects| == n && |s.own| == n && |s.specs| == n && |s.done| == n
    && forall i | 0 <= i < n :: s.own[i] < |s.objects[i]|
  }

  /** Mutation objects are never taken away. */
  predicate Grows(s: State, t: State) {
    |s.objects| == |t.objects| && forall i | 0 <= i < |s.objects| :: |s.objects[i]| <= |t.objects[i]|
  }

  predicate Callable(bulk: Bulk, s: State, i: nat, k: nat, m: nat) {
    Fits(bulk, s) && i < |bulk.builders| && k <= |bulk.builders[i].hooks| && m < |s.objects[i]|
  }

  function Log(s: State, e: Event): State { s.(trace := s.trace + [e]) }

  // ----- one hook ----------------------------------------------------------------------------------------------

  /** The contents of the received mutation after the hook's edit. */
  function EditedBy(bulk: Bulk, s: State, i: nat, k: nat, m: nat): Mutation
    requires Callable(bulk, s, i, k, m) && k < |bulk.builders[i].hooks|
  {
    bulk.builders[i].hooks[k].edit(s.objects[i][m])
  }

  /** The state in which hook k of builder i makes its first call. */
  function InHook(bulk: Bulk, s: State, i: nat, k: nat, m: nat): (t: State)
    requires Callable(bulk, s, i, k, m) && k < |bulk.builders[i].hooks|
    ensures Fits(bulk, t) && Grows(s, t)
  {
    var edited := EditedBy(bulk, s, i, k, m);
    var other := bulk.builders[i].hooks[k].hand(edited);
    var objects := s.objects[i][m := edited] + if other.Some? then [other.value] else [];
    Log(s, Open(HookFrame(i, k))).(objects := s.objects[i := objects])
  }

  /** The mutation that hook k of builder i hands on. */
  function Handed(bulk: Bulk, s: State, i: nat, k: nat, m: nat): (h: nat)
    requires Callable(bulk, s, i, k, m) && k < |bulk.builders[i].hooks|
    ensures h < |InHook(bulk, s, i, k, m).objects[i]|
  {
    if bulk.builders[i].hooks[k].hand(EditedBy(bulk, s, i, k, m)).Some? then |s.objects[i]| else m
  }

  // ----- the chain ---------------------------------------------------------------------------------------------

  function Rank(bulk: Bulk, i: nat, k: nat): nat
    requires i < |bulk.builders| && k <= |bulk.builders[i].hooks|
  {
    if k < |bulk.builders[i].hooks| then bulk.builders[i].hooks[k].retries + 2 else 1
  }

  /** Builder i from its hook k inwards, called with mutation object m. */
  function Mutate(bulk: Bulk, s: State, i: nat, k: nat, m: nat): (r: (Outcome, State))
    requires Callable(bulk, s, i, k, m)
    ensures Fits(bulk, r.1) && Grows(s, r.1)
    decreases |bulk.builders| - i, |bulk.builders[i].hooks| - k, Rank(bulk, i, k)
  {
    var hooks := bulk.builders[i].hooks;
    if k == |hooks| then
      var (o, t) := Core(bulk, Log(s, Open(CoreFrame(i))), i, m);
      (o, Log(t, Close(CoreFrame(i))))
    else if hooks[k].answer.Some? then
      (hooks[k].answer.value, Log(Log(s, Open(HookFrame(i, k))), Close(HookFrame(i, k))))
    else
      var h := Handed(bulk, s, i, k, m);
      var (o, t) := Mutate(bulk, InHook(bulk, s, i, k, m), i, k + 1, h);
      var (os, u) := Repeat(bulk, t, i, k, h, [o]);
      (hooks[k].after(os), Log(u, Close(HookFrame(i, k))))
  }

  /** The further calls of hook k after the answers so far. */
  function Repeat(bulk: Bulk, s: State, i: nat, k: nat, h: nat, os: seq<Outcome>): (r: (seq<Outcome>, State))
    requires Callable(bulk, s, i, k, h) && k < |bulk.builders[i].hooks|
    ensures Fits(bulk, r.1) && Grows(s, r.1)
    decreases |bulk.builders| - i, |bulk.builders[i].hooks| - k, bulk.builders[i].hooks[k].retries + 1 - |os|
  {
    var hook := bulk.builders[i].hooks[k];
    if |os| <= hook.retries && hook.again(os) then
      var (o, t) := Mutate(bulk, s, i, k + 1, h);
      Repeat(bulk, t, i, k, h, os + [o])
    else (os, s)
  }

  /**
   The innermost function of builder i: it checks the builder's own mutation, makes the mutation it
   was called with the builder's own, builds the spec from that, and goes on to the next builder or to
   the batch.
   */
  function Core(bulk: Bulk, s: State, i: nat, m: nat): (r: (Outcome, State))
    requires Callable(bulk, s, i, 0, m)
    ensures Fits(bulk, r.1) && Grows(s, r.1)
    decreases |bulk.builders| - i, 0, 0
  {
    var err := CheckError(bulk.config, s.objects[i][s.own[i]], CHECKS);
    if err.Some? then (Failure(err.value), s)
    else
      var (o, t) := Rest(bulk, AfterBuilt(bulk, s, i, m), i);
      if o.Failure? then (o, t) else (Success, AfterDone(bulk, t, i, m))
  }

  /** The state after the mutation is adopted and its spec is built. */
  function AfterBuilt(bulk: Bulk, s: State, i: nat, m: nat): (t: State)
    requires Callable(bulk, s, i, 0, m)
    ensures Fits(bulk, t) && Grows(s, t)
  {
    Log(s.(own := s.own[i := m], specs := s.specs[i := Some(s.objects[i][m])]), Built(i))
  }

  function AfterDone(bulk: Bulk, s: State, i: nat, m: nat): (t: State)
    requires Fits(bulk, s) && i < |bulk.builders|
    ensures Fits(bulk, t) && Grows(s, t)
  {
    Log(s.(done := s.done[i := s.done[i] + {m}]), Done(i))
  }

  /** The next builder with its own mutation, or the batch. */
  function Rest(bulk: Bulk, s: State, i: nat): (r: (Outcome, State))
    requires Fits(bulk, s) && i < |bulk.builders|
    ensures Fits(bulk, r.1) && Grows(s, r.1)
    decreases |bulk.builders| - i - 1, if i + 1 < |bulk.builders| then |bulk.builders[i + 1].hooks| + 1 else 0
  {
    if i + 1 < |bulk.builders| then Mutate(bulk, s, i + 1, 0, s.own[i + 1])
    else (bulk.driver(s.specs), Log(s, Batch(s.specs)))
  }

  function Initial(bulk: Bulk): (s: State)
    ensures Fits(bulk, s)
  {
    var n := |bulk.builders|;
    State(seq(n, i requires 0 <= i < n => [bulk.builders[i].mutation]), seq(n, i => 0), seq(n, i => None),
      seq(n, i => {}), [])
  }

  function Prepared(bulk: Bulk): (s: State)
    ensures Fits(bulk, s)
  {
    var n := |bulk.builders|;
    Initial(bulk).(objects :=
      seq(n, i requires 0 <= i < n => [Defaulted(bulk.config, bulk.builders[i].mutation, DEFAULTED)]))
  }

  function Saved(bulk: Bulk): (r: (Outcome, State))
    ensures Fits(bulk, r.1)
  {
    if bulk.err.Some? then (Failure(bulk.err.value), Initial(bulk))
    else if bulk.builders == [] then (Success, Prepared(bulk))
    else Mutate(bulk, Prepared(bulk), 0, 0, 0)
  }

  /** Save, on the variables of its closures. */
  class Saving {
    const bulk: Bulk
    var objects: seq<seq<Mutation>>
    var own: seq<nat>
    var specs: seq<Option<Mutation>>
    var done: seq<set<nat>>
    var trace: seq<Event>

    ghost function View(): State
      reads this
    {
      State(objects, own, specs, done, trace)
    }

    constructor (bulk: Bulk)
      ensures this.bulk == bulk && View() == Initial(bulk)
    {
      var n := |bulk.builders|;
      this.bulk := bulk;
      objects := seq(n, i requires 0 <= i < n => [bulk.builders[i].mutation]);
      own, specs, done := seq(n, i => 0), seq(n, i => None), seq(n, i => {});
      trace := [];
    }

    /** The first part of a hook: edit the mutation, choose what to hand on. */
    method Enter(i: nat, k: nat, m: nat) returns (h: nat)
      requires Callable(bulk, View(), i, k, m) && k < |bulk.builders[i].hooks|
      modifies this
      ensures View() == InHook(bulk, old(View()), i, k, m) && h == Handed(bulk, old(View()), i, k, m)
    {
      var hook := bulk.builders[i].hooks[k];
      trace := trace + [Open(HookFrame(i, k))];
      var edited := hook.edit(objects[i][m]);
      var other := hook.hand(edited);
      h := if other.Some? then |objects[i]| else m;
      objects := objects[i := objects[i][m := edited] + if other.Some? then [other.value] else []];
    }

    /** mutators[i], from hook k inwards. */
    method Call(i: nat, k: nat, m: nat) returns (o: Outcome)
      requires Callable(bulk, View(), i, k, m)
      modifies this
      ensures (o, View()) == Mutate(bulk, old(View()), i, k, m)
      decreases |bulk.builders| - i, |bulk.builders[i].hooks| - k, 1
    {
      var hooks := bulk.builders[i].hooks;
      if k == |hooks| {
        trace := trace + [Open(CoreFrame(i))];
        o := Innermost(i, m);
        trace := trace + [Close(CoreFrame(i))];
      } else if hooks[k].answer.Some? {
        trace := trace + [Open(HookFrame(i, k))] + [Close(HookFrame(i, k))];
        o := hooks[k].answer.value;
      } else {
        var h := Enter(i, k, m);
        var os := CallAll(i, k, h);
        trace := trace + [Close(HookFrame(i, k))];
        o := hooks[k].after(os);
      }
    }

    /** The calls of hook k: one, and more as long as it wants to. */
    method CallAll(i: nat, k: nat, h: nat) returns (os: seq<Outcome>)
      requires Callable(bulk, View(), i, k, h) && k < |bulk.builders[i].hooks|
      modifies this
      ensures var (o, t) := Mutate(bulk, old(View()), i, k + 1, h); (os, View()) == Repeat(bulk, t, i, k, h, [o])
      decreases |bulk.builders| - i, |bulk.builders[i].hooks| - k, 0
    {
      var hook := bulk.builders[i].hooks[k];
      var o := Call(i, k + 1, h);
      os := [o];
      ghost var all := Repeat(bulk, View(), i, k, h, os);
      while |os| <= hook.retries && hook.again(os)
        invariant Callable(bulk, View(), i, k, h) && Repeat(bulk, View(), i, k, h, os) == all
        decreases hook.retries + 1 - |os|
      {
        o := Call(i, k + 1, h);
        os := os + [o];
      }
    }

    /** The MutateFunc of builder i. */
    method Innermost(i: nat, m: nat) returns (o: Outcome)
      requires Callable(bulk, View(), i, 0, m)
      modifies this
      ensures (o, View()) == Core(bulk, old(View()), i, m)
      decreases |bulk.builders| - i, 0, 0
    {
      var err := Check(bulk.config, objects[i][own[i]]);
      if err.Some? {
        return Failure(err.value);
      }
      own := own[i := m];
      specs := specs[i := Some(objects[i][m])];
      trace := trace + [Built(i)];
      if i < |bulk.builders| - 1 {
        o := Call(i + 1, 0, own[i + 1]);
      } else {
        o := bulk.driver(specs);
        trace := trace + [Batch(specs)];
      }
      if o.Failure? {
        return;
      }
      done := done[i := done[i] + {m}];
      trace := trace + [Done(i)];
    }
  }

  /** Save: the loop over the builders drops the errors of `defaults`; then the first mutator is called. */
  method Save(bulk: Bulk) returns (o: Outcome, s: Saving)
    ensures fresh(s) && (o, s.View()) == Saved(bulk)
  {
    s := new Saving(bulk);
    if bulk.err.Some? {
      return Failure(bulk.err.value), s;
    }
    for i := 0 to |bulk.builders|
      invariant s.bulk == bulk && s.View() == Initial(bulk).(objects := s.objects)
      invariant |s.objects| == |bulk.builders|
      invariant forall j | 0 <= j < i :: s.objects[j] == [Defaulted(bulk.config, bulk.builders[j].mutation, DEFAULTED)]
      invariant forall j | i <= j < |s.objects| :: s.objects[j] == [bulk.builders[j].mutation]
    {
      var m, _ := Defaults(bulk.config, s.objects[i][0]);
      s.objects := s.objects[i := [m]];
    }
    assert s.View() == Prepared(bulk);
    if |bulk.builders| > 0 {
      o := s.Call(0, 0, s.own[0]);
    } else {
      o := Success;
    }
  }
}
