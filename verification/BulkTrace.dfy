/** What every run of AccountCreateBulk.Save does, and in which order. */
module BulkTrace {
  import opened Options
  import opened AccountCreate
  import opened BulkCreate

  // ----- nesting -----------------------------------------------------------------------------------------------

  ghost predicate OnBuilder(stack: seq<Frame>, i: nat) {
    if i == 0 then stack == [] else stack != [] && stack[|stack| - 1] == CoreFrame(i - 1)
  }

  /** The one place where a call may be made: hooks in order, the innermost function after the last hook. */
  ghost predicate Follows(bulk: Bulk, stack: seq<Frame>, f: Frame) {
    && f.builder < |bulk.builders|
    && var hooks := bulk.builders[f.builder].hooks;
       var depth := if f.HookFrame? then f.hook else |hooks|;
       && depth <= |hooks| && (f.HookFrame? ==> depth < |hooks|)
       && (if depth == 0 then OnBuilder(stack, f.builder)
           else stack != [] && stack[|stack| - 1] == HookFrame(f.builder, depth - 1))
  }

  /** A call stack automaton: an event is accepted only where it belongs. */
  ghost function Stack(bulk: Bulk, trace: seq<Event>): Option<seq<Frame>> {
    if trace == [] then Some([])
    else
      var before := Stack(bulk, trace[..|trace| - 1]);
      if before.None? then None else Next(bulk, before.value, trace[|trace| - 1])
  }

  function Last(bulk: Bulk): nat {
    if bulk.builders == [] then 0 else |bulk.builders| - 1
  }

  ghost function Next(bulk: Bulk, stack: seq<Frame>, e: Event): Option<seq<Frame>> {
    match e
    case Open(f) => if Follows(bulk, stack, f) then Some(stack + [f]) else None
    case Close(f) => if stack != [] && stack[|stack| - 1] == f then Some(stack[..|stack| - 1]) else None
    case Built(i) => if stack != [] && stack[|stack| - 1] == CoreFrame(i) then Some(stack) else None
    case Done(i) => if stack != [] && stack[|stack| - 1] == CoreFrame(i) then Some(stack) else None
    case Batch(_) => if stack != [] && stack[|stack| - 1] == CoreFrame(Last(bulk)) then Some(stack) else None
  }

  lemma {:induction false} StackLog(bulk: Bulk, s: State, e: Event)
    requires Stack(bulk, s.trace).Some?
    ensures Stack(bulk, Log(s, e).trace) == Next(bulk, Stack(bulk, s.trace).value, e)
  {
    assert (s.trace + [e])[..|s.trace|] == s.trace;
  }

  // ----- one step of the chain ---------------------------------------------------------------------------------

  /** The first call that hook k of builder i makes. */
  function FirstCall(bulk: Bulk, s: State, i: nat, k: nat, m: nat): (r: (Outcome, State))
    requires Callable(bulk, s, i, k, m) && k < |bulk.builders[i].hooks|
    ensures Fits(bulk, r.1) && Grows(InHook(bulk, s, i, k, m), r.1)
  {
    Mutate(bulk, InHook(bulk, s, i, k, m), i, k + 1, Handed(bulk, s, i, k, m))
  }

  /** All its calls: the answers, and the state after them. */
  function Calls(bulk: Bulk, s: State, i: nat, k: nat, m: nat): (r: (seq<Outcome>, State))
    requires Callable(bulk, s, i, k, m) && k < |bulk.builders[i].hooks|
    ensures Fits(bulk, r.1) && Grows(InHook(bulk, s, i, k, m), r.1)
  {
    var first := FirstCall(bulk, s, i, k, m);
    Repeat(bulk, first.1, i, k, Handed(bulk, s, i, k, m), [first.0])
  }

  lemma {:induction false} MutateHook(bulk: Bulk, s: State, i: nat, k: nat, m: nat)
    requires Callable(bulk, s, i, k, m) && k < |bulk.builders[i].hooks|
    ensures var hook, f, calls := bulk.builders[i].hooks[k], HookFrame(i, k), Calls(bulk, s, i, k, m);
            Mutate(bulk, s, i, k, m)
            == if hook.answer.Some? then (hook.answer.value, Log(Log(s, Open(f)), Close(f)))
               else (hook.after(calls.0), Log(calls.1, Close(f)))
  {
  }

  lemma {:induction false} MutateCore(bulk: Bulk, s: State, i: nat, m: nat)
    requires Callable(bulk, s, i, 0, m)
    ensures Mutate(bulk, s, i, |bulk.builders[i].hooks|, m)
         == var (o, t) := Core(bulk, Log(s, Open(CoreFrame(i))), i, m); (o, Log(t, Close(CoreFrame(i))))
  {
  }

  lemma {:induction false} RepeatStep(bulk: Bulk, s: State, i: nat, k: nat, h: nat, os: seq<Outcome>)
    requires Callable(bulk, s, i, k, h) && k < |bulk.builders[i].hooks|
    ensures var hook := bulk.builders[i].hooks[k];
            Repeat(bulk, s, i, k, h, os)
            == if |os| <= hook.retries && hook.again(os) then
                 var (o, t) := Mutate(bulk, s, i, k + 1, h); Repeat(bulk, t, i, k, h, os + [o])
               else (os, s)
  {
  }

  lemma {:induction false} CoreIs(bulk: Bulk, s: State, i: nat, m: nat)
    requires Callable(bulk, s, i, 0, m)
    ensures var err := CheckError(bulk.config, s.objects[i][s.own[i]], CHECKS);
            Core(bulk, s, i, m)
            == if err.Some? then (Failure(err.value), s)
               else var (o, t) := Rest(bulk, AfterBuilt(bulk, s, i, m), i);
                    if o.Failure? then (o, t) else (Success, AfterDone(bulk, t, i, m))
  {
  }

  // ----- nesting of the calls ----------------------------------------------------------------------------------

  lemma {:induction false} OpenClose(bulk: Bulk, s: State, t: State, f: Frame, stack: seq<Frame>)
    requires Stack(bulk, s.trace) == Some(stack) && Follows(bulk, stack, f)
    ensures Stack(bulk, Log(s, Open(f)).trace) == Some(stack + [f])
    ensures Stack(bulk, t.trace) == Some(stack + [f]) ==> Stack(bulk, Log(t, Close(f)).trace) == Some(stack)
  {
    StackLog(bulk, s, Open(f));
    assert (stack + [f])[..|stack|] == stack;
    if Stack(bulk, t.trace) == Some(stack + [f]) {
      StackLog(bulk, t, Close(f));
    }
  }

  lemma {:induction false} NextFollows(bulk: Bulk, stack: seq<Frame>, i: nat, k: nat)
    requires i < |bulk.builders| && k < |bulk.builders[i].hooks|
    ensures Follows(bulk, stack + [HookFrame(i, k)], Entry(bulk, i, k + 1))
  {
  }

  /** The first frame of builder i from hook k on. */
  function Entry(bulk: Bulk, i: nat, k: nat): Frame
    requires i < |bulk.builders|
  {
    if k < |bulk.builders[i].hooks| then HookFrame(i, k) else CoreFrame(i)
  }

  /** Whatever the hooks do, a mutator leaves the call stack as it found it. */
  lemma {:induction false} MutateNests(bulk: Bulk, s: State, i: nat, k: nat, m: nat, stack: seq<Frame>)
    requires Callable(bulk, s, i, k, m)
    requires Stack(bulk, s.trace) == Some(stack) && Follows(bulk, stack, Entry(bulk, i, k))
    ensures Stack(bulk, Mutate(bulk, s, i, k, m).1.trace) == Some(stack)
    decreases |bulk.builders| - i, |bulk.builders[i].hooks| - k, Rank(bulk, i, k), 3
  {
    if k == |bulk.builders[i].hooks| {
      var inside := Log(s, Open(CoreFrame(i)));
      MutateCore(bulk, s, i, m);
      OpenClose(bulk, s, Core(bulk, inside, i, m).1, CoreFrame(i), stack);
      CoreNests(bulk, inside, i, m, stack + [CoreFrame(i)]);
    } else {
      HookNests(bulk, s, i, k, m, stack);
    }
  }

  lemma {:induction false} HookNests(bulk: Bulk, s: State, i: nat, k: nat, m: nat, stack: seq<Frame>)
    requires Callable(bulk, s, i, k, m) && k < |bulk.builders[i].hooks|
    requires Stack(bulk, s.trace) == Some(stack) && Follows(bulk, stack, HookFrame(i, k))
    ensures Stack(bulk, Mutate(bulk, s, i, k, m).1.trace) == Some(stack)
    decreases |bulk.builders| - i, |bulk.builders[i].hooks| - k, Rank(bulk, i, k), 2
  {
    var f := HookFrame(i, k);
    MutateHook(bulk, s, i, k, m);
    OpenClose(bulk, s, Log(s, Open(f)), f, stack);
    CallsNest(bulk, s, i, k, m, stack);
    OpenClose(bulk, s, Calls(bulk, s, i, k, m).1, f, stack);
  }

  lemma {:induction false} HookOpens(bulk: Bulk, s: State, i: nat, k: nat, m: nat, stack: seq<Frame>)
    requires Callable(bulk, s, i, k, m) && k < |bulk.builders[i].hooks|
    requires Stack(bulk, s.trace) == Some(stack) && Follows(bulk, stack, HookFrame(i, k))
    ensures Callable(bulk, InHook(bulk, s, i, k, m), i, k + 1, Handed(bulk, s, i, k, m))
    ensures Stack(bulk, InHook(bulk, s, i, k, m).trace) == Some(stack + [HookFrame(i, k)])
    ensures Follows(bulk, stack + [HookFrame(i, k)], Entry(bulk, i, k + 1))
  {
    assert InHook(bulk, s, i, k, m).trace == Log(s, Open(HookFrame(i, k))).trace;
    OpenClose(bulk, s, s, HookFrame(i, k), stack);
    NextFollows(bulk, stack, i, k);
  }

  lemma {:induction false} FirstCallable(bulk: Bulk, s: State, i: nat, k: nat, m: nat)
    requires Callable(bulk, s, i, k, m) && k < |bulk.builders[i].hooks|
    ensures Callable(bulk, FirstCall(bulk, s, i, k, m).1, i, k, Handed(bulk, s, i, k, m))
  {
  }

  lemma {:induction false} CallsNest(bulk: Bulk, s: State, i: nat, k: nat, m: nat, stack: seq<Frame>)
    requires Callable(bulk, s, i, k, m) && k < |bulk.builders[i].hooks|
    requires Stack(bulk, s.trace) == Some(stack) && Follows(bulk, stack, HookFrame(i, k))
    ensures Stack(bulk, Calls(bulk, s, i, k, m).1.trace) == Some(stack + [HookFrame(i, k)])
    decreases |bulk.builders| - i, |bulk.builders[i].hooks| - k, Rank(bulk, i, k), 0
  {
    var h, inside, first := Handed(bulk, s, i, k, m), InHook(bulk, s, i, k, m), FirstCall(bulk, s, i, k, m);
    HookOpens(bulk, s, i, k, m, stack);
    FirstCallable(bulk, s, i, k, m);
    MutateNests(bulk, inside, i, k + 1, h, stack + [HookFrame(i, k)]);
    RepeatNests(bulk, first.1, i, k, h, [first.0], stack);
  }

  lemma {:induction false} RepeatNests(bulk: Bulk, s: State, i: nat, k: nat, h: nat, os: seq<Outcome>,
                                       stack: seq<Frame>)
    requires Callable(bulk, s, i, k, h) && k < |bulk.builders[i].hooks|
    requires Stack(bulk, s.trace) == Some(stack + [HookFrame(i, k)])
    ensures Stack(bulk, Repeat(bulk, s, i, k, h, os).1.trace) == Some(stack + [HookFrame(i, k)])
    decreases |bulk.builders| - i, |bulk.builders[i].hooks| - k, bulk.builders[i].hooks[k].retries + 1 - |os|, 0
  {
    var hook := bulk.builders[i].hooks[k];
    RepeatStep(bulk, s, i, k, h, os);
    if |os| <= hook.retries && hook.again(os) {
      NextFollows(bulk, stack, i, k);
      MutateNests(bulk, s, i, k + 1, h, stack + [HookFrame(i, k)]);
      var r := Mutate(bulk, s, i, k + 1, h);
      RepeatNests(bulk, r.1, i, k, h, os + [r.0], stack);
    }
  }

  /** What happens on top of the innermost function of builder i leaves the stack as it is. */
  lemma {:induction false} NoteNests(bulk: Bulk, s: State, i: nat, m: nat, stack: seq<Frame>)
    requires Callable(bulk, s, i, 0, m)
    requires Stack(bulk, s.trace) == Some(stack) && stack != [] && stack[|stack| - 1] == CoreFrame(i)
    ensures Stack(bulk, AfterBuilt(bulk, s, i, m).trace) == Some(stack)
    ensures Stack(bulk, AfterDone(bulk, s, i, m).trace) == Some(stack)
    ensures i + 1 == |bulk.builders| ==> Stack(bulk, Log(s, Batch(s.specs)).trace) == Some(stack)
  {
    StackLog(bulk, s, Built(i));
    StackLog(bulk, s, Done(i));
    StackLog(bulk, s, Batch(s.specs));
  }

  lemma {:induction false} RestNests(bulk: Bulk, s: State, i: nat, stack: seq<Frame>)
    requires Fits(bulk, s) && i < |bulk.builders|
    requires Stack(bulk, s.trace) == Some(stack) && stack != [] && stack[|stack| - 1] == CoreFrame(i)
    ensures Stack(bulk, Rest(bulk, s, i).1.trace) == Some(stack)
    decreases |bulk.builders| - i, 0, 0, 0
  {
    if i + 1 < |bulk.builders| {
      assert Follows(bulk, stack, Entry(bulk, i + 1, 0));
      MutateNests(bulk, s, i + 1, 0, s.own[i + 1], stack);
    } else {
      NoteNests(bulk, s, i, s.own[i], stack);
    }
  }

  lemma {:induction false} CoreNests(bulk: Bulk, s: State, i: nat, m: nat, stack: seq<Frame>)
    requires Callable(bulk, s, i, 0, m)
    requires Stack(bulk, s.trace) == Some(stack) && stack != [] && stack[|stack| - 1] == CoreFrame(i)
    ensures Stack(bulk, Core(bulk, s, i, m).1.trace) == Some(stack)
    decreases |bulk.builders| - i, 0, 0, 1
  {
    CoreIs(bulk, s, i, m);
    var built := AfterBuilt(bulk, s, i, m);
    NoteNests(bulk, s, i, m, stack);
    RestNests(bulk, built, i, stack);
    NoteNests(bulk, Rest(bulk, built, i).1, i, m, stack);
  }

  /**
   Every run of Save is well nested, whatever the hooks hand on and however often they call, and ends with an
   empty stack.
   */
  lemma {:induction false} SaveNests(bulk: Bulk)
    ensures Stack(bulk, Saved(bulk).1.trace) == Some([])
  {
    if bulk.err.None? && bulk.builders != [] {
      MutateNests(bulk, Prepared(bulk), 0, 0, 0, []);
    }
  }

  /** Each frame of the stack stands where it may be opened. */
  ghost predicate Chain(bulk: Bulk, stack: seq<Frame>) {
    forall p | 0 <= p < |stack| :: Follows(bulk, stack[..p], stack[p])
  }

  lemma {:induction false} StackIsChain(bulk: Bulk, trace: seq<Event>)
    requires Stack(bulk, trace).Some?
    ensures Chain(bulk, Stack(bulk, trace).value)
  {
    if trace != [] {
      var init, e := trace[..|trace| - 1], trace[|trace| - 1];
      StackIsChain(bulk, init);
      var before, after := Stack(bulk, init).value, Stack(bulk, trace).value;
      forall p | 0 <= p < |after| ensures Follows(bulk, after[..p], after[p]) {
        if p < |before| {
          assert after[..p] == before[..p];
        } else {
          assert after[..p] == before;
        }
      }
    }
  }

  /** The calls that must be open when a call is made: all hooks of the builders before, and its own before it. */
  ghost predicate Encloses(bulk: Bulk, outer: Frame, inner: Frame) {
    && outer.builder < |bulk.builders|
    && (outer.HookFrame? ==> outer.hook < |bulk.builders[outer.builder].hooks|)
    && (outer.builder < inner.builder
        || (outer.builder == inner.builder && outer.HookFrame? && (inner.HookFrame? ==> outer.hook < inner.hook)))
  }

  lemma {:induction false} ChainEncloses(bulk: Bulk, stack: seq<Frame>, outer: Frame)
    requires Chain(bulk, stack) && stack != [] && Encloses(bulk, outer, stack[|stack| - 1])
    ensures outer in stack[..|stack| - 1]
  {
    var n := |stack| - 1;
    var top, below := stack[n], stack[..n];
    assert Follows(bulk, stack[..n], stack[n]);
    assert below != [];
    var under := below[n - 1];
    if under != outer {
      assert Chain(bulk, below) by {
        forall p | 0 <= p < n ensures Follows(bulk, below[..p], below[p]) {
          assert below[..p] == stack[..p] && below[p] == stack[p];
        }
      }
      assert Encloses(bulk, outer, under);
      ChainEncloses(bulk, below, outer);
      assert outer in below;
    }
  }

  lemma {:induction false} StackPrefix(bulk: Bulk, trace: seq<Event>, n: nat)
    requires Stack(bulk, trace).Some? && n <= |trace|
    ensures Stack(bulk, trace[..n]).Some?
  {
    if n < |trace| {
      StackPrefix(bulk, trace[..|trace| - 1], n);
      assert trace[..|trace| - 1][..n] == trace[..n];
    } else {
      assert trace[..n] == trace;
    }
  }

  /** What is open when an event of an accepted trace happens. */
  lemma {:induction false} OpenAt(bulk: Bulk, trace: seq<Event>, p: nat, outer: Frame)
    requires p < |trace| && Stack(bulk, trace[..p + 1]).Some? && outer.HookFrame?
    ensures var e, open := trace[p], Stack(bulk, trace[..p + 1]).value;
            && (e.Batch? && Encloses(bulk, outer, CoreFrame(Last(bulk))) ==> outer in open)
            && (e.Done? && Encloses(bulk, outer, CoreFrame(e.builder)) ==> outer in open)
            && (e.Done? ==> open != [] && open[|open| - 1] == CoreFrame(e.builder))
  {
    var e, open := trace[p], Stack(bulk, trace[..p + 1]).value;
    assert trace[..p + 1][..p] == trace[..p];
    StackIsChain(bulk, trace[..p + 1]);
    if e.Batch? && Encloses(bulk, outer, CoreFrame(Last(bulk))) {
      ChainEncloses(bulk, open, outer);
    }
    if e.Done? && Encloses(bulk, outer, CoreFrame(e.builder)) {
      ChainEncloses(bulk, open, outer);
    }
  }

  /**
   Inside one another: whenever a batch is sent every hook of every builder is open, and whenever
   builder i is marked done every hook of the builders up to i is open and those after it are closed.
   */
  lemma {:induction false} HooksEnclose(bulk: Bulk, p: nat, outer: Frame)
    requires p < |Saved(bulk).1.trace| && outer.HookFrame?
    ensures Stack(bulk, Saved(bulk).1.trace[..p + 1]).Some?
    ensures var e, open := Saved(bulk).1.trace[p], Stack(bulk, Saved(bulk).1.trace[..p + 1]).value;
            && (e.Batch? && Encloses(bulk, outer, CoreFrame(Last(bulk))) ==> outer in open)
            && (e.Done? && Encloses(bulk, outer, CoreFrame(e.builder)) ==> outer in open)
            && (e.Done? ==> open != [] && open[|open| - 1] == CoreFrame(e.builder))
  {
    SaveNests(bulk);
    StackPrefix(bulk, Saved(bulk).1.trace, p + 1);
    OpenAt(bulk, Saved(bulk).1.trace, p, outer);
  }
}
