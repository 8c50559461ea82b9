/**
 The mutable query builders: AccountQuery and the builders of its edges.  Selected fields, offset and
 limit live in a QueryContext object that the builder points to; slices are values.
 */
module QueryBuilder {
  import opened Options
  import opened Rows
  import opened EagerSpec

  class QueryContext {
    var fields: seq<string>
    var offset: nat
    var limit: nat

    constructor (fields: seq<string>, offset: nat, limit: nat)
      ensures this.fields == fields && this.offset == offset && this.limit == limit
    {
      this.fields, this.offset, this.limit := fields, offset, limit;
    }

    method Clone() returns (c: QueryContext)
      ensures fresh(c) && c.fields == fields && c.offset == offset && c.limit == limit
    {
      c := new QueryContext(fields, offset, limit);
    }
  }

  /** GroupQuery, ProxyQuery, UsageLogQuery and AccountGroupQuery, without edges of their own. */
  class LeafQuery {
    const ctx: QueryContext
    var predicates: seq<Pred>
    var order: Row -> int
    var modifiers: seq<string>

    function View(): Spec
      reads this, ctx
    {
      Spec(ctx.fields, predicates, order, ctx.offset, ctx.limit, modifiers)
    }

    constructor (ctx: QueryContext, predicates: seq<Pred>, order: Row -> int, modifiers: seq<string>)
      ensures this.ctx == ctx && View() == Spec(ctx.fields, predicates, order, ctx.offset, ctx.limit, modifiers)
    {
      this.ctx, this.predicates, this.order, this.modifiers := ctx, predicates, order, modifiers;
    }

    method Where(p: Pred)
      modifies this
      ensures View() == Rows.Where(old(View()), p)
    {
      predicates := predicates + [p];
    }

    /** Once fields were selected, the field is selected too. */
    method KeepField(field: string)
      modifies ctx
      ensures View() == Rows.KeepField(old(View()), field)
    {
      if |ctx.fields| > 0 && field !in ctx.fields {
        ctx.fields := ctx.fields + [field];
      }
    }

    /** The copy has a context of its own and drops the modifiers. */
    method Clone() returns (c: LeafQuery)
      ensures fresh(c) && fresh(c.ctx) && c.View() == View().(modifiers := [])
    {
      var own := ctx.Clone();
      c := new LeafQuery(own, predicates, order, []);
    }
  }

  function LeafView(q: LeafQuery?): Option<Spec>
    reads q, if q == null then {} else {q.ctx}
  {
    if q == null then None else Some(q.View())
  }

  function CloneSpec(spec: Option<Spec>): Option<Spec> {
    if spec.None? then None else Some(spec.value.(modifiers := []))
  }

  /** The tree that Clone denotes: the same query without its modifiers, at every depth. */
  function CloneOf(q: AccountQ): AccountQ {
    AccountQ(
      q.spec.(modifiers := []),
      CloneSpec(q.groups),
      CloneSpec(q.proxy),
      if q.parent.None? then None else Some(CloneOf(q.parent.value)),
      if q.children.None? then None else Some(CloneOf(q.children.value)),
      CloneSpec(q.usageLogs),
      CloneSpec(q.accountGroups))
  }

  function Bare(spec: Spec): AccountQ {
    AccountQ(spec, None, None, None, None, None, None)
  }

  /** Two edges do not share a context, nor therefore a builder. */
  ghost predicate Apart(a: LeafQuery?, b: LeafQuery?) {
    a != null && b != null ==> a.ctx != b.ctx
  }

  class AccountQuery {
    const ctx: QueryContext
    var predicates: seq<Pred>
    var order: Row -> int
    var modifiers: seq<string>
    var withGroups: LeafQuery?
    var withProxy: LeafQuery?
    var withParent: AccountQuery?
    var withChildren: AccountQuery?
    var withUsageLogs: LeafQuery?
    var withAccountGroups: LeafQuery?
    ghost var Repr: set<object>

    /** The objects of this query form a tree: no builder and no context is shared. */
    ghost predicate Tree()
      reads this, Repr
      decreases Repr
    {
      && this in Repr && ctx in Repr
      && OwnLeaf(withGroups) && OwnLeaf(withProxy) && OwnLeaf(withUsageLogs) && OwnLeaf(withAccountGroups)
      && LeavesApart()
      && OwnSub(withParent) && OwnSub(withChildren)
      && (withParent != null ==> withParent.Tree()) && (withChildren != null ==> withChildren.Tree())
      && (withParent != null && withChildren != null ==> withParent.Repr !! withChildren.Repr)
    }

    ghost predicate LeavesApart()
      reads this
    {
      && Apart(withGroups, withProxy) && Apart(withGroups, withUsageLogs) && Apart(withGroups, withAccountGroups)
      && Apart(withProxy, withUsageLogs) && Apart(withProxy, withAccountGroups)
      && Apart(withUsageLogs, withAccountGroups)
    }

    /** A leaf builder of this query, not used by a sub-query. */
    ghost predicate OwnLeaf(leaf: LeafQuery?)
      reads this, Repr
    {
      leaf != null ==>
        && leaf in Repr && leaf.ctx in Repr && leaf.ctx != ctx
        && (withParent != null && withParent in Repr ==> leaf !in withParent.Repr && leaf.ctx !in withParent.Repr)
        && (withChildren != null && withChildren in Repr ==>
              leaf !in withChildren.Repr && leaf.ctx !in withChildren.Repr)
    }

    /** A sub-query of this query, which does not use its objects. */
    ghost predicate OwnSub(sub: AccountQuery?)
      reads this, Repr
    {
      sub != null ==> sub in Repr && sub.Repr <= Repr && this !in sub.Repr && ctx !in sub.Repr
    }

    function OwnSpec(): Spec
      reads this, ctx
    {
      Spec(ctx.fields, predicates, order, ctx.offset, ctx.limit, modifiers)
    }

    /** The query this builder denotes, if its objects form a tree. */
    ghost function Denoted(): Option<AccountQ>
      reads this, ctx, Repr
      decreases Repr
    {
      if !Tree() then None
      else
        Some(AccountQ(
          OwnSpec(),
          LeafView(withGroups),
          LeafView(withProxy),
          if withParent == null then None else withParent.Denoted(),
          if withChildren == null then None else withChildren.Denoted(),
          LeafView(withUsageLogs),
          LeafView(withAccountGroups)))
    }

    ghost predicate Valid()
      reads this, ctx, Repr
    {
      Denoted().Some?
    }

    ghost function View(): AccountQ
      requires Valid()
      reads this, ctx, Repr
    {
      Denoted().value
    }

    constructor (ctx: QueryContext, predicates: seq<Pred>, order: Row -> int, modifiers: seq<string>)
      ensures this.ctx == ctx && Valid() && Repr == {this, ctx}
      ensures View() == Bare(Spec(ctx.fields, predicates, order, ctx.offset, ctx.limit, modifiers))
    {
      this.ctx, this.predicates, this.order, this.modifiers := ctx, predicates, order, modifiers;
      withGroups, withProxy, withUsageLogs, withAccountGroups := null, null, null, null;
      withParent, withChildren := null, null;
      Repr := {this, ctx};
    }

    method Where(p: Pred)
      requires Valid()
      modifies this`predicates
      ensures Valid() && View() == old(View()).(spec := Rows.Where(old(View()).spec, p))
    {
      predicates := predicates + [p];
    }

    /** Once fields were selected, the field is selected too. */
    method KeepField(field: string)
      requires Valid()
      modifies ctx`fields
      ensures Valid() && View() == old(View()).(spec := Rows.KeepField(old(View()).spec, field))
    {
      ghost var v := View();
      if |ctx.fields| > 0 && field !in ctx.fields {
        ctx.fields := ctx.fields + [field];
      }
      ContextChanged(this, v);
    }

    method Limit(limit: nat)
      requires Valid()
      modifies ctx`limit
      ensures Valid() && View() == old(View()).(spec := old(View()).spec.(limit := limit))
    {
      ghost var v := View();
      ctx.limit := limit;
      ContextChanged(this, v);
    }

    method Offset(offset: nat)
      requires Valid()
      modifies ctx`offset
      ensures Valid() && View() == old(View()).(spec := old(View()).spec.(offset := offset))
    {
      ghost var v := View();
      ctx.offset := offset;
      ContextChanged(this, v);
    }

    method Select(fields: seq<string>)
      requires Valid()
      modifies ctx`fields
      ensures Valid() && View() == old(View()).(spec := old(View()).spec.(fields := old(View()).spec.fields + fields))
    {
      ghost var v := View();
      ctx.fields := ctx.fields + fields;
      ContextChanged(this, v);
    }

    /** The order that all order terms, with the new ones, amount to. */
    method Order(order: Row -> int)
      requires Valid()
      modifies this`order
      ensures Valid() && View() == old(View()).(spec := old(View()).spec.(rank := order))
    {
      this.order := order;
    }

    /** WithGroups: the given sub-query, configured by the caller, becomes the groups edge. */
    method WithGroups(query: LeafQuery)
      requires Valid() && query !in Repr && query.ctx !in Repr
      modifies this`withGroups, this`Repr
      ensures Valid() && Repr == old(Repr) + {query, query.ctx}
      ensures View() == old(View()).(groups := Some(query.View()))
    {
      withGroups := query;
      Repr := Repr + {query, query.ctx};
    }

    method WithProxy(query: LeafQuery)
      requires Valid() && query !in Repr && query.ctx !in Repr
      modifies this`withProxy, this`Repr
      ensures Valid() && Repr == old(Repr) + {query, query.ctx}
      ensures View() == old(View()).(proxy := Some(query.View()))
    {
      withProxy := query;
      Repr := Repr + {query, query.ctx};
    }

    method WithUsageLogs(query: LeafQuery)
      requires Valid() && query !in Repr && query.ctx !in Repr
      modifies this`withUsageLogs, this`Repr
      ensures Valid() && Repr == old(Repr) + {query, query.ctx}
      ensures View() == old(View()).(usageLogs := Some(query.View()))
    {
      withUsageLogs := query;
      Repr := Repr + {query, query.ctx};
    }

    method WithAccountGroups(query: LeafQuery)
      requires Valid() && query !in Repr && query.ctx !in Repr
      modifies this`withAccountGroups, this`Repr
      ensures Valid() && Repr == old(Repr) + {query, query.ctx}
      ensures View() == old(View()).(accountGroups := Some(query.View()))
    {
      withAccountGroups := query;
      Repr := Repr + {query, query.ctx};
    }

    /** WithParent, likewise for the parent edge. */
    method WithParent(query: AccountQuery)
      requires Valid() && query.Valid() && Repr !! query.Repr
      modifies this`withParent, this`Repr
      ensures Valid() && Repr == old(Repr) + query.Repr
      ensures View() == old(View()).(parent := Some(query.View()))
    {
      withParent := query;
      Repr := Repr + query.Repr;
    }

    /** WithChildren, likewise for the children edge. */
    method WithChildren(query: AccountQuery)
      requires Valid() && query.Valid() && Repr !! query.Repr
      modifies this`withChildren, this`Repr
      ensures Valid() && Repr == old(Repr) + query.Repr
      ensures View() == old(View()).(children := Some(query.View()))
    {
      withChildren := query;
      Repr := Repr + query.Repr;
    }
  }

  ghost function SubObjects(q: AccountQuery?): set<object>
    reads q
  {
    if q == null then {} else q.Repr
  }

  ghost function LeafObjects(q: LeafQuery?): set<object> {
    if q == null then {} else {q, q.ctx}
  }

  /** The sub-query of an Account edge, requested or not. */
  ghost predicate Means(q: AccountQuery?, v: Option<AccountQ>)
    reads q, if q == null then {} else {q.ctx} + q.Repr
  {
    if q == null then v == None else v.Some? && q.Denoted() == v
  }

  ghost function SubView(q: AccountQuery?): Option<AccountQ>
    reads q, if q == null then {} else {q.ctx} + q.Repr
  {
    if q == null then None else q.Denoted()
  }

  /** What a query is made of: its edges, with objects of their own. */
  lemma {:induction false} PartsOf(q: AccountQuery, v: AccountQ)
    requires q.Denoted() == Some(v)
    ensures q.ctx in q.Repr && q.OwnSpec() == v.spec
    ensures LeafView(q.withGroups) == v.groups && LeafView(q.withProxy) == v.proxy
    ensures LeafView(q.withUsageLogs) == v.usageLogs && LeafView(q.withAccountGroups) == v.accountGroups
    ensures Means(q.withParent, v.parent) && Means(q.withChildren, v.children)
    ensures Apart(q.withGroups, q.withProxy) && Apart(q.withUsageLogs, q.withAccountGroups)
  {
  }

  /** The objects of different parts are different. */
  lemma {:induction false} SubsApart(q: AccountQuery, v: AccountQ)
    requires q.Denoted() == Some(v)
    ensures SubObjects(q.withParent) !! SubObjects(q.withChildren)
    ensures SubObjects(q.withParent) <= q.Repr && SubObjects(q.withChildren) <= q.Repr
    ensures {q, q.ctx} !! SubObjects(q.withParent) && {q, q.ctx} !! SubObjects(q.withChildren)
  {
  }

  lemma {:induction false} LeafEdgesApart(q: AccountQuery, v: AccountQ)
    requires q.Denoted() == Some(v)
    ensures FirstObjects(q) <= q.Repr && LastObjects(q) <= q.Repr && FirstObjects(q) !! LastObjects(q)
    ensures {q, q.ctx} !! FirstObjects(q) && {q, q.ctx} !! LastObjects(q)
  {
  }

  lemma {:induction false} LeavesOffSubs(q: AccountQuery, v: AccountQ)
    requires q.Denoted() == Some(v)
    ensures FirstObjects(q) !! SubObjects(q.withParent) && FirstObjects(q) !! SubObjects(q.withChildren)
    ensures LastObjects(q) !! SubObjects(q.withParent) && LastObjects(q) !! SubObjects(q.withChildren)
  {
  }

  /** The objects of the leaf edges before, and after, the Account edges. */
  ghost function FirstObjects(q: AccountQuery): set<object>
    reads q
  {
    LeafObjects(q.withGroups) + LeafObjects(q.withProxy)
  }

  ghost function LastObjects(q: AccountQuery): set<object>
    reads q
  {
    LeafObjects(q.withUsageLogs) + LeafObjects(q.withAccountGroups)
  }

  /** A query that changes in place, but not in the objects it consists of, denotes what its parts denote. */
  twostate lemma Relinked(q: AccountQuery, new u: AccountQ)
    requires old(q.Denoted()) == Some(u) && unchanged(q)
    requires SubObjects(q.withParent) == old(SubObjects(q.withParent))
    requires q.withParent != null ==> q.withParent.Valid()
    requires SubObjects(q.withChildren) == old(SubObjects(q.withChildren))
    requires q.withChildren != null ==> q.withChildren.Valid()
    ensures q.Denoted() == Some(AccountQ(q.OwnSpec(), LeafView(q.withGroups), LeafView(q.withProxy),
                                         SubView(q.withParent), SubView(q.withChildren), LeafView(q.withUsageLogs),
                                         LeafView(q.withAccountGroups)))
  {
  }

  /** A call that writes to the context changes the own part of the query alone. */
  twostate lemma ContextChanged(q: AccountQuery, new u: AccountQ)
    requires old(q.Denoted()) == Some(u) && unchanged(q) && unchanged(q.Repr - {q.ctx})
    ensures q.Denoted() == Some(u.(spec := q.OwnSpec()))
  {
    ContextOff(q, u);
    Relinked(q, u);
  }

  twostate lemma ContextOff(q: AccountQuery, new u: AccountQ)
    requires old(q.Denoted()) == Some(u) && unchanged(q) && unchanged(q.Repr - {q.ctx})
    ensures SubObjects(q.withParent) == old(SubObjects(q.withParent)) && Means(q.withParent, u.parent)
    ensures SubObjects(q.withChildren) == old(SubObjects(q.withChildren)) && Means(q.withChildren, u.children)
    ensures LeafView(q.withGroups) == u.groups && LeafView(q.withProxy) == u.proxy
    ensures LeafView(q.withUsageLogs) == u.usageLogs && LeafView(q.withAccountGroups) == u.accountGroups
  {
    assert q.withParent != null ==> q.withParent in q.Repr;
    assert q.withChildren != null ==> q.withChildren in q.Repr;
    assert LeafObjects(q.withGroups) <= q.Repr && LeafObjects(q.withProxy) <= q.Repr;
    assert LeafObjects(q.withUsageLogs) <= q.Repr && LeafObjects(q.withAccountGroups) <= q.Repr;
  }

  // ----- cloning ---------------------------------------------------------------------------------------------------

  /** The own part of a query: a new builder with a context of its own, and no edges yet. */
  method CloneOwn(q: AccountQuery) returns (c: AccountQuery)
    ensures c.Valid() && fresh(c.Repr) && c.View() == Bare(q.OwnSpec().(modifiers := []))
  {
    var ctx := q.ctx.Clone();
    c := new AccountQuery(ctx, q.predicates, q.order, []);
  }

  method CloneGroups(leaf: LeafQuery?, c: AccountQuery, ghost base: AccountQ, ghost spec: Option<Spec>)
    requires c.Valid() && c.View() == base && base.groups.None? && LeafView(leaf) == spec
    modifies c
    ensures c.Valid() && fresh(c.Repr - old(c.Repr)) && c.View() == base.(groups := CloneSpec(spec))
  {
    if leaf != null {
      var copy := leaf.Clone();
      c.WithGroups(copy);
    }
  }

  method CloneProxy(leaf: LeafQuery?, c: AccountQuery, ghost base: AccountQ, ghost spec: Option<Spec>)
    requires c.Valid() && c.View() == base && base.proxy.None? && LeafView(leaf) == spec
    modifies c
    ensures c.Valid() && fresh(c.Repr - old(c.Repr)) && c.View() == base.(proxy := CloneSpec(spec))
  {
    if leaf != null {
      var copy := leaf.Clone();
      c.WithProxy(copy);
    }
  }

  method CloneUsageLogs(leaf: LeafQuery?, c: AccountQuery, ghost base: AccountQ, ghost spec: Option<Spec>)
    requires c.Valid() && c.View() == base && base.usageLogs.None? && LeafView(leaf) == spec
    modifies c
    ensures c.Valid() && fresh(c.Repr - old(c.Repr)) && c.View() == base.(usageLogs := CloneSpec(spec))
  {
    if leaf != null {
      var copy := leaf.Clone();
      c.WithUsageLogs(copy);
    }
  }

  method CloneAccountGroups(leaf: LeafQuery?, c: AccountQuery, ghost base: AccountQ, ghost spec: Option<Spec>)
    requires c.Valid() && c.View() == base && base.accountGroups.None? && LeafView(leaf) == spec
    modifies c
    ensures c.Valid() && fresh(c.Repr - old(c.Repr)) && c.View() == base.(accountGroups := CloneSpec(spec))
  {
    if leaf != null {
      var copy := leaf.Clone();
      c.WithAccountGroups(copy);
    }
  }

  method CloneParent(sub: AccountQuery?, c: AccountQuery, ghost base: AccountQ, ghost v: Option<AccountQ>)
    requires c.Valid() && c.View() == base && base.parent.None?
    requires if sub == null then v == None else sub.Valid() && v == Some(sub.View())
    modifies c
    ensures c.Valid() && fresh(c.Repr - old(c.Repr)) && c.View() == base.(parent := CloneOption(v))
    decreases SubObjects(sub), 2
  {
    if sub != null {
      var copy := Clone(sub);
      c.WithParent(copy);
    }
  }

  method CloneChildren(sub: AccountQuery?, c: AccountQuery, ghost base: AccountQ, ghost v: Option<AccountQ>)
    requires c.Valid() && c.View() == base && base.children.None?
    requires if sub == null then v == None else sub.Valid() && v == Some(sub.View())
    modifies c
    ensures c.Valid() && fresh(c.Repr - old(c.Repr)) && c.View() == base.(children := CloneOption(v))
    decreases SubObjects(sub), 2
  {
    if sub != null {
      var copy := Clone(sub);
      c.WithChildren(copy);
    }
  }

  function CloneOption(v: Option<AccountQ>): Option<AccountQ> {
    if v.None? then None else Some(CloneOf(v.value))
  }

  /** The leaf edges of a query, cloned one by one. */
  method CloneLeaves(q: AccountQuery, c: AccountQuery, ghost v: AccountQ)
    requires q.Valid() && v == q.View() && c.Valid() && c.View() == Bare(v.spec.(modifiers := [])) && c !in q.Repr
    modifies c
    ensures c.Valid() && fresh(c.Repr - old(c.Repr)) && c.View() == CloneOf(v).(parent := None, children := None)
  {
    ghost var base := c.View();
    CloneGroups(q.withGroups, c, base, v.groups);
    base := base.(groups := CloneSpec(v.groups));
    CloneProxy(q.withProxy, c, base, v.proxy);
    base := base.(proxy := CloneSpec(v.proxy));
    CloneUsageLogs(q.withUsageLogs, c, base, v.usageLogs);
    base := base.(usageLogs := CloneSpec(v.usageLogs));
    CloneAccountGroups(q.withAccountGroups, c, base, v.accountGroups);
  }

  /** Its Account edges, cloned recursively. */
  method CloneSubs(q: AccountQuery, c: AccountQuery, ghost v: AccountQ)
    requires q.Valid() && v == q.View() && c.Valid() && c !in q.Repr
    requires c.View() == CloneOf(v).(parent := None, children := None)
    modifies c
    ensures c.Valid() && fresh(c.Repr - old(c.Repr)) && c.View() == CloneOf(v)
    decreases q.Repr, 0
  {
    CloneParent(q.withParent, c, CloneOf(v).(parent := None, children := None), v.parent);
    CloneChildren(q.withChildren, c, CloneOf(v).(children := None), v.children);
  }

  /**
   Clone: builder by builder and context by context, a tree of fresh objects that denotes the same query,
   except for the modifiers.  No builder call on either query can reach the other.
   */
  method Clone(q: AccountQuery) returns (c: AccountQuery)
    requires q.Valid()
    ensures c.Valid() && fresh(c.Repr) && c.View() == CloneOf(q.View())
    decreases q.Repr, 1
  {
    ghost var v := q.View();
    c := CloneOwn(q);
    CloneLeaves(q, c, v);
    CloneSubs(q, c, v);
    assert q.Denoted() == Some(v);
  }

  /** What Clone has to avoid: on a copy that keeps the context, Limit reaches the original query. */
  method ShallowCopyLeaks(q: AccountQuery, limit: nat) returns (c: AccountQuery)
    requires q.Valid()
    modifies q.ctx
    ensures fresh(c) && c.Valid() && q.Valid()
    ensures q.View().spec == old(q.View()).spec.(limit := limit)
  {
    c := new AccountQuery(q.ctx, q.predicates, q.order, []);
    c.Limit(limit);
    assert c.OwnSpec() == c.View().spec;
    assert q.OwnSpec() == old(q.OwnSpec()).(limit := limit);
  }

  // ----- configured sub-queries --------------------------------------------------------------------------------------

  /** A new leaf builder, configured as the spec says. */
  method BuildLeaf(spec: Spec) returns (c: LeafQuery)
    ensures fresh(c) && fresh(c.ctx) && c.View() == spec
  {
    var ctx := new QueryContext(spec.fields, spec.offset, spec.limit);
    c := new LeafQuery(ctx, spec.preds, spec.rank, spec.modifiers);
  }

  method PutGroups(c: AccountQuery, spec: Option<Spec>, ghost base: AccountQ)
    requires c.Valid() && c.View() == base
    modifies c
    ensures c.Valid() && fresh(c.Repr - old(c.Repr))
    ensures c.View() == if spec.Some? then base.(groups := spec) else base
  {
    if spec.Some? {
      var leaf := BuildLeaf(spec.value);
      c.WithGroups(leaf);
    }
  }

  method PutProxy(c: AccountQuery, spec: Option<Spec>, ghost base: AccountQ)
    requires c.Valid() && c.View() == base
    modifies c
    ensures c.Valid() && fresh(c.Repr - old(c.Repr))
    ensures c.View() == if spec.Some? then base.(proxy := spec) else base
  {
    if spec.Some? {
      var leaf := BuildLeaf(spec.value);
      c.WithProxy(leaf);
    }
  }

  method PutUsageLogs(c: AccountQuery, spec: Option<Spec>, ghost base: AccountQ)
    requires c.Valid() && c.View() == base
    modifies c
    ensures c.Valid() && fresh(c.Repr - old(c.Repr))
    ensures c.View() == if spec.Some? then base.(usageLogs := spec) else base
  {
    if spec.Some? {
      var leaf := BuildLeaf(spec.value);
      c.WithUsageLogs(leaf);
    }
  }

  method PutAccountGroups(c: AccountQuery, spec: Option<Spec>, ghost base: AccountQ)
    requires c.Valid() && c.View() == base
    modifies c
    ensures c.Valid() && fresh(c.Repr - old(c.Repr))
    ensures c.View() == if spec.Some? then base.(accountGroups := spec) else base
  {
    if spec.Some? {
      var leaf := BuildLeaf(spec.value);
      c.WithAccountGroups(leaf);
    }
  }

  method PutParent(c: AccountQuery, sub: Option<AccountQ>, ghost base: AccountQ)
    requires c.Valid() && c.View() == base
    modifies c
    ensures c.Valid() && fresh(c.Repr - old(c.Repr))
    ensures c.View() == if sub.Some? then base.(parent := sub) else base
    decreases HeightOf(sub), 2
  {
    if sub.Some? {
      var built := Build(sub.value);
      c.WithParent(built);
    }
  }

  method PutChildren(c: AccountQuery, sub: Option<AccountQ>, ghost base: AccountQ)
    requires c.Valid() && c.View() == base
    modifies c
    ensures c.Valid() && fresh(c.Repr - old(c.Repr))
    ensures c.View() == if sub.Some? then base.(children := sub) else base
    decreases HeightOf(sub), 2
  {
    if sub.Some? {
      var built := Build(sub.value);
      c.WithChildren(built);
    }
  }

  method PutLeaves(c: AccountQuery, v: AccountQ)
    requires c.Valid() && c.View() == Bare(v.spec)
    modifies c
    ensures c.Valid() && fresh(c.Repr - old(c.Repr)) && c.View() == v.(parent := None, children := None)
  {
    ghost var base := Bare(v.spec);
    PutGroups(c, v.groups, base);
    base := base.(groups := v.groups);
    PutProxy(c, v.proxy, base);
    base := base.(proxy := v.proxy);
    PutUsageLogs(c, v.usageLogs, base);
    base := base.(usageLogs := v.usageLogs);
    PutAccountGroups(c, v.accountGroups, base);
  }

  /** A tree of new builders, configured as the query says. */
  method Build(v: AccountQ) returns (c: AccountQuery)
    ensures c.Valid() && fresh(c.Repr) && c.View() == v
    decreases Height(v), 1
  {
    var ctx := new QueryContext(v.spec.fields, v.spec.offset, v.spec.limit);
    c := new AccountQuery(ctx, v.spec.preds, v.spec.rank, v.spec.modifiers);
    PutLeaves(c, v);
    PutParent(c, v.parent, v.(parent := None, children := None));
    PutChildren(c, v.children, v.(children := None));
  }

  // ----- builder calls -----------------------------------------------------------------------------------------------

  /** A call on a builder: on its own query, or a With call with a configured sub-query. */
  datatype Edit =
    | AddWhere(p: Pred)
    | SetLimit(limit: nat)
    | SetOffset(offset: nat)
    | SetOrder(order: Row -> int)
    | AddFields(fields: seq<string>)
    | SetGroups(spec: Spec)
    | SetProxy(spec: Spec)
    | SetUsageLogs(spec: Spec)
    | SetAccountGroups(spec: Spec)
    | SetParent(sub: AccountQ)
    | SetChildren(sub: AccountQ)

  function Edited(v: AccountQ, e: Edit): AccountQ {
    match e
    case AddWhere(p) => v.(spec := Rows.Where(v.spec, p))
    case SetLimit(limit) => v.(spec := v.spec.(limit := limit))
    case SetOffset(offset) => v.(spec := v.spec.(offset := offset))
    case SetOrder(order) => v.(spec := v.spec.(rank := order))
    case AddFields(fields) => v.(spec := v.spec.(fields := v.spec.fields + fields))
    case SetGroups(spec) => v.(groups := Some(spec))
    case SetProxy(spec) => v.(proxy := Some(spec))
    case SetUsageLogs(spec) => v.(usageLogs := Some(spec))
    case SetAccountGroups(spec) => v.(accountGroups := Some(spec))
    case SetParent(sub) => v.(parent := Some(sub))
    case SetChildren(sub) => v.(children := Some(sub))
  }

  function EditedAll(v: AccountQ, es: seq<Edit>): AccountQ {
    if es == [] then v else Edited(EditedAll(v, es[..|es| - 1]), es[|es| - 1])
  }

  predicate OnSpec(e: Edit) {
    e.AddWhere? || e.SetLimit? || e.SetOffset? || e.SetOrder? || e.AddFields?
  }

  method ApplySpec(c: AccountQuery, e: Edit)
    requires c.Valid() && OnSpec(e)
    modifies c, c.ctx
    ensures c.Valid() && c.Repr == old(c.Repr) && c.View() == Edited(old(c.View()), e)
  {
    match e {
      case AddWhere(p) => c.Where(p);
      case SetLimit(limit) => c.Limit(limit);
      case SetOffset(offset) => c.Offset(offset);
      case SetOrder(order) => c.Order(order);
      case AddFields(fields) => c.Select(fields);
    }
  }

  method ApplyWith(c: AccountQuery, e: Edit)
    requires c.Valid() && !OnSpec(e)
    modifies c
    ensures c.Valid() && fresh(c.Repr - old(c.Repr)) && c.View() == Edited(old(c.View()), e)
  {
    ghost var base := c.View();
    match e {
      case SetGroups(spec) => PutGroups(c, Some(spec), base);
      case SetProxy(spec) => PutProxy(c, Some(spec), base);
      case SetUsageLogs(spec) => PutUsageLogs(c, Some(spec), base);
      case SetAccountGroups(spec) => PutAccountGroups(c, Some(spec), base);
      case SetParent(sub) => PutParent(c, Some(sub), base);
      case SetChildren(sub) => PutChildren(c, Some(sub), base);
    }
  }

  /** One call on a builder changes the builder and its context alone. */
  method Apply(c: AccountQuery, e: Edit)
    requires c.Valid()
    modifies c, c.ctx
    ensures c.Valid() && fresh(c.Repr - old(c.Repr)) && c.View() == Edited(old(c.View()), e)
  {
    if OnSpec(e) {
      ApplySpec(c, e);
    } else {
      ApplyWith(c, e);
    }
  }

  /** Any calls on a clone leave the original query, at every depth, as it was. */
  method CloneThenEdit(q: AccountQuery, edits: seq<Edit>) returns (c: AccountQuery)
    requires q.Valid()
    ensures c.Valid() && fresh(c.Repr) && q.Valid() && q.View() == old(q.View())
    ensures c.View() == EditedAll(CloneOf(q.View()), edits)
  {
    ghost var v := q.View();
    c := Clone(q);
    for i := 0 to |edits|
      invariant c.Valid() && fresh(c.Repr) && c.ctx in c.Repr && c.View() == EditedAll(CloneOf(v), edits[..i])
      invariant q.Denoted() == Some(v)
    {
      Apply(c, edits[i]);
      assert edits[..i + 1][..i] == edits[..i];
    }
    assert edits[..|edits|] == edits;
  }
}
