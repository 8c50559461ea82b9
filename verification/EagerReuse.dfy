/** Running a query again: sqlAll leaves its IN predicates in the sub-queries. */
module EagerReuse {
  import opened Options
  import opened Rows
  import opened EagerSpec
  import opened QueryBuilder
  import opened EagerLoad
  import opened EagerAll
  import opened NestedJoin
  import opened EagerPages

  /** No groups edge at any depth; `GroupRerun` has those. */
  predicate GroupFree(q: AccountQ) {
    && q.groups.None?
    && (q.parent.Some? ==> GroupFree(q.parent.value))
    && (q.children.Some? ==> GroupFree(q.children.value))
  }

  lemma {:induction false} RanSpec(db: Database, q: AccountQ)
    ensures Ran(db, q).spec == q.spec
  {
  }

  /** The predicate is in place and the key is read: narrowing once more changes nothing. */
  ghost predicate Narrowed(spec: Spec, p: Pred, keep: Option<string>) {
    p in spec.preds && (keep.Some? && spec.fields != [] ==> keep.value in spec.fields)
  }

  lemma {:induction false} NarrowedOnce(spec: Spec, p: Pred, keep: Option<string>)
    ensures Narrowed(NarrowSpec(spec, p, keep), p, keep)
  {
    var kept := if keep.Some? then KeepField(spec, keep.value) else spec;
    assert (kept.preds + [p])[|kept.preds|] == p;
  }

  lemma {:induction false} FetchAgain(db: Database, table: Table, spec: Spec, p: Pred, keep: Option<string>)
    requires Narrowed(spec, p, keep)
    ensures Fetch(db, table, NarrowSpec(spec, p, keep)) == Fetch(db, table, spec)
    ensures NarrowSpec(spec, p, keep).fields == spec.fields
  {
    SelectAgain(TableRows(db, table), spec, p);
  }

  /** What a load depends on, apart from the rows its own query finds. */
  ghost predicate SameBatch(db: Database, q: AccountQ, r: AccountQ, rows: seq<Row>) {
    && LoadNeighbours(db, q, rows) == LoadNeighbours(db, r, rows)
    && Requested(q) == Requested(r) && AccountColumns(db, q) == AccountColumns(db, r)
    && LeafColumns(db, Groups, q.groups, None) == LeafColumns(db, Groups, r.groups, None)
    && LeafColumns(db, Proxies, q.proxy, None) == LeafColumns(db, Proxies, r.proxy, None)
    && LeafColumns(db, UsageLogs, q.usageLogs, Some(ACCOUNT_ID))
      == LeafColumns(db, UsageLogs, r.usageLogs, Some(ACCOUNT_ID))
    && LeafColumns(db, AccountGroups, q.accountGroups, Some(ACCOUNT_ID))
      == LeafColumns(db, AccountGroups, r.accountGroups, Some(ACCOUNT_ID))
  }

  lemma {:induction false} SameLoad(db: Database, q: AccountQ, r: AccountQ, rows: seq<Row>)
    requires Fetch(db, Accounts, q.spec) == Fetch(db, Accounts, r.spec) == Ok(rows)
    requires rows != [] ==> SameBatch(db, q, r, rows)
    ensures Load(db, q) == Load(db, r)
  {
    if rows != [] {
      LoadIs(db, q, rows);
      LoadIs(db, r, rows);
      var ns := LoadNeighbours(db, q, rows);
      if ns.Ok? {
        assert AttachAll(db, q, rows, ns.value) == AttachAll(db, r, rows, ns.value);
      }
    }
  }

  lemma {:induction false} LoadAgain(db: Database, q: AccountQ, p: Pred, keep: Option<string>)
    requires Narrowed(q.spec, p, keep)
    ensures Load(db, Narrow(q, p, keep)) == Load(db, q)
  {
    FetchAgain(db, Accounts, q.spec, p, keep);
    var fetched, narrowed := Fetch(db, Accounts, q.spec), Narrow(q, p, keep);
    if fetched.Ok? {
      NeighboursOf(db, q, fetched.value);
      NeighboursOf(db, narrowed, fetched.value);
      SameLoad(db, narrowed, q, fetched.value);
    }
  }

  lemma {:induction false} LeafAgain(db: Database, table: Table, sub: Option<Spec>, p: Pred, keep: Option<string>)
    ensures FetchLeaf(db, table, RanLeaf(sub, p, keep), p, keep) == FetchLeaf(db, table, sub, p, keep)
    ensures LeafColumns(db, table, RanLeaf(sub, p, keep), keep) == LeafColumns(db, table, sub, keep)
  {
    if sub.Some? {
      NarrowedOnce(sub.value, p, keep);
      FetchAgain(db, table, NarrowSpec(sub.value, p, keep), p, keep);
    }
  }

  lemma {:induction false} ProxyAgain(db: Database, sub: Option<Spec>, rows: seq<Row>)
    ensures FetchProxies(db, RanProxy(sub, rows), rows) == FetchProxies(db, sub, rows)
    ensures LeafColumns(db, Proxies, RanProxy(sub, rows), None) == LeafColumns(db, Proxies, sub, None)
  {
    var keys := ForeignKeys(rows, PROXY_ID);
    if sub.Some? && keys != [] {
      NarrowedOnce(sub.value, In(ID, keys), None);
      FetchAgain(db, Proxies, Where(sub.value, In(ID, keys)), In(ID, keys), None);
    }
  }

  lemma {:induction false} SubAgain(db: Database, sub: AccountQ, p: Pred, keep: Option<string>)
    requires GroupFree(sub) && Load(db, Narrow(sub, p, keep)).Ok?
    ensures Load(db, Narrow(Ran(db, Narrow(sub, p, keep)), p, keep)) == Load(db, Narrow(sub, p, keep))
    decreases Height(sub), 3
  {
    var narrowed := Narrow(sub, p, keep);
    RanSpec(db, narrowed);
    NarrowedOnce(sub.spec, p, keep);
    LoadAgain(db, Ran(db, narrowed), p, keep);
    RunAgain(db, narrowed);
  }

  lemma {:induction false} SubsAgain(db: Database, q: AccountQ, rows: seq<Row>)
    requires GroupFree(q) && LoadSubTrees(db, q.parent, q.children, rows).Ok?
    ensures LoadSubTrees(db, RanParent(db, q.parent, rows), RanChildren(db, q.children, rows), rows)
         == LoadSubTrees(db, q.parent, q.children, rows)
    decreases Height(q), 0
  {
    var keys := ForeignKeys(rows, PARENT_ID);
    if q.parent.Some? && keys != [] {
      SubAgain(db, q.parent.value, In(ID, keys), None);
    }
    if q.children.Some? {
      SubAgain(db, q.children.value, In(PARENT_ID, Ids(rows)), Some(PARENT_ID));
    }
  }

  lemma {:induction false} EdgesAgain(db: Database, q: AccountQ, rows: seq<Row>)
    requires GroupFree(q) && LoadNeighbours(db, q, rows).Ok?
    ensures SameBatch(db, RanEdges(db, q, rows), q, rows)
    decreases Height(q), 1
  {
    var r := RanEdges(db, q, rows);
    LeafAgain(db, Groups, q.groups, In(OUT, Ids(rows)), None);
    ProxyAgain(db, q.proxy, rows);
    LeafAgain(db, UsageLogs, q.usageLogs, In(ACCOUNT_ID, Ids(rows)), Some(ACCOUNT_ID));
    LeafAgain(db, AccountGroups, q.accountGroups, In(ACCOUNT_ID, Ids(rows)), Some(ACCOUNT_ID));
    NeighboursOf(db, q, rows);
    NeighboursOf(db, r, rows);
    SubsAgain(db, q, rows);
  }

  /** On an unchanged database a query that was run, and so has been changed, loads the same trees again. */
  lemma {:induction false} RunAgain(db: Database, q: AccountQ)
    requires GroupFree(q) && Load(db, q).Ok?
    ensures Load(db, Ran(db, q)) == Load(db, q)
    decreases Height(q), 2
  {
    var rows := Fetch(db, Accounts, q.spec).value;
    if rows != [] {
      LoadIs(db, q, rows);
      EdgesAgain(db, q, rows);
      SameLoad(db, RanEdges(db, q, rows), q, rows);
    }
  }

  /** The same on the objects: a query object that is run twice returns two separate graphs of the same trees. */
  method RunTwice(db: Database, q: AccountQuery)
    returns (first: Result<seq<Account>>, second: Result<seq<Account>>, ghost R: set<Account>, ghost S: set<Account>)
    requires ValidSchema(db) && q.Valid() && GroupFree(q.View())
    modifies q.Repr
    ensures q.Valid() && q.Repr == old(q.Repr) && fresh(R + S) && R !! S
    ensures first.Err? ==> Load(db, old(q.View())) == Err(first.error)
    ensures first.Ok? ==> second.Ok? && Load(db, old(q.View())).Ok?
    ensures first.Ok? ==> RepresentsAll(first.value, Load(db, old(q.View())).value, R)
    ensures first.Ok? ==> RepresentsAll(second.value, Load(db, old(q.View())).value, S)
  {
    ghost var v, trees, again := q.View(), [], [];
    first, R, trees := SqlAll(db, q, v);
    second, S := first, {};
    if first.Ok? {
      RunAgain(db, v);
      assert forall a | a in R :: a !in q.Repr;
      second, S, again := SqlAll(db, q, Ran(db, v));
      assert forall a | a in R :: a !in S;
    }
  }

  // ----- on a changed database ------------------------------------------------------------------------------

  lemma {:induction false} StaleRows(db: Database, table: Table, spec: Spec, column: string, ids: seq<int>, id: int)
    requires In(column, ids) in spec.preds && id !in ids && Fetch(db, table, spec).Ok?
    ensures RowsFor(Fetch(db, table, spec).value, column, id) == []
  {
    var rows := Fetch(db, table, spec).value;
    forall k | 0 <= k < |rows| ensures RefOf(rows[k], column) != Some(id) {
      InSelect(TableRows(db, table), spec, rows[k]);
      var j :| 0 <= j < |spec.preds| && spec.preds[j] == In(column, ids);
      assert Holds(spec.preds[j], rows[k]);
    }
    RowsForNone(rows, column, id);
  }

  lemma {:induction false} StaleLeaf(db: Database, table: Table, sub: Option<Spec>, ids: seq<int>, now: seq<int>,
                                     id: int)
    requires id !in ids
    requires FetchLeaf(db, table, RanLeaf(sub, In(ACCOUNT_ID, ids), Some(ACCOUNT_ID)), In(ACCOUNT_ID, now),
             Some(ACCOUNT_ID)).Ok?
    ensures RowsFor(FetchLeaf(db, table, RanLeaf(sub, In(ACCOUNT_ID, ids), Some(ACCOUNT_ID)), In(ACCOUNT_ID, now),
            Some(ACCOUNT_ID)).value,
                    ACCOUNT_ID, id) == []
  {
    if sub.Some? {
      var ran := NarrowSpec(sub.value, In(ACCOUNT_ID, ids), Some(ACCOUNT_ID));
      NarrowedOnce(sub.value, In(ACCOUNT_ID, ids), Some(ACCOUNT_ID));
      var spec := NarrowSpec(ran, In(ACCOUNT_ID, now), Some(ACCOUNT_ID));
      KeepsPreds(ran, In(ACCOUNT_ID, now), Some(ACCOUNT_ID), In(ACCOUNT_ID, ids));
      StaleRows(db, table, spec, ACCOUNT_ID, ids, id);
    }
  }

  lemma {:induction false} KeepsPreds(spec: Spec, p: Pred, keep: Option<string>, q: Pred)
    requires q in spec.preds
    ensures q in NarrowSpec(spec, p, keep).preds
  {
    assert NarrowSpec(spec, p, keep).preds == spec.preds + [p];
  }

  /**
   Reuse is not safe across changes: in any later state `now` of the database, an account that the
   first run did not select gets no usage logs and no account groups from the query that was run,
   whatever the tables hold.
   */
  lemma {:induction false} ReuseStarvesNewAccounts(db: Database, now: Database, q: AccountQ, i: nat)
    requires Load(db, q).Ok? && Fetch(db, Accounts, q.spec).value != []
    requires Load(now, Ran(db, q)).Ok? && i < |Load(now, Ran(db, q)).value|
    requires Fetch(now, Accounts, q.spec).Ok? && i < |Fetch(now, Accounts, q.spec).value|
    requires IntOf(Fetch(now, Accounts, q.spec).value[i], ID) !in Ids(Fetch(db, Accounts, q.spec).value)
    ensures Load(now, Ran(db, q)).value[i].usageLogs == [] && Load(now, Ran(db, q)).value[i].accountGroups == []
  {
    var rows, later := Fetch(db, Accounts, q.spec).value, Fetch(now, Accounts, q.spec).value;
    var r := Ran(db, q);
    LoadIs(db, q, rows);
    LoadIs(now, r, later);
    var ns := LoadNeighbours(now, r, later).value;
    NeighboursAre(now, r, later, ns);
    var id := IntOf(later[i], ID);
    StaleLeaf(now, UsageLogs, q.usageLogs, Ids(rows), Ids(later), id);
    StaleLeaf(now, AccountGroups, q.accountGroups, Ids(rows), Ids(later), id);
  }
}
