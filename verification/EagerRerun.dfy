/** A query object run a second time, on a database that has changed: exactly which accounts get what. */
module EagerRerun {
  import opened Options
  import opened Rows
  import opened EagerSpec
  import opened EagerLoad
  import opened EagerAll
  import opened EagerPages
  import opened NestedJoin
  import opened GroupJoin
  import opened EagerReuse

  /** The accounts that the first run selected. */
  function FirstBatch(db: Database, q: AccountQ): seq<Row> {
    var fetched := Fetch(db, Accounts, q.spec);
    if fetched.Ok? then fetched.value else []
  }

  // ----- one edge ----------------------------------------------------------------------------------------------

  /** The IN predicate of the first run lets the shares of its own keys pass and empties all others. */
  lemma {:induction false} StaleShare(rows: seq<Row>, spec: Spec, column: string, ids: seq<int>, id: int)
    requires spec.offset == 0 && spec.limit == 0
    ensures RowsFor(Select(rows, Where(spec, In(column, ids))), column, id)
         == if id in ids then RowsFor(Select(rows, spec), column, id) else []
  {
    var found := Select(rows, Where(spec, In(column, ids)));
    if id in ids {
      ShareOfBatch(rows, spec, column, ids, id);
    } else {
      forall k | 0 <= k < |found| ensures RefOf(found[k], column) != Some(id) {
        SelectedIn(rows, spec, In(column, ids), found[k]);
      }
      RowsForNone(found, column, id);
    }
  }

  lemma {:induction false} StaleSelect(rows: seq<Row>, spec: Spec, p: Pred, keep: Option<string>, column: string,
                                       ids: seq<int>, id: int)
    requires p == In(column, ids)
    ensures var ran := NarrowSpec(spec, p, keep);
            && ran.offset == spec.offset && ran.limit == spec.limit
            && RowsFor(Select(rows, Free(ran)), column, id) == if id in ids
              then RowsFor(Select(rows, Free(spec)), column, id) else []
  {
    var ran := NarrowSpec(spec, p, keep);
    assert Select(rows, Free(ran)) == Select(rows, Where(Free(spec), p));
    StaleShare(rows, Free(spec), column, ids, id);
  }

  /** What one account finds through an O2M leaf edge. */
  function LeafShareOf(now: Database, table: Table, sub: Option<Spec>, id: int): seq<Row> {
    Paged(RowsFor(LeafRowsOf(now, table, sub), ACCOUNT_ID, id), sub)
  }

  lemma {:induction false} LeafRerun(now: Database, table: Table, sub: Option<Spec>, ids: seq<int>, id: int)
    requires table != Groups
    ensures var ran := RanLeaf(sub, In(ACCOUNT_ID, ids), Some(ACCOUNT_ID));
            LeafShareOf(now, table, ran, id) == if id in ids then LeafShareOf(now, table, sub, id) else []
  {
    if sub.Some? {
      var rows := TableRows(now, table);
      StaleSelect(rows, sub.value, In(ACCOUNT_ID, ids), Some(ACCOUNT_ID), ACCOUNT_ID, ids, id);
    }
  }

  /** What a foreign key finds through an M2O edge whose sub-query is `spec`. */
  function KeyShareOf(rows: seq<Row>, spec: Spec, fk: Option<int>): Option<Row> {
    Referred(Select(rows, Free(spec)), Some(spec), fk)
  }

  predicate Asked(keys: seq<int>, fk: Option<int>) {
    keys == [] || fk.None? || fk.value in keys
  }

  lemma {:induction false} KeyRerun(rows: seq<Row>, spec: Spec, keys: seq<int>, fk: Option<int>)
    ensures KeyShareOf(rows, NarrowKeyed(spec, keys), fk) == if Asked(keys, fk) then KeyShareOf(rows, spec, fk)
            else None
  {
    if keys != [] && fk.Some? {
      StaleSelect(rows, spec, In(ID, keys), None, ID, keys, fk.value);
    }
  }

  lemma {:induction false} ProxyRerun(now: Database, sub: Option<Spec>, rows: seq<Row>, fk: Option<int>)
    ensures var ran := RanProxy(sub, rows);
            Referred(LeafRowsOf(now, Proxies, ran), ran, fk)
            == if Asked(ForeignKeys(rows, PROXY_ID), fk) then Referred(LeafRowsOf(now, Proxies, sub), sub, fk) else None
  {
    if sub.Some? {
      KeyRerun(now.proxies, sub.value, ForeignKeys(rows, PROXY_ID), fk);
    } else if fk.Some? {
      assert RowsFor([], ID, fk.value) == [];
    }
  }

  // ----- the sub-queries of the first run -------------------------------------------------------------------------

  function ParentSub(q: AccountQ, rows: seq<Row>): (r: AccountQ)
    requires q.parent.Some?
    ensures Height(r) < Height(q)
  {
    Narrow(q.parent.value, In(ID, ForeignKeys(rows, PARENT_ID)), None)
  }

  function ChildSub(q: AccountQ, rows: seq<Row>): (r: AccountQ)
    requires q.children.Some?
    ensures Height(r) < Height(q)
  {
    Narrow(q.children.value, In(PARENT_ID, Ids(rows)), Some(PARENT_ID))
  }

  /** The account's parent and children, as a fresh query finds them. */
  function ParentOf(now: Database, q: AccountQ, row: Row): Option<Row>
    requires q.parent.Some?
  {
    KeyShareOf(now.accounts, q.parent.value.spec, RefOf(row, PARENT_ID))
  }

  function ChildrenOf(now: Database, q: AccountQ, id: int): seq<Row>
    requires q.children.Some?
  {
    Paged(RowsFor(SubRows(now, q.children), PARENT_ID, id), SpecOf(q.children))
  }

  lemma {:induction false} ParentRerun(db: Database, now: Database, q: AccountQ, rows: seq<Row>, row: Row)
    requires q.parent.Some?
    ensures var ran, keys := RanEdges(db, q, rows), ForeignKeys(rows, PARENT_ID);
            && ran.parent.Some?
            && ParentOf(now, ran, row) == (if Asked(keys, RefOf(row, PARENT_ID)) then ParentOf(now, q, row) else None)
            && ran.parent.value == if keys == [] then q.parent.value else Ran(db, ParentSub(q, rows))
  {
    RanSpec(db, ParentSub(q, rows));
    KeyRerun(now.accounts, q.parent.value.spec, ForeignKeys(rows, PARENT_ID), RefOf(row, PARENT_ID));
  }

  lemma {:induction false} ChildrenRerun(db: Database, now: Database, q: AccountQ, rows: seq<Row>, id: int)
    requires q.children.Some?
    ensures var ran := RanEdges(db, q, rows);
            && ran.children.Some? && ran.children.value == Ran(db, ChildSub(q, rows)) == KeepParent(ran.children.value)
            && ChildrenOf(now, ran, id) == if id in Ids(rows) then ChildrenOf(now, q, id) else []
  {
    var sub := ChildSub(q, rows);
    RanSpec(db, sub);
    NarrowedOnce(q.children.value.spec, In(PARENT_ID, Ids(rows)), Some(PARENT_ID));
    StaleSelect(now.accounts, q.children.value.spec, In(PARENT_ID, Ids(rows)), Some(PARENT_ID), PARENT_ID, Ids(rows),
      id);
  }

  // ----- the shares of one account ----------------------------------------------------------------------------------

  lemma {:induction false} SameColumns(db: Database, now: Database, q: AccountQ, rows: seq<Row>)
    requires q.groups.None?
    ensures var r := RanEdges(db, q, rows);
            && AccountColumns(now, r) == AccountColumns(now, q) && Requested(r) == Requested(q) && r.groups.None?
            && LeafColumns(now, Proxies, r.proxy, None) == LeafColumns(now, Proxies, q.proxy, None)
            && LeafColumns(now, UsageLogs, r.usageLogs, Some(ACCOUNT_ID))
              == LeafColumns(now, UsageLogs, q.usageLogs, Some(ACCOUNT_ID))
            && LeafColumns(now, AccountGroups, r.accountGroups, Some(ACCOUNT_ID))
              == LeafColumns(now, AccountGroups, q.accountGroups, Some(ACCOUNT_ID))
  {
    LeafAgain(now, UsageLogs, q.usageLogs, In(ACCOUNT_ID, Ids(rows)), Some(ACCOUNT_ID));
    LeafAgain(now, AccountGroups, q.accountGroups, In(ACCOUNT_ID, Ids(rows)), Some(ACCOUNT_ID));
    ProxyAgain(now, q.proxy, rows);
  }

  /** The leaf fields of a tree. */
  lemma {:induction false} LeafFields(now: Database, q: AccountQ, row: Row)
    requires q.groups.None?
    ensures var t, id := Nested(now, q, row), IntOf(row, ID);
            && t.row == Project(row, AccountColumns(now, q)) && t.loaded == Requested(q) && t.groups == []
            && t.proxy == ProjectOne(Referred(LeafRowsOf(now, Proxies, q.proxy), q.proxy, RefOf(row, PROXY_ID)),
                                     LeafColumns(now, Proxies, q.proxy, None))
            && t.usageLogs == ProjectAll(LeafShareOf(now, UsageLogs, q.usageLogs, id),
              LeafColumns(now, UsageLogs, q.usageLogs, Some(ACCOUNT_ID)))
            && t.accountGroups
               == ProjectAll(LeafShareOf(now, AccountGroups, q.accountGroups, id),
                 LeafColumns(now, AccountGroups, q.accountGroups, Some(ACCOUNT_ID)))
  {
    assert NestedGroups([], now.accountGroups, IntOf(row, ID)) == [];
  }

  lemma {:induction false} SubFields(now: Database, q: AccountQ, row: Row)
    ensures var t := Nested(now, q, row);
            && t.parent == (if q.parent.None? then None else NestedParent(now, q, ParentOf(now, q, row)))
            && t.children == (if q.children.None? then []
              else NestedAll(now, KeepParent(q.children.value), ChildrenOf(now, q, IntOf(row, ID))))
  {
    if q.children.Some? {
      ChildrenNested(now, q, ChildrenOf(now, q, IntOf(row, ID)));
    }
  }

  /**
   The second run on a changed database, edge by edge: an account that was in the first batch gets the
   usage logs and account groups of a fresh query, and any other none; it gets its proxy if no key, or
   its key, was asked for the first time, and else none.
   */
  lemma {:induction false} RerunShares(db: Database, now: Database, q: AccountQ, rows: seq<Row>, row: Row)
    requires q.groups.None?
    ensures var t, u, known := Nested(now, q, row), Nested(now, RanEdges(db, q, rows), row),
            IntOf(row, ID) in Ids(rows);
            && u.row == t.row && u.loaded == t.loaded && u.groups == t.groups
            && u.usageLogs == (if known then t.usageLogs else [])
            && u.accountGroups == (if known then t.accountGroups else [])
            && u.proxy == (if Asked(ForeignKeys(rows, PROXY_ID), RefOf(row, PROXY_ID)) then t.proxy else None)
  {
    var r, id := RanEdges(db, q, rows), IntOf(row, ID);
    SameColumns(db, now, q, rows);
    LeafFields(now, q, row);
    LeafFields(now, r, row);
    LeafRerun(now, UsageLogs, q.usageLogs, Ids(rows), id);
    LeafRerun(now, AccountGroups, q.accountGroups, Ids(rows), id);
    ProxyRerun(now, q.proxy, rows, RefOf(row, PROXY_ID));
  }

  /**
   Children: those of a fresh query, loaded by the sub-query of the first run, if the account was in the first
   batch; else none.
   */
  lemma {:induction false} RerunChildren(db: Database, now: Database, q: AccountQ, rows: seq<Row>, row: Row)
    requires q.children.Some?
    ensures Nested(now, RanEdges(db, q, rows), row).children
         == (if IntOf(row, ID) in Ids(rows)
           then NestedAll(now, Ran(db, ChildSub(q, rows)), ChildrenOf(now, q, IntOf(row, ID))) else [])
  {
    ChildrenRerun(db, now, q, rows, IntOf(row, ID));
    SubFields(now, RanEdges(db, q, rows), row);
  }

  /** The parent that the second run finds: by a key that was asked for, loaded by the sub-query of the first run. */
  function RerunParentOf(db: Database, now: Database, q: AccountQ, rows: seq<Row>, row: Row): Option<Tree>
    requires q.parent.Some?
  {
    var keys, parent := ForeignKeys(rows, PARENT_ID), ParentOf(now, q, row);
    if parent.None? || !Asked(keys, RefOf(row, PARENT_ID)) then None
    else Some(Nested(now, if keys == [] then q.parent.value else Ran(db, ParentSub(q, rows)), parent.value))
  }

  /** The parent, likewise by its key. */
  lemma {:induction false} RerunParent(db: Database, now: Database, q: AccountQ, rows: seq<Row>, row: Row)
    requires q.parent.Some?
    ensures Nested(now, RanEdges(db, q, rows), row).parent == RerunParentOf(db, now, q, rows, row)
  {
    ParentRerun(db, now, q, rows, row);
    SubFields(now, RanEdges(db, q, rows), row);
  }

  // ----- exactly when the second run is as good as a fresh one -----------------------------------------------------

  /** Nothing is missed by an account that was not in the first batch. */
  ghost predicate OwnCovered(now: Database, q: AccountQ, rows: seq<Row>, id: int) {
    || id in Ids(rows)
    || (&& LeafShareOf(now, UsageLogs, q.usageLogs, id) == []
        && LeafShareOf(now, AccountGroups, q.accountGroups, id) == []
        && (q.children.Some? ==> ChildrenOf(now, q, id) == []))
  }

  ghost predicate ProxyCovered(now: Database, q: AccountQ, rows: seq<Row>, fk: Option<int>) {
    Asked(ForeignKeys(rows, PROXY_ID), fk) || Referred(LeafRowsOf(now, Proxies, q.proxy), q.proxy, fk).None?
  }

  /** The account's edges in `now` lead nowhere that the first run on `db` did not ask about, at any depth. */
  ghost predicate Covered(db: Database, now: Database, q: AccountQ, row: Row)
    decreases Height(q), 1
  {
    var rows := FirstBatch(db, q);
    rows == [] || CoveredBy(db, now, q, rows, row)
  }

  ghost predicate CoveredBy(db: Database, now: Database, q: AccountQ, rows: seq<Row>, row: Row)
    decreases Height(q), 0
  {
    && OwnCovered(now, q, rows, IntOf(row, ID))
    && ProxyCovered(now, q, rows, RefOf(row, PROXY_ID))
    && (q.parent.Some? && ForeignKeys(rows, PARENT_ID) != [] && ParentOf(now, q, row).Some? ==>
          Asked(ForeignKeys(rows, PARENT_ID), RefOf(row, PARENT_ID))
            && Covered(db, now, ParentSub(q, rows), ParentOf(now, q, row).value))
    && (q.children.Some? && IntOf(row, ID) in Ids(rows) ==>
          forall kid | kid in ChildrenOf(now, q, IntOf(row, ID)) :: Covered(db, now, ChildSub(q, rows), kid))
  }

  lemma {:induction false} LeavesExactly(db: Database, now: Database, q: AccountQ, rows: seq<Row>, row: Row)
    requires q.groups.None?
    ensures var t, u, id := Nested(now, q, row), Nested(now, RanEdges(db, q, rows), row), IntOf(row, ID);
            && u.row == t.row && u.loaded == t.loaded && u.groups == t.groups
            && (u.usageLogs == t.usageLogs <==> id in Ids(rows) || LeafShareOf(now, UsageLogs, q.usageLogs, id) == [])
            && (u.accountGroups == t.accountGroups
              <==> id in Ids(rows) || LeafShareOf(now, AccountGroups, q.accountGroups, id) == [])
            && (u.proxy == t.proxy <==> ProxyCovered(now, q, rows, RefOf(row, PROXY_ID)))
  {
    RerunShares(db, now, q, rows, row);
    LeafFields(now, q, row);
  }

  lemma {:induction false} ParentExactly(db: Database, now: Database, q: AccountQ, rows: seq<Row>, row: Row)
    requires GroupFree(q)
    ensures Nested(now, RanEdges(db, q, rows), row).parent == Nested(now, q, row).parent
       <==> (q.parent.Some? && ForeignKeys(rows, PARENT_ID) != [] && ParentOf(now, q, row).Some? ==>
               Asked(ForeignKeys(rows, PARENT_ID), RefOf(row, PARENT_ID))
                 && Covered(db, now, ParentSub(q, rows), ParentOf(now, q, row).value))
    decreases Height(q), 0
  {
    SubFields(now, q, row);
    SubFields(now, RanEdges(db, q, rows), row);
    if q.parent.Some? {
      RerunParent(db, now, q, rows, row);
      var parent, sub := ParentOf(now, q, row), ParentSub(q, rows);
      if parent.Some? {
        RerunTree(db, now, sub, parent.value);
        NestedNarrow(now, q.parent.value, In(ID, ForeignKeys(rows, PARENT_ID)), parent.value);
      }
    }
  }

  lemma {:induction false} SameAll(now: Database, q: AccountQ, r: AccountQ, rows: seq<Row>)
    ensures NestedAll(now, q, rows) == NestedAll(now, r, rows)
            <==> forall row | row in rows :: Nested(now, q, row) == Nested(now, r, row)
  {
    var a, b := NestedAll(now, q, rows), NestedAll(now, r, rows);
    if a == b {
      forall row | row in rows ensures Nested(now, q, row) == Nested(now, r, row) {
        var i :| 0 <= i < |rows| && rows[i] == row;
        assert a[i] == b[i];
      }
    } else {
      var i :| 0 <= i < |rows| && a[i] != b[i];
      assert rows[i] in rows;
    }
  }

  lemma {:induction false} ChildrenExactly(db: Database, now: Database, q: AccountQ, rows: seq<Row>, row: Row)
    requires GroupFree(q)
    ensures Nested(now, RanEdges(db, q, rows), row).children == Nested(now, q, row).children
       <==> (q.children.Some? ==>
               if IntOf(row, ID) in Ids(rows) then forall kid | kid in ChildrenOf(now, q, IntOf(row, ID)) ::
                 Covered(db, now, ChildSub(q, rows), kid)
               else ChildrenOf(now, q, IntOf(row, ID)) == [])
    decreases Height(q), 0
  {
    SubFields(now, q, row);
    SubFields(now, RanEdges(db, q, rows), row);
    if q.children.Some? {
      RerunChildren(db, now, q, rows, row);
      var kids, sub := ChildrenOf(now, q, IntOf(row, ID)), ChildSub(q, rows);
      forall kid | kid in kids
        ensures Nested(now, Ran(db, sub), kid) == Nested(now, KeepParent(q.children.value), kid)
                <==> Covered(db, now, sub, kid)
      {
        RerunTree(db, now, sub, kid);
        NestedNarrow(now, q.children.value, In(PARENT_ID, Ids(rows)), kid);
      }
      SameAll(now, Ran(db, sub), KeepParent(q.children.value), kids);
    }
  }

  /** One account: the tree of the second run is the fresh one if and only if the account is covered. */
  lemma {:induction false} RerunTree(db: Database, now: Database, q: AccountQ, row: Row)
    requires GroupFree(q)
    ensures Nested(now, Ran(db, q), row) == Nested(now, q, row) <==> Covered(db, now, q, row)
    decreases Height(q), 1
  {
    var rows := FirstBatch(db, q);
    if rows != [] {
      assert Ran(db, q) == RanEdges(db, q, rows);
      LeavesExactly(db, now, q, rows, row);
      ParentExactly(db, now, q, rows, row);
      ChildrenExactly(db, now, q, rows, row);
      CoveredIs(db, now, q, rows, row, Nested(now, q, row), Nested(now, Ran(db, q), row));
    }
  }

  lemma {:induction false} CoveredIs(db: Database, now: Database, q: AccountQ, rows: seq<Row>, row: Row, t: Tree,
                                     u: Tree)
    requires u.row == t.row && u.loaded == t.loaded && u.groups == t.groups
    requires u.usageLogs == t.usageLogs
             <==> IntOf(row, ID) in Ids(rows) || LeafShareOf(now, UsageLogs, q.usageLogs, IntOf(row, ID)) == []
    requires u.accountGroups == t.accountGroups
        <==> IntOf(row, ID) in Ids(rows) || LeafShareOf(now, AccountGroups, q.accountGroups, IntOf(row, ID)) == []
    requires u.proxy == t.proxy <==> ProxyCovered(now, q, rows, RefOf(row, PROXY_ID))
    requires u.parent == t.parent
        <==> (q.parent.Some? && ForeignKeys(rows, PARENT_ID) != [] && ParentOf(now, q, row).Some? ==>
                Asked(ForeignKeys(rows, PARENT_ID), RefOf(row, PARENT_ID))
                  && Covered(db, now, ParentSub(q, rows), ParentOf(now, q, row).value))
    requires u.children == t.children
        <==> (q.children.Some? ==>
                if IntOf(row, ID) in Ids(rows) then forall kid | kid in ChildrenOf(now, q, IntOf(row, ID)) ::
                  Covered(db, now, ChildSub(q, rows), kid)
                else ChildrenOf(now, q, IntOf(row, ID)) == [])
    ensures u == t <==> CoveredBy(db, now, q, rows, row)
  {
  }

  // ----- the whole result ------------------------------------------------------------------------------------------

  lemma {:induction false} RanSubs(db: Database, q: AccountQ, rows: seq<Row>)
    ensures var r := RanEdges(db, q, rows);
            && r.parent == (if q.parent.None? || ForeignKeys(rows, PARENT_ID) == [] then q.parent
              else Some(Ran(db, ParentSub(q, rows))))
            && r.children == (if q.children.None? then None else Some(Ran(db, ChildSub(q, rows))))
  {
  }

  lemma {:induction false} PlainEdges(r: AccountQ)
    requires r.groups.None? && Unpaged(r.proxy) && Unpaged(r.usageLogs) && Unpaged(r.accountGroups)
    requires r.parent.Some? ==> Unpaged(Some(r.parent.value.spec)) && Plain(r.parent.value) && GroupFree(r.parent.value)
    requires r.children.Some? ==>
             Unpaged(Some(r.children.value.spec)) && Plain(r.children.value) && GroupFree(r.children.value)
    ensures Plain(r) && GroupFree(r)
  {
  }

  lemma {:induction false} RanPlain(db: Database, q: AccountQ)
    requires Plain(q) && GroupFree(q)
    ensures Plain(Ran(db, q)) && GroupFree(Ran(db, q))
    decreases Height(q)
  {
    var rows := FirstBatch(db, q);
    if rows != [] {
      var r := RanEdges(db, q, rows);
      assert Ran(db, q) == r;
      RanSubs(db, q, rows);
      if q.parent.Some? {
        RanPlain(db, ParentSub(q, rows));
        RanSpec(db, ParentSub(q, rows));
      }
      if q.children.Some? {
        RanPlain(db, ChildSub(q, rows));
        RanSpec(db, ChildSub(q, rows));
      }
      PlainEdges(r);
    }
  }

  // ----- a second run does not fail where a fresh one succeeds -----------------------------------------------------

  predicate Declared(now: Database, table: Table, spec: Spec) {
    forall field | field in spec.fields :: field in now.columns(table)
  }

  lemma {:induction false} DeclaredExactly(fields: seq<string>, columns: seq<string>)
    ensures FirstInvalid(fields, columns).None? <==> forall field | field in fields :: field in columns
  {
    if fields != [] {
      DeclaredExactly(fields[1..], columns);
      assert forall field | field in fields[1..] :: field in fields;
    }
  }

  lemma {:induction false} FetchOk(now: Database, table: Table, spec: Spec)
    ensures Fetch(now, table, spec).Ok? <==> Declared(now, table, spec) && table !in now.down
  {
    DeclaredExactly(spec.fields, now.columns(table));
  }

  /** The first spec finds no more than the second and reads no undeclared field that the second does not read. */
  ghost predicate Stricter(now: Database, table: Table, a: Spec, b: Spec) {
    && (Declared(now, table, b) ==> Declared(now, table, a))
    && forall row :: Matches(a.preds, row) ==> Matches(b.preds, row)
  }

  ghost predicate StricterLeaf(now: Database, table: Table, a: Option<Spec>, b: Option<Spec>) {
    a.Some? == b.Some? && (a.Some? ==> Stricter(now, table, a.value, b.value))
  }

  ghost predicate StricterEdges(now: Database, r: AccountQ, q: AccountQ)
    decreases Height(q)
  {
    && r.groups.None? && q.groups.None?
    && StricterLeaf(now, Proxies, r.proxy, q.proxy)
    && StricterLeaf(now, UsageLogs, r.usageLogs, q.usageLogs)
    && StricterLeaf(now, AccountGroups, r.accountGroups, q.accountGroups)
    && r.parent.Some? == q.parent.Some? && r.children.Some? == q.children.Some?
    && (q.parent.Some? ==> Stricter(now, Accounts, r.parent.value.spec, q.parent.value.spec))
    && (q.parent.Some? ==> StricterEdges(now, r.parent.value, q.parent.value))
    && (q.children.Some? ==> Stricter(now, Accounts, r.children.value.spec, q.children.value.spec))
    && (q.children.Some? ==> StricterEdges(now, r.children.value, q.children.value))
  }

  lemma {:induction false} StricterNarrow(now: Database, table: Table, a: Spec, b: Spec, p: Pred, p': Pred,
                                          keep: Option<string>)
    requires Stricter(now, table, a, b) && (keep.Some? ==> keep.value in now.columns(table))
    requires forall row :: Holds(p, row) ==> Holds(p', row)
    ensures Stricter(now, table, NarrowSpec(a, p, keep), NarrowSpec(b, p', keep))
  {
    forall row | Matches(a.preds + [p], row) ensures Matches(b.preds + [p'], row) {
      MatchesConcat(a.preds, [p], row);
      MatchesConcat(b.preds, [p'], row);
      assert Holds([p][0], row);
    }
  }

  lemma {:induction false} NarrowIsStricter(now: Database, table: Table, spec: Spec, p: Pred, keep: Option<string>)
    requires keep.Some? ==> keep.value in now.columns(table)
    ensures Stricter(now, table, NarrowSpec(spec, p, keep), spec)
  {
    forall row | Matches(spec.preds + [p], row) ensures Matches(spec.preds, row) {
      MatchesConcat(spec.preds, [p], row);
    }
  }

  lemma {:induction false} EdgesSame(now: Database, q: AccountQ)
    requires GroupFree(q)
    ensures StricterEdges(now, q, q)
    decreases Height(q)
  {
    if q.parent.Some? {
      EdgesSame(now, q.parent.value);
    }
    if q.children.Some? {
      EdgesSame(now, q.children.value);
    }
  }

  lemma {:induction false} EdgesThen(now: Database, r: AccountQ, n: AccountQ, q: AccountQ)
    requires StricterEdges(now, r, n) && n == q.(spec := n.spec)
    ensures StricterEdges(now, r, q)
  {
  }

  /** A query that was run is stricter than the fresh one, edge by edge. */
  lemma {:induction false} RanIsStricter(db: Database, now: Database, q: AccountQ)
    requires ValidSchema(now) && GroupFree(q)
    ensures StricterEdges(now, Ran(db, q), q)
    decreases Height(q)
  {
    var rows := FirstBatch(db, q);
    if rows == [] {
      EdgesSame(now, q);
    } else {
      var r := RanEdges(db, q, rows);
      assert Ran(db, q) == r;
      RanSubs(db, q, rows);
      RanLeavesStricter(now, db, q, rows);
      if q.parent.Some? {
        var sub := ParentSub(q, rows);
        RanIsStricter(db, now, sub);
        RanSpec(db, sub);
        EdgesThen(now, Ran(db, sub), sub, q.parent.value);
        EdgesSame(now, q.parent.value);
        NarrowIsStricter(now, Accounts, q.parent.value.spec, In(ID, ForeignKeys(rows, PARENT_ID)), None);
      }
      if q.children.Some? {
        var sub := ChildSub(q, rows);
        RanIsStricter(db, now, sub);
        RanSpec(db, sub);
        EdgesThen(now, Ran(db, sub), sub, q.children.value);
        NarrowIsStricter(now, Accounts, q.children.value.spec, In(PARENT_ID, Ids(rows)), Some(PARENT_ID));
      }
    }
  }

  lemma {:induction false} RanLeavesStricter(now: Database, db: Database, q: AccountQ, rows: seq<Row>)
    requires ValidSchema(now)
    ensures var r := RanEdges(db, q, rows);
            && StricterLeaf(now, Proxies, r.proxy, q.proxy)
            && StricterLeaf(now, UsageLogs, r.usageLogs, q.usageLogs)
            && StricterLeaf(now, AccountGroups, r.accountGroups, q.accountGroups)
  {
    if q.proxy.Some? {
      NarrowIsStricter(now, Proxies, q.proxy.value, In(ID, ForeignKeys(rows, PROXY_ID)), None);
    }
    if q.usageLogs.Some? {
      NarrowIsStricter(now, UsageLogs, q.usageLogs.value, In(ACCOUNT_ID, Ids(rows)), Some(ACCOUNT_ID));
    }
    if q.accountGroups.Some? {
      NarrowIsStricter(now, AccountGroups, q.accountGroups.value, In(ACCOUNT_ID, Ids(rows)), Some(ACCOUNT_ID));
    }
  }

  /** One batch is part of another. */
  ghost predicate Part(a: seq<Row>, b: seq<Row>) {
    forall row | row in a :: row in b
  }

  predicate KeysIn(a: seq<int>, b: seq<int>) {
    forall i | 0 <= i < |a| :: a[i] in b
  }

  lemma {:induction false} KeysSome(a: seq<int>, b: seq<int>)
    requires KeysIn(a, b) && a != []
    ensures b != []
  {
    assert a[0] in b;
  }

  lemma {:induction false} KeysPart(a: seq<Row>, b: seq<Row>, column: string)
    requires Part(a, b)
    ensures KeysIn(ForeignKeys(a, column), ForeignKeys(b, column))
  {
    if a != [] {
      var n := |a| - 1;
      assert Part(a[..n], b);
      KeysPart(a[..n], b, column);
      assert a[n] in a;
      var i :| 0 <= i < |b| && b[i] == a[n];
      if RefOf(b[i], column).Some? {
        InForeignKeys(b, column, i);
      }
    }
  }

  lemma {:induction false} IdsPart(a: seq<Row>, b: seq<Row>)
    requires Part(a, b)
    ensures KeysIn(Ids(a), Ids(b))
  {
    forall id | id in Ids(a) ensures id in Ids(b) {
      var i :| 0 <= i < |a| && Ids(a)[i] == id;
      assert a[i] in a;
      var j :| 0 <= j < |b| && b[j] == a[i];
      assert Ids(b)[j] == id;
    }
  }

  lemma {:induction false} SelectPart(rows: seq<Row>, a: Spec, b: Spec)
    requires b.offset == 0 && b.limit == 0 && forall row :: Matches(a.preds, row) ==> Matches(b.preds, row)
    ensures Part(Select(rows, a), Select(rows, b))
  {
    forall row | row in Select(rows, a) ensures row in Select(rows, b) {
      InSelect(rows, a, row);
      assert Free(b) == b;
      InSort(Filter(rows, b.preds), b.rank, row);
      InFilter(rows, b.preds, row);
      PageFree(Sort(Filter(rows, b.preds), b.rank));
    }
  }

  lemma {:induction false} LeafOk(now: Database, table: Table, a: Option<Spec>, b: Option<Spec>, p: Pred, p': Pred,
                                  keep: Option<string>)
    requires StricterLeaf(now, table, a, b) && (keep.Some? ==> keep.value in now.columns(table))
    requires FetchLeaf(now, table, b, p', keep).Ok?
    ensures FetchLeaf(now, table, a, p, keep).Ok?
  {
    if a.Some? {
      FetchOk(now, table, NarrowSpec(a.value, p, keep));
      FetchOk(now, table, NarrowSpec(b.value, p', keep));
    }
  }

  lemma {:induction false} ProxyOk(now: Database, a: Option<Spec>, b: Option<Spec>, rows: seq<Row>, more: seq<Row>)
    requires StricterLeaf(now, Proxies, a, b) && Part(rows, more) && FetchProxies(now, b, more).Ok?
    ensures FetchProxies(now, a, rows).Ok?
  {
    KeysPart(rows, more, PROXY_ID);
    var keys, all := ForeignKeys(rows, PROXY_ID), ForeignKeys(more, PROXY_ID);
    if a.Some? && keys != [] {
      KeysSome(keys, all);
      FetchOk(now, Proxies, Where(a.value, In(ID, keys)));
      FetchOk(now, Proxies, Where(b.value, In(ID, all)));
    }
  }

  /** A sub-query that is stricter, for a part of the batch, succeeds if the other does. */
  lemma {:induction false} SubOk(now: Database, r: AccountQ, q: AccountQ, p: Pred, p': Pred, keep: Option<string>)
    requires ValidSchema(now) && Plain(q) && Unpaged(Some(q.spec)) && Stricter(now, Accounts, r.spec, q.spec)
    requires StricterEdges(now, r, q)
    requires (keep.Some? ==> keep.value in now.columns(Accounts)) && forall row :: Holds(p, row) ==> Holds(p', row)
    requires Load(now, Narrow(q, p', keep)).Ok?
    ensures Load(now, Narrow(r, p, keep)).Ok?
    decreases Height(q), 2
  {
    var a, b := Narrow(r, p, keep), Narrow(q, p', keep);
    StricterNarrow(now, Accounts, r.spec, q.spec, p, p', keep);
    FetchOk(now, Accounts, a.spec);
    FetchOk(now, Accounts, b.spec);
    SelectPart(now.accounts, a.spec, b.spec);
    var rows, more := FirstBatch(now, a), FirstBatch(now, b);
    if rows != [] {
      assert rows[0] in more;
      LoadIs(now, a, rows);
      LoadIs(now, b, more);
      BatchOk(now, a, b, rows, more);
    }
  }

  lemma {:induction false} BatchOk(now: Database, r: AccountQ, q: AccountQ, rows: seq<Row>, more: seq<Row>)
    requires ValidSchema(now) && Plain(q) && StricterEdges(now, r, q) && Part(rows, more)
    requires LoadNeighbours(now, q, more).Ok?
    ensures LoadNeighbours(now, r, rows).Ok?
    decreases Height(q), 1
  {
    NeighboursAre(now, q, more, LoadNeighbours(now, q, more).value);
    LeafOk(now, UsageLogs, r.usageLogs, q.usageLogs, In(ACCOUNT_ID, Ids(rows)), In(ACCOUNT_ID, Ids(more)),
      Some(ACCOUNT_ID));
    LeafOk(now, AccountGroups, r.accountGroups, q.accountGroups, In(ACCOUNT_ID, Ids(rows)),
      In(ACCOUNT_ID, Ids(more)), Some(ACCOUNT_ID));
    ProxyOk(now, r.proxy, q.proxy, rows, more);
    SubsOk(now, r, q, rows, more);
    NeighboursOf(now, r, rows);
  }

  lemma {:induction false} SubsOk(now: Database, r: AccountQ, q: AccountQ, rows: seq<Row>, more: seq<Row>)
    requires ValidSchema(now) && Plain(q) && StricterEdges(now, r, q) && Part(rows, more)
    requires LoadParents(now, q.parent, more).Ok? && LoadChildren(now, q.children, more).Ok?
    ensures LoadSubTrees(now, r.parent, r.children, rows).Ok?
    decreases Height(q), 0
  {
    KeysPart(rows, more, PARENT_ID);
    IdsPart(rows, more);
    var keys, all := ForeignKeys(rows, PARENT_ID), ForeignKeys(more, PARENT_ID);
    if q.parent.Some? && keys != [] {
      KeysSome(keys, all);
      SubOk(now, r.parent.value, q.parent.value, In(ID, keys), In(ID, all), None);
    }
    if q.children.Some? {
      SubOk(now, r.children.value, q.children.value, In(PARENT_ID, Ids(rows)), In(PARENT_ID, Ids(more)),
        Some(PARENT_ID));
    }
  }

  /** Where a fresh query succeeds, so does the query that was run. */
  lemma {:induction false} RerunSucceeds(db: Database, now: Database, q: AccountQ)
    requires ValidSchema(now) && Plain(q) && GroupFree(q) && Load(now, q).Ok?
    ensures Load(now, Ran(db, q)).Ok?
  {
    var later := FirstBatch(now, q);
    RanSpec(db, q);
    if later != [] {
      RanIsStricter(db, now, q);
      LoadIs(now, q, later);
      LoadIs(now, Ran(db, q), later);
      BatchOk(now, Ran(db, q), q, later, later);
    }
  }

  /**
   What a second run loads on a changed database, account by account, where its pages are fair: an account of
   the first batch gets what the nested join of a fresh query finds for its own key, any other account nothing
   there, and a foreign key finds its row only if it was asked for the first time.
   */
  lemma {:induction false} RerunLoads(db: Database, now: Database, q: AccountQ, i: nat)
    requires Keyed(now) && q.groups.None? && Fair(now, Ran(db, q)) && Load(now, Ran(db, q)).Ok?
    requires FirstBatch(db, q) != [] && i < |FirstBatch(now, q)|
    ensures |Load(now, Ran(db, q)).value| == |FirstBatch(now, q)|
    ensures var rows, row, u := FirstBatch(db, q), FirstBatch(now, q)[i], Load(now, Ran(db, q)).value[i];
            var t, known := Nested(now, q, row), IntOf(row, ID) in Ids(rows);
            && u.row == t.row && u.loaded == t.loaded
            && u.usageLogs == (if known then t.usageLogs else [])
            && u.accountGroups == (if known then t.accountGroups else [])
            && u.proxy == (if Asked(ForeignKeys(rows, PROXY_ID), RefOf(row, PROXY_ID)) then t.proxy else None)
            && (q.children.Some? ==>
                  u.children == if known
                    then NestedAll(now, Ran(db, ChildSub(q, rows)), ChildrenOf(now, q, IntOf(row, ID))) else [])
            && (q.parent.Some? ==>
                  u.parent == RerunParentOf(db, now, q, rows, row))
  {
    var rows, row := FirstBatch(db, q), FirstBatch(now, q)[i];
    RanSpec(db, q);
    LoadNested(now, Ran(db, q));
    RerunShares(db, now, q, rows, row);
    if q.children.Some? {
      RerunChildren(db, now, q, rows, row);
    }
    if q.parent.Some? {
      RerunParent(db, now, q, rows, row);
    }
  }

  /**
   Reuse, exactly: a query that was run on `db` and is run again on `now` loads what a fresh query
   loads there, if and only if every account that it now selects is covered by the first run.  Sub-queries
   may be paged as long as both queries are fair to their batches.
   */
  lemma {:induction false} ReuseExactly(db: Database, now: Database, q: AccountQ)
    requires Keyed(now) && GroupFree(q) && Fair(now, q) && Fair(now, Ran(db, q))
    requires Load(now, q).Ok? && Load(now, Ran(db, q)).Ok?
    ensures Load(now, Ran(db, q)) == Load(now, q)
       <==> forall row | row in FirstBatch(now, q) :: Covered(db, now, q, row)
  {
    var later := FirstBatch(now, q);
    RanSpec(db, q);
    LoadNested(now, q);
    LoadNested(now, Ran(db, q));
    forall row | row in later
      ensures Nested(now, Ran(db, q), row) == Nested(now, q, row) <==> Covered(db, now, q, row)
    {
      RerunTree(db, now, q, row);
    }
    SameAll(now, Ran(db, q), q, later);
  }

  /** Without offsets and limits nothing else is asked: where a fresh query succeeds, the iff holds. */
  lemma {:induction false} PlainReuseExactly(db: Database, now: Database, q: AccountQ)
    requires Keyed(now) && Plain(q) && GroupFree(q) && Load(now, q).Ok?
    ensures Load(now, Ran(db, q)) == Load(now, q)
       <==> forall row | row in FirstBatch(now, q) :: Covered(db, now, q, row)
  {
    RanPlain(db, q);
    RerunSucceeds(db, now, q);
    PlainIsFair(now, q);
    PlainIsFair(now, Ran(db, q));
    ReuseExactly(db, now, q);
  }

  /**
   Fairness is needed: with a limit of one, account 1 of the first batch is starved by account 2 in a
   fresh run, and gets its log in the second run, which does not ask for account 2.
   */
  lemma {:induction false} UnfairReuse()
    ensures var spec := Spec([], [], row => -IntOf(row, ID), 0, 1, []);
            var logs := [LogOf(1, 10), LogOf(2, 20)];
            && RowsFor(Select(logs, Where(spec, In(ACCOUNT_ID, [1, 2]))), ACCOUNT_ID, 1) == []
            && RowsFor(Select(logs, Where(Where(spec, In(ACCOUNT_ID, [1])), In(ACCOUNT_ID, [1, 2]))), ACCOUNT_ID, 1)
               == [LogOf(1, 10)]
  {
    var spec := Spec([], [], row => -IntOf(row, ID), 0, 1, []);
    var logs := [LogOf(1, 10), LogOf(2, 20)];
    FreshLogs(logs, spec);
    AgainLogs(logs, spec);
    RowsForOne(LogOf(2, 20), ACCOUNT_ID, 1);
    RowsForOne(LogOf(1, 10), ACCOUNT_ID, 1);
  }

  lemma {:induction false} FreshLogs(logs: seq<Row>, spec: Spec)
    requires logs == [LogOf(1, 10), LogOf(2, 20)] && spec.preds == [] && spec.offset == 0 && spec.limit == 1
    requires forall row: Row :: spec.rank(row) == -IntOf(row, ID)
    ensures Select(logs, Where(spec, In(ACCOUNT_ID, [1, 2]))) == [LogOf(2, 20)]
  {
    var ps := spec.preds + [In(ACCOUNT_ID, [1, 2])];
    assert ps == [In(ACCOUNT_ID, [1, 2])];
    assert Matches(ps, logs[0]) && Matches(ps, logs[1]);
    assert logs[1..] == [logs[1]] && [logs[1]][1..] == [];
    assert Filter([logs[1]], ps) == [logs[1]];
    assert Filter(logs, ps) == logs;
    assert Sort([logs[1]], spec.rank) == [logs[1]];
    assert Insert(logs[0], [], spec.rank) == [logs[0]];
    assert Sort(logs, spec.rank) == [logs[1], logs[0]];
    assert [logs[1], logs[0]][0..][..1] == [logs[1]];
  }

  lemma {:induction false} AgainLogs(logs: seq<Row>, spec: Spec)
    requires logs == [LogOf(1, 10), LogOf(2, 20)] && spec.preds == [] && spec.offset == 0 && spec.limit == 1
    ensures Select(logs, Where(Where(spec, In(ACCOUNT_ID, [1])), In(ACCOUNT_ID, [1, 2]))) == [LogOf(1, 10)]
  {
    var ps := spec.preds + [In(ACCOUNT_ID, [1])] + [In(ACCOUNT_ID, [1, 2])];
    assert ps == [In(ACCOUNT_ID, [1]), In(ACCOUNT_ID, [1, 2])];
    assert Matches(ps, logs[0]) && !Holds(ps[0], logs[1]);
    assert logs[1..] == [logs[1]] && [logs[1]][1..] == [];
    assert Filter([logs[1]], ps) == [];
    assert Filter(logs, ps) == [logs[0]];
    assert [logs[0]][1..] == [];
    assert Sort([logs[0]], spec.rank) == [logs[0]];
    assert [logs[0]][0..] == [logs[0]];
  }
}
