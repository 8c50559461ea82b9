/** Eager loading against a recursive nested-loop join, for query trees of any height. */
module NestedJoin {
  import opened Options
  import opened Rows
  import opened EagerSpec
  import opened EagerLoad
  import opened EagerAll
  import opened EagerGroups
  import opened EagerPages
  import opened GroupJoin
  import opened GroupPages

  // ----- the reference: one account at a time ----------------------------------------------------------------

  /** The sub-query of the children edge, which always reads the foreign key. */
  function KeepParent(q: AccountQ): (r: AccountQ)
    ensures Height(r) == Height(q)
  {
    q.(spec := KeepField(q.spec, PARENT_ID))
  }

  /** All rows of a leaf sub-query, not narrowed to any batch and not paged. */
  function LeafRowsOf(db: Database, table: Table, sub: Option<Spec>): seq<Row> {
    if sub.None? then [] else Select(if table == Groups then db.groups else TableRows(db, table), Free(sub.value))
  }

  function SubRows(db: Database, sub: Option<AccountQ>): seq<Row> {
    if sub.None? then [] else Select(db.accounts, Free(sub.value.spec))
  }

  function SpecOf(sub: Option<AccountQ>): Option<Spec> {
    if sub.None? then None else Some(sub.value.spec)
  }

  /** Offset and limit of a sub-query, applied to what one account finds. */
  function Paged(rows: seq<Row>, sub: Option<Spec>): seq<Row> {
    if sub.None? then rows else Page(rows, sub.value.offset, sub.value.limit)
  }

  /** The row that a nullable foreign key refers to. */
  function Referred(rows: seq<Row>, sub: Option<Spec>, fk: Option<int>): Option<Row> {
    if fk.None? then None else LastRow(Paged(RowsFor(rows, ID, fk.value), sub))
  }

  /**
   The tree of one account: every edge is found by scanning the rows of its sub-query for this
   account alone and paging what is found, and parents and children are joined recursively.
   */
  function Nested(db: Database, q: AccountQ, row: Row): Tree
    decreases Height(q), 1, 0
  {
    var id := IntOf(row, ID);
    Tree(
      Project(row, AccountColumns(db, q)),
      Requested(q),
      ProjectAll(Paged(NestedGroups(LeafRowsOf(db, Groups, q.groups), db.accountGroups, id), q.groups),
                 LeafColumns(db, Groups, q.groups, None)),
      ProjectOne(Referred(LeafRowsOf(db, Proxies, q.proxy), q.proxy, RefOf(row, PROXY_ID)),
                 LeafColumns(db, Proxies, q.proxy, None)),
      NestedParent(db, q, Referred(SubRows(db, q.parent), SpecOf(q.parent), RefOf(row, PARENT_ID))),
      NestedChildren(db, q, Paged(RowsFor(SubRows(db, q.children), PARENT_ID, id), SpecOf(q.children))),
      ProjectAll(Paged(RowsFor(LeafRowsOf(db, UsageLogs, q.usageLogs), ACCOUNT_ID, id), q.usageLogs),
                 LeafColumns(db, UsageLogs, q.usageLogs, Some(ACCOUNT_ID))),
      ProjectAll(Paged(RowsFor(LeafRowsOf(db, AccountGroups, q.accountGroups), ACCOUNT_ID, id), q.accountGroups),
                 LeafColumns(db, AccountGroups, q.accountGroups, Some(ACCOUNT_ID))))
  }

  function NestedParent(db: Database, q: AccountQ, row: Option<Row>): Option<Tree>
    decreases Height(q), 0, 0
  {
    if q.parent.None? || row.None? then None else Some(Nested(db, q.parent.value, row.value))
  }

  function NestedChildren(db: Database, q: AccountQ, rows: seq<Row>): seq<Tree>
    decreases Height(q), 0, 0
  {
    if q.children.None? then []
    else seq(|rows|, i requires 0 <= i < |rows| => Nested(db, KeepParent(q.children.value), rows[i]))
  }

  // ----- when the batch is the nested loop ---------------------------------------------------------------------

  /** The page of this sub-query gives every account of the batch its own page. */
  ghost predicate FairPage(rows: seq<Row>, spec: Spec, column: string, ids: seq<int>) {
    PageAgrees(AllMatches(rows, spec, column, ids), column, spec.offset, spec.limit)
  }

  ghost predicate FairLeaf(db: Database, table: Table, sub: Option<Spec>, column: string, ids: seq<int>) {
    sub.Some? ==> FairPage(TableRows(db, table), sub.value, column, ids)
  }

  predicate Unpaged(sub: Option<Spec>) {
    sub.Some? ==> sub.value.offset == 0 && sub.value.limit == 0
  }

  /** Group sub-queries look at groups only, and their page over the joined rows is fair. */
  ghost predicate FairGroups(db: Database, sub: Option<Spec>, ids: seq<int>) {
    && (sub.Some? ==> Blind(sub.value))
    && (Unpaged(sub) || (DistinctLinks(db.accountGroups) && FairLeaf(db, Groups, sub, OUT, ids)))
  }

  /** Every page of every sub-query, at any depth, is fair to its batch.  The outermost query may be paged at will. */
  ghost predicate Fair(db: Database, q: AccountQ)
    decreases Height(q), 1
  {
    var fetched := Fetch(db, Accounts, q.spec);
    fetched.Ok? && fetched.value != [] ==> FairBatch(db, q, fetched.value)
  }

  ghost predicate FairBatch(db: Database, q: AccountQ, rows: seq<Row>)
    decreases Height(q), 0
  {
    && FairGroups(db, q.groups, Ids(rows))
    && FairLeaf(db, Proxies, q.proxy, ID, ForeignKeys(rows, PROXY_ID))
    && FairParent(db, q.parent, rows)
    && FairChildren(db, q.children, rows)
    && FairLeaf(db, UsageLogs, q.usageLogs, ACCOUNT_ID, Ids(rows))
    && FairLeaf(db, AccountGroups, q.accountGroups, ACCOUNT_ID, Ids(rows))
  }

  ghost predicate FairParent(db: Database, sub: Option<AccountQ>, rows: seq<Row>)
    decreases HeightOf(sub), 2
  {
    var keys := ForeignKeys(rows, PARENT_ID);
    sub.None? || keys == []
    || (FairPage(db.accounts, sub.value.spec, ID, keys) && Fair(db, Narrow(sub.value, In(ID, keys), None)))
  }

  ghost predicate FairChildren(db: Database, sub: Option<AccountQ>, rows: seq<Row>)
    decreases HeightOf(sub), 2
  {
    sub.None?
    || (&& FairPage(db.accounts, sub.value.spec, PARENT_ID, Ids(rows))
        && Fair(db, Narrow(sub.value, In(PARENT_ID, Ids(rows)), Some(PARENT_ID))))
  }

  /** No sub-query, at any depth, has an offset or a limit, and group sub-queries look at groups only. */
  ghost predicate Plain(q: AccountQ) {
    && Unpaged(q.groups) && Unpaged(q.proxy) && Unpaged(q.usageLogs) && Unpaged(q.accountGroups)
    && (q.groups.Some? ==> Blind(q.groups.value))
    && (q.parent.Some? ==> Unpaged(Some(q.parent.value.spec)) && Plain(q.parent.value))
    && (q.children.Some? ==> Unpaged(Some(q.children.value.spec)) && Plain(q.children.value))
  }

  /** Without offsets and limits every batch is fair. */
  lemma {:induction false} PlainIsFair(db: Database, q: AccountQ)
    requires Plain(q)
    ensures Fair(db, q)
    decreases Height(q)
  {
    var fetched := Fetch(db, Accounts, q.spec);
    if fetched.Ok? && fetched.value != [] {
      var keys, ids := ForeignKeys(fetched.value, PARENT_ID), Ids(fetched.value);
      if q.parent.Some? {
        PlainIsFair(db, Narrow(q.parent.value, In(ID, keys), None));
      }
      if q.children.Some? {
        PlainIsFair(db, Narrow(q.children.value, In(PARENT_ID, ids), Some(PARENT_ID)));
      }
    }
  }

  /** Accounts and groups have primary keys, and the join column is not a group column. */
  predicate Keyed(db: Database) {
    ValidSchema(db) && DistinctRows(db.accounts) && DistinctRows(db.groups) && OUT !in db.columns(Groups)
  }

  // ----- narrowing a query to a batch ------------------------------------------------------------------------------

  lemma {:induction false} KeptSelect(rows: seq<Row>, spec: Spec, column: string, p: Pred)
    ensures Select(rows, NarrowSpec(spec, p, Some(column))) == Select(rows, Where(spec, p))
  {
  }

  /** One account's share of a fair batch is the page of what its own scan finds. */
  lemma {:induction false} FairShare(rows: seq<Row>, spec: Spec, column: string, ids: seq<int>, id: int)
    requires FairPage(rows, spec, column, ids) && id in ids
    ensures RowsFor(Select(rows, Where(spec, In(column, ids))), column, id)
         == Page(RowsFor(Select(rows, Free(spec)), column, id), spec.offset, spec.limit)
  {
    BothArePages(rows, spec, column, ids, id);
    AgreesShares(AllMatches(rows, spec, column, ids), column, spec.offset, spec.limit, id);
  }

  lemma {:induction false} LeafShare(db: Database, table: Table, sub: Option<Spec>, ids: seq<int>, id: int)
    requires table == UsageLogs || table == AccountGroups
    requires FairLeaf(db, table, sub, ACCOUNT_ID, ids) && id in ids
    requires FetchLeaf(db, table, sub, In(ACCOUNT_ID, ids), Some(ACCOUNT_ID)).Ok?
    ensures RowsFor(FetchLeaf(db, table, sub, In(ACCOUNT_ID, ids), Some(ACCOUNT_ID)).value, ACCOUNT_ID, id)
         == Paged(RowsFor(LeafRowsOf(db, table, sub), ACCOUNT_ID, id), sub)
  {
    if sub.Some? {
      KeptSelect(TableRows(db, table), sub.value, ACCOUNT_ID, In(ACCOUNT_ID, ids));
      FairShare(TableRows(db, table), sub.value, ACCOUNT_ID, ids, id);
    }
  }

  // ----- many to one -----------------------------------------------------------------------------------------------

  lemma {:induction false} RowByIdLast(rows: seq<Row>, id: int)
    requires forall k | 0 <= k < |rows| :: RefOf(rows[k], ID).Some?
    ensures RowById(rows, Some(id)) == LastRow(RowsFor(rows, ID, id))
  {
    if rows != [] {
      RowByIdLast(rows[..|rows| - 1], id);
    }
  }

  lemma {:induction false} InForeignKeys(rows: seq<Row>, column: string, i: nat)
    requires i < |rows| && RefOf(rows[i], column).Some?
    ensures RefOf(rows[i], column).value in ForeignKeys(rows, column)
  {
    if i < |rows| - 1 {
      InForeignKeys(rows[..|rows| - 1], column, i);
    }
  }

  lemma {:induction false} KeysPresent(rows: seq<Row>, spec: Spec, ids: seq<int>)
    ensures forall k | 0 <= k < |Select(rows, Where(spec, In(ID, ids)))| ::
            RefOf(Select(rows, Where(spec, In(ID, ids)))[k], ID).Some?
  {
    var found := Select(rows, Where(spec, In(ID, ids)));
    forall k | 0 <= k < |found| ensures RefOf(found[k], ID).Some? {
      SelectedIn(rows, spec, In(ID, ids), found[k]);
    }
  }

  lemma {:induction false} ProxyShare(db: Database, sub: Option<Spec>, rows: seq<Row>, i: nat)
    requires FairLeaf(db, Proxies, sub, ID, ForeignKeys(rows, PROXY_ID)) && i < |rows|
    requires FetchProxies(db, sub, rows).Ok?
    ensures RowById(FetchProxies(db, sub, rows).value, RefOf(rows[i], PROXY_ID))
         == Referred(LeafRowsOf(db, Proxies, sub), sub, RefOf(rows[i], PROXY_ID))
  {
    var fk, keys := RefOf(rows[i], PROXY_ID), ForeignKeys(rows, PROXY_ID);
    if fk.Some? {
      InForeignKeys(rows, PROXY_ID, i);
      if sub.Some? {
        KeysPresent(db.proxies, sub.value, keys);
        RowByIdLast(FetchProxies(db, sub, rows).value, fk.value);
        FairShare(db.proxies, sub.value, ID, keys, fk.value);
      }
    }
  }

  // ----- trees of a batch --------------------------------------------------------------------------------------------

  /** The nested join of every row. */
  function NestedAll(db: Database, q: AccountQ, rows: seq<Row>): (trees: seq<Tree>)
    ensures |trees| == |rows| && forall i | 0 <= i < |rows| :: trees[i] == Nested(db, q, rows[i])
  {
    seq(|rows|, i requires 0 <= i < |rows| => Nested(db, q, rows[i]))
  }

  lemma {:induction false} NestedAllInit(db: Database, q: AccountQ, rows: seq<Row>)
    requires rows != []
    ensures NestedAll(db, q, rows)[..|rows| - 1] == NestedAll(db, q, rows[..|rows| - 1])
  {
  }

  lemma {:induction false} TreeByIdLast(db: Database, q: AccountQ, rows: seq<Row>, id: int)
    requires ID in AccountColumns(db, q) && forall k | 0 <= k < |rows| :: RefOf(rows[k], ID).Some?
    ensures TreeById(NestedAll(db, q, rows), Some(id))
         == var row := LastRow(RowsFor(rows, ID, id)); if row.None? then None else Some(Nested(db, q, row.value))
  {
    var trees := NestedAll(db, q, rows);
    forall k | 0 <= k < |rows| ensures IntOf(trees[k].row, ID) == IntOf(rows[k], ID) {
      ProjectKeeps(rows[k], AccountColumns(db, q), ID);
    }
    TreeOfLast(trees, rows, row => Nested(db, q, row), id);
  }

  lemma {:induction false} TreeOfLast(trees: seq<Tree>, rows: seq<Row>, tree: Row -> Tree, id: int)
    requires |trees| == |rows| && forall k | 0 <= k < |rows| :: RefOf(rows[k], ID).Some?
    requires forall k | 0 <= k < |rows| :: trees[k] == tree(rows[k]) && IntOf(trees[k].row, ID) == IntOf(rows[k], ID)
    ensures TreeById(trees, Some(id))
         == var row := LastRow(RowsFor(rows, ID, id)); if row.None? then None else Some(tree(row.value))
  {
    if rows != [] {
      TreeOfLast(trees[..|rows| - 1], rows[..|rows| - 1], tree, id);
    }
  }

  lemma {:induction false} TreesForNested(db: Database, q: AccountQ, rows: seq<Row>, id: int)
    requires PARENT_ID in AccountColumns(db, q)
    ensures TreesFor(NestedAll(db, q, rows), PARENT_ID, id) == NestedAll(db, q, RowsFor(rows, PARENT_ID, id))
  {
    if rows != [] {
      var n := |rows| - 1;
      TreesForNested(db, q, rows[..n], id);
      NestedAllInit(db, q, rows);
      ProjectKeeps(rows[n], AccountColumns(db, q), PARENT_ID);
      var before := RowsFor(rows[..n], PARENT_ID, id);
      assert NestedAll(db, q, before + [rows[n]]) == NestedAll(db, q, before) + [Nested(db, q, rows[n])];
    }
  }

  lemma {:induction false} ChildrenNested(db: Database, q: AccountQ, rows: seq<Row>)
    requires q.children.Some?
    ensures NestedChildren(db, q, rows) == NestedAll(db, KeepParent(q.children.value), rows)
  {
  }

  /** The tree of an account does not depend on which accounts the query selects, only on what it reads of them. */
  lemma {:induction false} NestedNarrow(db: Database, q: AccountQ, p: Pred, row: Row)
    ensures Nested(db, Narrow(q, p, None), row) == Nested(db, q, row)
    ensures Nested(db, Narrow(q, p, Some(PARENT_ID)), row) == Nested(db, KeepParent(q), row)
  {
    NestedEdges(db, q, Narrow(q, p, None), row);
    NestedEdges(db, KeepParent(q), Narrow(q, p, Some(PARENT_ID)), row);
  }

  lemma {:induction false} NestedEdges(db: Database, q: AccountQ, r: AccountQ, row: Row)
    requires r == q.(spec := r.spec) && r.spec.fields == q.spec.fields
    ensures Nested(db, q, row) == Nested(db, r, row)
  {
    if q.children.Some? {
      var kids := Paged(RowsFor(SubRows(db, q.children), PARENT_ID, IntOf(row, ID)), SpecOf(q.children));
      ChildrenNested(db, q, kids);
      ChildrenNested(db, r, kids);
    }
  }

  lemma {:induction false} ParentShare(db: Database, q: AccountQ, rows: seq<Row>, i: nat)
    requires Keyed(db) && q.parent.Some? && FairParent(db, q.parent, rows) && i < |rows|
    requires LoadParents(db, q.parent, rows).Ok?
    ensures TreeById(LoadParents(db, q.parent, rows).value, RefOf(rows[i], PARENT_ID))
         == NestedParent(db, q, Referred(SubRows(db, q.parent), SpecOf(q.parent), RefOf(rows[i], PARENT_ID)))
    decreases Height(q), 0
  {
    var fk, keys, sub := RefOf(rows[i], PARENT_ID), ForeignKeys(rows, PARENT_ID), q.parent.value;
    if fk.Some? {
      InForeignKeys(rows, PARENT_ID, i);
      var narrowed := Narrow(sub, In(ID, keys), None);
      LoadNested(db, narrowed);
      var found := Fetch(db, Accounts, narrowed.spec).value;
      SameTrees(db, narrowed, sub, found, In(ID, keys), None);
      KeyColumns(db, sub);
      KeysPresent(db.accounts, sub.spec, keys);
      TreeByIdLast(db, sub, found, fk.value);
      FairShare(db.accounts, sub.spec, ID, keys, fk.value);
    }
  }

  lemma {:induction false} SameTrees(db: Database, narrowed: AccountQ, q: AccountQ, rows: seq<Row>, p: Pred,
                                     keep: Option<string>)
    requires keep == None || keep == Some(PARENT_ID)
    requires narrowed == Narrow(q, p, keep)
    ensures NestedAll(db, narrowed, rows) == NestedAll(db, if keep == None then q else KeepParent(q), rows)
  {
    forall i | 0 <= i < |rows|
      ensures Nested(db, narrowed, rows[i]) == Nested(db, if keep == None then q else KeepParent(q), rows[i])
    {
      NestedNarrow(db, q, p, rows[i]);
    }
  }

  lemma {:induction false} ChildrenShare(db: Database, q: AccountQ, rows: seq<Row>, i: nat)
    requires Keyed(db) && q.children.Some? && FairChildren(db, q.children, rows) && i < |rows|
    requires LoadChildren(db, q.children, rows).Ok?
    ensures TreesFor(LoadChildren(db, q.children, rows).value, PARENT_ID, IntOf(rows[i], ID))
         == NestedChildren(db, q,
           Paged(RowsFor(SubRows(db, q.children), PARENT_ID, IntOf(rows[i], ID)), SpecOf(q.children)))
    decreases Height(q), 0
  {
    var id, ids, sub := IntOf(rows[i], ID), Ids(rows), q.children.value;
    assert ids[i] == id;
    var narrowed := Narrow(sub, In(PARENT_ID, ids), Some(PARENT_ID));
    LoadNested(db, narrowed);
    var found := Fetch(db, Accounts, narrowed.spec).value;
    SameTrees(db, narrowed, sub, found, In(PARENT_ID, ids), Some(PARENT_ID));
    NarrowedColumn(db, sub, In(PARENT_ID, ids), Some(PARENT_ID));
    assert AccountColumns(db, KeepParent(sub)) == AccountColumns(db, narrowed);
    TreesForNested(db, KeepParent(sub), found, id);
    KeptSelect(db.accounts, sub.spec, PARENT_ID, In(PARENT_ID, ids));
    FairShare(db.accounts, sub.spec, PARENT_ID, ids, id);
    ChildrenNested(db, q, Paged(RowsFor(SubRows(db, q.children), PARENT_ID, id), SpecOf(q.children)));
  }

  lemma {:induction false} GroupColumns(db: Database, sub: Option<Spec>, rows: seq<Row>)
    requires Keyed(db) && FetchLeaf(db, Groups, sub, In(OUT, Ids(rows)), None).Ok?
    ensures OUT !in LeafColumns(db, Groups, sub, None)
  {
    if sub.Some? && sub.value.fields != [] {
      InColumns(db, Groups, sub.value.fields, [], OUT);
      if OUT in sub.value.fields {
        ValidFields(sub.value.fields, db.columns(Groups), OUT);
      }
    }
  }

  lemma {:induction false} ValidFields(fields: seq<string>, columns: seq<string>, field: string)
    requires FirstInvalid(fields, columns).None? && field in fields
    ensures field in columns
  {
    if fields[0] != field {
      ValidFields(fields[1..], columns, field);
    }
  }

  lemma {:induction false} GroupShare(db: Database, sub: Option<Spec>, rows: seq<Row>, i: nat)
    requires Keyed(db) && FairGroups(db, sub, Ids(rows)) && i < |rows|
    requires FetchLeaf(db, Groups, sub, In(OUT, Ids(rows)), None).Ok?
    ensures var columns := LeafColumns(db, Groups, sub, None);
            ProjectAll(GroupsFor(FetchLeaf(db, Groups, sub, In(OUT, Ids(rows)), None).value, IntOf(rows[i], ID)),
              columns)
            == ProjectAll(Paged(NestedGroups(LeafRowsOf(db, Groups, sub), db.accountGroups, IntOf(rows[i], ID)),
              sub), columns)
  {
    var id, columns := IntOf(rows[i], ID), LeafColumns(db, Groups, sub, None);
    assert Ids(rows)[i] == id;
    if sub.Some? {
      GroupColumns(db, sub, rows);
      FairGroupShare(db.groups, db.accountGroups, sub.value, Ids(rows), id, columns);
    }
  }

  lemma {:induction false} FairGroupShare(groups: seq<Row>, links: seq<Row>, spec: Spec, ids: seq<int>, account: int,
                                          columns: seq<string>)
    requires DistinctRows(groups) && Blind(spec) && account in ids && OUT !in columns
    requires (spec.offset == 0 && spec.limit == 0)
             || (DistinctLinks(links) && FairPage(Joined(groups, links), spec, OUT, ids))
    ensures ProjectAll(GroupsFor(Select(Joined(groups, links), Where(spec, In(OUT, ids))), account), columns)
         == ProjectAll(Page(NestedGroups(Select(groups, Free(spec)), links, account), spec.offset, spec.limit), columns)
  {
    if spec.offset == 0 && spec.limit == 0 {
      assert Free(spec) == spec;
      GroupsNested(groups, links, spec, ids, account, columns);
      PageFree(NestedGroups(Select(groups, spec), links, account));
    } else {
      GroupsPaged(groups, links, spec, ids, account, columns);
    }
  }

  /** Where each part of a batch's neighbours comes from. */
  lemma {:induction false} NeighboursAre(db: Database, q: AccountQ, rows: seq<Row>, ns: Neighbours)
    requires LoadNeighbours(db, q, rows) == Ok(ns)
    ensures FetchLeaf(db, Groups, q.groups, In(OUT, Ids(rows)), None) == Ok(ns.groups)
    ensures FetchProxies(db, q.proxy, rows) == Ok(ns.proxies)
    ensures LoadParents(db, q.parent, rows) == Ok(ns.parents)
    ensures LoadChildren(db, q.children, rows) == Ok(ns.children)
    ensures FetchLeaf(db, UsageLogs, q.usageLogs, In(ACCOUNT_ID, Ids(rows)), Some(ACCOUNT_ID)) == Ok(ns.usageLogs)
    ensures FetchLeaf(db, AccountGroups, q.accountGroups, In(ACCOUNT_ID, Ids(rows)), Some(ACCOUNT_ID))
            == Ok(ns.accountGroups)
  {
  }

  lemma {:induction false} AttachNested(db: Database, q: AccountQ, rows: seq<Row>, ns: Neighbours, i: nat)
    requires Keyed(db) && FairBatch(db, q, rows) && DistinctRows(rows) && i < |rows|
    requires LoadNeighbours(db, q, rows) == Ok(ns)
    ensures Attach(db, q, rows, ns, i) == Nested(db, q, rows[i])
    decreases Height(q), 1
  {
    assert IsLast(rows, i);
    NeighboursAre(db, q, rows, ns);
    GroupShare(db, q.groups, rows, i);
    ProxyShare(db, q.proxy, rows, i);
    if q.parent.Some? {
      ParentShare(db, q, rows, i);
    }
    if q.children.Some? {
      ChildrenShare(db, q, rows, i);
    }
    LeafShare(db, UsageLogs, q.usageLogs, Ids(rows), IntOf(rows[i], ID));
    LeafShare(db, AccountGroups, q.accountGroups, Ids(rows), IntOf(rows[i], ID));
  }

  /**
   The nested-loop theorem: a successful load of any tree of sub-queries gives, for every selected
   account, exactly the tree that the recursive join finds for it alone.
   */
  lemma {:induction false} LoadNested(db: Database, q: AccountQ)
    requires Keyed(db) && Fair(db, q) && Load(db, q).Ok?
    ensures Fetch(db, Accounts, q.spec).Ok?
    ensures Load(db, q).value == NestedAll(db, q, Fetch(db, Accounts, q.spec).value)
    decreases Height(q), 2
  {
    var rows := Fetch(db, Accounts, q.spec).value;
    if rows != [] {
      SelectDistinct(db.accounts, q.spec);
      LoadIs(db, q, rows);
      var ns := LoadNeighbours(db, q, rows).value;
      forall i | 0 <= i < |rows| ensures Attach(db, q, rows, ns, i) == Nested(db, q, rows[i]) {
        AttachNested(db, q, rows, ns, i);
      }
    }
  }

  // ----- a sub-query that looks at the account ----------------------------------------------------------------------

  lemma {:induction false} ByAccountSees()
    ensures !Blind(BY_ACCOUNT)
  {
    var row: Row := map[ID := Int(5)];
    var seen := row[OUT := Int(1)];
    assert IntOf(row, ID) == 5 && IntOf(row, OUT) == 0 && IntOf(seen, OUT) == 1;
    assert BY_ACCOUNT.rank(seen) == -100 && BY_ACCOUNT.rank(row) == -5;
    assert BY_ACCOUNT.rank(row[OUT := Int(1)]) != BY_ACCOUNT.rank(row);
  }

  /**
   That group sub-queries look at groups only is not necessary: one that orders by the account is not
   fair, and on a database without groups it loads the nested join all the same.
   */
  lemma {:induction false} UnfairYetNested(db: Database, spec: Spec)
    requires var q := AccountQ(spec, Some(BY_ACCOUNT), None, None, None, None, None);
             && Keyed(db) && db.groups == [] && Load(db, q).Ok? && Load(db, q).value != []
    ensures var q := AccountQ(spec, Some(BY_ACCOUNT), None, None, None, None, None);
            && Fetch(db, Accounts, spec).Ok?
            && Load(db, q).value == NestedAll(db, q, Fetch(db, Accounts, spec).value)
            && !Fair(db, q)
  {
    var q, rows := AccountQ(spec, Some(BY_ACCOUNT), None, None, None, None, None), Fetch(db, Accounts, spec).value;
    LoadIs(db, q, rows);
    var ns := LoadNeighbours(db, q, rows).value;
    NeighboursAre(db, q, rows, ns);
    ByAccountSees();
    forall i | 0 <= i < |rows| ensures Attach(db, q, rows, ns, i) == Nested(db, q, rows[i]) {
      NoGroups(db, q, rows, ns, i);
    }
  }

  lemma {:induction false} SelectEmpty(spec: Spec)
    ensures Select([], spec) == []
  {
    assert Filter([], spec.preds) == [] && Sort([], spec.rank) == [];
  }

  lemma {:induction false} NoGroups(db: Database, q: AccountQ, rows: seq<Row>, ns: Neighbours, i: nat)
    requires i < |rows| && db.groups == [] && q == AccountQ(q.spec, Some(BY_ACCOUNT), None, None, None, None, None)
    requires LoadNeighbours(db, q, rows) == Ok(ns)
    ensures Attach(db, q, rows, ns, i) == Nested(db, q, rows[i])
  {
    var id := IntOf(rows[i], ID);
    NeighboursAre(db, q, rows, ns);
    SelectEmpty(NarrowSpec(BY_ACCOUNT, In(OUT, Ids(rows)), None));
    SelectEmpty(Free(BY_ACCOUNT));
    assert ns.groups == [] && LeafRowsOf(db, Groups, q.groups) == [];
    assert FirstRows([]) == [] && GroupsIn([], [], id) == [];
    assert NestedGroups([], db.accountGroups, id) == [];
    assert RowsFor([], ACCOUNT_ID, id) == [] && RowsFor([], PARENT_ID, id) == [];
  }
}
