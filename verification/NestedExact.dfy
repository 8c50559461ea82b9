/** Fairness of the pages is exactly what the nested-loop theorem needs, over whole trees of sub-queries. */
module NestedExact {
  import opened Options
  import opened Rows
  import opened EagerSpec
  import opened EagerLoad
  import opened EagerAll
  import opened EagerPages
  import opened GroupJoin
  import opened GroupPages
  import opened NestedJoin

  /** The other tables have primary keys too, and the key columns that tell their rows apart. */
  predicate AllKeyed(db: Database) {
    && Keyed(db) && DistinctRows(db.proxies) && DistinctRows(db.usageLogs) && DistinctLinks(db.accountGroups)
    && ID in db.columns(UsageLogs) && GROUP_ID in db.columns(AccountGroups)
  }

  /** At any depth group sub-queries look at groups only, and selected account groups show their group. */
  ghost predicate Telling(q: AccountQ) {
    && (q.groups.Some? ==> Blind(q.groups.value))
    && (q.accountGroups.Some? ==> q.accountGroups.value.fields == [] || GROUP_ID in q.accountGroups.value.fields)
    && (q.parent.Some? ==> Telling(q.parent.value))
    && (q.children.Some? ==> Telling(q.children.value))
  }

  // ----- rows that look the same ------------------------------------------------------------------------------------

  ghost predicate TellsApart(table: seq<Row>, columns: seq<string>) {
    forall a, b | a in table && b in table && Project(a, columns) == Project(b, columns) :: a == b
  }

  lemma {:induction false} IdTellsApart(table: seq<Row>, columns: seq<string>)
    requires DistinctRows(table) && ID in columns
    ensures TellsApart(table, columns)
  {
    forall a, b | a in table && b in table && Project(a, columns) == Project(b, columns) ensures a == b {
      ProjectKeeps(a, columns, ID);
      ProjectKeeps(b, columns, ID);
      var i :| 0 <= i < |table| && table[i] == a;
      var j :| 0 <= j < |table| && table[j] == b;
    }
  }

  lemma {:induction false} LinkTellsApart(links: seq<Row>, columns: seq<string>)
    requires DistinctLinks(links) && GROUP_ID in columns && ACCOUNT_ID in columns
    ensures TellsApart(links, columns) && NoRepeat(links)
  {
    forall a, b | a in links && b in links && Project(a, columns) == Project(b, columns) ensures a == b {
      ProjectKeeps(a, columns, GROUP_ID);
      ProjectKeeps(b, columns, GROUP_ID);
      ProjectKeeps(a, columns, ACCOUNT_ID);
      ProjectKeeps(b, columns, ACCOUNT_ID);
      var i :| 0 <= i < |links| && links[i] == a;
      var j :| 0 <= j < |links| && links[j] == b;
    }
  }

  lemma {:induction false} SameRows(table: seq<Row>, a: seq<Row>, b: seq<Row>, columns: seq<string>)
    requires TellsApart(table, columns) && ProjectAll(a, columns) == ProjectAll(b, columns)
    requires forall row | row in a || row in b :: row in table
    ensures a == b
  {
    assert |a| == |ProjectAll(a, columns)| == |b|;
    forall i | 0 <= i < |a| ensures a[i] == b[i] {
      assert Project(a[i], columns) == ProjectAll(a, columns)[i] == ProjectAll(b, columns)[i] == Project(b[i], columns);
      assert a[i] in a && b[i] in b;
    }
  }

  // ----- one edge ---------------------------------------------------------------------------------------------------

  /** The page of what one account finds alone. */
  function OwnShare(table: seq<Row>, spec: Spec, column: string, id: int): seq<Row> {
    Page(RowsFor(Select(table, Free(spec)), column, id), spec.offset, spec.limit)
  }

  lemma {:induction false} ShareIn(table: seq<Row>, spec: Spec, column: string, ids: seq<int>, id: int)
    ensures forall row | row in Batched(table, spec, column, ids, id) || row in OwnShare(table, spec, column, id) ::
              row in table && RefOf(row, column) == Some(id)
  {
    var all := Select(table, Where(spec, In(column, ids)));
    RowsForAll(all, column, id);
    RowsForAll(Select(table, Free(spec)), column, id);
    PageIn(RowsFor(Select(table, Free(spec)), column, id), spec.offset, spec.limit);
    forall row | row in all ensures row in table {
      InSelect(table, Where(spec, In(column, ids)), row);
    }
    forall row | row in Select(table, Free(spec)) ensures row in table {
      InSelect(table, Free(spec), row);
    }
  }

  /** A batch that looks fair to every account is fair. */
  lemma {:induction false} PageNeeded(table: seq<Row>, spec: Spec, column: string, ids: seq<int>, columns: seq<string>)
    requires NoRepeat(table) && TellsApart(table, columns)
    requires forall id | id in ids ::
               ProjectAll(Batched(table, spec, column, ids, id), columns)
               == ProjectAll(OwnShare(table, spec, column, id), columns)
    ensures FairPage(table, spec, column, ids)
  {
    forall id | id in ids ensures Batched(table, spec, column, ids, id) == Alone(table, spec, column, id) {
      ShareIn(table, spec, column, ids, id);
      SameRows(table, Batched(table, spec, column, ids, id), OwnShare(table, spec, column, id), columns);
      BothArePages(table, spec, column, ids, id);
    }
    BatchExactly(table, spec, column, ids);
  }

  lemma {:induction false} SingleShare(table: seq<Row>, spec: Spec, keys: seq<int>, key: int)
    requires DistinctRows(table)
    ensures |Batched(table, spec, ID, keys, key)| <= 1 && |OwnShare(table, spec, ID, key)| <= 1
    ensures var a, b := Batched(table, spec, ID, keys, key), OwnShare(table, spec, ID, key);
            (a == [] <==> b == []) ==> a == b
  {
    var a, b := Batched(table, spec, ID, keys, key), OwnShare(table, spec, ID, key);
    SelectDistinct(table, Where(spec, In(ID, keys)));
    AtMostOne(Select(table, Where(spec, In(ID, keys))), key);
    SelectDistinct(table, Free(spec));
    AtMostOne(Select(table, Free(spec)), key);
    ShareIn(table, spec, ID, keys, key);
    if a != [] && b != [] {
      assert a[0] in a && b[0] in b;
      var i :| 0 <= i < |table| && table[i] == a[0];
      var j :| 0 <= j < |table| && table[j] == b[0];
      assert a[0] == b[0];
    }
  }

  /** With unique ids it is enough that the batch finds a row for every key that finds one alone. */
  lemma {:induction false} KeysNeeded(table: seq<Row>, spec: Spec, keys: seq<int>)
    requires DistinctRows(table)
    requires forall key | key in keys ::
               Batched(table, spec, ID, keys, key) == [] <==> OwnShare(table, spec, ID, key) == []
    ensures FairPage(table, spec, ID, keys)
  {
    forall key | key in keys ensures Batched(table, spec, ID, keys, key) == Alone(table, spec, ID, key) {
      SingleShare(table, spec, keys, key);
      BothArePages(table, spec, ID, keys, key);
    }
    DistinctPage(table, 0, 0);
    BatchExactly(table, spec, ID, keys);
  }

  lemma {:induction false} KeyOf(rows: seq<Row>, column: string, key: int) returns (i: nat)
    requires key in ForeignKeys(rows, column)
    ensures i < |rows| && RefOf(rows[i], column) == Some(key)
  {
    var n := |rows| - 1;
    if key in ForeignKeys(rows[..n], column) {
      i := KeyOf(rows[..n], column, key);
    } else {
      i := n;
    }
  }

  // ----- the leaves -------------------------------------------------------------------------------------------------

  lemma {:induction false} LeafNeeded(db: Database, table: Table, sub: Option<Spec>, ids: seq<int>)
    requires AllKeyed(db) && (table == UsageLogs || table == AccountGroups)
    requires table == AccountGroups && sub.Some? ==> sub.value.fields == [] || GROUP_ID in sub.value.fields
    requires FetchLeaf(db, table, sub, In(ACCOUNT_ID, ids), Some(ACCOUNT_ID)).Ok?
    requires var columns := LeafColumns(db, table, sub, Some(ACCOUNT_ID));
             var found := FetchLeaf(db, table, sub, In(ACCOUNT_ID, ids), Some(ACCOUNT_ID)).value;
             forall id | id in ids ::
               ProjectAll(RowsFor(found, ACCOUNT_ID, id), columns)
               == ProjectAll(Paged(RowsFor(LeafRowsOf(db, table, sub), ACCOUNT_ID, id), sub), columns)
    ensures FairLeaf(db, table, sub, ACCOUNT_ID, ids)
  {
    if sub.Some? {
      var columns, rows := LeafColumns(db, table, sub, Some(ACCOUNT_ID)), TableRows(db, table);
      KeptSelect(rows, sub.value, ACCOUNT_ID, In(ACCOUNT_ID, ids));
      LeafTells(db, table, sub.value);
      PageNeeded(rows, sub.value, ACCOUNT_ID, ids, columns);
    }
  }

  lemma {:induction false} LeafTells(db: Database, table: Table, spec: Spec)
    requires AllKeyed(db) && (table == UsageLogs || table == AccountGroups)
    requires table == AccountGroups ==> spec.fields == [] || GROUP_ID in spec.fields
    ensures TellsApart(TableRows(db, table), LeafColumns(db, table, Some(spec), Some(ACCOUNT_ID)))
    ensures NoRepeat(TableRows(db, table))
  {
    var fields := KeepField(spec, ACCOUNT_ID).fields;
    var columns := Columns(db, table, fields, []);
    if fields != [] {
      InColumns(db, table, fields, [], ID);
      InColumns(db, table, fields, [], ACCOUNT_ID);
      InColumns(db, table, fields, [], GROUP_ID);
    }
    if table == UsageLogs {
      IdTellsApart(db.usageLogs, columns);
      DistinctPage(db.usageLogs, 0, 0);
    } else {
      LinkTellsApart(db.accountGroups, columns);
    }
  }

  lemma {:induction false} ProxiesNeeded(db: Database, sub: Option<Spec>, rows: seq<Row>)
    requires AllKeyed(db) && FetchProxies(db, sub, rows).Ok?
    requires forall i | 0 <= i < |rows| ::
               RowById(FetchProxies(db, sub, rows).value, RefOf(rows[i], PROXY_ID)).Some?
               <==> Referred(LeafRowsOf(db, Proxies, sub), sub, RefOf(rows[i], PROXY_ID)).Some?
    ensures FairLeaf(db, Proxies, sub, ID, ForeignKeys(rows, PROXY_ID))
  {
    if sub.Some? {
      var keys := ForeignKeys(rows, PROXY_ID);
      forall key | key in keys
        ensures Batched(db.proxies, sub.value, ID, keys, key) == [] <==> OwnShare(db.proxies, sub.value, ID, key) == []
      {
        var i := KeyOf(rows, PROXY_ID, key);
        KeysPresent(db.proxies, sub.value, keys);
        RowByIdLast(FetchProxies(db, sub, rows).value, key);
      }
      KeysNeeded(db.proxies, sub.value, keys);
    }
  }

  lemma {:induction false} GroupsNeeded(db: Database, sub: Option<Spec>, ids: seq<int>)
    requires AllKeyed(db) && (sub.Some? ==> Blind(sub.value))
    requires FetchLeaf(db, Groups, sub, In(OUT, ids), None).Ok?
    requires var columns := LeafColumns(db, Groups, sub, None);
             var found := FetchLeaf(db, Groups, sub, In(OUT, ids), None).value;
             forall id | id in ids ::
               ProjectAll(GroupsFor(found, id), columns)
               == ProjectAll(Paged(NestedGroups(LeafRowsOf(db, Groups, sub), db.accountGroups, id), sub), columns)
    ensures FairGroups(db, sub, ids)
  {
    if sub.Some? {
      var columns, spec := LeafColumns(db, Groups, sub, None), sub.value;
      ColumnsHaveID(db, Groups, spec.fields, []);
      NoOut(db, spec.fields);
      forall id | id in ids
        ensures GroupsInBatch(db.groups, db.accountGroups, spec, ids, id, columns)
             == OwnGroups(db.groups, db.accountGroups, spec, id, columns)
      {
      }
      GroupPageNeeded(db.groups, db.accountGroups, spec, ids, columns);
    }
  }

  /** What one account finds alone, by the nested loop. */
  function OwnGroups(groups: seq<Row>, links: seq<Row>, spec: Spec, id: int, columns: seq<string>): seq<Row> {
    ProjectAll(Page(NestedGroups(Select(groups, Free(spec)), links, id), spec.offset, spec.limit), columns)
  }

  lemma {:induction false} GroupPageNeeded(groups: seq<Row>, links: seq<Row>, spec: Spec, ids: seq<int>,
                                           columns: seq<string>)
    requires DistinctRows(groups) && DistinctLinks(links) && Blind(spec) && OUT !in columns && ID in columns
    requires forall id | id in ids ::
               GroupsInBatch(groups, links, spec, ids, id, columns) == OwnGroups(groups, links, spec, id, columns)
    ensures FairPage(Joined(groups, links), spec, OUT, ids)
  {
    forall id | id in ids
      ensures GroupsInBatch(groups, links, spec, ids, id, columns)
           == GroupsInBatch(groups, links, spec, [id], id, columns)
    {
      GroupsAlone(groups, links, spec, id, columns);
    }
    GroupsExactly(groups, links, spec, ids, columns);
  }

  lemma {:induction false} NoOut(db: Database, fields: seq<string>)
    requires Keyed(db) && FirstInvalid(fields, db.columns(Groups)).None?
    ensures OUT !in Columns(db, Groups, fields, [])
  {
    if fields != [] {
      InColumns(db, Groups, fields, [], OUT);
      if OUT in fields {
        ValidFields(fields, db.columns(Groups), OUT);
      }
    }
  }

  /** For one account alone the joined query gives the page of the nested loop. */
  lemma {:induction false} GroupsAlone(groups: seq<Row>, links: seq<Row>, spec: Spec, id: int, columns: seq<string>)
    requires DistinctRows(groups) && DistinctLinks(links) && Blind(spec) && OUT !in columns
    ensures GroupsInBatch(groups, links, spec, [id], id, columns) == OwnGroups(groups, links, spec, id, columns)
  {
    var found := AllMatches(Joined(groups, links), spec, OUT, [id]);
    MatchesOwned(Joined(groups, links), spec, OUT, [id]);
    forall i, j | 0 <= i < |found| && 0 <= j < |found| ensures RefOf(found[i], OUT) == RefOf(found[j], OUT) {
      assert found[i] in found && found[j] in found;
    }
    assert OneParent(found, OUT);
    GroupsPaged(groups, links, spec, [id], id, columns);
  }

  // ----- parents and children --------------------------------------------------------------------------------------

  /** The trees that a load returns show the rows that it fetched. */
  lemma {:induction false} LoadShows(db: Database, q: AccountQ)
    requires Load(db, q).Ok?
    ensures Fetch(db, Accounts, q.spec).Ok?
    ensures Shown(Load(db, q).value, Fetch(db, Accounts, q.spec).value, AccountColumns(db, q))
  {
    var rows := Fetch(db, Accounts, q.spec).value;
    if rows != [] {
      LoadIs(db, q, rows);
    }
  }

  predicate Shown(trees: seq<Tree>, rows: seq<Row>, columns: seq<string>) {
    |trees| == |rows| && forall k | 0 <= k < |rows| :: trees[k].row == Project(rows[k], columns)
  }

  lemma {:induction false} TreeByIdFinds(trees: seq<Tree>, rows: seq<Row>, columns: seq<string>, id: int)
    requires Shown(trees, rows, columns) && ID in columns
    requires forall k | 0 <= k < |rows| :: RefOf(rows[k], ID).Some?
    ensures TreeById(trees, Some(id)) == None <==> RowsFor(rows, ID, id) == []
  {
    if rows != [] {
      var n := |rows| - 1;
      ProjectKeeps(rows[n], columns, ID);
      TreeByIdFinds(trees[..n], rows[..n], columns, id);
    }
  }

  lemma {:induction false} TreeByIdAt(trees: seq<Tree>, k: nat)
    requires k < |trees|
    requires forall j | k < j < |trees| :: IntOf(trees[j].row, ID) != IntOf(trees[k].row, ID)
    ensures TreeById(trees, Some(IntOf(trees[k].row, ID))) == Some(trees[k])
  {
    if k < |trees| - 1 {
      TreeByIdAt(trees[..|trees| - 1], k);
    }
  }

  /** What the parent of every account of the batch is, if the load is the nested join. */
  ghost predicate ParentsServed(db: Database, q: AccountQ, rows: seq<Row>)
    requires LoadParents(db, q.parent, rows).Ok?
  {
    forall i | 0 <= i < |rows| ::
      TreeById(LoadParents(db, q.parent, rows).value, RefOf(rows[i], PARENT_ID))
      == NestedParent(db, q, Referred(SubRows(db, q.parent), SpecOf(q.parent), RefOf(rows[i], PARENT_ID)))
  }

  lemma {:induction false} ParentPageNeeded(db: Database, q: AccountQ, rows: seq<Row>)
    requires AllKeyed(db) && q.parent.Some? && ForeignKeys(rows, PARENT_ID) != [] && LoadParents(db, q.parent, rows).Ok?
    requires ParentsServed(db, q, rows)
    ensures FairPage(db.accounts, q.parent.value.spec, ID, ForeignKeys(rows, PARENT_ID))
  {
    var sub, keys := q.parent.value, ForeignKeys(rows, PARENT_ID);
    var narrowed := Narrow(sub, In(ID, keys), None);
    var found, trees := Fetch(db, Accounts, narrowed.spec).value, Load(db, narrowed).value;
    LoadShows(db, narrowed);
    KeyColumns(db, narrowed);
    KeysPresent(db.accounts, sub.spec, keys);
    forall key | key in keys
      ensures Batched(db.accounts, sub.spec, ID, keys, key) == [] <==> OwnShare(db.accounts, sub.spec, ID, key) == []
    {
      var i := KeyOf(rows, PARENT_ID, key);
      TreeByIdFinds(trees, found, AccountColumns(db, narrowed), key);
    }
    KeysNeeded(db.accounts, sub.spec, keys);
  }

  /** Every parent that is loaded is some account's, so all of them are the nested join. */
  lemma {:induction false} ParentsNested(db: Database, q: AccountQ, rows: seq<Row>, k: nat)
    requires AllKeyed(db) && q.parent.Some? && ForeignKeys(rows, PARENT_ID) != [] && LoadParents(db, q.parent, rows).Ok?
    requires ParentsServed(db, q, rows)
    requires FairPage(db.accounts, q.parent.value.spec, ID, ForeignKeys(rows, PARENT_ID))
    requires var narrowed := Narrow(q.parent.value, In(ID, ForeignKeys(rows, PARENT_ID)), None);
             Fetch(db, Accounts, narrowed.spec).Ok? && k < |Fetch(db, Accounts, narrowed.spec).value|
    ensures var narrowed := Narrow(q.parent.value, In(ID, ForeignKeys(rows, PARENT_ID)), None);
            && |Load(db, narrowed).value| == |Fetch(db, Accounts, narrowed.spec).value|
            && Load(db, narrowed).value[k] == Nested(db, narrowed, Fetch(db, Accounts, narrowed.spec).value[k])
  {
    var sub, keys := q.parent.value, ForeignKeys(rows, PARENT_ID);
    var narrowed := Narrow(sub, In(ID, keys), None);
    var found, trees := Fetch(db, Accounts, narrowed.spec).value, Load(db, narrowed).value;
    LoadShows(db, narrowed);
    KeyColumns(db, narrowed);
    var id := IntOf(found[k], ID);
    assert found[k] in found;
    SelectedIn(db.accounts, sub.spec, In(ID, keys), found[k]);
    var i := KeyOf(rows, PARENT_ID, id);
    SelectDistinct(db.accounts, narrowed.spec);
    forall j | k <= j < |trees| ensures IntOf(trees[j].row, ID) == IntOf(found[j], ID) {
      ProjectKeeps(found[j], AccountColumns(db, narrowed), ID);
    }
    TreeByIdAt(trees, k);
    FairShare(db.accounts, sub.spec, ID, keys, id);
    OnlyRow(found, k);
    NestedNarrow(db, sub, In(ID, keys), found[k]);
  }

  lemma {:induction false} OnlyRow(rows: seq<Row>, k: nat)
    requires DistinctRows(rows) && k < |rows| && RefOf(rows[k], ID).Some?
    ensures RowsFor(rows, ID, RefOf(rows[k], ID).value) == [rows[k]]
  {
    var n, id := |rows| - 1, RefOf(rows[k], ID).value;
    if k < n {
      OnlyRow(rows[..n], k);
    } else {
      forall j | 0 <= j < n ensures RefOf(rows[..n][j], ID) != Some(id) {
        assert IntOf(rows[j], ID) != IntOf(rows[n], ID);
      }
      RowsForNone(rows[..n], ID, id);
    }
  }

  /** The trees for one key show the rows for that key. */
  lemma {:induction false} TreesForShown(trees: seq<Tree>, rows: seq<Row>, columns: seq<string>, column: string,
                                         id: int)
    requires Shown(trees, rows, columns) && column in columns
    ensures Shown(TreesFor(trees, column, id), RowsFor(rows, column, id), columns)
  {
    if rows != [] {
      var n := |rows| - 1;
      TreesForShown(trees[..n], rows[..n], columns, column, id);
      ProjectKeeps(rows[n], columns, column);
    }
  }

  lemma {:induction false} TreesForHas(trees: seq<Tree>, column: string, k: nat)
    requires k < |trees| && RefOf(trees[k].row, column).Some?
    ensures trees[k] in TreesFor(trees, column, RefOf(trees[k].row, column).value)
  {
    var n := |trees| - 1;
    if k < n {
      TreesForHas(trees[..n], column, k);
    }
  }

  /** What the children of every account of the batch are, if the load is the nested join. */
  ghost predicate ChildrenServed(db: Database, q: AccountQ, rows: seq<Row>)
    requires q.children.Some? && LoadChildren(db, q.children, rows).Ok?
  {
    forall id | id in Ids(rows) ::
      TreesFor(LoadChildren(db, q.children, rows).value, PARENT_ID, id)
      == NestedAll(db, KeepParent(q.children.value), OwnShare(db.accounts, q.children.value.spec, PARENT_ID, id))
  }

  lemma {:induction false} ChildPageNeeded(db: Database, q: AccountQ, rows: seq<Row>)
    requires AllKeyed(db) && q.children.Some? && LoadChildren(db, q.children, rows).Ok? && ChildrenServed(db, q, rows)
    ensures FairPage(db.accounts, q.children.value.spec, PARENT_ID, Ids(rows))
  {
    var sub, ids := q.children.value, Ids(rows);
    var narrowed := Narrow(sub, In(PARENT_ID, ids), Some(PARENT_ID));
    var columns := AccountColumns(db, narrowed);
    var found, trees := Fetch(db, Accounts, narrowed.spec).value, Load(db, narrowed).value;
    LoadShows(db, narrowed);
    KeyColumns(db, narrowed);
    NarrowedColumn(db, sub, In(PARENT_ID, ids), Some(PARENT_ID));
    KeptSelect(db.accounts, sub.spec, PARENT_ID, In(PARENT_ID, ids));
    forall id | id in ids
      ensures ProjectAll(Batched(db.accounts, sub.spec, PARENT_ID, ids, id), columns)
              == ProjectAll(OwnShare(db.accounts, sub.spec, PARENT_ID, id), columns)
    {
      TreesForShown(trees, found, columns, PARENT_ID, id);
      SameShown(TreesFor(trees, PARENT_ID, id), Batched(db.accounts, sub.spec, PARENT_ID, ids, id),
        OwnShare(db.accounts, sub.spec, PARENT_ID, id), columns);
    }
    IdTellsApart(db.accounts, columns);
    DistinctPage(db.accounts, 0, 0);
    PageNeeded(db.accounts, sub.spec, PARENT_ID, ids, columns);
  }

  lemma {:induction false} SameShown(trees: seq<Tree>, a: seq<Row>, b: seq<Row>, columns: seq<string>)
    requires Shown(trees, a, columns) && Shown(trees, b, columns)
    ensures ProjectAll(a, columns) == ProjectAll(b, columns)
  {
  }

  lemma {:induction false} ChildrenAreNested(db: Database, q: AccountQ, rows: seq<Row>, k: nat)
    requires AllKeyed(db) && q.children.Some? && LoadChildren(db, q.children, rows).Ok? && ChildrenServed(db, q, rows)
    requires FairPage(db.accounts, q.children.value.spec, PARENT_ID, Ids(rows))
    requires var narrowed := Narrow(q.children.value, In(PARENT_ID, Ids(rows)), Some(PARENT_ID));
             Fetch(db, Accounts, narrowed.spec).Ok? && k < |Fetch(db, Accounts, narrowed.spec).value|
    ensures var narrowed := Narrow(q.children.value, In(PARENT_ID, Ids(rows)), Some(PARENT_ID));
            && |Load(db, narrowed).value| == |Fetch(db, Accounts, narrowed.spec).value|
            && Load(db, narrowed).value[k] == Nested(db, narrowed, Fetch(db, Accounts, narrowed.spec).value[k])
  {
    var sub, ids := q.children.value, Ids(rows);
    var narrowed := Narrow(sub, In(PARENT_ID, ids), Some(PARENT_ID));
    var columns := AccountColumns(db, narrowed);
    var found, trees := Fetch(db, Accounts, narrowed.spec).value, Load(db, narrowed).value;
    LoadShows(db, narrowed);
    KeyColumns(db, narrowed);
    NarrowedColumn(db, sub, In(PARENT_ID, ids), Some(PARENT_ID));
    KeptSelect(db.accounts, sub.spec, PARENT_ID, In(PARENT_ID, ids));
    assert found[k] in found;
    SelectedIn(db.accounts, sub.spec, In(PARENT_ID, ids), found[k]);
    InSelect(db.accounts, narrowed.spec, found[k]);
    ProjectKeeps(found[k], columns, PARENT_ID);
    var id := RefOf(found[k], PARENT_ID).value;
    TreesForHas(trees, PARENT_ID, k);
    var own := OwnShare(db.accounts, sub.spec, PARENT_ID, id);
    var j :| 0 <= j < |own| && NestedAll(db, KeepParent(sub), own)[j] == trees[k];
    ShareIn(db.accounts, sub.spec, PARENT_ID, ids, id);
    assert own[j] in own;
    IdTellsApart(db.accounts, columns);
    NestedNarrow(db, sub, In(PARENT_ID, ids), found[k]);
  }

  // ----- whole trees -------------------------------------------------------------------------------------------------

  lemma {:induction false} NarrowTelling(q: AccountQ, p: Pred, keep: Option<string>)
    requires Telling(q)
    ensures Telling(Narrow(q, p, keep))
  {
  }

  /** The batch is served as the nested join serves each of its accounts. */
  ghost predicate ServedNested(db: Database, q: AccountQ, rows: seq<Row>, ns: Neighbours) {
    forall i | 0 <= i < |rows| :: Attach(db, q, rows, ns, i) == Nested(db, q, rows[i])
  }

  ghost predicate LeavesServed(db: Database, q: AccountQ, ns: Neighbours, id: int) {
    && ProjectAll(GroupsFor(ns.groups, id), LeafColumns(db, Groups, q.groups, None))
       == ProjectAll(Paged(NestedGroups(LeafRowsOf(db, Groups, q.groups), db.accountGroups, id), q.groups),
                     LeafColumns(db, Groups, q.groups, None))
    && ProjectAll(RowsFor(ns.usageLogs, ACCOUNT_ID, id), LeafColumns(db, UsageLogs, q.usageLogs, Some(ACCOUNT_ID)))
       == ProjectAll(Paged(RowsFor(LeafRowsOf(db, UsageLogs, q.usageLogs), ACCOUNT_ID, id), q.usageLogs),
                     LeafColumns(db, UsageLogs, q.usageLogs, Some(ACCOUNT_ID)))
    && ProjectAll(RowsFor(ns.accountGroups, ACCOUNT_ID, id),
                  LeafColumns(db, AccountGroups, q.accountGroups, Some(ACCOUNT_ID)))
       == ProjectAll(Paged(RowsFor(LeafRowsOf(db, AccountGroups, q.accountGroups), ACCOUNT_ID, id), q.accountGroups),
                     LeafColumns(db, AccountGroups, q.accountGroups, Some(ACCOUNT_ID)))
  }

  lemma {:induction false} LeavesOf(db: Database, q: AccountQ, rows: seq<Row>, ns: Neighbours, i: nat)
    requires DistinctRows(rows) && ServedNested(db, q, rows, ns) && i < |rows|
    ensures LeavesServed(db, q, ns, IntOf(rows[i], ID))
    ensures RowById(ns.proxies, RefOf(rows[i], PROXY_ID)).Some?
       <==> Referred(LeafRowsOf(db, Proxies, q.proxy), q.proxy, RefOf(rows[i], PROXY_ID)).Some?
  {
    assert IsLast(rows, i);
    assert Attach(db, q, rows, ns, i) == Nested(db, q, rows[i]);
  }

  lemma {:induction false} FairLeavesNeeded(db: Database, q: AccountQ, rows: seq<Row>, ns: Neighbours)
    requires AllKeyed(db) && Telling(q) && DistinctRows(rows) && LoadNeighbours(db, q, rows) == Ok(ns)
    requires ServedNested(db, q, rows, ns)
    ensures FairGroups(db, q.groups, Ids(rows))
    ensures FairLeaf(db, Proxies, q.proxy, ID, ForeignKeys(rows, PROXY_ID))
    ensures FairLeaf(db, UsageLogs, q.usageLogs, ACCOUNT_ID, Ids(rows))
    ensures FairLeaf(db, AccountGroups, q.accountGroups, ACCOUNT_ID, Ids(rows))
  {
    NeighboursAre(db, q, rows, ns);
    forall i | 0 <= i < |rows|
      ensures LeavesServed(db, q, ns, Ids(rows)[i])
      ensures RowById(ns.proxies, RefOf(rows[i], PROXY_ID)).Some?
         <==> Referred(LeafRowsOf(db, Proxies, q.proxy), q.proxy, RefOf(rows[i], PROXY_ID)).Some?
    {
      LeavesOf(db, q, rows, ns, i);
    }
    GroupsNeeded(db, q.groups, Ids(rows));
    LeafNeeded(db, UsageLogs, q.usageLogs, Ids(rows));
    LeafNeeded(db, AccountGroups, q.accountGroups, Ids(rows));
    ProxiesNeeded(db, q.proxy, rows);
  }

  lemma {:induction false} FairParentNeeded(db: Database, q: AccountQ, rows: seq<Row>, ns: Neighbours)
    requires AllKeyed(db) && Telling(q) && DistinctRows(rows) && LoadNeighbours(db, q, rows) == Ok(ns)
    requires ServedNested(db, q, rows, ns)
    ensures FairParent(db, q.parent, rows)
    decreases Height(q), 0
  {
    var keys := ForeignKeys(rows, PARENT_ID);
    NeighboursAre(db, q, rows, ns);
    if q.parent.Some? && keys != [] {
      forall i | 0 <= i < |rows|
        ensures TreeById(ns.parents, RefOf(rows[i], PARENT_ID))
             == NestedParent(db, q, Referred(SubRows(db, q.parent), SpecOf(q.parent), RefOf(rows[i], PARENT_ID)))
      {
        assert Attach(db, q, rows, ns, i) == Nested(db, q, rows[i]);
      }
      ParentPageNeeded(db, q, rows);
      var narrowed := Narrow(q.parent.value, In(ID, keys), None);
      LoadShows(db, narrowed);
      var found := Fetch(db, Accounts, narrowed.spec).value;
      forall k | 0 <= k < |found| ensures Load(db, narrowed).value[k] == Nested(db, narrowed, found[k]) {
        ParentsNested(db, q, rows, k);
      }
      NarrowTelling(q.parent.value, In(ID, keys), None);
      FairNeeded(db, narrowed);
    }
  }

  lemma {:induction false} FairChildrenNeeded(db: Database, q: AccountQ, rows: seq<Row>, ns: Neighbours)
    requires AllKeyed(db) && Telling(q) && DistinctRows(rows) && LoadNeighbours(db, q, rows) == Ok(ns)
    requires ServedNested(db, q, rows, ns)
    ensures FairChildren(db, q.children, rows)
    decreases Height(q), 0
  {
    NeighboursAre(db, q, rows, ns);
    if q.children.Some? {
      assert forall i | 0 <= i < |rows| :: IsLast(rows, i);
      forall id | id in Ids(rows)
        ensures TreesFor(ns.children, PARENT_ID, id)
             == NestedAll(db, KeepParent(q.children.value), OwnShare(db.accounts, q.children.value.spec, PARENT_ID, id))
      {
        var i :| 0 <= i < |rows| && Ids(rows)[i] == id;
        assert Attach(db, q, rows, ns, i) == Nested(db, q, rows[i]);
        ChildrenNested(db, q, OwnShare(db.accounts, q.children.value.spec, PARENT_ID, id));
      }
      ChildPageNeeded(db, q, rows);
      var narrowed := Narrow(q.children.value, In(PARENT_ID, Ids(rows)), Some(PARENT_ID));
      LoadShows(db, narrowed);
      var found := Fetch(db, Accounts, narrowed.spec).value;
      forall k | 0 <= k < |found| ensures Load(db, narrowed).value[k] == Nested(db, narrowed, found[k]) {
        ChildrenAreNested(db, q, rows, k);
      }
      NarrowTelling(q.children.value, In(PARENT_ID, Ids(rows)), Some(PARENT_ID));
      FairNeeded(db, narrowed);
    }
  }

  /** A load that gives every account its nested join has been fair to it everywhere. */
  lemma {:induction false} FairNeeded(db: Database, q: AccountQ)
    requires AllKeyed(db) && Telling(q) && Load(db, q).Ok? && Fetch(db, Accounts, q.spec).Ok?
    requires Load(db, q).value == NestedAll(db, q, Fetch(db, Accounts, q.spec).value)
    ensures Fair(db, q)
    decreases Height(q), 1
  {
    var rows := Fetch(db, Accounts, q.spec).value;
    if rows != [] {
      SelectDistinct(db.accounts, q.spec);
      LoadIs(db, q, rows);
      var ns := LoadNeighbours(db, q, rows).value;
      FairLeavesNeeded(db, q, rows, ns);
      FairParentNeeded(db, q, rows, ns);
      FairChildrenNeeded(db, q, rows, ns);
    }
  }

  /**
   The nested-loop theorem, exactly: a successful load of a tree of sub-queries with any offsets and limits is
   the recursive nested join, if and only if the page of every batch that it runs, at any depth, is fair.
   */
  lemma {:induction false} NestedExactly(db: Database, q: AccountQ)
    requires AllKeyed(db) && Telling(q) && Load(db, q).Ok?
    ensures Fetch(db, Accounts, q.spec).Ok?
    ensures Load(db, q).value == NestedAll(db, q, Fetch(db, Accounts, q.spec).value) <==> Fair(db, q)
  {
    LoadShows(db, q);
    if Fair(db, q) {
      LoadNested(db, q);
    }
    if Load(db, q).value == NestedAll(db, q, Fetch(db, Accounts, q.spec).value) {
      FairNeeded(db, q);
    }
  }
}
