/** Selected fields change what is read of each row, and nothing else: the same edges load. */
module EagerProjection {
  import opened Options
  import opened Rows
  import opened EagerSpec
  import opened EagerLoad
  import opened EagerAll
  import opened NestedJoin

  function AllFields(sub: Option<Spec>): Option<Spec> {
    if sub.None? then None else Some(sub.value.(fields := []))
  }

  /** The same query tree with no Select anywhere. */
  function Unprojected(q: AccountQ): (r: AccountQ)
    ensures Height(r) == Height(q)
  {
    AccountQ(
      q.spec.(fields := []),
      AllFields(q.groups),
      AllFields(q.proxy),
      if q.parent.None? then None else Some(Unprojected(q.parent.value)),
      if q.children.None? then None else Some(Unprojected(q.children.value)),
      AllFields(q.usageLogs),
      AllFields(q.accountGroups))
  }

  /** Every column that was read has the value of the full row. */
  predicate PartOf(row: Row, full: Row) {
    forall c | c in row :: c in full && row[c] == full[c]
  }

  predicate PartsOf(rows: seq<Row>, full: seq<Row>) {
    |rows| == |full| && forall i | 0 <= i < |rows| :: PartOf(rows[i], full[i])
  }

  predicate OptionPart(row: Option<Row>, full: Option<Row>) {
    if row.None? then full.None? else full.Some? && PartOf(row.value, full.value)
  }

  /** The same graph, edge for edge, with fewer columns in its nodes. */
  predicate Narrower(t: Tree, full: Tree)
    decreases t
  {
    && PartOf(t.row, full.row) && RefOf(t.row, ID) == RefOf(full.row, ID)
    && t.loaded == full.loaded
    && PartsOf(t.groups, full.groups) && OptionPart(t.proxy, full.proxy)
    && PartsOf(t.usageLogs, full.usageLogs) && PartsOf(t.accountGroups, full.accountGroups)
    && (if t.parent.None? then full.parent.None? else full.parent.Some? && Narrower(t.parent.value, full.parent.value))
    && |t.children| == |full.children|
    && forall i | 0 <= i < |t.children| :: Narrower(t.children[i], full.children[i])
  }

  predicate NarrowerAll(ts: seq<Tree>, full: seq<Tree>) {
    |ts| == |full| && forall i | 0 <= i < |ts| :: Narrower(ts[i], full[i])
  }

  predicate OptionNarrower(t: Option<Tree>, full: Option<Tree>) {
    if t.None? then full.None? else full.Some? && Narrower(t.value, full.value)
  }

  // ----- columns -------------------------------------------------------------------------------------------

  lemma {:induction false} ProjectPart(row: Row, columns: seq<string>, all: seq<string>)
    requires forall c | c in columns :: c in all
    ensures PartOf(Project(row, columns), Project(row, all))
  {
  }

  lemma {:induction false} ColumnsDeclared(db: Database, table: Table, fields: seq<string>, keys: seq<string>)
    requires FirstInvalid(fields, db.columns(table)).None? && (HasID(table) && fields != [] ==> ID in db.columns(table))
    requires forall key | key in keys :: key in db.columns(table)
    ensures forall c | c in Columns(db, table, fields, keys) :: c in db.columns(table)
  {
    if fields != [] {
      forall c | c in Columns(db, table, fields, keys) ensures c in db.columns(table) {
        InColumns(db, table, fields, keys, c);
        if c in fields {
          ValidFields(fields, db.columns(table), c);
        }
      }
    }
  }

  lemma {:induction false} ProjectAllParts(rows: seq<Row>, columns: seq<string>, all: seq<string>)
    requires forall c | c in columns :: c in all
    ensures PartsOf(ProjectAll(rows, columns), ProjectAll(rows, all))
  {
    forall i | 0 <= i < |rows| ensures PartOf(ProjectAll(rows, columns)[i], ProjectAll(rows, all)[i]) {
      ProjectPart(rows[i], columns, all);
    }
  }

  /** The tables whose id column the schema declares. */
  predicate DeclaresIDs(db: Database) {
    ValidSchema(db) && ID in db.columns(UsageLogs)
  }

  lemma {:induction false} LeafColumnsDeclared(db: Database, table: Table, sub: Option<Spec>, keep: Option<string>)
    requires DeclaresIDs(db) && table != Accounts && (keep.Some? ==> keep.value in db.columns(table))
    requires sub.Some? ==>
               var read := if keep.Some? then KeepField(sub.value, keep.value) else sub.value;
               FirstInvalid(read.fields, db.columns(table)).None?
    ensures forall c | c in LeafColumns(db, table, sub, keep) :: c in db.columns(table)
    ensures LeafColumns(db, table, AllFields(sub), keep) == if sub.None? then [] else db.columns(table)
  {
    if sub.Some? {
      ColumnsDeclared(db, table, (if keep.Some? then KeepField(sub.value, keep.value) else sub.value).fields, []);
    }
  }

  // ----- one batch -------------------------------------------------------------------------------------------

  lemma {:induction false} FetchAllFields(db: Database, table: Table, spec: Spec)
    requires Fetch(db, table, spec).Ok?
    ensures Fetch(db, table, spec.(fields := [])) == Fetch(db, table, spec)
  {
  }

  lemma {:induction false} LeafAllFields(db: Database, table: Table, sub: Option<Spec>, p: Pred, keep: Option<string>)
    requires FetchLeaf(db, table, sub, p, keep).Ok?
    ensures FetchLeaf(db, table, AllFields(sub), p, keep) == FetchLeaf(db, table, sub, p, keep)
  {
    if sub.Some? {
      assert NarrowSpec(sub.value.(fields := []), p, keep) == NarrowSpec(sub.value, p, keep).(fields := []);
      FetchAllFields(db, table, NarrowSpec(sub.value, p, keep));
    }
  }

  lemma {:induction false} LeafNarrower(db: Database, table: Table, sub: Option<Spec>, p: Pred, keep: Option<string>,
                                        rows: seq<Row>)
    requires DeclaresIDs(db) && table != Accounts && (keep.Some? ==> keep.value in db.columns(table))
    requires FetchLeaf(db, table, sub, p, keep).Ok? && (sub.None? ==> rows == [])
    ensures PartsOf(ProjectAll(rows, LeafColumns(db, table, sub, keep)),
            ProjectAll(rows, LeafColumns(db, table, AllFields(sub), keep)))
  {
    if sub.Some? {
      LeafColumnsDeclared(db, table, sub, keep);
      ProjectAllParts(rows, LeafColumns(db, table, sub, keep), db.columns(table));
    }
  }

  lemma {:induction false} ProxyAllFields(db: Database, sub: Option<Spec>, rows: seq<Row>)
    requires FetchProxies(db, sub, rows).Ok?
    ensures FetchProxies(db, AllFields(sub), rows) == FetchProxies(db, sub, rows)
  {
    var keys := ForeignKeys(rows, PROXY_ID);
    if sub.Some? && keys != [] {
      FetchAllFields(db, Proxies, Where(sub.value, In(ID, keys)));
    }
  }

  lemma {:induction false} ProxyNarrower(db: Database, sub: Option<Spec>, rows: seq<Row>, fk: Option<int>)
    requires DeclaresIDs(db) && FetchProxies(db, sub, rows).Ok?
    ensures var found := RowById(FetchProxies(db, sub, rows).value, fk);
            OptionPart(ProjectOne(found, LeafColumns(db, Proxies, sub, None)),
              ProjectOne(found, LeafColumns(db, Proxies, AllFields(sub), None)))
  {
    var fetched := FetchProxies(db, sub, rows).value;
    if sub.Some? && fetched != [] {
      LeafColumnsDeclared(db, Proxies, sub, None);
      var found := RowById(fetched, fk);
      if found.Some? {
        ProjectPart(found.value, LeafColumns(db, Proxies, sub, None), db.columns(Proxies));
      }
    }
  }

  lemma {:induction false} TreeByIdNarrower(ts: seq<Tree>, full: seq<Tree>, id: Option<int>)
    requires NarrowerAll(ts, full)
    ensures OptionNarrower(TreeById(ts, id), TreeById(full, id))
  {
    if ts != [] && id.Some? {
      var n := |ts| - 1;
      assert Narrower(ts[n], full[n]);
      SameId(ts[n].row, full[n].row);
      TreeByIdNarrower(ts[..n], full[..n], id);
    }
  }

  lemma {:induction false} SameId(row: Row, full: Row)
    requires RefOf(row, ID) == RefOf(full, ID)
    ensures IntOf(row, ID) == IntOf(full, ID)
  {
    assert IntOf(row, ID) == if RefOf(row, ID).Some? then RefOf(row, ID).value else 0;
    assert IntOf(full, ID) == if RefOf(full, ID).Some? then RefOf(full, ID).value else 0;
  }

  lemma {:induction false} NarrowerSnoc(ts: seq<Tree>, full: seq<Tree>, t: Tree, u: Tree)
    requires NarrowerAll(ts, full) && Narrower(t, u)
    ensures NarrowerAll(ts + [t], full + [u])
  {
  }

  lemma {:induction false} TreesForNarrower(ts: seq<Tree>, full: seq<Tree>, column: string, id: int)
    requires NarrowerAll(ts, full) && forall k | 0 <= k < |ts| :: RefOf(ts[k].row, column) == RefOf(full[k].row, column)
    ensures NarrowerAll(TreesFor(ts, column, id), TreesFor(full, column, id))
  {
    if ts != [] {
      var n := |ts| - 1;
      TreesForNarrower(ts[..n], full[..n], column, id);
      assert Narrower(ts[n], full[n]);
      assert RefOf(ts[n].row, column) == RefOf(full[n].row, column);
      NarrowerSnoc(TreesFor(ts[..n], column, id), TreesFor(full[..n], column, id), ts[n], full[n]);
    }
  }

  // ----- the recursion -----------------------------------------------------------------------------------------

  lemma {:induction false} UnprojectedNarrow(q: AccountQ, p: Pred, keep: Option<string>)
    ensures Narrow(Unprojected(q), p, keep) == Unprojected(Narrow(q, p, keep))
  {
    assert NarrowSpec(q.spec.(fields := []), p, keep) == NarrowSpec(q.spec, p, keep).(fields := []);
  }

  lemma {:induction false} ParentsNarrower(db: Database, q: AccountQ, rows: seq<Row>)
    requires DeclaresIDs(db) && LoadParents(db, q.parent, rows).Ok?
    ensures LoadParents(db, Unprojected(q).parent, rows).Ok?
    ensures NarrowerAll(LoadParents(db, q.parent, rows).value, LoadParents(db, Unprojected(q).parent, rows).value)
    decreases Height(q), 0
  {
    var keys := ForeignKeys(rows, PARENT_ID);
    if q.parent.Some? && keys != [] {
      UnprojectedNarrow(q.parent.value, In(ID, keys), None);
      ProjectionTransparent(db, Narrow(q.parent.value, In(ID, keys), None));
    }
  }

  lemma {:induction false} ChildrenNarrower(db: Database, q: AccountQ, rows: seq<Row>)
    requires DeclaresIDs(db) && LoadChildren(db, q.children, rows).Ok?
    ensures LoadChildren(db, Unprojected(q).children, rows).Ok?
    ensures var ts, full := LoadChildren(db, q.children, rows).value,
            LoadChildren(db, Unprojected(q).children, rows).value;
            NarrowerAll(ts, full) && forall k | 0 <= k < |ts| ::
              RefOf(ts[k].row, PARENT_ID) == RefOf(full[k].row, PARENT_ID)
    decreases Height(q), 0
  {
    if q.children.Some? {
      var sub, p := q.children.value, In(PARENT_ID, Ids(rows));
      var narrowed := Narrow(sub, p, Some(PARENT_ID));
      UnprojectedNarrow(sub, p, Some(PARENT_ID));
      ProjectionTransparent(db, narrowed);
      NarrowedColumn(db, sub, p, Some(PARENT_ID));
      NarrowedColumn(db, Unprojected(sub), p, Some(PARENT_ID));
      SameKeys(db, narrowed, PARENT_ID);
    }
  }

  /** A column that both queries read has the same value in both results. */
  lemma {:induction false} SameKeys(db: Database, q: AccountQ, column: string)
    requires Load(db, q).Ok? && Load(db, Unprojected(q)).Ok?
    requires column in AccountColumns(db, q) && column in AccountColumns(db, Unprojected(q))
    ensures |Load(db, q).value| == |Load(db, Unprojected(q)).value|
    ensures forall k | 0 <= k < |Load(db, q).value| ::
              RefOf(Load(db, q).value[k].row, column) == RefOf(Load(db, Unprojected(q)).value[k].row, column)
  {
    FetchAllFields(db, Accounts, q.spec);
    var rows := Fetch(db, Accounts, q.spec).value;
    if rows != [] {
      LoadIs(db, q, rows);
      LoadIs(db, Unprojected(q), rows);
      forall k | 0 <= k < |rows|
        ensures RefOf(Load(db, q).value[k].row, column) == RefOf(Load(db, Unprojected(q)).value[k].row, column)
      {
        ProjectKeeps(rows[k], AccountColumns(db, q), column);
        ProjectKeeps(rows[k], AccountColumns(db, Unprojected(q)), column);
      }
    }
  }

  lemma {:induction false} RowNarrower(db: Database, q: AccountQ, row: Row)
    requires DeclaresIDs(db) && FirstInvalid(q.spec.fields, db.columns(Accounts)).None?
    ensures var part, full := Project(row, AccountColumns(db, q)), Project(row, AccountColumns(db, Unprojected(q)));
            PartOf(part, full) && RefOf(part, ID) == RefOf(full, ID)
  {
    KeyColumns(db, q);
    ColumnsDeclared(db, Accounts, q.spec.fields, NeededKeys(q));
    ProjectPart(row, AccountColumns(db, q), db.columns(Accounts));
    ProjectKeeps(row, AccountColumns(db, q), ID);
    ProjectKeeps(row, db.columns(Accounts), ID);
  }

  lemma {:induction false} NeighboursUnprojected(db: Database, q: AccountQ, rows: seq<Row>,
                                                 ns: Neighbours) returns (full: Neighbours)
    requires DeclaresIDs(db) && LoadNeighbours(db, q, rows) == Ok(ns)
    ensures LoadNeighbours(db, Unprojected(q), rows) == Ok(full)
    ensures full == ns.(parents := full.parents, children := full.children)
    ensures NarrowerAll(ns.parents, full.parents) && NarrowerAll(ns.children, full.children)
    ensures forall k | 0 <= k < |ns.children| ::
            RefOf(ns.children[k].row, PARENT_ID) == RefOf(full.children[k].row, PARENT_ID)
    decreases Height(q), 1
  {
    var u := Unprojected(q);
    NeighboursAre(db, q, rows, ns);
    LeafAllFields(db, Groups, q.groups, In(OUT, Ids(rows)), None);
    ProxyAllFields(db, q.proxy, rows);
    ParentsNarrower(db, q, rows);
    ChildrenNarrower(db, q, rows);
    LeafAllFields(db, UsageLogs, q.usageLogs, In(ACCOUNT_ID, Ids(rows)), Some(ACCOUNT_ID));
    LeafAllFields(db, AccountGroups, q.accountGroups, In(ACCOUNT_ID, Ids(rows)), Some(ACCOUNT_ID));
    full := ns.(parents := LoadParents(db, u.parent, rows).value, children := LoadChildren(db, u.children, rows).value);
    NeighboursOf(db, u, rows);
  }

  lemma {:induction false} LeavesNarrower(db: Database, q: AccountQ, rows: seq<Row>, ns: Neighbours,
                                          full: Neighbours, i: nat)
    requires DeclaresIDs(db) && LoadNeighbours(db, q, rows) == Ok(ns) && i < |rows|
    requires full == ns.(parents := full.parents, children := full.children)
    ensures var t, f := Attach(db, q, rows, ns, i), Attach(db, Unprojected(q), rows, full, i);
            && PartsOf(t.groups, f.groups) && OptionPart(t.proxy, f.proxy)
            && PartsOf(t.usageLogs, f.usageLogs) && PartsOf(t.accountGroups, f.accountGroups)
  {
    var id := IntOf(rows[i], ID);
    NeighboursAre(db, q, rows, ns);
    LeafNarrower(db, Groups, q.groups, In(OUT, Ids(rows)), None, if IsLast(rows, i) then GroupsFor(ns.groups, id)
      else []);
    ProxyNarrower(db, q.proxy, rows, RefOf(rows[i], PROXY_ID));
    LeafNarrower(db, UsageLogs, q.usageLogs, In(ACCOUNT_ID, Ids(rows)), Some(ACCOUNT_ID),
                 if IsLast(rows, i) then RowsFor(ns.usageLogs, ACCOUNT_ID, id) else []);
    LeafNarrower(db, AccountGroups, q.accountGroups, In(ACCOUNT_ID, Ids(rows)), Some(ACCOUNT_ID),
                 if IsLast(rows, i) then RowsFor(ns.accountGroups, ACCOUNT_ID, id) else []);
  }

  lemma {:induction false} AttachNarrower(db: Database, q: AccountQ, rows: seq<Row>, ns: Neighbours,
                                          full: Neighbours, i: nat)
    requires DeclaresIDs(db) && LoadNeighbours(db, q, rows) == Ok(ns) && i < |rows|
    requires FirstInvalid(q.spec.fields, db.columns(Accounts)).None?
    requires full == ns.(parents := full.parents, children := full.children)
    requires NarrowerAll(ns.parents, full.parents) && NarrowerAll(ns.children, full.children)
    requires forall k | 0 <= k < |ns.children| ::
             RefOf(ns.children[k].row, PARENT_ID) == RefOf(full.children[k].row, PARENT_ID)
    ensures Narrower(Attach(db, q, rows, ns, i), Attach(db, Unprojected(q), rows, full, i))
  {
    RowNarrower(db, q, rows[i]);
    LeavesNarrower(db, q, rows, ns, full, i);
    TreeByIdNarrower(ns.parents, full.parents, RefOf(rows[i], PARENT_ID));
    TreesForNarrower(ns.children, full.children, PARENT_ID, IntOf(rows[i], ID));
    AttachParts(db, q, rows, ns, full, i);
  }

  lemma {:induction false} AttachParts(db: Database, q: AccountQ, rows: seq<Row>, ns: Neighbours, full: Neighbours,
                                       i: nat)
    requires i < |rows|
    requires var t, u := Attach(db, q, rows, ns, i), Attach(db, Unprojected(q), rows, full, i);
             && PartOf(t.row, u.row) && RefOf(t.row, ID) == RefOf(u.row, ID)
             && PartsOf(t.groups, u.groups) && OptionPart(t.proxy, u.proxy)
             && PartsOf(t.usageLogs, u.usageLogs) && PartsOf(t.accountGroups, u.accountGroups)
             && OptionNarrower(t.parent, u.parent) && NarrowerAll(t.children, u.children)
    ensures Narrower(Attach(db, q, rows, ns, i), Attach(db, Unprojected(q), rows, full, i))
  {
    NarrowerParts(Attach(db, q, rows, ns, i), Attach(db, Unprojected(q), rows, full, i));
  }

  lemma {:induction false} NarrowerParts(t: Tree, full: Tree)
    requires PartOf(t.row, full.row) && RefOf(t.row, ID) == RefOf(full.row, ID) && t.loaded == full.loaded
    requires PartsOf(t.groups, full.groups) && OptionPart(t.proxy, full.proxy)
    requires PartsOf(t.usageLogs, full.usageLogs) && PartsOf(t.accountGroups, full.accountGroups)
    requires OptionNarrower(t.parent, full.parent) && NarrowerAll(t.children, full.children)
    ensures Narrower(t, full)
  {
  }

  /**
   Whatever fields are selected, in the query and in any of its sub-queries, a successful load gives
   the graph that the same query without Select gives, edge for edge, with fewer columns.
   */
  lemma {:induction false} ProjectionTransparent(db: Database, q: AccountQ)
    requires DeclaresIDs(db) && Load(db, q).Ok?
    ensures Load(db, Unprojected(q)).Ok?
    ensures NarrowerAll(Load(db, q).value, Load(db, Unprojected(q)).value)
    decreases Height(q), 2
  {
    FetchAllFields(db, Accounts, q.spec);
    var rows := Fetch(db, Accounts, q.spec).value;
    if rows != [] {
      LoadIs(db, q, rows);
      LoadIs(db, Unprojected(q), rows);
      var ns := LoadNeighbours(db, q, rows).value;
      var full := NeighboursUnprojected(db, q, rows, ns);
      forall i | 0 <= i < |rows|
        ensures Narrower(Attach(db, q, rows, ns, i), Attach(db, Unprojected(q), rows, full, i)) {
        AttachNarrower(db, q, rows, ns, full, i);
      }
    }
  }

  lemma {:induction false} KeysAreNotID(q: AccountQ)
    ensures ID !in NeededKeys(q)
  {
    assert |ID| != |PROXY_ID| && |ID| != |PARENT_ID|;
  }

  lemma {:induction false} StartColumns(fields: seq<string>)
    ensures var columns := [ID] + WithoutID(fields); columns[0] == ID && ID !in columns[1..]
  {
    InWithoutID(fields, ID);
    assert ([ID] + WithoutID(fields))[1..] == WithoutID(fields);
  }

  /** The columns of an Account query start with the id, name it once, and hold the keys of the requested M2O edges. */
  lemma {:induction false} ColumnsStartWithID(db: Database, q: AccountQ)
    requires q.spec.fields != []
    ensures var columns := AccountColumns(db, q);
            && columns != [] && columns[0] == ID && ID !in columns[1..]
            && (q.proxy.Some? ==> PROXY_ID in columns) && (q.parent.Some? ==> PARENT_ID in columns)
  {
    StartColumns(q.spec.fields);
    KeysAreNotID(q);
    AddAllKeepsStart([ID] + WithoutID(q.spec.fields), NeededKeys(q));
    InColumns(db, Accounts, q.spec.fields, NeededKeys(q), PROXY_ID);
    InColumns(db, Accounts, q.spec.fields, NeededKeys(q), PARENT_ID);
  }

  lemma {:induction false} AddAllKeepsStart(columns: seq<string>, keys: seq<string>)
    requires columns != [] && columns[0] == ID && ID !in columns[1..] && ID !in keys
    ensures AddAll(columns, keys) != [] && AddAll(columns, keys)[0] == ID && ID !in AddAll(columns, keys)[1..]
    decreases |keys|
  {
    if keys != [] {
      var next := AddOnce(columns, keys[0]);
      assert next[1..] == columns[1..] || next[1..] == columns[1..] + [keys[0]];
      AddAllKeepsStart(next, keys[1..]);
    }
  }
}
