/**
 Eager loading as values: what a tree of With* sub-queries loads from a database, batch by batch.
 The builders and loaders of AccountQuery are proved to compute these functions on the heap.
 */
module EagerSpec {
  import opened Options
  import opened Rows

  datatype Table = Accounts | Groups | Proxies | UsageLogs | AccountGroups

  datatype Error =
    | InvalidField(name: string)
    | QueryFailed(table: Table)
    | UnexpectedNode(id: int)
    | NilForeignKey(id: int)

  datatype Result<+T> = Ok(value: T) | Err(error: Error) {
    predicate IsFailure() { Err? }

    function PropagateFailure<U>(): Result<U>
      requires Err?
    {
      Err(error)
    }

    function Extract(): T
      requires Ok?
    {
      value
    }
  }

  /** The tables, the columns the generated packages declare, and the tables that cannot be reached. */
  datatype Database = Database(
    accounts: seq<Row>,
    groups: seq<Row>,
    proxies: seq<Row>,
    usageLogs: seq<Row>,
    accountGroups: seq<Row>,
    columns: Table -> seq<string>,
    down: set<Table>)

  const PROXY_ID: string := "proxy_id"
  const PARENT_ID: string := "parent_account_id"
  const ACCOUNT_ID: string := "account_id"
  const GROUP_ID: string := "group_id"

  /** The join table's account column, selected in front of the columns of a group. */
  const OUT: string := "account_groups.account_id"

  /** The key columns that the generated packages declare for each table. */
  predicate ValidSchema(db: Database) {
    && ID in db.columns(Accounts) && PROXY_ID in db.columns(Accounts) && PARENT_ID in db.columns(Accounts)
    && ID in db.columns(Groups) && ID in db.columns(Proxies)
    && ACCOUNT_ID in db.columns(UsageLogs) && ACCOUNT_ID in db.columns(AccountGroups)
  }

  /** account_groups has a composite key and no id column. */
  predicate HasID(table: Table) { table != AccountGroups }

  // ----- the groups table joined with account_groups -----------------------------------------------------

  /** The rows of one group in the join: one for each link to it. */
  function Links(group: Row, links: seq<Row>): seq<Row> {
    if links == [] then []
    else if RefOf(links[0], GROUP_ID) == Some(IntOf(group, ID)) && RefOf(links[0], ACCOUNT_ID).Some? then
      [group[OUT := Int(IntOf(links[0], ACCOUNT_ID))]] + Links(group, links[1..])
    else Links(group, links[1..])
  }

  function Joined(groups: seq<Row>, links: seq<Row>): seq<Row> {
    if groups == [] then [] else Links(groups[0], links) + Joined(groups[1..], links)
  }

  function TableRows(db: Database, table: Table): seq<Row> {
    match table
    case Accounts => db.accounts
    case Groups => Joined(db.groups, db.accountGroups)
    case Proxies => db.proxies
    case UsageLogs => db.usageLogs
    case AccountGroups => db.accountGroups
  }

  // ----- one query -----------------------------------------------------------------------------------------

  function WithoutID(fields: seq<string>): seq<string> {
    if fields == [] then []
    else if fields[0] == ID then WithoutID(fields[1..])
    else [fields[0]] + WithoutID(fields[1..])
  }

  function AddOnce(columns: seq<string>, column: string): seq<string> {
    if column in columns then columns else columns + [column]
  }

  /** The columns of a query spec; `keys` are the foreign keys that requested M2O edges need. */
  function Columns(db: Database, table: Table, fields: seq<string>, keys: seq<string>): seq<string> {
    if fields == [] then db.columns(table)
    else AddAll(if HasID(table) then [ID] + WithoutID(fields) else fields, keys)
  }

  function AddAll(columns: seq<string>, keys: seq<string>): seq<string>
    decreases |keys|
  {
    if keys == [] then columns else AddAll(AddOnce(columns, keys[0]), keys[1..])
  }

  function Project(row: Row, columns: seq<string>): Row {
    map c | c in row && c in columns :: row[c]
  }

  function ProjectAll(rows: seq<Row>, columns: seq<string>): (r: seq<Row>)
    ensures |r| == |rows| && forall i | 0 <= i < |rows| :: r[i] == Project(rows[i], columns)
  {
    seq(|rows|, i requires 0 <= i < |rows| => Project(rows[i], columns))
  }

  /** prepareQuery: the first selected field that is not a column. */
  function FirstInvalid(fields: seq<string>, columns: seq<string>): Option<string> {
    if fields == [] then None
    else if fields[0] !in columns then Some(fields[0])
    else FirstInvalid(fields[1..], columns)
  }

  /** The rows of one query, before projection. */
  function Fetch(db: Database, table: Table, spec: Spec): Result<seq<Row>> {
    var invalid := FirstInvalid(spec.fields, db.columns(table));
    if invalid.Some? then Err(InvalidField(invalid.value))
    else if table in db.down then Err(QueryFailed(table))
    else Ok(Select(TableRows(db, table), spec))
  }

  // ----- the query tree ------------------------------------------------------------------------------------

  datatype AccountQ = AccountQ(
    spec: Spec,
    groups: Option<Spec>,
    proxy: Option<Spec>,
    parent: Option<AccountQ>,
    children: Option<AccountQ>,
    usageLogs: Option<Spec>,
    accountGroups: Option<Spec>)

  function Height(q: AccountQ): (h: nat)
    ensures q.parent.Some? ==> Height(q.parent.value) < h
    ensures q.children.Some? ==> Height(q.children.value) < h
  {
    var p, c := HeightOf(q.parent), HeightOf(q.children);
    1 + if p < c then c else p
  }

  function HeightOf(sub: Option<AccountQ>): nat {
    if sub.None? then 0 else Height(sub.value)
  }

  /** The query with one more predicate, and with a selected foreign key if fields are selected. */
  function Narrow(q: AccountQ, p: Pred, keep: Option<string>): (r: AccountQ)
    ensures Height(r) == Height(q)
  {
    q.(spec := NarrowSpec(q.spec, p, keep))
  }

  function NarrowSpec(spec: Spec, p: Pred, keep: Option<string>): Spec {
    Where(if keep.Some? then KeepField(spec, keep.value) else spec, p)
  }

  /** loadedTypes */
  function Requested(q: AccountQ): (flags: seq<bool>)
    ensures |flags| == 6
  {
    [q.groups.Some?, q.proxy.Some?, q.parent.Some?, q.children.Some?, q.usageLogs.Some?, q.accountGroups.Some?]
  }

  function NeededKeys(q: AccountQ): seq<string> {
    (if q.proxy.Some? then [PROXY_ID] else []) + (if q.parent.Some? then [PARENT_ID] else [])
  }

  function AccountColumns(db: Database, q: AccountQ): seq<string> {
    Columns(db, Accounts, q.spec.fields, NeededKeys(q))
  }

  /** A loaded account with everything reachable through its edges. */
  datatype Tree = Tree(
    row: Row,
    loaded: seq<bool>,
    groups: seq<Row>,
    proxy: Option<Row>,
    parent: Option<Tree>,
    children: seq<Tree>,
    usageLogs: seq<Row>,
    accountGroups: seq<Row>)

  // ----- stitching -----------------------------------------------------------------------------------------

  function Ids(rows: seq<Row>): (ids: seq<int>)
    ensures |ids| == |rows| && forall i | 0 <= i < |rows| :: ids[i] == IntOf(rows[i], ID)
  {
    seq(|rows|, i requires 0 <= i < |rows| => IntOf(rows[i], ID))
  }

  /** The foreign keys to ask for: every non-NULL key once, in order of first occurrence. */
  function ForeignKeys(rows: seq<Row>, column: string): seq<int> {
    if rows == [] then []
    else
      var before := ForeignKeys(rows[..|rows| - 1], column);
      var fk := RefOf(rows[|rows| - 1], column);
      if fk.Some? && fk.value !in before then before + [fk.value] else before
  }

  /** No later row has the same id: the row that an index by id ends up with. */
  predicate IsLast(rows: seq<Row>, i: nat)
    requires i < |rows|
  {
    forall j | i < j < |rows| :: IntOf(rows[j], ID) != IntOf(rows[i], ID)
  }

  /** The last row with this id; a later neighbour overwrites an earlier one. */
  function RowById(rows: seq<Row>, id: Option<int>): Option<Row> {
    if rows == [] || id.None? then None
    else if IntOf(rows[|rows| - 1], ID) == id.value then Some(rows[|rows| - 1])
    else RowById(rows[..|rows| - 1], id)
  }

  function TreeById(trees: seq<Tree>, id: Option<int>): Option<Tree> {
    if trees == [] || id.None? then None
    else if IntOf(trees[|trees| - 1].row, ID) == id.value then Some(trees[|trees| - 1])
    else TreeById(trees[..|trees| - 1], id)
  }

  function RowsFor(rows: seq<Row>, column: string, id: int): seq<Row> {
    if rows == [] then []
    else
      var before := RowsFor(rows[..|rows| - 1], column, id);
      if RefOf(rows[|rows| - 1], column) == Some(id) then before + [rows[|rows| - 1]] else before
  }

  function TreesFor(trees: seq<Tree>, column: string, id: int): seq<Tree> {
    if trees == [] then []
    else
      var before := TreesFor(trees[..|trees| - 1], column, id);
      if RefOf(trees[|trees| - 1].row, column) == Some(id) then before + [trees[|trees| - 1]] else before
  }

  /** The first joined row of every group, in row order: the group nodes. */
  function FirstRows(joined: seq<Row>): seq<Row> {
    if joined == [] then []
    else
      var before := FirstRows(joined[..|joined| - 1]);
      var row := joined[|joined| - 1];
      if IntOf(row, ID) in Ids(before) then before else before + [row]
  }

  predicate Paired(joined: seq<Row>, account: int, group: int) {
    exists k | 0 <= k < |joined| :: IntOf(joined[k], OUT) == account && IntOf(joined[k], ID) == group
  }

  /** The nodes of `firsts` that some joined row pairs with the account. */
  function GroupsIn(firsts: seq<Row>, joined: seq<Row>, account: int): seq<Row> {
    if firsts == [] then []
    else
      var before := GroupsIn(firsts[..|firsts| - 1], joined, account);
      var row := firsts[|firsts| - 1];
      if Paired(joined, account, IntOf(row, ID)) then before + [row] else before
  }

  function GroupsFor(joined: seq<Row>, account: int): seq<Row> {
    GroupsIn(FirstRows(joined), joined, account)
  }

  // ----- the whole load --------------------------------------------------------------------------------------

  function FetchLeaf(db: Database, table: Table, sub: Option<Spec>, p: Pred, keep: Option<string>): Result<seq<Row>> {
    if sub.None? then Ok([]) else Fetch(db, table, NarrowSpec(sub.value, p, keep))
  }

  /** An M2O query by id.  Nothing is asked, and the builder not touched, when there is no key. */
  function FetchKeyed(db: Database, table: Table, spec: Spec, keys: seq<int>): Result<seq<Row>> {
    if keys == [] then Ok([]) else Fetch(db, table, Where(spec, In(ID, keys)))
  }

  function NarrowKeyed(spec: Spec, keys: seq<int>): Spec {
    if keys == [] then spec else Where(spec, In(ID, keys))
  }

  function FetchProxies(db: Database, sub: Option<Spec>, rows: seq<Row>): Result<seq<Row>> {
    if sub.None? then Ok([]) else FetchKeyed(db, Proxies, sub.value, ForeignKeys(rows, PROXY_ID))
  }

  function LoadParents(db: Database, sub: Option<AccountQ>, rows: seq<Row>): Result<seq<Tree>>
    decreases HeightOf(sub), 3
  {
    var keys := ForeignKeys(rows, PARENT_ID);
    if sub.None? || keys == [] then Ok([]) else Load(db, Narrow(sub.value, In(ID, keys), None))
  }

  function LoadChildren(db: Database, sub: Option<AccountQ>, rows: seq<Row>): Result<seq<Tree>>
    decreases HeightOf(sub), 3
  {
    if sub.None? then Ok([]) else Load(db, Narrow(sub.value, In(PARENT_ID, Ids(rows)), Some(PARENT_ID)))
  }

  /** The neighbours that the six loaders fetch for one batch of accounts. */
  datatype Neighbours = Neighbours(
    groups: seq<Row>,
    proxies: seq<Row>,
    parents: seq<Tree>,
    children: seq<Tree>,
    usageLogs: seq<Row>,
    accountGroups: seq<Row>)

  function FetchFirst(db: Database, groups: Option<Spec>, proxy: Option<Spec>,
                      rows: seq<Row>): Result<(seq<Row>, seq<Row>)> {
    var gs :- FetchLeaf(db, Groups, groups, In(OUT, Ids(rows)), None);
    var ps :- FetchProxies(db, proxy, rows);
    Ok((gs, ps))
  }

  function LoadSubTrees(db: Database, parent: Option<AccountQ>, children: Option<AccountQ>,
                        rows: seq<Row>): Result<(seq<Tree>, seq<Tree>)>
    decreases if HeightOf(parent) < HeightOf(children) then HeightOf(children) else HeightOf(parent), 4
  {
    var ps :- LoadParents(db, parent, rows);
    var cs :- LoadChildren(db, children, rows);
    Ok((ps, cs))
  }

  function FetchLast(db: Database, usageLogs: Option<Spec>, accountGroups: Option<Spec>,
                     rows: seq<Row>): Result<(seq<Row>, seq<Row>)> {
    var us :- FetchLeaf(db, UsageLogs, usageLogs, In(ACCOUNT_ID, Ids(rows)), Some(ACCOUNT_ID));
    var gs :- FetchLeaf(db, AccountGroups, accountGroups, In(ACCOUNT_ID, Ids(rows)), Some(ACCOUNT_ID));
    Ok((us, gs))
  }

  /** The queries of one batch, in the order of sqlAll; the first error ends it. */
  function LoadNeighbours(db: Database, q: AccountQ, rows: seq<Row>): Result<Neighbours>
    decreases Height(q), 1
  {
    var (groups, proxies) :- FetchFirst(db, q.groups, q.proxy, rows);
    var (parents, children) :- LoadSubTrees(db, q.parent, q.children, rows);
    var (usageLogs, accountGroups) :- FetchLast(db, q.usageLogs, q.accountGroups, rows);
    Ok(Neighbours(groups, proxies, parents, children, usageLogs, accountGroups))
  }

  function LeafColumns(db: Database, table: Table, sub: Option<Spec>, keep: Option<string>): seq<string> {
    if sub.None? then []
    else Columns(db, table, (if keep.Some? then KeepField(sub.value, keep.value) else sub.value).fields, [])
  }

  function ProjectOne(row: Option<Row>, columns: seq<string>): Option<Row> {
    if row.None? then None else Some(Project(row.value, columns))
  }

  function Attach(db: Database, q: AccountQ, rows: seq<Row>, ns: Neighbours, i: nat): Tree
    requires i < |rows|
  {
    var id := IntOf(rows[i], ID);
    Tree(
      Project(rows[i], AccountColumns(db, q)),
      Requested(q),
      ProjectAll(if IsLast(rows, i) then GroupsFor(ns.groups, id) else [], LeafColumns(db, Groups, q.groups, None)),
      ProjectOne(RowById(ns.proxies, RefOf(rows[i], PROXY_ID)), LeafColumns(db, Proxies, q.proxy, None)),
      TreeById(ns.parents, RefOf(rows[i], PARENT_ID)),
      if IsLast(rows, i) then TreesFor(ns.children, PARENT_ID, id) else [],
      ProjectAll(if IsLast(rows, i) then RowsFor(ns.usageLogs, ACCOUNT_ID, id) else [],
                 LeafColumns(db, UsageLogs, q.usageLogs, Some(ACCOUNT_ID))),
      ProjectAll(if IsLast(rows, i) then RowsFor(ns.accountGroups, ACCOUNT_ID, id) else [],
                 LeafColumns(db, AccountGroups, q.accountGroups, Some(ACCOUNT_ID))))
  }

  /** sqlAll: the trees of all selected accounts, or the first error met on the way. */
  function Load(db: Database, q: AccountQ): Result<seq<Tree>>
    decreases Height(q), 2
  {
    var rows :- Fetch(db, Accounts, q.spec);
    if rows == [] then Ok([])
    else
      var ns :- LoadNeighbours(db, q, rows);
      Ok(seq(|rows|, i requires 0 <= i < |rows| => Attach(db, q, rows, ns, i)))
  }

  /** The query object after a successful run: every sub-query that ran keeps its IN predicate. */
  function Ran(db: Database, q: AccountQ): AccountQ
    decreases Height(q), 1
  {
    var fetched := Fetch(db, Accounts, q.spec);
    if fetched.Err? || fetched.value == [] then q else RanEdges(db, q, fetched.value)
  }

  function RanEdges(db: Database, q: AccountQ, rows: seq<Row>): AccountQ
    decreases Height(q), 0
  {
    AccountQ(
      q.spec,
      RanLeaf(q.groups, In(OUT, Ids(rows)), None),
      RanProxy(q.proxy, rows),
      RanParent(db, q.parent, rows),
      RanChildren(db, q.children, rows),
      RanLeaf(q.usageLogs, In(ACCOUNT_ID, Ids(rows)), Some(ACCOUNT_ID)),
      RanLeaf(q.accountGroups, In(ACCOUNT_ID, Ids(rows)), Some(ACCOUNT_ID)))
  }

  function RanProxy(sub: Option<Spec>, rows: seq<Row>): Option<Spec> {
    if sub.None? then None else Some(NarrowKeyed(sub.value, ForeignKeys(rows, PROXY_ID)))
  }

  function RanParent(db: Database, sub: Option<AccountQ>, rows: seq<Row>): Option<AccountQ>
    decreases HeightOf(sub), 2
  {
    var keys := ForeignKeys(rows, PARENT_ID);
    if sub.None? || keys == [] then sub else Some(Ran(db, Narrow(sub.value, In(ID, keys), None)))
  }

  function RanChildren(db: Database, sub: Option<AccountQ>, rows: seq<Row>): Option<AccountQ>
    decreases HeightOf(sub), 2
  {
    if sub.None? then None else Some(Ran(db, Narrow(sub.value, In(PARENT_ID, Ids(rows)), Some(PARENT_ID))))
  }

  function RanLeaf(sub: Option<Spec>, p: Pred, keep: Option<string>): Option<Spec> {
    if sub.None? then None else Some(NarrowSpec(sub.value, p, keep))
  }
}
