/** sqlAll and the six loaders: neighbours are fetched in bulk and stitched to shared nodes. */
module EagerLoad {
  import opened Options
  import opened Rows
  import opened EagerSpec
  import opened QueryBuilder

  /** A Group, Proxy, UsageLog or AccountGroup node. */
  class Leaf {
    const row: Row

    constructor (row: Row)
      ensures this.row == row
    {
      this.row := row;
    }
  }

  /** An Account node: its scanned columns, its loadedTypes flags and its edges. */
  class Account {
    const row: Row
    const loaded: seq<bool>
    var groups: seq<Leaf>
    var proxy: Leaf?
    var parent: Account?
    var children: seq<Account>
    var usageLogs: seq<Leaf>
    var accountGroups: seq<Leaf>

    constructor (row: Row, loaded: seq<bool>)
      ensures this.row == row && this.loaded == loaded
      ensures groups == [] && proxy == null && parent == null && children == []
      ensures usageLogs == [] && accountGroups == []
    {
      this.row, this.loaded := row, loaded;
      groups, proxy, parent, children, usageLogs, accountGroups := [], null, null, [], [], [];
    }
  }

  ghost function LeafRows(leaves: seq<Leaf>): (rows: seq<Row>)
    ensures |rows| == |leaves| && forall i | 0 <= i < |leaves| :: rows[i] == leaves[i].row
  {
    seq(|leaves|, i requires 0 <= i < |leaves| => leaves[i].row)
  }

  ghost function NodeRows(nodes: seq<Account>): (rows: seq<Row>)
    ensures |rows| == |nodes| && forall i | 0 <= i < |nodes| :: rows[i] == nodes[i].row
  {
    seq(|nodes|, i requires 0 <= i < |nodes| => nodes[i].row)
  }

  ghost predicate Distinct(nodes: seq<Account>) {
    forall i, j | 0 <= i < j < |nodes| :: nodes[i] != nodes[j]
  }

  /** Within the objects R, the node and everything it reaches is the given tree. */
  ghost predicate Represents(a: Account, t: Tree, R: set<Account>)
    reads R
    decreases t
  {
    && a in R
    && a.row == t.row && a.loaded == t.loaded
    && LeafRows(a.groups) == t.groups
    && LeafRows(a.usageLogs) == t.usageLogs
    && LeafRows(a.accountGroups) == t.accountGroups
    && (if a.proxy == null then t.proxy == None else t.proxy == Some(a.proxy.row))
    && (if a.parent == null then t.parent == None
        else t.parent.Some? && Represents(a.parent, t.parent.value, R))
    && |a.children| == |t.children|
    && forall i | 0 <= i < |a.children| :: Represents(a.children[i], t.children[i], R)
  }

  ghost predicate RepresentsAll(nodes: seq<Account>, ts: seq<Tree>, R: set<Account>)
    reads R
  {
    |nodes| == |ts| && forall i | 0 <= i < |nodes| :: Represents(nodes[i], ts[i], R)
  }

  lemma {:induction false} RepresentsMore(a: Account, t: Tree, R: set<Account>, R': set<Account>)
    requires Represents(a, t, R) && R <= R'
    ensures Represents(a, t, R')
    decreases t
  {
    if a.parent != null {
      RepresentsMore(a.parent, t.parent.value, R, R');
    }
    forall i | 0 <= i < |a.children| ensures Represents(a.children[i], t.children[i], R') {
      RepresentsMore(a.children[i], t.children[i], R, R');
    }
  }

  // ----- the in-memory indexes -----------------------------------------------------------------------------

  /** Index of the last node with this id, or |nodes|. */
  ghost function LastWithId(nodes: seq<Account>, id: int): (j: nat)
    ensures j <= |nodes|
    ensures j < |nodes| ==> IntOf(nodes[j].row, ID) == id && forall i | j < i < |nodes| :: IntOf(nodes[i].row, ID) != id
    ensures j == |nodes| ==> forall i | 0 <= i < |nodes| :: IntOf(nodes[i].row, ID) != id
  {
    if nodes == [] then 0
    else if IntOf(nodes[|nodes| - 1].row, ID) == id then |nodes| - 1
    else
      var j := LastWithId(nodes[..|nodes| - 1], id);
      if j < |nodes| - 1 then j else |nodes|
  }

  /** byID holds, for every id of a node, the last node that has it. */
  ghost predicate IndexesById(byID: map<int, Account>, nodes: seq<Account>) {
    forall id :: if id in byID then LastWithId(nodes, id) < |nodes| && byID[id] == nodes[LastWithId(nodes, id)]
                 else LastWithId(nodes, id) == |nodes|
  }

  /** The first loop of the O2M and M2M loaders, without its init call. */
  method IndexById(nodes: seq<Account>) returns (ids: seq<int>, byID: map<int, Account>)
    ensures ids == Ids(NodeRows(nodes))
    ensures IndexesById(byID, nodes)
  {
    ids, byID := [], map[];
    for i := 0 to |nodes|
      invariant ids == Ids(NodeRows(nodes[..i]))
      invariant IndexesById(byID, nodes[..i])
    {
      assert nodes[..i + 1] == nodes[..i] + [nodes[i]];
      assert nodes[..i + 1][..i] == nodes[..i];
      ids := ids + [IntOf(nodes[i].row, ID)];
      byID := byID[IntOf(nodes[i].row, ID) := nodes[i]];
    }
    assert nodes[..|nodes|] == nodes;
  }

  /** nodeids holds, for every foreign key, the nodes that have it. */
  ghost predicate IndexesByKey(nodeids: map<int, seq<Account>>, nodes: seq<Account>, column: string) {
    && (forall key, i | key in nodeids && 0 <= i < |nodeids[key]| ::
          nodeids[key][i] in nodes && RefOf(nodeids[key][i].row, column) == Some(key))
    && (forall i | 0 <= i < |nodes| && RefOf(nodes[i].row, column).Some? ::
          var key := RefOf(nodes[i].row, column).value;
          key in nodeids && nodes[i] in nodeids[key])
  }

  /** nodeids[fk] = append(nodeids[fk], node) */
  function AddNode(nodeids: map<int, seq<Account>>, fk: int, node: Account): map<int, seq<Account>> {
    nodeids[fk := (if fk in nodeids then nodeids[fk] else []) + [node]]
  }

  lemma {:induction false} AddIndexes(nodeids: map<int, seq<Account>>, nodes: seq<Account>, column: string,
                                      node: Account)
    requires IndexesByKey(nodeids, nodes, column)
    ensures var fk := RefOf(node.row, column);
            IndexesByKey(if fk.Some? then AddNode(nodeids, fk.value, node) else nodeids, nodes + [node], column)
  {
    var fk := RefOf(node.row, column);
    var all := nodes + [node];
    assert all[|nodes|] == node && forall i | 0 <= i < |nodes| :: all[i] == nodes[i];
    if fk.Some? {
      var next := AddNode(nodeids, fk.value, node);
      assert next[fk.value][|next[fk.value]| - 1] == node;
    }
  }

  /** The first loop of the M2O loaders. */
  method IndexByKey(nodes: seq<Account>, column: string) returns (ids: seq<int>, nodeids: map<int, seq<Account>>)
    ensures ids == ForeignKeys(NodeRows(nodes), column)
    ensures forall key :: key in ids <==> key in nodeids
    ensures IndexesByKey(nodeids, nodes, column)
  {
    ids, nodeids := [], map[];
    for i := 0 to |nodes|
      invariant ids == ForeignKeys(NodeRows(nodes[..i]), column)
      invariant forall key :: key in ids <==> key in nodeids
      invariant IndexesByKey(nodeids, nodes[..i], column)
    {
      assert NodeRows(nodes[..i + 1])[..i] == NodeRows(nodes[..i]);
      assert nodes[..i + 1] == nodes[..i] + [nodes[i]];
      AddIndexes(nodeids, nodes[..i], column, nodes[i]);
      var fk := RefOf(nodes[i].row, column);
      if fk.Some? {
        if fk.value !in nodeids {
          ids := ids + [fk.value];
        }
        nodeids := AddNode(nodeids, fk.value, nodes[i]);
      }
    }
    assert nodes[..|nodes|] == nodes;
  }

  // ----- one query of a leaf table ---------------------------------------------------------------------------

  /** querySpec: the columns of the query, built field by field. */
  method SpecColumns(fields: seq<string>, all: seq<string>, hasID: bool, keys: seq<string>)
    returns (columns: seq<string>)
    ensures columns == if fields == [] then all
                       else AddAll(if hasID then [ID] + WithoutID(fields) else fields, keys)
  {
    if |fields| == 0 {
      return all;
    }
    columns := if hasID then [ID] else [];
    for i := 0 to |fields|
      invariant hasID ==> columns + WithoutID(fields[i..]) == [ID] + WithoutID(fields)
      invariant !hasID ==> columns == fields[..i]
    {
      if !hasID || fields[i] != ID {
        columns := columns + [fields[i]];
      }
    }
    assert fields[..|fields|] == fields && fields[|fields|..] == [];
    assert columns + [] == columns && keys[0..] == keys;
    for i := 0 to |keys|
      invariant AddAll(columns, keys[i..]) == AddAll(if hasID then [ID] + WithoutID(fields) else fields, keys)
    {
      assert keys[i..][1..] == keys[i + 1..];
      if keys[i] !in columns {
        columns := columns + [keys[i]];
      }
    }
  }

  /** prepareQuery, as far as it looks at the selected fields. */
  method CheckFields(fields: seq<string>, columns: seq<string>) returns (err: Option<Error>)
    ensures err == if FirstInvalid(fields, columns).Some?
            then Some(InvalidField(FirstInvalid(fields, columns).value)) else None
  {
    for i := 0 to |fields|
      invariant FirstInvalid(fields, columns) == FirstInvalid(fields[i..], columns)
    {
      if fields[i] !in columns {
        return Some(InvalidField(fields[i]));
      }
    }
    return None;
  }

  /** All() on a leaf builder: one node for each selected row. */
  method AllLeaves(db: Database, table: Table, query: LeafQuery) returns (r: Result<seq<Leaf>>)
    ensures r.Err? ==> Fetch(db, table, query.View()) == Err(r.error)
    ensures r.Ok? ==> Fetch(db, table, query.View()).Ok?
    ensures r.Ok? ==> LeafRows(r.value)
                      == ProjectAll(Fetch(db, table, query.View()).value, Columns(db, table, query.ctx.fields, []))
  {
    var columns := SpecColumns(query.ctx.fields, db.columns(table), HasID(table), []);
    var invalid := CheckFields(query.ctx.fields, db.columns(table));
    if invalid.Some? {
      return Err(invalid.value);
    }
    if table in db.down {
      return Err(QueryFailed(table));
    }
    var leaves := ScanLeaves(Select(TableRows(db, table), query.View()), columns);
    return Ok(leaves);
  }

  /** spec.Assign: one node for each row. */
  method ScanLeaves(rows: seq<Row>, columns: seq<string>) returns (leaves: seq<Leaf>)
    ensures LeafRows(leaves) == ProjectAll(rows, columns)
  {
    leaves := [];
    for i := 0 to |rows|
      invariant |leaves| == i && forall j | 0 <= j < i :: leaves[j].row == Project(rows[j], columns)
    {
      var leaf := new Leaf(Project(rows[i], columns));
      leaves := leaves + [leaf];
    }
  }

  // ----- M2O: every node is served -----------------------------------------------------------------------------

  ghost function LeafById(leaves: seq<Leaf>, id: Option<int>): Leaf? {
    if leaves == [] || id.None? then null
    else if IntOf(leaves[|leaves| - 1].row, ID) == id.value then leaves[|leaves| - 1]
    else LeafById(leaves[..|leaves| - 1], id)
  }

  /** The assign loop of loadProxy.  It fails exactly on a neighbour that no node refers to. */
  method StitchProxies(nodes: seq<Account>, nodeids: map<int, seq<Account>>, neighbours: seq<Leaf>)
    returns (err: Option<Error>)
    requires IndexesByKey(nodeids, nodes, PROXY_ID)
    requires forall i | 0 <= i < |nodes| :: nodes[i].proxy == null
    modifies nodes`proxy
    ensures err == None <==> forall k | 0 <= k < |neighbours| :: IntOf(neighbours[k].row, ID) in nodeids
    ensures err == None ==> forall i | 0 <= i < |nodes| ::
            nodes[i].proxy == LeafById(neighbours, RefOf(nodes[i].row, PROXY_ID))
  {
    for k := 0 to |neighbours|
      invariant forall j | 0 <= j < k :: IntOf(neighbours[j].row, ID) in nodeids
      invariant forall i | 0 <= i < |nodes| ::
                nodes[i].proxy == LeafById(neighbours[..k], RefOf(nodes[i].row, PROXY_ID))
    {
      var n := neighbours[k];
      var id := IntOf(n.row, ID);
      if id !in nodeids {
        return Some(UnexpectedNode(id));
      }
      assert neighbours[..k + 1][..k] == neighbours[..k];
      var served := nodeids[id];
      for m := 0 to |served|
        invariant forall i | 0 <= i < |nodes| ::
          nodes[i].proxy == if nodes[i] in served[..m] then n
            else LeafById(neighbours[..k], RefOf(nodes[i].row, PROXY_ID))
      {
        served[m].proxy := n;
        assert served[..m + 1] == served[..m] + [served[m]];
      }
      assert served[..|served|] == served;
    }
    assert neighbours[..|neighbours|] == neighbours;
    return None;
  }

  lemma {:induction false} InAddAll(columns: seq<string>, keys: seq<string>, c: string)
    ensures c in AddAll(columns, keys) <==> c in columns || c in keys
    decreases |keys|
  {
    if keys != [] {
      InAddAll(AddOnce(columns, keys[0]), keys[1..], c);
    }
  }

  lemma {:induction false} InWithoutID(fields: seq<string>, c: string)
    ensures c in WithoutID(fields) <==> c in fields && c != ID
  {
    if fields != [] {
      InWithoutID(fields[1..], c);
    }
  }

  /** Whatever is selected, the columns hold the id, the selected fields and the needed keys. */
  lemma {:induction false} InColumns(db: Database, table: Table, fields: seq<string>, keys: seq<string>, c: string)
    requires fields != []
    ensures c in Columns(db, table, fields, keys) <==> (HasID(table) && c == ID) || c in fields || c in keys
  {
    InAddAll(if HasID(table) then [ID] + WithoutID(fields) else fields, keys, c);
    InWithoutID(fields, c);
  }

  lemma {:induction false} ColumnsHaveID(db: Database, table: Table, fields: seq<string>, keys: seq<string>)
    requires ValidSchema(db) && HasID(table) && (table == Accounts || table == Groups || table == Proxies)
    ensures ID in Columns(db, table, fields, keys)
  {
    if fields != [] {
      InColumns(db, table, fields, keys, ID);
    }
  }

  lemma {:induction false} ProjectKeeps(row: Row, columns: seq<string>, c: string)
    requires c in columns
    ensures RefOf(Project(row, columns), c) == RefOf(row, c) && IntOf(Project(row, columns), c) == IntOf(row, c)
  {
  }

  lemma {:induction false} LeafByIdRow(leaves: seq<Leaf>, rows: seq<Row>, columns: seq<string>, id: Option<int>)
    requires LeafRows(leaves) == ProjectAll(rows, columns) && ID in columns
    ensures var leaf := LeafById(leaves, id);
            if leaf == null then RowById(rows, id) == None
            else ProjectOne(RowById(rows, id), columns) == Some(leaf.row)
  {
    if leaves != [] && id.Some? {
      var n := |leaves| - 1;
      assert leaves[n].row == LeafRows(leaves)[n] == Project(rows[n], columns);
      ProjectKeeps(rows[n], columns, ID);
      if IntOf(rows[n], ID) != id.value {
        assert LeafRows(leaves[..n]) == ProjectAll(rows[..n], columns);
        LeafByIdRow(leaves[..n], rows[..n], columns, id);
      }
    }
  }

  /** loadProxy */
  method LoadProxy(db: Database, query: LeafQuery, nodes: seq<Account>) returns (err: Option<Error>)
    requires ValidSchema(db) && forall i | 0 <= i < |nodes| :: nodes[i].proxy == null
    modifies query, query.ctx, nodes`proxy
    ensures var spec, fks := old(query.View()), ForeignKeys(NodeRows(nodes), PROXY_ID);
            var fetched := FetchKeyed(db, Proxies, spec, fks);
            && query.View() == NarrowKeyed(spec, fks)
            && err == ErrorOf(fetched)
            && (err == None ==> forall i | 0 <= i < |nodes| ::
                  HoldsRow(nodes[i].proxy, ProjectOne(RowById(fetched.value, RefOf(nodes[i].row, PROXY_ID)),
                                                      Columns(db, Proxies, spec.fields, []))))
  {
    var ids, nodeids := IndexByKey(nodes, PROXY_ID);
    if |ids| == 0 {
      return None;
    }
    query.Where(In(ID, ids));
    var fetched := AllLeaves(db, Proxies, query);
    if fetched.Err? {
      return Some(fetched.error);
    }
    ghost var rows, columns := Fetch(db, Proxies, query.View()).value, Columns(db, Proxies, query.ctx.fields, []);
    ColumnsHaveID(db, Proxies, query.ctx.fields, []);
    ExpectedIds(db, old(query.View()), ids, fetched.value, columns);
    err := StitchProxies(nodes, nodeids, fetched.value);
    forall i | 0 <= i < |nodes|
      ensures HoldsRow(nodes[i].proxy, ProjectOne(RowById(rows, RefOf(nodes[i].row, PROXY_ID)), columns))
    {
      LeafByIdRow(fetched.value, rows, columns, RefOf(nodes[i].row, PROXY_ID));
    }
  }

  function ErrorOf<T>(r: Result<T>): Option<Error> {
    if r.Err? then Some(r.error) else None
  }

  ghost predicate HoldsRow(leaf: Leaf?, row: Option<Row>) {
    if leaf == null then row == None else row == Some(leaf.row)
  }

  /** Every neighbour fetched by id was asked for: the "unexpected foreign-key" error cannot occur. */
  lemma {:induction false} ExpectedIds(db: Database, spec: Spec, ids: seq<int>, leaves: seq<Leaf>, columns: seq<string>)
    requires Fetch(db, Proxies, Where(spec, In(ID, ids))).Ok? && ID in columns
    requires LeafRows(leaves) == ProjectAll(Fetch(db, Proxies, Where(spec, In(ID, ids))).value, columns)
    ensures forall k | 0 <= k < |leaves| :: IntOf(leaves[k].row, ID) in ids
  {
    var rows := Fetch(db, Proxies, Where(spec, In(ID, ids))).value;
    forall k | 0 <= k < |leaves| ensures IntOf(leaves[k].row, ID) in ids {
      assert leaves[k].row == LeafRows(leaves)[k] == Project(rows[k], columns);
      SelectedIn(TableRows(db, Proxies), spec, In(ID, ids), rows[k]);
      ProjectKeeps(rows[k], columns, ID);
    }
  }

  // ----- O2M: the node that the index holds is served ------------------------------------------------------------

  ghost function LeavesFor(leaves: seq<Leaf>, id: int): seq<Leaf> {
    if leaves == [] then []
    else
      var before := LeavesFor(leaves[..|leaves| - 1], id);
      if IntOf(leaves[|leaves| - 1].row, ACCOUNT_ID) == id then before + [leaves[|leaves| - 1]] else before
  }

  /** With repeated ids only the last node of an id is in the index, and only it is served. */
  ghost function ServedLeaves(nodes: seq<Account>, i: nat, leaves: seq<Leaf>): seq<Leaf>
    requires i < |nodes|
  {
    var id := IntOf(nodes[i].row, ID);
    if LastWithId(nodes, id) == i then LeavesFor(leaves, id) else []
  }

  lemma {:induction false} ServedStep(nodes: seq<Account>, i: nat, leaves: seq<Leaf>, k: nat)
    requires i < |nodes| && k < |leaves|
    ensures ServedLeaves(nodes, i, leaves[..k + 1])
         == ServedLeaves(nodes, i, leaves[..k])
            + if i == LastWithId(nodes, IntOf(leaves[k].row, ACCOUNT_ID)) then [leaves[k]] else []
  {
    assert leaves[..k + 1][..k] == leaves[..k];
    LastOfId(nodes, i, IntOf(leaves[k].row, ACCOUNT_ID));
  }

  lemma {:induction false} LastOfId(nodes: seq<Account>, i: nat, id: int)
    requires i < |nodes|
    ensures i == LastWithId(nodes, id)
       <==> id == IntOf(nodes[i].row, ID) && i == LastWithId(nodes, IntOf(nodes[i].row, ID))
  {
  }

  ghost function ServedRows(nodeRows: seq<Row>, i: nat, rows: seq<Row>, columns: seq<string>): seq<Row>
    requires i < |nodeRows|
  {
    ProjectAll(if IsLast(nodeRows, i) then RowsFor(rows, ACCOUNT_ID, IntOf(nodeRows[i], ID)) else [], columns)
  }

  lemma {:induction false} LastIsLast(nodes: seq<Account>, i: nat)
    requires i < |nodes|
    ensures LastWithId(nodes, IntOf(nodes[i].row, ID)) == i <==> IsLast(NodeRows(nodes), i)
  {
    var rows := NodeRows(nodes);
    assert forall j | 0 <= j < |nodes| :: rows[j] == nodes[j].row;
    var j := LastWithId(nodes, IntOf(nodes[i].row, ID));
    assert i <= j < |nodes| && IntOf(rows[j], ID) == IntOf(rows[i], ID);
  }

  lemma {:induction false} LeavesForRows(leaves: seq<Leaf>, rows: seq<Row>, columns: seq<string>, id: int)
    requires LeafRows(leaves) == ProjectAll(rows, columns) && ACCOUNT_ID in columns
    requires forall k | 0 <= k < |rows| :: RefOf(rows[k], ACCOUNT_ID).Some?
    ensures LeafRows(LeavesFor(leaves, id)) == ProjectAll(RowsFor(rows, ACCOUNT_ID, id), columns)
  {
    if leaves != [] {
      var n := |leaves| - 1;
      assert leaves[n].row == LeafRows(leaves)[n] == Project(rows[n], columns);
      ProjectKeeps(rows[n], columns, ACCOUNT_ID);
      assert LeafRows(leaves[..n]) == ProjectAll(rows[..n], columns);
      LeavesForRows(leaves[..n], rows[..n], columns, id);
      assert IntOf(leaves[n].row, ACCOUNT_ID) == id <==> RefOf(rows[n], ACCOUNT_ID) == Some(id);
    }
  }

  lemma {:induction false} ServedLeavesRows(nodes: seq<Account>, i: nat, leaves: seq<Leaf>, rows: seq<Row>,
                                            columns: seq<string>)
    requires i < |nodes| && LeafRows(leaves) == ProjectAll(rows, columns) && ACCOUNT_ID in columns
    requires forall k | 0 <= k < |rows| :: RefOf(rows[k], ACCOUNT_ID).Some?
    ensures LeafRows(ServedLeaves(nodes, i, leaves)) == ServedRows(NodeRows(nodes), i, rows, columns)
  {
    LastIsLast(nodes, i);
    LeavesForRows(leaves, rows, columns, IntOf(nodes[i].row, ID));
  }

  /** The foreign key of an O2M edge is read even when other fields were selected. */
  lemma {:induction false} KeptColumn(db: Database, table: Table, spec: Spec)
    requires ValidSchema(db) && (table == UsageLogs || table == AccountGroups)
    ensures ACCOUNT_ID in Columns(db, table, KeepField(spec, ACCOUNT_ID).fields, [])
  {
    if spec.fields != [] {
      InColumns(db, table, KeepField(spec, ACCOUNT_ID).fields, [], ACCOUNT_ID);
    }
  }

  /** Every neighbour fetched by foreign key belongs to a node: the "unexpected" error cannot occur. */
  lemma {:induction false} ExpectedOwners(db: Database, table: Table, spec: Spec, nodes: seq<Account>,
                                          byID: map<int, Account>, leaves: seq<Leaf>, columns: seq<string>)
    requires IndexesById(byID, nodes) && ACCOUNT_ID in columns
    requires Fetch(db, table, Where(spec, In(ACCOUNT_ID, Ids(NodeRows(nodes))))).Ok?
    requires LeafRows(leaves)
             == ProjectAll(Fetch(db, table, Where(spec, In(ACCOUNT_ID, Ids(NodeRows(nodes))))).value, columns)
    ensures forall k | 0 <= k < |leaves| :: IntOf(leaves[k].row, ACCOUNT_ID) in byID
    ensures var rows := Fetch(db, table, Where(spec, In(ACCOUNT_ID, Ids(NodeRows(nodes))))).value;
            forall k | 0 <= k < |rows| :: RefOf(rows[k], ACCOUNT_ID).Some?
  {
    var ids := Ids(NodeRows(nodes));
    var rows := Fetch(db, table, Where(spec, In(ACCOUNT_ID, ids))).value;
    forall k | 0 <= k < |rows| ensures RefOf(rows[k], ACCOUNT_ID).Some? && IntOf(leaves[k].row, ACCOUNT_ID) in byID {
      assert leaves[k].row == LeafRows(leaves)[k] == Project(rows[k], columns);
      SelectedIn(TableRows(db, table), spec, In(ACCOUNT_ID, ids), rows[k]);
      ProjectKeeps(rows[k], columns, ACCOUNT_ID);
      IdIndexed(nodes, byID, IntOf(rows[k], ACCOUNT_ID));
    }
  }

  lemma {:induction false} IdIndexed(nodes: seq<Account>, byID: map<int, Account>, id: int)
    requires IndexesById(byID, nodes) && id in Ids(NodeRows(nodes))
    ensures id in byID
  {
    var i :| 0 <= i < |nodes| && Ids(NodeRows(nodes))[i] == id;
    assert IntOf(nodes[i].row, ID) == id;
    assert LastWithId(nodes, id) < |nodes|;
  }

  /** assign(node, n): the owner, and only the owner, gains the neighbour. */
  method GiveUsageLogs(nodes: seq<Account>, node: Account, ghost owner: nat, neighbours: seq<Leaf>, k: nat)
    requires Distinct(nodes) && owner < |nodes| && node == nodes[owner] && k < |neighbours|
    requires owner == LastWithId(nodes, IntOf(neighbours[k].row, ACCOUNT_ID))
    requires forall i | 0 <= i < |nodes| :: nodes[i].usageLogs == ServedLeaves(nodes, i, neighbours[..k])
    modifies node`usageLogs
    ensures forall i | 0 <= i < |nodes| :: nodes[i].usageLogs == ServedLeaves(nodes, i, neighbours[..k + 1])
  {
    forall i | 0 <= i < |nodes| {
      ServedStep(nodes, i, neighbours, k);
    }
    node.usageLogs := node.usageLogs + [neighbours[k]];
  }

  method StitchUsageLogs(nodes: seq<Account>, byID: map<int, Account>, neighbours: seq<Leaf>)
    returns (err: Option<Error>)
    requires IndexesById(byID, nodes) && Distinct(nodes)
    requires forall i | 0 <= i < |nodes| :: nodes[i].usageLogs == []
    modifies nodes`usageLogs
    ensures err == None <==> forall k | 0 <= k < |neighbours| :: IntOf(neighbours[k].row, ACCOUNT_ID) in byID
    ensures err == None ==> forall i | 0 <= i < |nodes| :: nodes[i].usageLogs == ServedLeaves(nodes, i, neighbours)
  {
    for k := 0 to |neighbours|
      invariant forall j | 0 <= j < k :: IntOf(neighbours[j].row, ACCOUNT_ID) in byID
      invariant forall i | 0 <= i < |nodes| :: nodes[i].usageLogs == ServedLeaves(nodes, i, neighbours[..k])
    {
      var fk := IntOf(neighbours[k].row, ACCOUNT_ID);
      if fk !in byID {
        return Some(UnexpectedNode(fk));
      }
      assert forall j | 0 <= j < k + 1 :: IntOf(neighbours[j].row, ACCOUNT_ID) in byID;
      GiveUsageLogs(nodes, byID[fk], LastWithId(nodes, fk), neighbours, k);
    }
    assert neighbours[..|neighbours|] == neighbours;
    return None;
  }

  /** loadUsageLogs */
  method LoadUsageLogs(db: Database, query: LeafQuery, nodes: seq<Account>) returns (err: Option<Error>)
    requires ValidSchema(db) && Distinct(nodes)
    modifies query, query.ctx, nodes`usageLogs
    ensures var spec := NarrowSpec(old(query.View()), In(ACCOUNT_ID, Ids(NodeRows(nodes))), Some(ACCOUNT_ID));
            && query.View() == spec
            && err == (if Fetch(db, UsageLogs, spec).Err? then Some(Fetch(db, UsageLogs, spec).error) else None)
            && (err == None ==> forall i | 0 <= i < |nodes| ::
                  LeafRows(nodes[i].usageLogs) == ServedRows(NodeRows(nodes), i, Fetch(db, UsageLogs, spec).value,
                                                         Columns(db, UsageLogs, spec.fields, [])))
  {
    var ids, byID := IndexById(nodes);
    for i := 0 to |nodes|
      invariant query.View() == old(query.View())
      invariant forall j | 0 <= j < i :: nodes[j].usageLogs == []
    {
      nodes[i].usageLogs := [];
    }
    query.KeepField(ACCOUNT_ID);
    query.Where(In(ACCOUNT_ID, ids));
    var fetched := AllLeaves(db, UsageLogs, query);
    if fetched.Err? {
      return Some(fetched.error);
    }
    ghost var kept := KeepField(old(query.View()), ACCOUNT_ID);
    ghost var rows, columns := Fetch(db, UsageLogs, query.View()).value, Columns(db, UsageLogs, query.ctx.fields, []);
    KeptColumn(db, UsageLogs, old(query.View()));
    ExpectedOwners(db, UsageLogs, kept, nodes, byID, fetched.value, columns);
    err := StitchUsageLogs(nodes, byID, fetched.value);
    forall i | 0 <= i < |nodes|
      ensures LeafRows(nodes[i].usageLogs) == ServedRows(NodeRows(nodes), i, rows, columns)
    {
      ServedLeavesRows(nodes, i, fetched.value, rows, columns);
    }
  }

  /** assign(node, n): the owner, and only the owner, gains the neighbour. */
  method GiveAccountGroups(nodes: seq<Account>, node: Account, ghost owner: nat, neighbours: seq<Leaf>, k: nat)
    requires Distinct(nodes) && owner < |nodes| && node == nodes[owner] && k < |neighbours|
    requires owner == LastWithId(nodes, IntOf(neighbours[k].row, ACCOUNT_ID))
    requires forall i | 0 <= i < |nodes| :: nodes[i].accountGroups == ServedLeaves(nodes, i, neighbours[..k])
    modifies node`accountGroups
    ensures forall i | 0 <= i < |nodes| :: nodes[i].accountGroups == ServedLeaves(nodes, i, neighbours[..k + 1])
  {
    forall i | 0 <= i < |nodes| {
      ServedStep(nodes, i, neighbours, k);
    }
    node.accountGroups := node.accountGroups + [neighbours[k]];
  }

  method StitchAccountGroups(nodes: seq<Account>, byID: map<int, Account>, neighbours: seq<Leaf>)
    returns (err: Option<Error>)
    requires IndexesById(byID, nodes) && Distinct(nodes)
    requires forall i | 0 <= i < |nodes| :: nodes[i].accountGroups == []
    modifies nodes`accountGroups
    ensures err == None <==> forall k | 0 <= k < |neighbours| :: IntOf(neighbours[k].row, ACCOUNT_ID) in byID
    ensures err == None ==> forall i | 0 <= i < |nodes| :: nodes[i].accountGroups == ServedLeaves(nodes, i, neighbours)
  {
    for k := 0 to |neighbours|
      invariant forall j | 0 <= j < k :: IntOf(neighbours[j].row, ACCOUNT_ID) in byID
      invariant forall i | 0 <= i < |nodes| :: nodes[i].accountGroups == ServedLeaves(nodes, i, neighbours[..k])
    {
      var fk := IntOf(neighbours[k].row, ACCOUNT_ID);
      if fk !in byID {
        return Some(UnexpectedNode(fk));
      }
      assert forall j | 0 <= j < k + 1 :: IntOf(neighbours[j].row, ACCOUNT_ID) in byID;
      GiveAccountGroups(nodes, byID[fk], LastWithId(nodes, fk), neighbours, k);
    }
    assert neighbours[..|neighbours|] == neighbours;
    return None;
  }

  /** loadAccountGroups */
  method LoadAccountGroups(db: Database, query: LeafQuery, nodes: seq<Account>) returns (err: Option<Error>)
    requires ValidSchema(db) && Distinct(nodes)
    modifies query, query.ctx, nodes`accountGroups
    ensures var spec := NarrowSpec(old(query.View()), In(ACCOUNT_ID, Ids(NodeRows(nodes))), Some(ACCOUNT_ID));
            && query.View() == spec
            && err == (if Fetch(db, AccountGroups, spec).Err? then Some(Fetch(db, AccountGroups, spec).error) else None)
            && (err == None ==> forall i | 0 <= i < |nodes| ::
                  LeafRows(nodes[i].accountGroups)
                    == ServedRows(NodeRows(nodes), i, Fetch(db, AccountGroups, spec).value,
                                                         Columns(db, AccountGroups, spec.fields, [])))
  {
    var ids, byID := IndexById(nodes);
    for i := 0 to |nodes|
      invariant query.View() == old(query.View())
      invariant forall j | 0 <= j < i :: nodes[j].accountGroups == []
    {
      nodes[i].accountGroups := [];
    }
    query.KeepField(ACCOUNT_ID);
    query.Where(In(ACCOUNT_ID, ids));
    var fetched := AllLeaves(db, AccountGroups, query);
    if fetched.Err? {
      return Some(fetched.error);
    }
    ghost var kept := KeepField(old(query.View()), ACCOUNT_ID);
    ghost var rows, columns := Fetch(db, AccountGroups, query.View()).value,
      Columns(db, AccountGroups, query.ctx.fields, []);
    KeptColumn(db, AccountGroups, old(query.View()));
    ExpectedOwners(db, AccountGroups, kept, nodes, byID, fetched.value, columns);
    err := StitchAccountGroups(nodes, byID, fetched.value);
    forall i | 0 <= i < |nodes|
      ensures LeafRows(nodes[i].accountGroups) == ServedRows(NodeRows(nodes), i, rows, columns)
    {
      ServedLeavesRows(nodes, i, fetched.value, rows, columns);
    }
  }

  // ----- M2M: one node for each group, shared by its accounts ----------------------------------------------------

  /** The accounts that the joined rows pair with a group. */
  ghost function Members(joined: seq<Row>, byID: map<int, Account>, group: int): set<Account>
    requires forall k | 0 <= k < |joined| :: IntOf(joined[k], OUT) in byID
  {
    if joined == [] then {}
    else
      var row := joined[|joined| - 1];
      Members(joined[..|joined| - 1], byID, group) + if IntOf(row, ID) == group then {byID[IntOf(row, OUT)]} else {}
  }

  lemma {:induction false} FirstRowsIds(joined: seq<Row>, id: int)
    ensures id in Ids(FirstRows(joined)) <==> id in Ids(joined)
  {
    if joined != [] {
      var n := |joined| - 1;
      FirstRowsIds(joined[..n], id);
      assert Ids(joined) == Ids(joined[..n]) + [IntOf(joined[n], ID)];
      var before := FirstRows(joined[..n]);
      assert Ids(before + [joined[n]]) == Ids(before) + [IntOf(joined[n], ID)];
    }
  }

  /** spec.Assign of loadGroups: the first row of a group makes its node, every row pairs an account. */
  method ScanJoined(joined: seq<Row>, byID: map<int, Account>, columns: seq<string>)
    returns (neighbours: seq<Leaf>, nids: map<int, set<Account>>)
    requires forall k | 0 <= k < |joined| :: IntOf(joined[k], OUT) in byID
    ensures LeafRows(neighbours) == ProjectAll(FirstRows(joined), columns)
    ensures forall group :: group in nids <==> group in Ids(joined)
    ensures forall group | group in nids :: nids[group] == Members(joined, byID, group)
  {
    neighbours, nids := [], map[];
    for k := 0 to |joined|
      invariant LeafRows(neighbours) == ProjectAll(FirstRows(joined[..k]), columns)
      invariant PairsOf(joined[..k], byID, nids)
    {
      var row := joined[k];
      var outValue, inValue := IntOf(row, OUT), IntOf(row, ID);
      var members := if inValue in nids then nids[inValue] else {};
      NextRow(joined, k);
      NextPairs(joined, k, byID, nids);
      if inValue !in nids {
        var node := new Leaf(Project(row, columns));
        neighbours := neighbours + [node];
      }
      nids := nids[inValue := members + {byID[outValue]}];
      assert PairsOf(joined[..k + 1], byID, nids);
    }
    assert joined[..|joined|] == joined;
  }

  /** The entries of nids are the groups met so far, each with the accounts it was paired with. */
  ghost predicate PairsOf(joined: seq<Row>, byID: map<int, Account>, nids: map<int, set<Account>>)
    requires forall k | 0 <= k < |joined| :: IntOf(joined[k], OUT) in byID
  {
    && (forall group :: group in nids <==> group in Ids(joined))
    && (forall group | group in nids :: nids[group] == Members(joined, byID, group))
  }

  lemma {:induction false} NextPairs(joined: seq<Row>, k: nat, byID: map<int, Account>, nids: map<int, set<Account>>)
    requires k < |joined| && forall j | 0 <= j < |joined| :: IntOf(joined[j], OUT) in byID
    requires PairsOf(joined[..k], byID, nids)
    ensures var account, group := byID[IntOf(joined[k], OUT)], IntOf(joined[k], ID);
            var members := if group in nids then nids[group] else {};
            PairsOf(joined[..k + 1], byID, nids[group := members + {account}])
  {
    var account, group := byID[IntOf(joined[k], OUT)], IntOf(joined[k], ID);
    var members := if group in nids then nids[group] else {};
    var next := nids[group := members + {account}];
    NextRow(joined, k);
    if group !in nids {
      MembersNone(joined[..k], byID, group);
    }
    forall g | g in next ensures next[g] == Members(joined[..k + 1], byID, g) {
      NextMembers(joined, k, byID, g);
    }
  }

  lemma {:induction false} NextRow(joined: seq<Row>, k: nat)
    requires k < |joined|
    ensures var before, id := joined[..k], IntOf(joined[k], ID);
            && Ids(joined[..k + 1]) == Ids(before) + [id]
            && FirstRows(joined[..k + 1]) == if id in Ids(before) then FirstRows(before)
              else FirstRows(before) + [joined[k]]
  {
    assert joined[..k + 1][..k] == joined[..k];
    FirstRowsIds(joined[..k], IntOf(joined[k], ID));
  }

  lemma {:induction false} NextMembers(joined: seq<Row>, k: nat, byID: map<int, Account>, group: int)
    requires k < |joined| && forall j | 0 <= j < |joined| :: IntOf(joined[j], OUT) in byID
    ensures Members(joined[..k + 1], byID, group)
         == Members(joined[..k], byID, group) + if IntOf(joined[k], ID) == group then {byID[IntOf(joined[k], OUT)]}
           else {}
  {
    assert joined[..k + 1][..k] == joined[..k];
  }

  lemma {:induction false} MembersNone(joined: seq<Row>, byID: map<int, Account>, group: int)
    requires forall k | 0 <= k < |joined| :: IntOf(joined[k], OUT) in byID
    requires group !in Ids(joined)
    ensures Members(joined, byID, group) == {}
  {
    if joined != [] {
      var n := |joined| - 1;
      assert Ids(joined)[n] == IntOf(joined[n], ID);
      assert forall k | 0 <= k < n :: Ids(joined[..n])[k] == Ids(joined)[k];
      MembersNone(joined[..n], byID, group);
    }
  }

  /** The group nodes that the index links to an account. */
  ghost function LinkedLeaves(leaves: seq<Leaf>, nids: map<int, set<Account>>, a: Account): seq<Leaf> {
    if leaves == [] then []
    else
      var before := LinkedLeaves(leaves[..|leaves| - 1], nids, a);
      var leaf := leaves[|leaves| - 1];
      if IntOf(leaf.row, ID) in nids && a in nids[IntOf(leaf.row, ID)] then before + [leaf] else before
  }

  /** The assign loop of loadGroups; the accounts of a group are visited in no particular order. */
  method StitchGroups(nodes: seq<Account>, nids: map<int, set<Account>>, neighbours: seq<Leaf>)
    returns (err: Option<Error>)
    requires forall group, a | group in nids && a in nids[group] :: a in nodes
    requires forall i | 0 <= i < |nodes| :: nodes[i].groups == []
    modifies nodes`groups
    ensures err == None <==> forall k | 0 <= k < |neighbours| :: IntOf(neighbours[k].row, ID) in nids
    ensures err == None ==> forall i | 0 <= i < |nodes| :: nodes[i].groups == LinkedLeaves(neighbours, nids, nodes[i])
  {
    for k := 0 to |neighbours|
      invariant forall j | 0 <= j < k :: IntOf(neighbours[j].row, ID) in nids
      invariant forall i | 0 <= i < |nodes| :: nodes[i].groups == LinkedLeaves(neighbours[..k], nids, nodes[i])
    {
      var n := neighbours[k];
      var id := IntOf(n.row, ID);
      if id !in nids {
        return Some(UnexpectedNode(id));
      }
      assert neighbours[..k + 1][..k] == neighbours[..k];
      var todo := nids[id];
      while todo != {}
        invariant todo <= nids[id]
        invariant forall i | 0 <= i < |nodes| ::
          nodes[i].groups == LinkedLeaves(neighbours[..k], nids, nodes[i])
                             + if nodes[i] in nids[id] && nodes[i] !in todo then [n] else []
        decreases todo
      {
        var kn :| kn in todo;
        assert kn in nids[id] && kn in nodes;
        kn.groups := kn.groups + [n];
        todo := todo - {kn};
      }
    }
    assert neighbours[..|neighbours|] == neighbours;
    return None;
  }

  lemma {:induction false} MemberPaired(nodes: seq<Account>, i: nat, joined: seq<Row>, byID: map<int, Account>,
                                        group: int)
    requires Distinct(nodes) && i < |nodes| && IndexesById(byID, nodes)
    requires forall k | 0 <= k < |joined| :: IntOf(joined[k], OUT) in byID
    ensures nodes[i] in Members(joined, byID, group)
       <==> LastWithId(nodes, IntOf(nodes[i].row, ID)) == i && Paired(joined, IntOf(nodes[i].row, ID), group)
  {
    if joined != [] {
      var n := |joined| - 1;
      var out := IntOf(joined[n], OUT);
      MemberPaired(nodes, i, joined[..n], byID, group);
      PairedLast(joined, IntOf(nodes[i].row, ID), group);
      assert byID[out] == nodes[LastWithId(nodes, out)];
      LastOfId(nodes, i, out);
    }
  }

  lemma {:induction false} PairedLast(joined: seq<Row>, account: int, group: int)
    requires joined != []
    ensures var n := |joined| - 1;
            Paired(joined, account, group)
            <==> || Paired(joined[..n], account, group)
                 || (IntOf(joined[n], OUT) == account && IntOf(joined[n], ID) == group)
  {
    var n := |joined| - 1;
    if Paired(joined[..n], account, group) {
      var k :| 0 <= k < n && IntOf(joined[..n][k], OUT) == account && IntOf(joined[..n][k], ID) == group;
      assert IntOf(joined[k], OUT) == account && IntOf(joined[k], ID) == group;
    }
    if Paired(joined, account, group) {
      var k :| 0 <= k < |joined| && IntOf(joined[k], OUT) == account && IntOf(joined[k], ID) == group;
      if k < n {
        assert IntOf(joined[..n][k], OUT) == account && IntOf(joined[..n][k], ID) == group;
      }
    }
  }

  lemma {:induction false} LinkedRows(leaves: seq<Leaf>, firsts: seq<Row>, columns: seq<string>,
                                      nids: map<int, set<Account>>,
                                      a: Account, joined: seq<Row>, account: int)
    requires LeafRows(leaves) == ProjectAll(firsts, columns) && ID in columns
    requires forall k | 0 <= k < |firsts| :: IntOf(firsts[k], ID) in nids
    requires forall group | group in nids :: a in nids[group] <==> Paired(joined, account, group)
    ensures LeafRows(LinkedLeaves(leaves, nids, a)) == ProjectAll(GroupsIn(firsts, joined, account), columns)
  {
    if leaves != [] {
      var n := |leaves| - 1;
      assert leaves[n].row == LeafRows(leaves)[n] == Project(firsts[n], columns);
      ProjectKeeps(firsts[n], columns, ID);
      assert LeafRows(leaves[..n]) == ProjectAll(firsts[..n], columns);
      LinkedRows(leaves[..n], firsts[..n], columns, nids, a, joined, account);
    }
  }

  lemma {:induction false} LinkedNone(leaves: seq<Leaf>, nids: map<int, set<Account>>, a: Account)
    requires forall group | group in nids :: a !in nids[group]
    ensures LinkedLeaves(leaves, nids, a) == []
  {
    if leaves != [] {
      LinkedNone(leaves[..|leaves| - 1], nids, a);
    }
  }

  ghost function ServedGroups(nodeRows: seq<Row>, i: nat, joined: seq<Row>, columns: seq<string>): seq<Row>
    requires i < |nodeRows|
  {
    ProjectAll(if IsLast(nodeRows, i) then GroupsFor(joined, IntOf(nodeRows[i], ID)) else [], columns)
  }

  lemma {:induction false} LinkedGroups(nodes: seq<Account>, i: nat, joined: seq<Row>, byID: map<int, Account>,
                                        nids: map<int, set<Account>>, leaves: seq<Leaf>, columns: seq<string>)
    requires Distinct(nodes) && i < |nodes| && IndexesById(byID, nodes) && ID in columns
    requires forall k | 0 <= k < |joined| :: IntOf(joined[k], OUT) in byID
    requires LeafRows(leaves) == ProjectAll(FirstRows(joined), columns)
    requires forall group :: group in nids <==> group in Ids(joined)
    requires forall group | group in nids :: nids[group] == Members(joined, byID, group)
    ensures LeafRows(LinkedLeaves(leaves, nids, nodes[i])) == ServedGroups(NodeRows(nodes), i, joined, columns)
  {
    var a, account, firsts := nodes[i], IntOf(nodes[i].row, ID), FirstRows(joined);
    LastIsLast(nodes, i);
    forall group | group in nids
      ensures a in nids[group] <==> LastWithId(nodes, account) == i && Paired(joined, account, group)
    {
      MemberPaired(nodes, i, joined, byID, group);
    }
    FirstsKnown(joined, nids);
    if LastWithId(nodes, account) == i {
      LinkedRows(leaves, firsts, columns, nids, a, joined, account);
    } else {
      LinkedNone(leaves, nids, a);
    }
  }

  lemma {:induction false} FirstsKnown(joined: seq<Row>, nids: map<int, set<Account>>)
    requires forall group :: group in nids <==> group in Ids(joined)
    ensures forall k | 0 <= k < |FirstRows(joined)| :: IntOf(FirstRows(joined)[k], ID) in nids
  {
    var firsts := FirstRows(joined);
    forall k | 0 <= k < |firsts| ensures IntOf(firsts[k], ID) in nids {
      assert Ids(firsts)[k] == IntOf(firsts[k], ID);
      FirstRowsIds(joined, IntOf(firsts[k], ID));
    }
  }

  lemma {:induction false} MembersAreNodes(nodes: seq<Account>, joined: seq<Row>, byID: map<int, Account>, group: int)
    requires IndexesById(byID, nodes)
    requires forall k | 0 <= k < |joined| :: IntOf(joined[k], OUT) in byID
    ensures forall a | a in Members(joined, byID, group) :: a in nodes
  {
    if joined != [] {
      MembersAreNodes(nodes, joined[..|joined| - 1], byID, group);
      var out := IntOf(joined[|joined| - 1], OUT);
      assert byID[out] == nodes[LastWithId(nodes, out)];
    }
  }

  /** The group objects that these accounts hold. */
  ghost function GroupObjects(S: set<Account>): set<Leaf>
    reads S`groups
  {
    set a, k | a in S && 0 <= k < |a.groups| :: a.groups[k]
  }

  /** One object for each group: accounts that hold the same group hold the same object. */
  ghost predicate SharedIn(S: set<Account>)
    reads S`groups
  {
    forall x, y | x in GroupObjects(S) && y in GroupObjects(S) && IntOf(x.row, ID) == IntOf(y.row, ID) :: x == y
  }

  ghost function Objects(nodes: seq<Account>): (objects: set<Account>)
    ensures forall i | 0 <= i < |nodes| :: nodes[i] in objects
    ensures forall n | n in objects :: n in nodes
  {
    set n | n in nodes
  }

  ghost predicate SharedGroups(nodes: seq<Account>)
    reads nodes`groups
  {
    SharedIn(Objects(nodes))
  }

  ghost predicate DistinctIds(leaves: seq<Leaf>) {
    forall i, j | 0 <= i < j < |leaves| :: IntOf(leaves[i].row, ID) != IntOf(leaves[j].row, ID)
  }

  lemma {:induction false} LinkedIn(leaves: seq<Leaf>, nids: map<int, set<Account>>, a: Account)
    ensures forall leaf | leaf in LinkedLeaves(leaves, nids, a) :: leaf in leaves
  {
    if leaves != [] {
      LinkedIn(leaves[..|leaves| - 1], nids, a);
    }
  }

  lemma {:induction false} LinkedShared(leaves: seq<Leaf>, nids: map<int, set<Account>>, nodes: seq<Account>)
    requires DistinctIds(leaves)
    requires forall i | 0 <= i < |nodes| :: nodes[i].groups == LinkedLeaves(leaves, nids, nodes[i])
    ensures SharedGroups(nodes)
  {
    forall x | x in GroupObjects(Objects(nodes)) ensures x in leaves {
      var a, k :| a in Objects(nodes) && 0 <= k < |a.groups| && x == a.groups[k];
      var i :| 0 <= i < |nodes| && nodes[i] == a;
      LinkedIn(leaves, nids, nodes[i]);
    }
  }

  predicate DistinctRows(rows: seq<Row>) {
    forall i, j | 0 <= i < j < |rows| :: IntOf(rows[i], ID) != IntOf(rows[j], ID)
  }

  lemma {:induction false} FirstRowsDistinct(joined: seq<Row>)
    ensures DistinctRows(FirstRows(joined))
  {
    if joined != [] {
      var before := FirstRows(joined[..|joined| - 1]);
      FirstRowsDistinct(joined[..|joined| - 1]);
      forall i | 0 <= i < |before| ensures IntOf(before[i], ID) in Ids(before) {
        assert Ids(before)[i] == IntOf(before[i], ID);
      }
      assert DistinctRows(before);
      var row := joined[|joined| - 1];
      if IntOf(row, ID) !in Ids(before) {
        assert DistinctRows(before + [row]);
      }
    }
  }

  lemma {:induction false} NodesDistinct(joined: seq<Row>, leaves: seq<Leaf>, columns: seq<string>)
    requires LeafRows(leaves) == ProjectAll(FirstRows(joined), columns) && ID in columns
    ensures DistinctIds(leaves)
  {
    FirstRowsDistinct(joined);
    forall k | 0 <= k < |leaves| ensures IntOf(leaves[k].row, ID) == IntOf(FirstRows(joined)[k], ID) {
      assert leaves[k].row == LeafRows(leaves)[k] == Project(FirstRows(joined)[k], columns);
      ProjectKeeps(FirstRows(joined)[k], columns, ID);
    }
  }

  /** loadGroups */
  method LoadGroups(db: Database, query: LeafQuery, nodes: seq<Account>) returns (err: Option<Error>)
    requires ValidSchema(db) && Distinct(nodes)
    modifies query, query.ctx, nodes`groups
    ensures var spec := Where(old(query.View()), In(OUT, Ids(NodeRows(nodes))));
            && query.View() == spec
            && err == (if Fetch(db, Groups, spec).Err? then Some(Fetch(db, Groups, spec).error) else None)
            && (err == None ==> forall i | 0 <= i < |nodes| ::
                  LeafRows(nodes[i].groups) == ServedGroups(NodeRows(nodes), i, Fetch(db, Groups, spec).value,
                                                          Columns(db, Groups, spec.fields, [])))
    ensures err == None ==> SharedGroups(nodes)
  {
    var ids, byID := IndexById(nodes);
    for i := 0 to |nodes|
      invariant query.View() == old(query.View())
      invariant forall j | 0 <= j < i :: nodes[j].groups == []
    {
      nodes[i].groups := [];
    }
    query.Where(In(OUT, ids));
    err := RunGroups(db, query, nodes, byID);
  }

  /** The part of loadGroups after the predicate is set: run the joined query and stitch its rows. */
  method RunGroups(db: Database, query: LeafQuery, nodes: seq<Account>, byID: map<int, Account>)
    returns (err: Option<Error>)
    requires ValidSchema(db) && Distinct(nodes) && IndexesById(byID, nodes)
    requires forall i | 0 <= i < |nodes| :: nodes[i].groups == []
    requires In(OUT, Ids(NodeRows(nodes))) in query.predicates
    modifies nodes`groups
    ensures var spec := query.View();
            && err == (if Fetch(db, Groups, spec).Err? then Some(Fetch(db, Groups, spec).error) else None)
            && (err == None ==> forall i | 0 <= i < |nodes| ::
                  LeafRows(nodes[i].groups) == ServedGroups(NodeRows(nodes), i, Fetch(db, Groups, spec).value,
                                                          Columns(db, Groups, spec.fields, [])))
    ensures err == None ==> SharedGroups(nodes)
  {
    var columns := SpecColumns(query.ctx.fields, db.columns(Groups), true, []);
    var invalid := CheckFields(query.ctx.fields, db.columns(Groups));
    if invalid.Some? {
      return invalid;
    }
    if Groups in db.down {
      return Some(QueryFailed(Groups));
    }
    JoinedOwners(db, query.View(), nodes, byID);
    ColumnsHaveID(db, Groups, query.ctx.fields, []);
    err := StitchJoined(nodes, byID, Select(TableRows(db, Groups), query.View()), columns);
  }

  /** The joined rows of a batch, scanned and stitched. */
  method StitchJoined(nodes: seq<Account>, byID: map<int, Account>, joined: seq<Row>, columns: seq<string>)
    returns (err: Option<Error>)
    requires Distinct(nodes) && IndexesById(byID, nodes) && ID in columns
    requires forall i | 0 <= i < |nodes| :: nodes[i].groups == []
    requires forall k | 0 <= k < |joined| :: IntOf(joined[k], OUT) in byID
    modifies nodes`groups
    ensures err == None && SharedGroups(nodes)
    ensures forall i | 0 <= i < |nodes| ::
              LeafRows(nodes[i].groups) == ServedGroups(NodeRows(nodes), i, joined, columns)
  {
    var neighbours, nids := ScanJoined(joined, byID, columns);
    forall group | group in nids { MembersAreNodes(nodes, joined, byID, group); }
    GroupsExpected(joined, nids, neighbours, columns);
    err := StitchGroups(nodes, nids, neighbours);
    NodesDistinct(joined, neighbours, columns);
    LinkedShared(neighbours, nids, nodes);
    forall i | 0 <= i < |nodes|
      ensures LeafRows(nodes[i].groups) == ServedGroups(NodeRows(nodes), i, joined, columns)
    {
      LinkedGroups(nodes, i, joined, byID, nids, neighbours, columns);
    }
  }

  lemma {:induction false} GroupsExpected(joined: seq<Row>, nids: map<int, set<Account>>, leaves: seq<Leaf>,
                                          columns: seq<string>)
    requires forall group :: group in nids <==> group in Ids(joined)
    requires LeafRows(leaves) == ProjectAll(FirstRows(joined), columns) && ID in columns
    ensures forall k | 0 <= k < |leaves| :: IntOf(leaves[k].row, ID) in nids
  {
    FirstsKnown(joined, nids);
    forall k | 0 <= k < |leaves| ensures IntOf(leaves[k].row, ID) in nids {
      assert leaves[k].row == LeafRows(leaves)[k] == Project(FirstRows(joined)[k], columns);
      ProjectKeeps(FirstRows(joined)[k], columns, ID);
    }
  }

  lemma {:induction false} JoinedOwners(db: Database, spec: Spec, nodes: seq<Account>, byID: map<int, Account>)
    requires IndexesById(byID, nodes) && In(OUT, Ids(NodeRows(nodes))) in spec.preds
    ensures forall k | 0 <= k < |Select(TableRows(db, Groups), spec)| ::
              IntOf(Select(TableRows(db, Groups), spec)[k], OUT) in byID
  {
    var rows := Select(TableRows(db, Groups), spec);
    var p := In(OUT, Ids(NodeRows(nodes)));
    forall k | 0 <= k < |rows| ensures IntOf(rows[k], OUT) in byID {
      InSelect(TableRows(db, Groups), spec, rows[k]);
      var j :| 0 <= j < |spec.preds| && spec.preds[j] == p;
      assert Holds(spec.preds[j], rows[k]);
      IdIndexed(nodes, byID, IntOf(rows[k], OUT));
    }
  }
}
