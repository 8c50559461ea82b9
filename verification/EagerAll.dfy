/** sqlAll: the nodes of one batch, their six edges, and the recursion through parents and children. */
module EagerAll {
  import opened Options
  import opened Rows
  import opened EagerSpec
  import opened QueryBuilder
  import opened EagerLoad

  // ----- the nodes of a batch and the rows they were scanned from --------------------------------------------

  /** Each node holds the selected columns of its row. */
  ghost predicate Scanned(columns: seq<string>, nodes: seq<Account>, rows: seq<Row>) {
    |nodes| == |rows| && forall i | 0 <= i < |rows| :: nodes[i].row == Project(rows[i], columns)
  }

  lemma {:induction false} NodeIds(columns: seq<string>, nodes: seq<Account>, rows: seq<Row>)
    requires Scanned(columns, nodes, rows) && ID in columns
    ensures Ids(NodeRows(nodes)) == Ids(rows)
    ensures forall i | 0 <= i < |rows| :: IntOf(nodes[i].row, ID) == IntOf(rows[i], ID)
    ensures forall i | 0 <= i < |rows| :: IsLast(NodeRows(nodes), i) <==> IsLast(rows, i)
  {
    var nodeRows := NodeRows(nodes);
    forall i | 0 <= i < |rows| ensures IntOf(nodeRows[i], ID) == IntOf(rows[i], ID) {
      ProjectKeeps(rows[i], columns, ID);
    }
  }

  lemma {:induction false} SameForeignKeys(a: seq<Row>, b: seq<Row>, column: string)
    requires |a| == |b| && forall i | 0 <= i < |a| :: RefOf(a[i], column) == RefOf(b[i], column)
    ensures ForeignKeys(a, column) == ForeignKeys(b, column)
  {
    if a != [] {
      SameForeignKeys(a[..|a| - 1], b[..|b| - 1], column);
    }
  }

  lemma {:induction false} NodeKeys(columns: seq<string>, nodes: seq<Account>, rows: seq<Row>, column: string)
    requires Scanned(columns, nodes, rows) && column in columns
    ensures forall i | 0 <= i < |rows| :: RefOf(nodes[i].row, column) == RefOf(rows[i], column)
    ensures ForeignKeys(NodeRows(nodes), column) == ForeignKeys(rows, column)
  {
    forall i | 0 <= i < |rows| ensures RefOf(nodes[i].row, column) == RefOf(rows[i], column) {
      ProjectKeeps(rows[i], columns, column);
    }
    SameForeignKeys(NodeRows(nodes), rows, column);
  }

  /** Whatever fields are selected, the id and the foreign keys of the requested M2O edges are scanned. */
  lemma {:induction false} KeyColumns(db: Database, v: AccountQ)
    requires ValidSchema(db)
    ensures ID in AccountColumns(db, v)
    ensures v.proxy.Some? ==> PROXY_ID in AccountColumns(db, v)
    ensures v.parent.Some? ==> PARENT_ID in AccountColumns(db, v)
  {
    ColumnsHaveID(db, Accounts, v.spec.fields, NeededKeys(v));
    if v.spec.fields != [] {
      InColumns(db, Accounts, v.spec.fields, NeededKeys(v), PROXY_ID);
      InColumns(db, Accounts, v.spec.fields, NeededKeys(v), PARENT_ID);
    }
  }

  // ----- groups are shared at every depth ----------------------------------------------------------------------------

  ghost function ParentsOf(S: set<Account>, R: set<Account>): set<Account>
    reads S`parent
  {
    set p | p in R && exists a | a in S :: a.parent == p
  }

  ghost function ChildrenOf(S: set<Account>, R: set<Account>): set<Account>
    reads S`children
  {
    set c | c in R && exists a | a in S :: c in a.children
  }

  ghost predicate Closed(S: set<Account>, R: set<Account>)
    reads S`parent, S`children
  {
    forall a | a in S :: (a.parent != null ==> a.parent in R) && forall c | c in a.children :: c in R
  }

  /** The accounts of S share their groups, and so do those that one path of h steps leads to from S. */
  ghost predicate SharedTo(S: set<Account>, h: nat, R: set<Account>)
    reads R
    decreases h
  {
    && S <= R && SharedIn(S)
    && (h > 0 ==>
          Closed(S, R) && SharedTo(ParentsOf(S, R), h - 1, R) && SharedTo(ChildrenOf(S, R), h - 1, R))
  }

  /** Whatever path of parents and children is followed from S, the accounts it leads to share their groups. */
  ghost predicate SharedAll(S: set<Account>, R: set<Account>)
    reads R
  {
    forall h: nat :: SharedTo(S, h, R)
  }

  lemma {:induction false} SharedLess(S: set<Account>, T: set<Account>, h: nat, R: set<Account>, R': set<Account>)
    requires SharedTo(T, h, R) && S <= T && R <= R'
    ensures SharedTo(S, h, R')
    decreases h
  {
    if h > 0 {
      assert ParentsOf(S, R') <= ParentsOf(T, R);
      assert ChildrenOf(S, R') <= ChildrenOf(T, R);
      SharedLess(ParentsOf(S, R'), ParentsOf(T, R), h - 1, R, R');
      SharedLess(ChildrenOf(S, R'), ChildrenOf(T, R), h - 1, R, R');
    }
  }

  lemma {:induction false} SharedNone(h: nat, R: set<Account>)
    ensures SharedTo({}, h, R)
    decreases h
  {
    if h > 0 {
      SharedNone(h - 1, R);
      assert ParentsOf({}, R) == {} && ChildrenOf({}, R) == {};
    }
  }

  lemma {:induction false} NoneShared(R: set<Account>)
    ensures SharedAll({}, R)
  {
    forall h: nat ensures SharedTo({}, h, R) {
      SharedNone(h, R);
    }
  }

  lemma {:induction false} FewerShared(S: set<Account>, T: set<Account>, R: set<Account>)
    requires SharedAll(T, R) && S <= T
    ensures SharedAll(S, R)
  {
    forall h: nat ensures SharedTo(S, h, R) {
      SharedLess(S, T, h, R, R);
    }
  }

  /** The parents of the batch share their groups everywhere. */
  ghost predicate ParentsShared(nodes: seq<Account>, R: set<Account>)
    reads nodes`parent, R
  {
    && (forall i | 0 <= i < |nodes| && nodes[i].parent != null :: nodes[i].parent in R)
    && SharedAll(ParentsOf(Objects(nodes), R), R)
  }

  ghost predicate ChildrenShared(nodes: seq<Account>, R: set<Account>)
    reads nodes`children, R
  {
    && (forall i, c | 0 <= i < |nodes| && c in nodes[i].children :: c in R)
    && SharedAll(ChildrenOf(Objects(nodes), R), R)
  }

  /** A batch whose own groups are shared, and whose parents and children come from shared batches. */
  lemma {:induction false} BatchShared(nodes: seq<Account>, Rp: set<Account>, Rc: set<Account>, R: set<Account>)
    requires SharedGroups(nodes) && ParentsShared(nodes, Rp) && ChildrenShared(nodes, Rc)
    requires Objects(nodes) + (Rp + Rc) == R
    ensures SharedAll(Objects(nodes), R)
  {
    var P, K := ParentsOf(Objects(nodes), Rp), ChildrenOf(Objects(nodes), Rc);
    BatchClosed(nodes, Rp, Rc, R);
    forall h: nat ensures SharedTo(Objects(nodes), h, R) {
      if h > 0 {
        SharedLess(ParentsOf(Objects(nodes), R), P, h - 1, Rp, R);
        SharedLess(ChildrenOf(Objects(nodes), R), K, h - 1, Rc, R);
      }
    }
  }

  lemma {:induction false} BatchClosed(nodes: seq<Account>, Rp: set<Account>, Rc: set<Account>, R: set<Account>)
    requires Rp <= R && Rc <= R
    requires forall i | 0 <= i < |nodes| && nodes[i].parent != null :: nodes[i].parent in Rp
    requires forall i, c | 0 <= i < |nodes| && c in nodes[i].children :: c in Rc
    ensures Closed(Objects(nodes), R)
    ensures ParentsOf(Objects(nodes), R) == ParentsOf(Objects(nodes), Rp)
    ensures ChildrenOf(Objects(nodes), R) == ChildrenOf(Objects(nodes), Rc)
  {
    forall a | a in Objects(nodes)
      ensures (a.parent != null ==> a.parent in Rp) && forall c | c in a.children :: c in Rc
    {
      var i :| 0 <= i < |nodes| && nodes[i] == a;
    }
  }

  /** Parents that come from a shared batch. */
  lemma {:induction false} ParentsFrom(nodes: seq<Account>, neighbours: seq<Account>, R: set<Account>)
    requires SharedAll(Objects(neighbours), R)
    requires forall i | 0 <= i < |nodes| && nodes[i].parent != null :: nodes[i].parent in neighbours
    ensures ParentsShared(nodes, R)
  {
    assert SharedTo(Objects(neighbours), 0, R);
    FewerShared(ParentsOf(Objects(nodes), R), Objects(neighbours), R);
  }

  lemma {:induction false} ChildrenFrom(nodes: seq<Account>, neighbours: seq<Account>, R: set<Account>)
    requires SharedAll(Objects(neighbours), R)
    requires forall i, c | 0 <= i < |nodes| && c in nodes[i].children :: c in neighbours
    ensures ChildrenShared(nodes, R)
  {
    assert SharedTo(Objects(neighbours), 0, R);
    FewerShared(ChildrenOf(Objects(nodes), R), Objects(neighbours), R);
  }

  lemma {:induction false} NoParents(nodes: seq<Account>)
    requires forall i | 0 <= i < |nodes| :: nodes[i].parent == null
    ensures ParentsShared(nodes, {})
  {
    NoneShared({});
    assert ParentsOf(Objects(nodes), {}) == {};
  }

  lemma {:induction false} NoChildren(nodes: seq<Account>)
    requires forall i | 0 <= i < |nodes| :: nodes[i].children == []
    ensures ChildrenShared(nodes, {})
  {
    NoneShared({});
    assert ChildrenOf(Objects(nodes), {}) == {};
  }

  // ----- what each edge of a batch holds -------------------------------------------------------------------------

  ghost predicate GroupsServed(db: Database, v: Option<Spec>, rows: seq<Row>, joined: seq<Row>, nodes: seq<Account>)
    reads nodes`groups
  {
    |nodes| == |rows| && SharedGroups(nodes) && forall i | 0 <= i < |nodes| ::
      LeafRows(nodes[i].groups) == ServedGroups(rows, i, joined, LeafColumns(db, Groups, v, None))
  }

  ghost predicate ProxiesServed(db: Database, v: Option<Spec>, rows: seq<Row>, proxies: seq<Row>, nodes: seq<Account>)
    reads nodes`proxy
  {
    |nodes| == |rows| && forall i | 0 <= i < |nodes| ::
      HoldsRow(nodes[i].proxy,
        ProjectOne(RowById(proxies, RefOf(rows[i], PROXY_ID)), LeafColumns(db, Proxies, v, None)))
  }

  ghost predicate UsageLogsServed(db: Database, v: Option<Spec>, rows: seq<Row>, logs: seq<Row>, nodes: seq<Account>)
    reads nodes`usageLogs
  {
    |nodes| == |rows| && forall i | 0 <= i < |nodes| ::
      LeafRows(nodes[i].usageLogs) == ServedRows(rows, i, logs, LeafColumns(db, UsageLogs, v, Some(ACCOUNT_ID)))
  }

  ghost predicate AccountGroupsServed(db: Database, v: Option<Spec>, rows: seq<Row>, links: seq<Row>,
                                      nodes: seq<Account>)
    reads nodes`accountGroups
  {
    |nodes| == |rows| && forall i | 0 <= i < |nodes| ::
      LeafRows(nodes[i].accountGroups)
        == ServedRows(rows, i, links, LeafColumns(db, AccountGroups, v, Some(ACCOUNT_ID)))
  }

  ghost predicate ParentsServed(rows: seq<Row>, parents: seq<Tree>, nodes: seq<Account>, R: set<Account>)
    reads nodes`parent, R
  {
    |nodes| == |rows| && ParentsShared(nodes, R) && forall i | 0 <= i < |nodes| ::
      ParentIs(nodes[i].parent, TreeById(parents, RefOf(rows[i], PARENT_ID)), R)
  }

  ghost predicate ChildrenServed(rows: seq<Row>, kids: seq<Tree>, nodes: seq<Account>, R: set<Account>)
    reads nodes`children, R
  {
    |nodes| == |rows| && ChildrenShared(nodes, R) && forall i | 0 <= i < |nodes| ::
      RepresentsAll(nodes[i].children, ServedTrees(rows, i, kids), R)
  }

  // ----- the leaf edges, requested or not ----------------------------------------------------------------------

  method EdgeGroups(db: Database, query: LeafQuery?, nodes: seq<Account>, ghost sub: Option<Spec>,
                    ghost columns: seq<string>, ghost rows: seq<Row>)
    returns (err: Option<Error>)
    requires ValidSchema(db) && Distinct(nodes) && Scanned(columns, nodes, rows) && ID in columns
    requires LeafView(query) == sub && forall i | 0 <= i < |nodes| :: nodes[i].groups == []
    modifies LeafObjects(query), nodes`groups
    ensures var fetched := FetchLeaf(db, Groups, sub, In(OUT, Ids(rows)), None);
            && LeafView(query) == RanLeaf(sub, In(OUT, Ids(rows)), None)
            && err == ErrorOf(fetched)
            && (err == None ==> GroupsServed(db, sub, rows, fetched.value, nodes))
  {
    NodeIds(columns, nodes, rows);
    if query == null {
      NothingServed();
      return None;
    }
    err := LoadGroups(db, query, nodes);
  }

  lemma {:induction false} NothingServed()
    ensures forall account :: GroupsFor([], account) == []
    ensures forall account :: RowsFor([], ACCOUNT_ID, account) == []
  {
  }

  method EdgeProxy(db: Database, query: LeafQuery?, nodes: seq<Account>, ghost sub: Option<Spec>,
                   ghost columns: seq<string>, ghost rows: seq<Row>)
    returns (err: Option<Error>)
    requires ValidSchema(db) && Scanned(columns, nodes, rows) && (sub.Some? ==> PROXY_ID in columns)
    requires LeafView(query) == sub && forall i | 0 <= i < |nodes| :: nodes[i].proxy == null
    modifies LeafObjects(query), nodes`proxy
    ensures var fetched := FetchProxies(db, sub, rows);
            && LeafView(query) == RanProxy(sub, rows)
            && err == ErrorOf(fetched)
            && (err == None ==> ProxiesServed(db, sub, rows, fetched.value, nodes))
  {
    if query == null {
      return None;
    }
    NodeKeys(columns, nodes, rows, PROXY_ID);
    err := LoadProxy(db, query, nodes);
  }

  method EdgeUsageLogs(db: Database, query: LeafQuery?, nodes: seq<Account>, ghost sub: Option<Spec>,
                       ghost columns: seq<string>, ghost rows: seq<Row>)
    returns (err: Option<Error>)
    requires ValidSchema(db) && Distinct(nodes) && Scanned(columns, nodes, rows) && ID in columns
    requires LeafView(query) == sub && forall i | 0 <= i < |nodes| :: nodes[i].usageLogs == []
    modifies LeafObjects(query), nodes`usageLogs
    ensures var fetched := FetchLeaf(db, UsageLogs, sub, In(ACCOUNT_ID, Ids(rows)), Some(ACCOUNT_ID));
            && LeafView(query) == RanLeaf(sub, In(ACCOUNT_ID, Ids(rows)), Some(ACCOUNT_ID))
            && err == ErrorOf(fetched)
            && (err == None ==> UsageLogsServed(db, sub, rows, fetched.value, nodes))
  {
    NodeIds(columns, nodes, rows);
    if query == null {
      NothingServed();
      return None;
    }
    err := LoadUsageLogs(db, query, nodes);
  }

  method EdgeAccountGroups(db: Database, query: LeafQuery?, nodes: seq<Account>, ghost sub: Option<Spec>,
                           ghost columns: seq<string>, ghost rows: seq<Row>)
    returns (err: Option<Error>)
    requires ValidSchema(db) && Distinct(nodes) && Scanned(columns, nodes, rows) && ID in columns
    requires LeafView(query) == sub && forall i | 0 <= i < |nodes| :: nodes[i].accountGroups == []
    modifies LeafObjects(query), nodes`accountGroups
    ensures var fetched := FetchLeaf(db, AccountGroups, sub, In(ACCOUNT_ID, Ids(rows)), Some(ACCOUNT_ID));
            && LeafView(query) == RanLeaf(sub, In(ACCOUNT_ID, Ids(rows)), Some(ACCOUNT_ID))
            && err == ErrorOf(fetched)
            && (err == None ==> AccountGroupsServed(db, sub, rows, fetched.value, nodes))
  {
    NodeIds(columns, nodes, rows);
    if query == null {
      NothingServed();
      return None;
    }
    err := LoadAccountGroups(db, query, nodes);
  }

  /** No node is one of these objects. */
  ghost predicate Clear(nodes: seq<Account>, objects: set<object>) {
    forall i | 0 <= i < |nodes| :: nodes[i] !in objects
  }

  // ----- parents and children --------------------------------------------------------------------------------------

  ghost function AccountById(accounts: seq<Account>, id: Option<int>): Account? {
    if accounts == [] || id.None? then null
    else if IntOf(accounts[|accounts| - 1].row, ID) == id.value then accounts[|accounts| - 1]
    else AccountById(accounts[..|accounts| - 1], id)
  }

  /** The assign loop of loadParent. */
  method StitchParents(nodes: seq<Account>, nodeids: map<int, seq<Account>>,
                       neighbours: seq<Account>) returns (err: Option<Error>)
    requires IndexesByKey(nodeids, nodes, PARENT_ID)
    requires forall i | 0 <= i < |nodes| :: nodes[i].parent == null
    modifies nodes`parent
    ensures err == None <==> forall k | 0 <= k < |neighbours| :: IntOf(neighbours[k].row, ID) in nodeids
    ensures err == None ==> forall i | 0 <= i < |nodes| ::
            nodes[i].parent == AccountById(neighbours, RefOf(nodes[i].row, PARENT_ID))
  {
    for k := 0 to |neighbours|
      invariant forall j | 0 <= j < k :: IntOf(neighbours[j].row, ID) in nodeids
      invariant forall i | 0 <= i < |nodes| ::
                nodes[i].parent == AccountById(neighbours[..k], RefOf(nodes[i].row, PARENT_ID))
    {
      var n := neighbours[k];
      var id := IntOf(n.row, ID);
      if id !in nodeids {
        return Some(UnexpectedNode(id));
      }
      assert neighbours[..k + 1][..k] == neighbours[..k];
      var served := nodeids[id];
      for m := 0 to |served|
        invariant forall i | 0 <= i < |nodes| ::
          nodes[i].parent == if nodes[i] in served[..m] then n
            else AccountById(neighbours[..k], RefOf(nodes[i].row, PARENT_ID))
      {
        served[m].parent := n;
        assert served[..m + 1] == served[..m] + [served[m]];
      }
      assert served[..|served|] == served;
    }
    assert neighbours[..|neighbours|] == neighbours;
    return None;
  }

  ghost function AccountsFor(accounts: seq<Account>, id: int): seq<Account> {
    if accounts == [] then []
    else
      var before := AccountsFor(accounts[..|accounts| - 1], id);
      if RefOf(accounts[|accounts| - 1].row, PARENT_ID) == Some(id) then before + [accounts[|accounts| - 1]] else before
  }

  ghost function ServedAccounts(nodes: seq<Account>, i: nat, accounts: seq<Account>): seq<Account>
    requires i < |nodes|
  {
    var id := IntOf(nodes[i].row, ID);
    if LastWithId(nodes, id) == i then AccountsFor(accounts, id) else []
  }

  lemma {:induction false} ServedAccountsStep(nodes: seq<Account>, i: nat, accounts: seq<Account>, k: nat)
    requires i < |nodes| && k < |accounts| && RefOf(accounts[k].row, PARENT_ID).Some?
    ensures ServedAccounts(nodes, i, accounts[..k + 1])
         == ServedAccounts(nodes, i, accounts[..k])
            + if i == LastWithId(nodes, RefOf(accounts[k].row, PARENT_ID).value) then [accounts[k]] else []
  {
    assert accounts[..k + 1][..k] == accounts[..k];
    LastOfId(nodes, i, RefOf(accounts[k].row, PARENT_ID).value);
  }

  /** The owner that loadChildren looks up. */
  ghost predicate HasOwner(row: Row, byID: map<int, Account>) {
    RefOf(row, PARENT_ID).Some? && RefOf(row, PARENT_ID).value in byID
  }

  /** assign(node, n) for the children edge: the owner, and only the owner, gains the child. */
  method Adopt(nodes: seq<Account>, node: Account, ghost owner: nat, neighbours: seq<Account>, k: nat)
    requires Distinct(nodes) && owner < |nodes| && node == nodes[owner] && k < |neighbours|
    requires RefOf(neighbours[k].row, PARENT_ID).Some?
    requires owner == LastWithId(nodes, RefOf(neighbours[k].row, PARENT_ID).value)
    requires forall i | 0 <= i < |nodes| :: nodes[i].children == ServedAccounts(nodes, i, neighbours[..k])
    modifies node`children
    ensures forall i | 0 <= i < |nodes| :: nodes[i].children == ServedAccounts(nodes, i, neighbours[..k + 1])
  {
    forall i | 0 <= i < |nodes| {
      ServedAccountsStep(nodes, i, neighbours, k);
    }
    node.children := node.children + [neighbours[k]];
  }

  /** One turn of the assign loop of loadChildren. */
  method StitchChild(nodes: seq<Account>, byID: map<int, Account>, neighbours: seq<Account>, k: nat)
    returns (err: Option<Error>)
    requires IndexesById(byID, nodes) && Distinct(nodes) && k < |neighbours|
    requires forall i | 0 <= i < |nodes| :: nodes[i].children == ServedAccounts(nodes, i, neighbours[..k])
    modifies nodes`children
    ensures err == None <==> HasOwner(neighbours[k].row, byID)
    ensures err == None ==> forall i | 0 <= i < |nodes| ::
            nodes[i].children == ServedAccounts(nodes, i, neighbours[..k + 1])
  {
    var fk := RefOf(neighbours[k].row, PARENT_ID);
    if fk.None? {
      return Some(NilForeignKey(IntOf(neighbours[k].row, ID)));
    }
    if fk.value !in byID {
      return Some(UnexpectedNode(fk.value));
    }
    Adopt(nodes, byID[fk.value], LastWithId(nodes, fk.value), neighbours, k);
    return None;
  }

  /** The assign loop of loadChildren. */
  method StitchChildren(nodes: seq<Account>, byID: map<int, Account>, neighbours: seq<Account>)
    returns (err: Option<Error>)
    requires IndexesById(byID, nodes) && Distinct(nodes)
    requires forall i | 0 <= i < |nodes| :: nodes[i].children == []
    modifies nodes`children
    ensures err == None <==> forall k | 0 <= k < |neighbours| :: HasOwner(neighbours[k].row, byID)
    ensures err == None ==> forall i | 0 <= i < |nodes| :: nodes[i].children == ServedAccounts(nodes, i, neighbours)
  {
    for k := 0 to |neighbours|
      invariant forall j | 0 <= j < k :: HasOwner(neighbours[j].row, byID)
      invariant forall i | 0 <= i < |nodes| :: nodes[i].children == ServedAccounts(nodes, i, neighbours[..k])
    {
      err := StitchChild(nodes, byID, neighbours, k);
      if err.Some? {
        assert !HasOwner(neighbours[k].row, byID);
        return;
      }
      assert forall j | 0 <= j < k + 1 :: HasOwner(neighbours[j].row, byID);
    }
    assert neighbours[..|neighbours|] == neighbours;
    return None;
  }

  ghost predicate ParentIs(parent: Account?, t: Option<Tree>, R: set<Account>)
    reads R
  {
    if parent == null then t == None else t.Some? && Represents(parent, t.value, R)
  }

  lemma {:induction false} AccountByIdIs(accounts: seq<Account>, trees: seq<Tree>, id: Option<int>, R: set<Account>)
    requires RepresentsAll(accounts, trees, R)
    ensures ParentIs(AccountById(accounts, id), TreeById(trees, id), R)
  {
    if accounts != [] && id.Some? {
      var n := |accounts| - 1;
      assert Represents(accounts[n], trees[n], R);
      AccountByIdIs(accounts[..n], trees[..n], id, R);
    }
  }

  lemma {:induction false} RepresentsOneMore(accounts: seq<Account>, trees: seq<Tree>, a: Account, t: Tree,
                                             R: set<Account>)
    requires RepresentsAll(accounts, trees, R) && Represents(a, t, R)
    ensures RepresentsAll(accounts + [a], trees + [t], R)
  {
  }

  lemma {:induction false} SameRow(a: Account, t: Tree, R: set<Account>)
    requires Represents(a, t, R)
    ensures a.row == t.row
  {
  }

  lemma {:induction false} AccountsForAre(accounts: seq<Account>, trees: seq<Tree>, id: int, R: set<Account>)
    requires RepresentsAll(accounts, trees, R)
    ensures RepresentsAll(AccountsFor(accounts, id), TreesFor(trees, PARENT_ID, id), R)
  {
    if accounts != [] {
      var n := |accounts| - 1;
      var init, inits := accounts[..n], trees[..n];
      assert Represents(accounts[n], trees[n], R);
      assert forall i | 0 <= i < n :: init[i] == accounts[i] && inits[i] == trees[i];
      AccountsForAre(init, inits, id, R);
      SameRow(accounts[n], trees[n], R);
      RepresentsOneMore(AccountsFor(init, id), TreesFor(inits, PARENT_ID, id), accounts[n], trees[n], R);
    }
  }

  /** Every account loaded under an IN predicate has, in its scanned row, one of the keys asked for. */
  lemma {:induction false} LoadedKeys(db: Database, q: AccountQ, p: Pred, keep: Option<string>)
    requires ValidSchema(db) && p.In? && Load(db, Narrow(q, p, keep)).Ok?
    requires (p.column == ID && keep == None) || (p.column == PARENT_ID && keep == Some(PARENT_ID))
    ensures forall k | 0 <= k < |Load(db, Narrow(q, p, keep)).value| ::
              var fk := RefOf(Load(db, Narrow(q, p, keep)).value[k].row, p.column); fk.Some? && fk.value in p.keys
  {
    var narrowed := Narrow(q, p, keep);
    var columns := AccountColumns(db, narrowed);
    var trees := Load(db, narrowed).value;
    var rows := Fetch(db, Accounts, narrowed.spec).value;
    NarrowedColumn(db, q, p, keep);
    forall k | 0 <= k < |trees|
      ensures var fk := RefOf(trees[k].row, p.column); fk.Some? && fk.value in p.keys
    {
      assert trees[k].row == Project(rows[k], columns);
      SelectedIn(db.accounts, if keep.Some? then KeepField(q.spec, keep.value) else q.spec, p, rows[k]);
      ProjectKeeps(rows[k], columns, p.column);
    }
  }

  lemma {:induction false} NarrowedColumn(db: Database, q: AccountQ, p: Pred, keep: Option<string>)
    requires ValidSchema(db) && p.In?
    requires (p.column == ID && keep == None) || (p.column == PARENT_ID && keep == Some(PARENT_ID))
    ensures p.column in AccountColumns(db, Narrow(q, p, keep))
  {
    var narrowed := Narrow(q, p, keep);
    if narrowed.spec.fields != [] {
      InColumns(db, Accounts, narrowed.spec.fields, NeededKeys(narrowed), p.column);
    }
  }

  lemma {:induction false} ParentsExpected(accounts: seq<Account>, trees: seq<Tree>, keys: seq<int>, R: set<Account>)
    requires RepresentsAll(accounts, trees, R)
    requires forall k | 0 <= k < |trees| :: RefOf(trees[k].row, ID).Some? && RefOf(trees[k].row, ID).value in keys
    ensures forall k | 0 <= k < |accounts| :: IntOf(accounts[k].row, ID) in keys
  {
    forall k | 0 <= k < |accounts| ensures IntOf(accounts[k].row, ID) in keys {
      assert Represents(accounts[k], trees[k], R);
    }
  }

  lemma {:induction false} ChildrenOwned(nodes: seq<Account>, byID: map<int, Account>, accounts: seq<Account>,
                                         trees: seq<Tree>, R: set<Account>)
    requires IndexesById(byID, nodes) && RepresentsAll(accounts, trees, R)
    requires forall k | 0 <= k < |trees| ::
               RefOf(trees[k].row, PARENT_ID).Some? && RefOf(trees[k].row, PARENT_ID).value in Ids(NodeRows(nodes))
    ensures forall k | 0 <= k < |accounts| :: HasOwner(accounts[k].row, byID)
  {
    forall k | 0 <= k < |accounts| ensures HasOwner(accounts[k].row, byID) {
      assert Represents(accounts[k], trees[k], R);
      IdIndexed(nodes, byID, RefOf(accounts[k].row, PARENT_ID).value);
    }
  }

  /** loadParent.  The sub-query is left as it ran, with its IN predicate. */
  method LoadParent(db: Database, query: AccountQuery, nodes: seq<Account>, ghost v: AccountQ)
    returns (err: Option<Error>, ghost R: set<Account>, ghost trees: seq<Tree>)
    requires ValidSchema(db) && query.Denoted() == Some(v) && Clear(nodes, query.Repr)
    requires forall i | 0 <= i < |nodes| :: nodes[i].parent == null
    modifies query.Repr, nodes`parent
    ensures fresh(R) && query.Valid() && query.Repr == old(query.Repr)
    ensures err.Some? ==> LoadParents(db, Some(v), NodeRows(nodes)) == Err(err.value)
    ensures err.Some? || (LoadParents(db, Some(v), NodeRows(nodes)) == Ok(trees)
                          && query.Denoted() == RanParent(db, Some(v), NodeRows(nodes)))
    ensures err.Some? || (ParentsShared(nodes, R) && forall i | 0 <= i < |nodes| ::
              ParentIs(nodes[i].parent, TreeById(trees, RefOf(nodes[i].row, PARENT_ID)), R))
    decreases Height(v), 10
  {
    var ids, nodeids := IndexByKey(nodes, PARENT_ID);
    if |ids| == 0 {
      NoParents(nodes);
      return None, {}, [];
    }
    err, R, trees := FetchParents(db, query, nodes, ids, nodeids, v);
  }

  /** loadParent once there are keys to ask for. */
  method FetchParents(db: Database, query: AccountQuery, nodes: seq<Account>, ids: seq<int>,
                      nodeids: map<int, seq<Account>>, ghost v: AccountQ)
    returns (err: Option<Error>, ghost R: set<Account>, ghost trees: seq<Tree>)
    requires ValidSchema(db) && query.Denoted() == Some(v) && Clear(nodes, query.Repr)
    requires IndexesByKey(nodeids, nodes, PARENT_ID) && forall id :: id in nodeids <==> id in ids
    requires forall i | 0 <= i < |nodes| :: nodes[i].parent == null
    modifies query.Repr, nodes`parent
    ensures fresh(R) && query.Valid() && query.Repr == old(query.Repr)
    ensures err.Some? ==> Load(db, Narrow(v, In(ID, ids), None)) == Err(err.value)
    ensures err.Some? || (Load(db, Narrow(v, In(ID, ids), None)) == Ok(trees)
                          && query.Denoted() == Some(Ran(db, Narrow(v, In(ID, ids), None))))
    ensures err.Some? || (ParentsShared(nodes, R) && forall i | 0 <= i < |nodes| ::
              ParentIs(nodes[i].parent, TreeById(trees, RefOf(nodes[i].row, PARENT_ID)), R))
    decreases Height(v), 9
  {
    var fetched;
    fetched, R, trees := AllParents(db, query, ids, v);
    if fetched.Err? {
      return Some(fetched.error), R, trees;
    }
    err := AttachParents(nodes, nodeids, fetched.value, trees, R, query);
  }

  /** The stitching of loadParent, in terms of the trees that the neighbours stand for. */
  method AttachParents(nodes: seq<Account>, nodeids: map<int, seq<Account>>, neighbours: seq<Account>,
                       ghost trees: seq<Tree>, ghost R: set<Account>, ghost query: AccountQuery)
    returns (err: Option<Error>)
    requires IndexesByKey(nodeids, nodes, PARENT_ID) && RepresentsAll(neighbours, trees, R)
    requires SharedAll(Objects(neighbours), R)
    requires forall i | 0 <= i < |nodes| :: nodes[i].parent == null && nodes[i] !in R
    requires forall k | 0 <= k < |neighbours| :: IntOf(neighbours[k].row, ID) in nodeids
    requires query.Valid() && Clear(nodes, query.Repr)
    modifies nodes`parent
    ensures query.Repr == old(query.Repr) && query.Denoted() == old(query.Denoted())
    ensures err == None && ParentsShared(nodes, R)
    ensures forall i | 0 <= i < |nodes| :: ParentIs(nodes[i].parent, TreeById(trees, RefOf(nodes[i].row, PARENT_ID)), R)
  {
    ghost var shared := SharedAll(Objects(neighbours), R);
    err := StitchParents(nodes, nodeids, neighbours);
    assert shared == SharedAll(Objects(neighbours), R);
    forall i | 0 <= i < |nodes|
      ensures ParentIs(nodes[i].parent, TreeById(trees, RefOf(nodes[i].row, PARENT_ID)), R)
      ensures nodes[i].parent != null ==> nodes[i].parent in neighbours
    {
      AccountByIdIs(neighbours, trees, RefOf(nodes[i].row, PARENT_ID), R);
      AccountByIdIn(neighbours, RefOf(nodes[i].row, PARENT_ID));
    }
    ParentsFrom(nodes, neighbours, R);
  }

  lemma {:induction false} AccountByIdIn(accounts: seq<Account>, id: Option<int>)
    ensures AccountById(accounts, id) != null ==> AccountById(accounts, id) in accounts
  {
    if accounts != [] {
      AccountByIdIn(accounts[..|accounts| - 1], id);
    }
  }

  lemma {:induction false} AccountsForIn(accounts: seq<Account>, id: int)
    ensures forall a | a in AccountsFor(accounts, id) :: a in accounts
  {
    if accounts != [] {
      AccountsForIn(accounts[..|accounts| - 1], id);
    }
  }

  /** query.Where(account.IDIn(ids...)) and query.All(ctx) */
  method AllParents(db: Database, query: AccountQuery, ids: seq<int>, ghost v: AccountQ)
    returns (r: Result<seq<Account>>, ghost R: set<Account>, ghost trees: seq<Tree>)
    requires ValidSchema(db) && query.Denoted() == Some(v)
    modifies query.Repr
    ensures fresh(R) && query.Valid() && query.Repr == old(query.Repr)
    ensures var narrowed := Narrow(v, In(ID, ids), None);
            && (r.Err? ==> Load(db, narrowed) == Err(r.error))
            && (r.Ok? ==> Load(db, narrowed) == Ok(trees) && query.Denoted() == Some(Ran(db, narrowed)))
    ensures r.Ok? ==> RepresentsAll(r.value, trees, R) && forall k | 0 <= k < |r.value| ::
            IntOf(r.value[k].row, ID) in ids
    ensures r.Ok? ==> SharedAll(Objects(r.value), R)
    decreases Height(v), 8
  {
    query.Where(In(ID, ids));
    r, R, trees := SqlAll(db, query, Narrow(v, In(ID, ids), None));
    if r.Ok? {
      LoadedKeys(db, v, In(ID, ids), None);
      ParentsExpected(r.value, trees, ids, R);
    }
  }

  /** init for every node of the batch */
  method InitChildren(nodes: seq<Account>)
    modifies nodes`children
    ensures forall i | 0 <= i < |nodes| :: nodes[i].children == []
  {
    for i := 0 to |nodes|
      invariant forall j | 0 <= j < i :: nodes[j].children == []
    {
      nodes[i].children := [];
    }
  }

  /** loadChildren.  The sub-query is left as it ran, with its IN predicate and the foreign key selected. */
  method LoadChildrenEdge(db: Database, query: AccountQuery, nodes: seq<Account>, ghost v: AccountQ)
    returns (err: Option<Error>, ghost R: set<Account>, ghost trees: seq<Tree>)
    requires ValidSchema(db) && Distinct(nodes) && query.Denoted() == Some(v) && Clear(nodes, query.Repr)
    modifies query.Repr, nodes`children
    ensures fresh(R) && query.Valid() && query.Repr == old(query.Repr)
    ensures err.Some? ==> LoadChildren(db, Some(v), NodeRows(nodes)) == Err(err.value)
    ensures err.Some? || (LoadChildren(db, Some(v), NodeRows(nodes)) == Ok(trees)
                          && query.Denoted() == RanChildren(db, Some(v), NodeRows(nodes)))
    ensures err.Some? || (ChildrenShared(nodes, R) && forall i | 0 <= i < |nodes| ::
              RepresentsAll(nodes[i].children, ServedTrees(NodeRows(nodes), i, trees), R))
    decreases Height(v), 9
  {
    var ids, byID := IndexById(nodes);
    InitChildren(nodes);
    assert query.Denoted() == Some(v);
    var fetched;
    fetched, R, trees := AllChildren(db, query, ids, v);
    if fetched.Err? {
      return Some(fetched.error), R, trees;
    }
    err := AttachChildren(nodes, byID, fetched.value, trees, R);
  }

  /** The stitching of loadChildren, in terms of the trees that the neighbours stand for. */
  method AttachChildren(nodes: seq<Account>, byID: map<int, Account>, neighbours: seq<Account>, ghost trees: seq<Tree>,
                        ghost R: set<Account>)
    returns (err: Option<Error>)
    requires IndexesById(byID, nodes) && Distinct(nodes) && RepresentsAll(neighbours, trees, R)
    requires SharedAll(Objects(neighbours), R)
    requires forall i | 0 <= i < |nodes| :: nodes[i].children == [] && nodes[i] !in R
    requires forall k | 0 <= k < |trees| ::
               RefOf(trees[k].row, PARENT_ID).Some? && RefOf(trees[k].row, PARENT_ID).value in Ids(NodeRows(nodes))
    modifies nodes`children
    ensures err == None && ChildrenShared(nodes, R)
    ensures forall i | 0 <= i < |nodes| :: RepresentsAll(nodes[i].children, ServedTrees(NodeRows(nodes), i, trees), R)
  {
    ChildrenOwned(nodes, byID, neighbours, trees, R);
    ghost var shared := SharedAll(Objects(neighbours), R);
    err := StitchChildren(nodes, byID, neighbours);
    assert shared == SharedAll(Objects(neighbours), R);
    forall i | 0 <= i < |nodes|
      ensures RepresentsAll(nodes[i].children, ServedTrees(NodeRows(nodes), i, trees), R)
      ensures forall c | c in nodes[i].children :: c in neighbours
    {
      LastIsLast(nodes, i);
      AccountsForAre(neighbours, trees, IntOf(nodes[i].row, ID), R);
      AccountsForIn(neighbours, IntOf(nodes[i].row, ID));
    }
    ChildrenFrom(nodes, neighbours, R);
  }

  /** The query of loadChildren: keep the foreign key, narrow by it, and run. */
  method AllChildren(db: Database, query: AccountQuery, ids: seq<int>, ghost v: AccountQ)
    returns (r: Result<seq<Account>>, ghost R: set<Account>, ghost trees: seq<Tree>)
    requires ValidSchema(db) && query.Denoted() == Some(v)
    modifies query.Repr
    ensures fresh(R) && query.Valid() && query.Repr == old(query.Repr)
    ensures var narrowed := Narrow(v, In(PARENT_ID, ids), Some(PARENT_ID));
            && (r.Err? ==> Load(db, narrowed) == Err(r.error))
            && (r.Ok? ==> Load(db, narrowed) == Ok(trees) && query.Denoted() == Some(Ran(db, narrowed)))
    ensures r.Ok? ==> RepresentsAll(r.value, trees, R) && SharedAll(Objects(r.value), R)
    ensures r.Ok? ==> forall k | 0 <= k < |trees| ::
              RefOf(trees[k].row, PARENT_ID).Some? && RefOf(trees[k].row, PARENT_ID).value in ids
    decreases Height(v), 8
  {
    query.KeepField(PARENT_ID);
    query.Where(In(PARENT_ID, ids));
    r, R, trees := SqlAll(db, query, Narrow(v, In(PARENT_ID, ids), Some(PARENT_ID)));
    if r.Ok? {
      LoadedKeys(db, v, In(PARENT_ID, ids), Some(PARENT_ID));
    }
  }

  ghost function ServedTrees(rows: seq<Row>, i: nat, trees: seq<Tree>): seq<Tree>
    requires i < |rows|
  {
    if IsLast(rows, i) then TreesFor(trees, PARENT_ID, IntOf(rows[i], ID)) else []
  }

  method EdgeParent(db: Database, query: AccountQuery?, nodes: seq<Account>, ghost sub: Option<AccountQ>,
                    ghost columns: seq<string>, ghost rows: seq<Row>)
    returns (err: Option<Error>, ghost R: set<Account>, ghost trees: seq<Tree>)
    requires ValidSchema(db) && (sub.Some? ==> PARENT_ID in columns) && Scanned(columns, nodes, rows)
    requires Means(query, sub) && Clear(nodes, SubObjects(query))
    requires forall i | 0 <= i < |nodes| :: nodes[i].parent == null
    modifies SubObjects(query), nodes`parent
    ensures fresh(R) && SubObjects(query) == old(SubObjects(query)) && (query != null ==> query.Valid())
    ensures err.Some? ==> LoadParents(db, sub, rows) == Err(err.value)
    ensures err.Some? || (LoadParents(db, sub, rows) == Ok(trees) && Means(query, RanParent(db, sub, rows)))
    ensures err.Some? || ParentsServed(rows, trees, nodes, R)
    decreases HeightOf(sub), 11
  {
    if query == null {
      NoParents(nodes);
      return None, {}, [];
    }
    NodeKeys(columns, nodes, rows, PARENT_ID);
    err, R, trees := LoadParent(db, query, nodes, sub.value);
  }

  method EdgeChildren(db: Database, query: AccountQuery?, nodes: seq<Account>, ghost sub: Option<AccountQ>,
                      ghost columns: seq<string>, ghost rows: seq<Row>)
    returns (err: Option<Error>, ghost R: set<Account>, ghost trees: seq<Tree>)
    requires ValidSchema(db) && Distinct(nodes) && Scanned(columns, nodes, rows) && ID in columns
    requires Means(query, sub) && Clear(nodes, SubObjects(query))
    requires forall i | 0 <= i < |nodes| :: nodes[i].children == []
    modifies SubObjects(query), nodes`children
    ensures fresh(R) && SubObjects(query) == old(SubObjects(query)) && (query != null ==> query.Valid())
    ensures err.Some? ==> LoadChildren(db, sub, rows) == Err(err.value)
    ensures err.Some? || (LoadChildren(db, sub, rows) == Ok(trees) && Means(query, RanChildren(db, sub, rows)))
    ensures err.Some? || ChildrenServed(rows, trees, nodes, R)
    decreases HeightOf(sub), 10
  {
    if query == null {
      NoChildren(nodes);
      return None, {}, [];
    }
    NodeIds(columns, nodes, rows);
    err, R, trees := LoadChildrenEdge(db, query, nodes, sub.value);
  }

  // ----- the batch -------------------------------------------------------------------------------------------------

  ghost predicate Bare(nodes: seq<Account>)
    reads nodes
  {
    forall i | 0 <= i < |nodes| ::
      && nodes[i].groups == [] && nodes[i].proxy == null && nodes[i].parent == null
      && nodes[i].children == [] && nodes[i].usageLogs == [] && nodes[i].accountGroups == []
  }

  /** Nodes before the loaders of the Account edges and the last two. */
  ghost predicate Unlinked(nodes: seq<Account>)
    reads nodes`parent, nodes`children, nodes`usageLogs, nodes`accountGroups
  {
    forall i | 0 <= i < |nodes| ::
      nodes[i].parent == null && nodes[i].children == [] && nodes[i].usageLogs == [] && nodes[i].accountGroups == []
  }

  /** QueryNodes: one bare node for each selected row, with the flags of the requested edges. */
  method QueryAccounts(db: Database, q: AccountQuery, ghost v: AccountQ)
    returns (r: Result<seq<Account>>, ghost rows: seq<Row>)
    requires q.Denoted() == Some(v)
    ensures r.Err? ==> Fetch(db, Accounts, v.spec) == Err(r.error)
    ensures r.Ok? ==> Fetch(db, Accounts, v.spec) == Ok(rows) && Scanned(AccountColumns(db, v), r.value, rows)
    ensures r.Ok? ==> Distinct(r.value) && Bare(r.value) && fresh(r.value)
    ensures r.Ok? ==> forall i | 0 <= i < |r.value| :: r.value[i].loaded == Requested(v)
  {
    rows := [];
    var keys := (if q.withProxy != null then [PROXY_ID] else []) + (if q.withParent != null then [PARENT_ID] else []);
    var columns := SpecColumns(q.ctx.fields, db.columns(Accounts), true, keys);
    var invalid := CheckFields(q.ctx.fields, db.columns(Accounts));
    if invalid.Some? {
      return Err(invalid.value), rows;
    }
    if Accounts in db.down {
      return Err(QueryFailed(Accounts)), rows;
    }
    var loaded := [q.withGroups != null, q.withProxy != null, q.withParent != null, q.withChildren != null,
      q.withUsageLogs != null, q.withAccountGroups != null];
    var found := Select(db.accounts, q.OwnSpec());
    var nodes := ScanNodes(found, columns, loaded);
    return Ok(nodes), found;
  }

  /** spec.Assign, once for every row. */
  method ScanNodes(rows: seq<Row>, columns: seq<string>, loaded: seq<bool>) returns (nodes: seq<Account>)
    ensures |nodes| == |rows| && Distinct(nodes) && Bare(nodes) && fresh(nodes)
    ensures forall i | 0 <= i < |rows| :: nodes[i].row == Project(rows[i], columns) && nodes[i].loaded == loaded
  {
    nodes := [];
    for i := 0 to |rows|
      invariant |nodes| == i && Distinct(nodes) && Bare(nodes) && fresh(nodes)
      invariant forall j | 0 <= j < i :: nodes[j].row == Project(rows[j], columns) && nodes[j].loaded == loaded
    {
      var node := new Account(Project(rows[i], columns), loaded);
      nodes := nodes + [node];
    }
  }

  /** What the loaders leave in a node, edge by edge, once all neighbours of the batch are known. */
  ghost predicate LeavesAre(db: Database, v: AccountQ, rows: seq<Row>, ns: Neighbours, a: Account, i: nat)
    requires i < |rows|
    reads a
  {
    && LeafRows(a.groups) == ServedGroups(rows, i, ns.groups, LeafColumns(db, Groups, v.groups, None))
    && HoldsRow(a.proxy, ProjectOne(RowById(ns.proxies, RefOf(rows[i], PROXY_ID)),
      LeafColumns(db, Proxies, v.proxy, None)))
    && LeafRows(a.usageLogs)
      == ServedRows(rows, i, ns.usageLogs, LeafColumns(db, UsageLogs, v.usageLogs, Some(ACCOUNT_ID)))
    && LeafRows(a.accountGroups)
      == ServedRows(rows, i, ns.accountGroups, LeafColumns(db, AccountGroups, v.accountGroups, Some(ACCOUNT_ID)))
  }

  ghost predicate SubsAre(rows: seq<Row>, ns: Neighbours, a: Account, i: nat, R: set<Account>)
    requires i < |rows|
    reads a, R
  {
    && ParentIs(a.parent, TreeById(ns.parents, RefOf(rows[i], PARENT_ID)), R)
    && RepresentsAll(a.children, ServedTrees(rows, i, ns.children), R)
  }

  /** A node with its six edges in place stands for the tree that the specification attaches to its row. */
  lemma {:induction false} NodeRepresents(db: Database, v: AccountQ, rows: seq<Row>, ns: Neighbours, a: Account,
                                          i: nat, R: set<Account>, R': set<Account>)
    requires i < |rows| && a in R' && R <= R'
    requires a.row == Project(rows[i], AccountColumns(db, v)) && a.loaded == Requested(v)
    requires LeavesAre(db, v, rows, ns, a, i) && SubsAre(rows, ns, a, i, R)
    ensures Represents(a, Attach(db, v, rows, ns, i), R')
  {
    var t := Attach(db, v, rows, ns, i);
    if a.parent != null {
      RepresentsMore(a.parent, t.parent.value, R, R');
    }
    forall k | 0 <= k < |a.children| ensures Represents(a.children[k], t.children[k], R') {
      RepresentsMore(a.children[k], t.children[k], R, R');
    }
  }

  // ----- the stages of a batch ---------------------------------------------------------------------------------------

  /** A leaf builder and its context are no nodes. */
  lemma {:induction false} LeafClear(leaf: LeafQuery?)
    ensures forall a: Account :: a !in LeafObjects(leaf)
  {
  }

  ghost predicate NoProxies(nodes: seq<Account>)
    reads nodes`proxy
  {
    forall i | 0 <= i < |nodes| :: nodes[i].proxy == null
  }

  /** loadGroups before loadProxy, which it does not disturb. */
  method EdgeGroupsFirst(db: Database, query: LeafQuery?, nodes: seq<Account>, ghost sub: Option<Spec>,
                         ghost columns: seq<string>, ghost rows: seq<Row>, ghost proxy: LeafQuery?)
    returns (err: Option<Error>)
    requires ValidSchema(db) && Distinct(nodes) && Scanned(columns, nodes, rows) && ID in columns
    requires LeafView(query) == sub && forall i | 0 <= i < |nodes| :: nodes[i].groups == []
    requires Apart(query, proxy)
    modifies LeafObjects(query), nodes`groups
    ensures var fetched := FetchLeaf(db, Groups, sub, In(OUT, Ids(rows)), None);
            && LeafView(query) == RanLeaf(sub, In(OUT, Ids(rows)), None)
            && err == ErrorOf(fetched)
            && (err.Some? || GroupsServed(db, sub, rows, fetched.value, nodes))
    ensures LeafView(proxy) == old(LeafView(proxy))
    ensures NoProxies(nodes) && Unlinked(nodes) <==> old(NoProxies(nodes) && Unlinked(nodes))
  {
    LeafClear(query);
    err := EdgeGroups(db, query, nodes, sub, columns, rows);
  }

  /** loadProxy after loadGroups, which it does not disturb. */
  method EdgeProxyAfter(db: Database, query: LeafQuery?, nodes: seq<Account>, ghost sub: Option<Spec>,
                        ghost columns: seq<string>, ghost rows: seq<Row>, ghost groups: LeafQuery?,
                        ghost was: Option<Spec>, ghost joined: seq<Row>)
    returns (err: Option<Error>)
    requires ValidSchema(db) && Scanned(columns, nodes, rows) && (sub.Some? ==> PROXY_ID in columns)
    requires LeafView(query) == sub && NoProxies(nodes)
    requires Apart(groups, query)
    modifies LeafObjects(query), nodes`proxy
    ensures var fetched := FetchProxies(db, sub, rows);
            && LeafView(query) == RanProxy(sub, rows)
            && err == ErrorOf(fetched)
            && (err.Some? || ProxiesServed(db, sub, rows, fetched.value, nodes))
    ensures LeafView(groups) == old(LeafView(groups))
    ensures GroupsServed(db, was, rows, joined, nodes) && Unlinked(nodes)
            <==> old(GroupsServed(db, was, rows, joined, nodes) && Unlinked(nodes))
  {
    LeafClear(query);
    err := EdgeProxy(db, query, nodes, sub, columns, rows);
  }

  ghost predicate NoAccountGroups(nodes: seq<Account>)
    reads nodes`accountGroups
  {
    forall i | 0 <= i < |nodes| :: nodes[i].accountGroups == []
  }

  /** What the Account edges hold. */
  ghost predicate SubsServed(rows: seq<Row>, trees: (seq<Tree>, seq<Tree>), nodes: seq<Account>, Rp: set<Account>,
                             Rc: set<Account>)
    reads nodes`parent, nodes`children, Rp, Rc
  {
    ParentsServed(rows, trees.0, nodes, Rp) && ChildrenServed(rows, trees.1, nodes, Rc)
  }

  ghost predicate Outside(nodes: seq<Account>, Rp: set<Account>, Rc: set<Account>) {
    forall i | 0 <= i < |nodes| :: nodes[i] !in Rp && nodes[i] !in Rc
  }

  /** loadUsageLogs before loadAccountGroups, which it does not disturb. */
  method EdgeUsageLogsFirst(db: Database, query: LeafQuery?, nodes: seq<Account>, ghost sub: Option<Spec>,
                            ghost columns: seq<string>, ghost rows: seq<Row>, ghost accountGroups: LeafQuery?,
                            ghost trees: (seq<Tree>, seq<Tree>), ghost Rp: set<Account>, ghost Rc: set<Account>)
    returns (err: Option<Error>)
    requires ValidSchema(db) && Distinct(nodes) && Scanned(columns, nodes, rows) && ID in columns
    requires LeafView(query) == sub && forall i | 0 <= i < |nodes| :: nodes[i].usageLogs == []
    requires Apart(query, accountGroups) && Outside(nodes, Rp, Rc)
    modifies LeafObjects(query), nodes`usageLogs
    ensures var fetched := FetchLeaf(db, UsageLogs, sub, In(ACCOUNT_ID, Ids(rows)), Some(ACCOUNT_ID));
            && LeafView(query) == RanLeaf(sub, In(ACCOUNT_ID, Ids(rows)), Some(ACCOUNT_ID))
            && err == ErrorOf(fetched)
            && (err.Some? || UsageLogsServed(db, sub, rows, fetched.value, nodes))
    ensures LeafView(accountGroups) == old(LeafView(accountGroups))
    ensures NoAccountGroups(nodes) && SubsServed(rows, trees, nodes, Rp, Rc)
            <==> old(NoAccountGroups(nodes) && SubsServed(rows, trees, nodes, Rp, Rc))
  {
    LeafClear(query);
    err := EdgeUsageLogs(db, query, nodes, sub, columns, rows);
    assert forall a | a in Rp || a in Rc :: unchanged(a);
  }

  /** loadAccountGroups after loadUsageLogs, which it does not disturb. */
  method EdgeAccountGroupsAfter(db: Database, query: LeafQuery?, nodes: seq<Account>, ghost sub: Option<Spec>,
                                ghost columns: seq<string>, ghost rows: seq<Row>, ghost usageLogs: LeafQuery?,
                                ghost was: Option<Spec>, ghost logs: seq<Row>, ghost trees: (seq<Tree>, seq<Tree>),
                                ghost Rp: set<Account>, ghost Rc: set<Account>)
    returns (err: Option<Error>)
    requires ValidSchema(db) && Distinct(nodes) && Scanned(columns, nodes, rows) && ID in columns
    requires LeafView(query) == sub && NoAccountGroups(nodes)
    requires Apart(usageLogs, query) && Outside(nodes, Rp, Rc)
    modifies LeafObjects(query), nodes`accountGroups
    ensures var fetched := FetchLeaf(db, AccountGroups, sub, In(ACCOUNT_ID, Ids(rows)), Some(ACCOUNT_ID));
            && LeafView(query) == RanLeaf(sub, In(ACCOUNT_ID, Ids(rows)), Some(ACCOUNT_ID))
            && err == ErrorOf(fetched)
            && (err.Some? || AccountGroupsServed(db, sub, rows, fetched.value, nodes))
    ensures LeafView(usageLogs) == old(LeafView(usageLogs))
    ensures UsageLogsServed(db, was, rows, logs, nodes) && SubsServed(rows, trees, nodes, Rp, Rc)
            <==> old(UsageLogsServed(db, was, rows, logs, nodes) && SubsServed(rows, trees, nodes, Rp, Rc))
  {
    LeafClear(query);
    err := EdgeAccountGroups(db, query, nodes, sub, columns, rows);
    assert forall a | a in Rp || a in Rc :: unchanged(a);
  }

  /** The leaf edges of a batch before the Account edges: groups, then proxy. */
  method LoadFirst(db: Database, groups: LeafQuery?, proxy: LeafQuery?, nodes: seq<Account>, ghost u: AccountQ,
                   ghost columns: seq<string>, ghost rows: seq<Row>)
    returns (err: Option<Error>)
    requires ValidSchema(db) && Distinct(nodes) && Scanned(columns, nodes, rows) && ID in columns
    requires LeafView(groups) == u.groups && LeafView(proxy) == u.proxy && Apart(groups, proxy)
    requires u.proxy.Some? ==> PROXY_ID in columns
    requires NoProxies(nodes) && Unlinked(nodes) && forall i | 0 <= i < |nodes| :: nodes[i].groups == []
    modifies LeafObjects(groups), LeafObjects(proxy), nodes`groups, nodes`proxy
    ensures var first := FetchFirst(db, u.groups, u.proxy, rows);
            && err == ErrorOf(first)
            && (err.Some? || (GroupsServed(db, u.groups, rows, first.value.0, nodes)
                              && ProxiesServed(db, u.proxy, rows, first.value.1, nodes)))
    ensures err.Some? || (LeafView(groups) == RanLeaf(u.groups, In(OUT, Ids(rows)), None)
                          && LeafView(proxy) == RanProxy(u.proxy, rows))
    ensures err.Some? || Unlinked(nodes)
  {
    ghost var joined := FetchLeaf(db, Groups, u.groups, In(OUT, Ids(rows)), None);
    err := EdgeGroupsFirst(db, groups, nodes, u.groups, columns, rows, proxy);
    if err == None {
      err := EdgeProxyAfter(db, proxy, nodes, u.proxy, columns, rows, groups, u.groups, joined.value);
    }
  }

  /** The leaf edges after the Account edges, which they do not disturb: usage logs, then account groups. */
  method LoadLast(db: Database, usageLogs: LeafQuery?, accountGroups: LeafQuery?, nodes: seq<Account>,
                  ghost u: AccountQ, ghost columns: seq<string>, ghost rows: seq<Row>,
                  ghost trees: (seq<Tree>, seq<Tree>), ghost Rp: set<Account>, ghost Rc: set<Account>)
    returns (err: Option<Error>)
    requires ValidSchema(db) && Distinct(nodes) && Scanned(columns, nodes, rows) && ID in columns
    requires LeafView(usageLogs) == u.usageLogs && LeafView(accountGroups) == u.accountGroups
    requires Apart(usageLogs, accountGroups) && Outside(nodes, Rp, Rc)
    requires NoAccountGroups(nodes) && SubsServed(rows, trees, nodes, Rp, Rc)
    requires forall i | 0 <= i < |nodes| :: nodes[i].usageLogs == []
    modifies LeafObjects(usageLogs), LeafObjects(accountGroups), nodes`usageLogs, nodes`accountGroups
    ensures var last := FetchLast(db, u.usageLogs, u.accountGroups, rows);
            && err == ErrorOf(last)
            && (err.Some? || (UsageLogsServed(db, u.usageLogs, rows, last.value.0, nodes)
                              && AccountGroupsServed(db, u.accountGroups, rows, last.value.1, nodes)))
    ensures err.Some? || LeafView(usageLogs) == RanLeaf(u.usageLogs, In(ACCOUNT_ID, Ids(rows)), Some(ACCOUNT_ID))
    ensures err.Some?
            || LeafView(accountGroups) == RanLeaf(u.accountGroups, In(ACCOUNT_ID, Ids(rows)), Some(ACCOUNT_ID))
    ensures err.Some? || SubsServed(rows, trees, nodes, Rp, Rc)
  {
    ghost var logs := FetchLeaf(db, UsageLogs, u.usageLogs, In(ACCOUNT_ID, Ids(rows)), Some(ACCOUNT_ID));
    err := EdgeUsageLogsFirst(db, usageLogs, nodes, u.usageLogs, columns, rows, accountGroups, trees, Rp, Rc);
    if err == None {
      err := EdgeAccountGroupsAfter(db, accountGroups, nodes, u.accountGroups, columns, rows, usageLogs, u.usageLogs,
        logs.value, trees, Rp, Rc);
    }
  }

  /** The edges after groups and proxy have objects of their own. */
  ghost predicate TailApart(parent: AccountQuery?, children: AccountQuery?, usageLogs: LeafQuery?,
                            accountGroups: LeafQuery?)
    reads parent, children
  {
    && SubObjects(parent) !! SubObjects(children) && Apart(usageLogs, accountGroups)
    && LeafObjects(usageLogs) !! SubObjects(parent) && LeafObjects(usageLogs) !! SubObjects(children)
    && LeafObjects(accountGroups) !! SubObjects(parent) && LeafObjects(accountGroups) !! SubObjects(children)
  }

  ghost predicate NoLogs(nodes: seq<Account>)
    reads nodes`usageLogs, nodes`accountGroups
  {
    forall i | 0 <= i < |nodes| :: nodes[i].usageLogs == [] && nodes[i].accountGroups == []
  }

  ghost predicate Childless(nodes: seq<Account>)
    reads nodes`children, nodes`usageLogs, nodes`accountGroups
  {
    forall i | 0 <= i < |nodes| :: nodes[i].children == [] && nodes[i].usageLogs == [] && nodes[i].accountGroups == []
  }

  /** loadParent before loadChildren, which it does not disturb. */
  method EdgeParentFirst(db: Database, query: AccountQuery?, nodes: seq<Account>, ghost u: AccountQ,
                         ghost columns: seq<string>, ghost rows: seq<Row>, ghost children: AccountQuery?)
    returns (err: Option<Error>, ghost R: set<Account>, ghost trees: seq<Tree>)
    requires ValidSchema(db) && (u.parent.Some? ==> PARENT_ID in columns) && Scanned(columns, nodes, rows)
    requires Means(query, u.parent) && Means(children, u.children) && SubObjects(query) !! SubObjects(children)
    requires Clear(nodes, SubObjects(query)) && Clear(nodes, SubObjects(children))
    requires forall i | 0 <= i < |nodes| :: nodes[i].parent == null
    modifies SubObjects(query), nodes`parent
    ensures fresh(R) && SubObjects(query) == old(SubObjects(query)) && (query != null ==> query.Valid())
    ensures err.Some? ==> LoadParents(db, u.parent, rows) == Err(err.value)
    ensures err.Some? || (LoadParents(db, u.parent, rows) == Ok(trees) && Means(query, RanParent(db, u.parent, rows)))
    ensures err.Some? || ParentsServed(rows, trees, nodes, R)
    ensures SubObjects(children) == old(SubObjects(children)) && SubView(children) == old(SubView(children))
    ensures Childless(nodes) <==> old(Childless(nodes))
    decreases HeightOf(u.parent), 12
  {
    err, R, trees := EdgeParent(db, query, nodes, u.parent, columns, rows);
  }

  /** loadChildren after loadParent, which it does not disturb. */
  method EdgeChildrenAfter(db: Database, query: AccountQuery?, nodes: seq<Account>, ghost u: AccountQ,
                           ghost columns: seq<string>, ghost rows: seq<Row>, ghost parent: AccountQuery?,
                           ghost parents: seq<Tree>, ghost Rp: set<Account>)
    returns (err: Option<Error>, ghost R: set<Account>, ghost trees: seq<Tree>)
    requires ValidSchema(db) && Distinct(nodes) && Scanned(columns, nodes, rows) && ID in columns
    requires Means(query, u.children) && SubObjects(query) !! SubObjects(parent) && (parent != null ==> parent.Valid())
    requires Clear(nodes, SubObjects(query)) && Clear(nodes, SubObjects(parent))
    requires forall a | a in Rp :: a !in SubObjects(query) && a !in nodes
    requires Childless(nodes)
    modifies SubObjects(query), nodes`children
    ensures fresh(R) && SubObjects(query) == old(SubObjects(query)) && (query != null ==> query.Valid())
    ensures err.Some? ==> LoadChildren(db, u.children, rows) == Err(err.value)
    ensures err.Some?
            || (LoadChildren(db, u.children, rows) == Ok(trees) && Means(query, RanChildren(db, u.children, rows)))
    ensures err.Some? || ChildrenServed(rows, trees, nodes, R)
    ensures SubObjects(parent) == old(SubObjects(parent)) && SubView(parent) == old(SubView(parent))
    ensures ParentsServed(rows, parents, nodes, Rp) && NoLogs(nodes)
            <==> old(ParentsServed(rows, parents, nodes, Rp) && NoLogs(nodes))
    decreases HeightOf(u.children), 11
  {
    err, R, trees := EdgeChildren(db, query, nodes, u.children, columns, rows);
    assert forall a | a in Rp :: unchanged(a);
  }

  /** The Account edges: parent, then children. */
  method LoadSubs(db: Database, parent: AccountQuery?, children: AccountQuery?, nodes: seq<Account>, ghost u: AccountQ,
                  ghost columns: seq<string>, ghost rows: seq<Row>)
    returns (err: Option<Error>, ghost Rp: set<Account>, ghost Rc: set<Account>, ghost subs: (seq<Tree>, seq<Tree>))
    requires ValidSchema(db) && (u.parent.Some? ==> PARENT_ID in columns)
    requires Distinct(nodes) && Scanned(columns, nodes, rows) && ID in columns
    requires Means(parent, u.parent) && Means(children, u.children) && SubObjects(parent) !! SubObjects(children)
    requires Clear(nodes, SubObjects(parent)) && Clear(nodes, SubObjects(children))
    requires Childless(nodes) && forall i | 0 <= i < |nodes| :: nodes[i].parent == null
    modifies SubObjects(parent), SubObjects(children), nodes`parent, nodes`children
    ensures fresh(Rp) && fresh(Rc)
    ensures SubObjects(parent) == old(SubObjects(parent)) && (parent != null ==> parent.Valid())
    ensures SubObjects(children) == old(SubObjects(children)) && (children != null ==> children.Valid())
    ensures err.Some? ==> LoadSubTrees(db, u.parent, u.children, rows) == Err(err.value)
    ensures err.Some? || LoadSubTrees(db, u.parent, u.children, rows) == Ok(subs)
    ensures err.Some? || (SubView(parent) == RanParent(db, u.parent, rows)
                          && SubView(children) == RanChildren(db, u.children, rows))
    ensures err.Some? || (SubsServed(rows, subs, nodes, Rp, Rc) && NoLogs(nodes))
    decreases if HeightOf(u.parent) < HeightOf(u.children) then HeightOf(u.children) else HeightOf(u.parent), 13
  {
    Rc, subs := {}, ([], []);
    ghost var parents, kids;
    err, Rp, parents := EdgeParentFirst(db, parent, nodes, u, columns, rows, children);
    if err.Some? {
      return;
    }
    assert forall a | a in Rp :: a !in SubObjects(children) && a !in nodes;
    err, Rc, kids := EdgeChildrenAfter(db, children, nodes, u, columns, rows, parent, parents, Rp);
    subs := (parents, kids);
  }

  lemma {:induction false} SubsMore(a: Account, t: Option<Tree>, ts: seq<Tree>, Rp: set<Account>, Rc: set<Account>)
    requires ParentIs(a.parent, t, Rp) && RepresentsAll(a.children, ts, Rc)
    ensures ParentIs(a.parent, t, Rp + Rc) && RepresentsAll(a.children, ts, Rp + Rc)
  {
    if a.parent != null {
      RepresentsMore(a.parent, t.value, Rp, Rp + Rc);
    }
    forall k | 0 <= k < |a.children| ensures Represents(a.children[k], ts[k], Rp + Rc) {
      RepresentsMore(a.children[k], ts[k], Rc, Rp + Rc);
    }
  }

  /** Everything that the six loaders leave in the nodes of a batch. */
  ghost predicate Served(db: Database, v: AccountQ, rows: seq<Row>, ns: Neighbours, nodes: seq<Account>,
                         Rp: set<Account>, Rc: set<Account>)
    reads nodes, Rp, Rc
  {
    && GroupsServed(db, v.groups, rows, ns.groups, nodes)
    && ProxiesServed(db, v.proxy, rows, ns.proxies, nodes)
    && ParentsServed(rows, ns.parents, nodes, Rp)
    && ChildrenServed(rows, ns.children, nodes, Rc)
    && UsageLogsServed(db, v.usageLogs, rows, ns.usageLogs, nodes)
    && AccountGroupsServed(db, v.accountGroups, rows, ns.accountGroups, nodes)
  }

  lemma {:induction false} ServedFrom(db: Database, v: AccountQ, rows: seq<Row>, first: (seq<Row>, seq<Row>),
                                      trees: (seq<Tree>, seq<Tree>), last: (seq<Row>, seq<Row>), nodes: seq<Account>,
                                      Rp: set<Account>, Rc: set<Account>)
    requires GroupsServed(db, v.groups, rows, first.0, nodes) && ProxiesServed(db, v.proxy, rows, first.1, nodes)
    requires ParentsServed(rows, trees.0, nodes, Rp) && ChildrenServed(rows, trees.1, nodes, Rc)
    requires UsageLogsServed(db, v.usageLogs, rows, last.0, nodes)
    requires AccountGroupsServed(db, v.accountGroups, rows, last.1, nodes)
    ensures Served(db, v, rows, Neighbours(first.0, first.1, trees.0, trees.1, last.0, last.1), nodes, Rp, Rc)
  {
  }

  /** What a run leaves in these edges. */
  ghost predicate TailRan(db: Database, u: AccountQ, rows: seq<Row>, parent: Option<AccountQ>,
                          children: Option<AccountQ>, usageLogs: Option<Spec>, accountGroups: Option<Spec>) {
    && parent == RanParent(db, u.parent, rows) && children == RanChildren(db, u.children, rows)
    && usageLogs == RanLeaf(u.usageLogs, In(ACCOUNT_ID, Ids(rows)), Some(ACCOUNT_ID))
    && accountGroups == RanLeaf(u.accountGroups, In(ACCOUNT_ID, Ids(rows)), Some(ACCOUNT_ID))
  }

  /** The Account edges, which do not disturb the leaf edges after them. */
  method LoadSubsFirst(db: Database, parent: AccountQuery?, children: AccountQuery?, nodes: seq<Account>,
                       ghost u: AccountQ, ghost columns: seq<string>, ghost rows: seq<Row>, ghost usageLogs: LeafQuery?,
                       ghost accountGroups: LeafQuery?)
    returns (err: Option<Error>, ghost Rp: set<Account>, ghost Rc: set<Account>, ghost subs: (seq<Tree>, seq<Tree>))
    requires ValidSchema(db) && (u.parent.Some? ==> PARENT_ID in columns)
    requires Distinct(nodes) && Scanned(columns, nodes, rows) && ID in columns
    requires Means(parent, u.parent) && Means(children, u.children)
    requires TailApart(parent, children, usageLogs, accountGroups)
    requires Clear(nodes, SubObjects(parent)) && Clear(nodes, SubObjects(children))
    requires Childless(nodes) && forall i | 0 <= i < |nodes| :: nodes[i].parent == null
    modifies SubObjects(parent), SubObjects(children), nodes`parent, nodes`children
    ensures fresh(Rp) && fresh(Rc)
    ensures SubObjects(parent) == old(SubObjects(parent)) && (parent != null ==> parent.Valid())
    ensures SubObjects(children) == old(SubObjects(children)) && (children != null ==> children.Valid())
    ensures err.Some? ==> LoadSubTrees(db, u.parent, u.children, rows) == Err(err.value)
    ensures err.Some? || LoadSubTrees(db, u.parent, u.children, rows) == Ok(subs)
    ensures err.Some? || (SubView(parent) == RanParent(db, u.parent, rows)
                          && SubView(children) == RanChildren(db, u.children, rows))
    ensures err.Some? || (SubsServed(rows, subs, nodes, Rp, Rc) && NoLogs(nodes))
    ensures LeafView(usageLogs) == old(LeafView(usageLogs)) && LeafView(accountGroups) == old(LeafView(accountGroups))
    decreases if HeightOf(u.parent) < HeightOf(u.children) then HeightOf(u.children) else HeightOf(u.parent), 14
  {
    err, Rp, Rc, subs := LoadSubs(db, parent, children, nodes, u, columns, rows);
  }

  /** The leaf edges after the Account edges, which leave the sub-queries alone. */
  method LoadLastAfter(db: Database, usageLogs: LeafQuery?, accountGroups: LeafQuery?, nodes: seq<Account>,
                       ghost u: AccountQ, ghost columns: seq<string>, ghost rows: seq<Row>,
                       ghost trees: (seq<Tree>, seq<Tree>), ghost Rp: set<Account>, ghost Rc: set<Account>,
                       ghost parent: AccountQuery?, ghost children: AccountQuery?)
    returns (err: Option<Error>)
    requires ValidSchema(db) && Distinct(nodes) && Scanned(columns, nodes, rows) && ID in columns
    requires LeafView(usageLogs) == u.usageLogs && LeafView(accountGroups) == u.accountGroups
    requires TailApart(parent, children, usageLogs, accountGroups) && Outside(nodes, Rp, Rc)
    requires (parent != null ==> parent.Valid()) && (children != null ==> children.Valid())
    requires Clear(nodes, SubObjects(parent)) && Clear(nodes, SubObjects(children))
    requires NoLogs(nodes) && SubsServed(rows, trees, nodes, Rp, Rc)
    modifies LeafObjects(usageLogs), LeafObjects(accountGroups), nodes`usageLogs, nodes`accountGroups
    ensures var last := FetchLast(db, u.usageLogs, u.accountGroups, rows);
            && err == ErrorOf(last)
            && (err.Some? || (UsageLogsServed(db, u.usageLogs, rows, last.value.0, nodes)
                              && AccountGroupsServed(db, u.accountGroups, rows, last.value.1, nodes)))
    ensures err.Some? || LeafView(usageLogs) == RanLeaf(u.usageLogs, In(ACCOUNT_ID, Ids(rows)), Some(ACCOUNT_ID))
    ensures err.Some?
            || LeafView(accountGroups) == RanLeaf(u.accountGroups, In(ACCOUNT_ID, Ids(rows)), Some(ACCOUNT_ID))
    ensures err.Some? || SubsServed(rows, trees, nodes, Rp, Rc)
    ensures SubObjects(parent) == old(SubObjects(parent)) && SubView(parent) == old(SubView(parent))
    ensures SubObjects(children) == old(SubObjects(children)) && SubView(children) == old(SubView(children))
  {
    err := LoadLast(db, usageLogs, accountGroups, nodes, u, columns, rows, trees, Rp, Rc);
  }

  /** The loaders after loadProxy: the Account edges, then the last two leaf edges. */
  method LoadTail(db: Database, parent: AccountQuery?, children: AccountQuery?, usageLogs: LeafQuery?,
                  accountGroups: LeafQuery?, nodes: seq<Account>, ghost u: AccountQ, ghost columns: seq<string>,
                  ghost rows: seq<Row>)
    returns (err: Option<Error>, ghost Rp: set<Account>, ghost Rc: set<Account>, ghost trees: (seq<Tree>, seq<Tree>),
             ghost last: (seq<Row>, seq<Row>))
    requires ValidSchema(db) && Distinct(nodes) && Scanned(columns, nodes, rows) && ID in columns
    requires Means(parent, u.parent) && Means(children, u.children) && (u.parent.Some? ==> PARENT_ID in columns)
    requires LeafView(usageLogs) == u.usageLogs && LeafView(accountGroups) == u.accountGroups
    requires TailApart(parent, children, usageLogs, accountGroups)
    requires Clear(nodes, SubObjects(parent)) && Clear(nodes, SubObjects(children)) && Unlinked(nodes)
    modifies SubObjects(parent), SubObjects(children), LeafObjects(usageLogs), LeafObjects(accountGroups)
    modifies nodes`parent, nodes`children, nodes`usageLogs, nodes`accountGroups
    ensures fresh(Rp) && fresh(Rc)
    ensures SubObjects(parent) == old(SubObjects(parent)) && (parent != null ==> parent.Valid())
    ensures SubObjects(children) == old(SubObjects(children)) && (children != null ==> children.Valid())
    ensures err.Some? ==> TailOf(db, u, rows) == Err(err.value)
    ensures err.Some? || TailOf(db, u, rows) == Ok((trees, last))
    ensures err.Some? || SubsServed(rows, trees, nodes, Rp, Rc)
    ensures err.Some? || UsageLogsServed(db, u.usageLogs, rows, last.0, nodes)
    ensures err.Some? || AccountGroupsServed(db, u.accountGroups, rows, last.1, nodes)
    ensures err.Some? || TailRan(db, u, rows, SubView(parent), SubView(children), LeafView(usageLogs),
                                 LeafView(accountGroups))
    decreases Height(u), 0
  {
    last := ([], []);
    err, Rp, Rc, trees := LoadSubsFirst(db, parent, children, nodes, u, columns, rows, usageLogs, accountGroups);
    if err.Some? {
      return;
    }
    err := LoadLastAfter(db, usageLogs, accountGroups, nodes, u, columns, rows, trees, Rp, Rc, parent, children);
    if err == None {
      last := FetchLast(db, u.usageLogs, u.accountGroups, rows).value;
    }
  }

  ghost function TailOf(db: Database, q: AccountQ,
                        rows: seq<Row>): Result<((seq<Tree>, seq<Tree>), (seq<Row>, seq<Row>))> {
    var trees :- LoadSubTrees(db, q.parent, q.children, rows);
    var last :- FetchLast(db, q.usageLogs, q.accountGroups, rows);
    Ok((trees, last))
  }

  lemma {:induction false} NeighboursOf(db: Database, q: AccountQ, rows: seq<Row>)
    ensures var first, tail := FetchFirst(db, q.groups, q.proxy, rows), TailOf(db, q, rows);
            LoadNeighbours(db, q, rows)
            == if first.Err? then Err(first.error)
               else if tail.Err? then Err(tail.error)
               else var (trees, last) := tail.value;
                    Ok(Neighbours(first.value.0, first.value.1, trees.0, trees.1, last.0, last.1))
  {
  }

  /** The loaders after loadProxy, which touch neither groups nor proxy. */
  method LoadTailAfter(db: Database, parent: AccountQuery?, children: AccountQuery?, usageLogs: LeafQuery?,
                       accountGroups: LeafQuery?, nodes: seq<Account>, ghost u: AccountQ, ghost columns: seq<string>,
                       ghost rows: seq<Row>, ghost fetched: (seq<Row>, seq<Row>))
    returns (err: Option<Error>, ghost Rp: set<Account>, ghost Rc: set<Account>, ghost trees: (seq<Tree>, seq<Tree>),
             ghost last: (seq<Row>, seq<Row>))
    requires ValidSchema(db) && Distinct(nodes) && Scanned(columns, nodes, rows) && ID in columns
    requires Means(parent, u.parent) && Means(children, u.children) && (u.parent.Some? ==> PARENT_ID in columns)
    requires LeafView(usageLogs) == u.usageLogs && LeafView(accountGroups) == u.accountGroups
    requires TailApart(parent, children, usageLogs, accountGroups)
    requires Clear(nodes, SubObjects(parent)) && Clear(nodes, SubObjects(children)) && Unlinked(nodes)
    modifies SubObjects(parent), SubObjects(children), LeafObjects(usageLogs), LeafObjects(accountGroups)
    modifies nodes`parent, nodes`children, nodes`usageLogs, nodes`accountGroups
    ensures fresh(Rp) && fresh(Rc)
    ensures SubObjects(parent) == old(SubObjects(parent)) && (parent != null ==> parent.Valid())
    ensures SubObjects(children) == old(SubObjects(children)) && (children != null ==> children.Valid())
    ensures GroupsServed(db, u.groups, rows, fetched.0, nodes) && ProxiesServed(db, u.proxy, rows, fetched.1, nodes)
            <==> old(GroupsServed(db, u.groups, rows, fetched.0, nodes)
                     && ProxiesServed(db, u.proxy, rows, fetched.1, nodes))
    ensures err.Some? ==> TailOf(db, u, rows) == Err(err.value)
    ensures err.Some? || TailOf(db, u, rows) == Ok((trees, last))
    ensures err.Some? || SubsServed(rows, trees, nodes, Rp, Rc)
    ensures err.Some? || UsageLogsServed(db, u.usageLogs, rows, last.0, nodes)
    ensures err.Some? || AccountGroupsServed(db, u.accountGroups, rows, last.1, nodes)
    ensures err.Some? || TailRan(db, u, rows, SubView(parent), SubView(children), LeafView(usageLogs),
                                 LeafView(accountGroups))
    decreases Height(u), 1
  {
    LeafClear(usageLogs);
    LeafClear(accountGroups);
    err, Rp, Rc, trees, last := LoadTail(db, parent, children, usageLogs, accountGroups, nodes, u, columns, rows);
    FirstStays(db, u, rows, fetched, nodes);
  }

  /** What groups and proxy hold depends on these fields alone. */
  twostate lemma FirstStays(new db: Database, new u: AccountQ, new rows: seq<Row>, new fetched: (seq<Row>, seq<Row>),
                            nodes: seq<Account>)
    requires unchanged(nodes`groups) && unchanged(nodes`proxy)
    ensures GroupsServed(db, u.groups, rows, fetched.0, nodes) && ProxiesServed(db, u.proxy, rows, fetched.1, nodes)
            <==> old(GroupsServed(db, u.groups, rows, fetched.0, nodes)
                     && ProxiesServed(db, u.proxy, rows, fetched.1, nodes))
  {
  }

  /** The rest of the batch, once groups and proxies are in place. */
  method LoadRest(db: Database, parent: AccountQuery?, children: AccountQuery?, usageLogs: LeafQuery?,
                  accountGroups: LeafQuery?, nodes: seq<Account>, ghost u: AccountQ, ghost columns: seq<string>,
                  ghost rows: seq<Row>, ghost fetched: (seq<Row>, seq<Row>))
    returns (err: Option<Error>, ghost Rp: set<Account>, ghost Rc: set<Account>, ghost ns: Neighbours)
    requires ValidSchema(db) && Distinct(nodes) && Scanned(columns, nodes, rows) && ID in columns
    requires Means(parent, u.parent) && Means(children, u.children) && (u.parent.Some? ==> PARENT_ID in columns)
    requires LeafView(usageLogs) == u.usageLogs && LeafView(accountGroups) == u.accountGroups
    requires TailApart(parent, children, usageLogs, accountGroups)
    requires Clear(nodes, SubObjects(parent)) && Clear(nodes, SubObjects(children)) && Unlinked(nodes)
    requires FetchFirst(db, u.groups, u.proxy, rows) == Ok(fetched)
    requires GroupsServed(db, u.groups, rows, fetched.0, nodes) && ProxiesServed(db, u.proxy, rows, fetched.1, nodes)
    modifies SubObjects(parent), SubObjects(children), LeafObjects(usageLogs), LeafObjects(accountGroups)
    modifies nodes`parent, nodes`children, nodes`usageLogs, nodes`accountGroups
    ensures fresh(Rp) && fresh(Rc)
    ensures SubObjects(parent) == old(SubObjects(parent)) && (parent != null ==> parent.Valid())
    ensures SubObjects(children) == old(SubObjects(children)) && (children != null ==> children.Valid())
    ensures err.Some? ==> LoadNeighbours(db, u, rows) == Err(err.value)
    ensures err.Some? || (LoadNeighbours(db, u, rows) == Ok(ns) && Served(db, u, rows, ns, nodes, Rp, Rc))
    ensures err.Some? || TailRan(db, u, rows, SubView(parent), SubView(children), LeafView(usageLogs),
                                 LeafView(accountGroups))
    decreases Height(u), 2
  {
    ns := Neighbours([], [], [], [], [], []);
    NeighboursErr(db, u, rows);
    ghost var trees, last;
    err, Rp, Rc, trees, last := LoadTailAfter(db, parent, children, usageLogs, accountGroups, nodes, u, columns, rows,
      fetched);
    if err.Some? {
      return;
    }
    ns := Neighbours(fetched.0, fetched.1, trees.0, trees.1, last.0, last.1);
    ServedFrom(db, u, rows, fetched, trees, last, nodes, Rp, Rc);
    NeighboursOk(db, u, rows, fetched, trees, last);
  }

  /** The parts of a query are in different objects. */
  ghost predicate Parted(q: AccountQuery)
    reads q, q.withParent, q.withChildren
  {
    && TailApart(q.withParent, q.withChildren, q.withUsageLogs, q.withAccountGroups)
    && Apart(q.withGroups, q.withProxy)
    && SubContexts(q.withParent) <= SubObjects(q.withParent)
    && SubContexts(q.withChildren) <= SubObjects(q.withChildren)
    && FirstObjects(q) !! TailObjects(q) && {q, q.ctx} !! FirstObjects(q) && {q, q.ctx} !! TailObjects(q)
  }

  ghost function TailObjects(q: AccountQuery): set<object>
    reads q, q.withParent, q.withChildren
  {
    SubObjects(q.withParent) + SubObjects(q.withChildren) + LastObjects(q)
  }

  lemma {:induction false} QueryParted(q: AccountQuery, v: AccountQ)
    requires q.Denoted() == Some(v)
    ensures LeafView(q.withGroups) == v.groups && LeafView(q.withProxy) == v.proxy && TailMeans(q, v)
    ensures Parted(q) && FirstObjects(q) <= q.Repr && TailObjects(q) <= q.Repr
  {
    PartsOf(q, v);
    SubsApart(q, v);
    LeafEdgesApart(q, v);
    LeavesOffSubs(q, v);
  }

  /** What the edges after groups and proxy mean. */
  ghost predicate TailMeans(q: AccountQuery, v: AccountQ)
    reads q, q.withParent, q.withChildren, TailObjects(q), SubContexts(q.withParent), SubContexts(q.withChildren)
  {
    && Means(q.withParent, v.parent) && Means(q.withChildren, v.children)
    && LeafView(q.withUsageLogs) == v.usageLogs && LeafView(q.withAccountGroups) == v.accountGroups
  }

  ghost function SubContexts(q: AccountQuery?): set<object> {
    if q == null then {} else {q.ctx}
  }

  /** The first stage on the edges of a query leaves the others alone. */
  method FirstOf(db: Database, q: AccountQuery, nodes: seq<Account>, ghost v: AccountQ, ghost columns: seq<string>,
                 ghost rows: seq<Row>)
    returns (err: Option<Error>)
    requires ValidSchema(db) && Distinct(nodes) && Scanned(columns, nodes, rows) && ID in columns
    requires LeafView(q.withGroups) == v.groups && LeafView(q.withProxy) == v.proxy && TailMeans(q, v) && Parted(q)
    requires Clear(nodes, TailObjects(q)) && (v.proxy.Some? ==> PROXY_ID in columns)
    requires NoProxies(nodes) && Unlinked(nodes) && forall i | 0 <= i < |nodes| :: nodes[i].groups == []
    modifies FirstObjects(q), nodes`groups, nodes`proxy
    ensures unchanged(q) && unchanged(q.ctx)
    ensures SubObjects(q.withParent) == old(SubObjects(q.withParent))
    ensures SubObjects(q.withChildren) == old(SubObjects(q.withChildren))
    ensures SubView(q.withParent) == old(SubView(q.withParent))
    ensures SubView(q.withChildren) == old(SubView(q.withChildren))
    ensures LeafView(q.withUsageLogs) == old(LeafView(q.withUsageLogs))
    ensures LeafView(q.withAccountGroups) == old(LeafView(q.withAccountGroups))
    ensures var first := FetchFirst(db, v.groups, v.proxy, rows);
            && err == ErrorOf(first)
            && (err.Some? || (GroupsServed(db, v.groups, rows, first.value.0, nodes)
                              && ProxiesServed(db, v.proxy, rows, first.value.1, nodes)))
    ensures err.Some? || (LeafView(q.withGroups) == RanLeaf(v.groups, In(OUT, Ids(rows)), None)
                          && LeafView(q.withProxy) == RanProxy(v.proxy, rows))
    ensures err.Some? || Unlinked(nodes)
  {
    err := LoadFirst(db, q.withGroups, q.withProxy, nodes, v, columns, rows);
  }

  /** The other stages on the edges of a query leave groups and proxy alone. */
  method RestOf(db: Database, q: AccountQuery, nodes: seq<Account>, ghost v: AccountQ, ghost columns: seq<string>,
                ghost rows: seq<Row>, ghost fetched: (seq<Row>, seq<Row>))
    returns (err: Option<Error>, ghost Rp: set<Account>, ghost Rc: set<Account>, ghost ns: Neighbours)
    requires ValidSchema(db) && Distinct(nodes) && Scanned(columns, nodes, rows) && ID in columns
    requires TailMeans(q, v) && Parted(q) && Clear(nodes, TailObjects(q)) && Unlinked(nodes)
    requires v.parent.Some? ==> PARENT_ID in columns
    requires FetchFirst(db, v.groups, v.proxy, rows) == Ok(fetched)
    requires GroupsServed(db, v.groups, rows, fetched.0, nodes) && ProxiesServed(db, v.proxy, rows, fetched.1, nodes)
    modifies TailObjects(q), nodes`parent, nodes`children, nodes`usageLogs, nodes`accountGroups
    ensures unchanged(q) && unchanged(q.ctx)
    ensures LeafView(q.withGroups) == old(LeafView(q.withGroups)) && LeafView(q.withProxy) == old(LeafView(q.withProxy))
    ensures fresh(Rp) && fresh(Rc)
    ensures SubObjects(q.withParent) == old(SubObjects(q.withParent)) && (q.withParent != null ==> q.withParent.Valid())
    ensures SubObjects(q.withChildren) == old(SubObjects(q.withChildren))
    ensures q.withChildren != null ==> q.withChildren.Valid()
    ensures err.Some? ==> LoadNeighbours(db, v, rows) == Err(err.value)
    ensures err.Some? || (LoadNeighbours(db, v, rows) == Ok(ns) && Served(db, v, rows, ns, nodes, Rp, Rc))
    ensures err.Some? || TailRan(db, v, rows, SubView(q.withParent), SubView(q.withChildren),
                                 LeafView(q.withUsageLogs), LeafView(q.withAccountGroups))
    decreases Height(v), 3
  {
    err, Rp, Rc, ns := LoadRest(db, q.withParent, q.withChildren, q.withUsageLogs, q.withAccountGroups, nodes, v,
      columns, rows, fetched);
  }

  /** All edges of a query as a run leaves them. */
  ghost predicate EdgesRan(db: Database, q: AccountQuery, v: AccountQ, rows: seq<Row>)
    reads q, FirstObjects(q), q.withParent, q.withChildren, TailObjects(q)
    reads SubContexts(q.withParent), SubContexts(q.withChildren)
  {
    && LeafView(q.withGroups) == RanLeaf(v.groups, In(OUT, Ids(rows)), None)
    && LeafView(q.withProxy) == RanProxy(v.proxy, rows)
    && TailRan(db, v, rows, SubView(q.withParent), SubView(q.withChildren), LeafView(q.withUsageLogs),
               LeafView(q.withAccountGroups))
  }

  /** The six loaders of a batch, in the order of sqlAll. */
  method SixLoaders(db: Database, q: AccountQuery, nodes: seq<Account>, ghost v: AccountQ, ghost columns: seq<string>,
                    ghost rows: seq<Row>)
    returns (err: Option<Error>, ghost Rp: set<Account>, ghost Rc: set<Account>, ghost ns: Neighbours)
    requires ValidSchema(db) && Distinct(nodes) && Scanned(columns, nodes, rows) && Bare(nodes)
    requires LeafView(q.withGroups) == v.groups && LeafView(q.withProxy) == v.proxy && TailMeans(q, v) && Parted(q)
    requires Clear(nodes, TailObjects(q))
    requires ID in columns && (v.proxy.Some? ==> PROXY_ID in columns) && (v.parent.Some? ==> PARENT_ID in columns)
    modifies FirstObjects(q), TailObjects(q), nodes
    ensures unchanged(q) && unchanged(q.ctx) && fresh(Rp) && fresh(Rc)
    ensures SubObjects(q.withParent) == old(SubObjects(q.withParent)) && (q.withParent != null ==> q.withParent.Valid())
    ensures SubObjects(q.withChildren) == old(SubObjects(q.withChildren))
    ensures q.withChildren != null ==> q.withChildren.Valid()
    ensures err.Some? ==> LoadNeighbours(db, v, rows) == Err(err.value)
    ensures err.Some? || (LoadNeighbours(db, v, rows) == Ok(ns) && Served(db, v, rows, ns, nodes, Rp, Rc))
    ensures err.Some? || EdgesRan(db, q, v, rows)
    decreases Height(v), 4
  {
    Rp, Rc, ns := {}, {}, Neighbours([], [], [], [], [], []);
    NeighboursErr(db, v, rows);
    err := FirstOf(db, q, nodes, v, columns, rows);
    if err == None {
      err, Rp, Rc, ns := RestOf(db, q, nodes, v, columns, rows, FetchFirst(db, v.groups, v.proxy, rows).value);
    }
  }

  /** The loaders on a query object, which stays a tree. */
  method LoadEdges(db: Database, q: AccountQuery, nodes: seq<Account>, ghost v: AccountQ, ghost columns: seq<string>,
                   ghost rows: seq<Row>)
    returns (err: Option<Error>, ghost Rp: set<Account>, ghost Rc: set<Account>, ghost ns: Neighbours)
    requires ValidSchema(db) && Distinct(nodes) && Scanned(columns, nodes, rows) && Bare(nodes)
    requires q.Denoted() == Some(v) && Clear(nodes, q.Repr)
    requires ID in columns && (v.proxy.Some? ==> PROXY_ID in columns) && (v.parent.Some? ==> PARENT_ID in columns)
    modifies q.Repr, nodes
    ensures fresh(Rp) && fresh(Rc) && q.Valid() && q.Repr == old(q.Repr)
    ensures err.Some? ==> LoadNeighbours(db, v, rows) == Err(err.value)
    ensures err.Some? || (LoadNeighbours(db, v, rows) == Ok(ns) && Served(db, v, rows, ns, nodes, Rp, Rc))
    ensures err.Some? || q.Denoted() == Some(RanEdges(db, v, rows))
    decreases Height(v), 5
  {
    QueryParted(q, v);
    RanIs(db, v, rows);
    assert Clear(nodes, TailObjects(q));
    err, Rp, Rc, ns := SixLoaders(db, q, nodes, v, columns, rows);
    Relinked(q, v);
  }

  lemma {:induction false} NeighboursOk(db: Database, q: AccountQ, rows: seq<Row>, first: (seq<Row>, seq<Row>),
                                        trees: (seq<Tree>, seq<Tree>), last: (seq<Row>, seq<Row>))
    requires FetchFirst(db, q.groups, q.proxy, rows) == Ok(first) && TailOf(db, q, rows) == Ok((trees, last))
    ensures LoadNeighbours(db, q, rows) == Ok(Neighbours(first.0, first.1, trees.0, trees.1, last.0, last.1))
  {
    NeighboursOf(db, q, rows);
  }

  lemma {:induction false} NeighboursErr(db: Database, q: AccountQ, rows: seq<Row>)
    ensures var first := FetchFirst(db, q.groups, q.proxy, rows);
            && (first.Err? ==> LoadNeighbours(db, q, rows) == Err(first.error))
            && (first.Ok? && TailOf(db, q, rows).Err? ==> LoadNeighbours(db, q, rows) == Err(TailOf(db, q, rows).error))
  {
    NeighboursOf(db, q, rows);
  }

  lemma {:induction false} RanIs(db: Database, v: AccountQ, rows: seq<Row>)
    ensures RanEdges(db, v, rows)
            == AccountQ(v.spec, RanLeaf(v.groups, In(OUT, Ids(rows)), None), RanProxy(v.proxy, rows),
                        RanParent(db, v.parent, rows), RanChildren(db, v.children, rows),
                        RanLeaf(v.usageLogs, In(ACCOUNT_ID, Ids(rows)), Some(ACCOUNT_ID)),
                        RanLeaf(v.accountGroups, In(ACCOUNT_ID, Ids(rows)), Some(ACCOUNT_ID)))
  {
  }

  /** The trees of a whole batch. */
  ghost function AttachAll(db: Database, q: AccountQ, rows: seq<Row>, ns: Neighbours): (trees: seq<Tree>)
    ensures |trees| == |rows| && forall i | 0 <= i < |rows| :: trees[i] == Attach(db, q, rows, ns, i)
  {
    seq(|rows|, i requires 0 <= i < |rows| => Attach(db, q, rows, ns, i))
  }

  lemma {:induction false} LoadIs(db: Database, q: AccountQ, rows: seq<Row>)
    requires Fetch(db, Accounts, q.spec) == Ok(rows) && rows != []
    ensures Load(db, q) == var ns := LoadNeighbours(db, q, rows);
            if ns.Err? then Err(ns.error) else Ok(AttachAll(db, q, rows, ns.value))
    ensures Ran(db, q) == RanEdges(db, q, rows)
  {
  }

  lemma {:induction false} NodeServed(db: Database, q: AccountQ, rows: seq<Row>, ns: Neighbours, nodes: seq<Account>,
                                      Rp: set<Account>, Rc: set<Account>, R: set<Account>, i: nat)
    requires Scanned(AccountColumns(db, q), nodes, rows) && Served(db, q, rows, ns, nodes, Rp, Rc)
    requires i < |rows| && nodes[i].loaded == Requested(q) && nodes[i] in R && Rp + Rc <= R
    ensures Represents(nodes[i], Attach(db, q, rows, ns, i), R)
  {
    SubsMore(nodes[i], TreeById(ns.parents, RefOf(rows[i], PARENT_ID)), ServedTrees(rows, i, ns.children), Rp, Rc);
    NodeRepresents(db, q, rows, ns, nodes[i], i, Rp + Rc, R);
  }

  lemma {:induction false} BatchRepresents(db: Database, q: AccountQ, rows: seq<Row>, ns: Neighbours,
                                           nodes: seq<Account>,
                                           Rp: set<Account>, Rc: set<Account>, R: set<Account>)
    requires Scanned(AccountColumns(db, q), nodes, rows) && Served(db, q, rows, ns, nodes, Rp, Rc)
    requires forall i | 0 <= i < |nodes| :: nodes[i].loaded == Requested(q) && nodes[i] in R
    requires Rp + Rc <= R
    ensures RepresentsAll(nodes, AttachAll(db, q, rows, ns), R)
  {
    forall i | 0 <= i < |nodes| ensures Represents(nodes[i], Attach(db, q, rows, ns, i), R) {
      NodeServed(db, q, rows, ns, nodes, Rp, Rc, R, i);
    }
  }

  /** The loaders of a batch that is not empty. */
  method SqlBatch(db: Database, q: AccountQuery, nodes: seq<Account>, ghost v: AccountQ, ghost rows: seq<Row>)
    returns (err: Option<Error>, ghost R: set<Account>, ghost trees: seq<Tree>)
    requires ValidSchema(db) && Fetch(db, Accounts, v.spec) == Ok(rows) && rows != []
    requires q.Denoted() == Some(v) && Clear(nodes, q.Repr)
    requires Distinct(nodes) && Scanned(AccountColumns(db, v), nodes, rows) && Bare(nodes)
    requires forall i | 0 <= i < |nodes| :: nodes[i].loaded == Requested(v)
    modifies q.Repr, nodes
    ensures fresh(R - Objects(nodes)) && q.Valid() && q.Repr == old(q.Repr)
    ensures err.Some? ==> Load(db, v) == Err(err.value)
    ensures err == None ==> Load(db, v) == Ok(trees) && RepresentsAll(nodes, trees, R)
    ensures err == None ==> q.Denoted() == Some(Ran(db, v)) && SharedAll(Objects(nodes), R)
    decreases Height(v), 6
  {
    KeyColumns(db, v);
    LoadIs(db, v, rows);
    ghost var Rp, Rc, ns;
    err, Rp, Rc, ns := LoadEdges(db, q, nodes, v, AccountColumns(db, v), rows);
    R, trees := Objects(nodes) + (Rp + Rc), [];
    if err.Some? {
      return;
    }
    trees := AttachAll(db, v, rows, ns);
    BatchRepresents(db, v, rows, ns, nodes, Rp, Rc, R);
    BatchShared(nodes, Rp, Rc, R);
  }

  // ----- errors ------------------------------------------------------------------------------------------------------

  predicate QueryError(e: Error) { e.InvalidField? || e.QueryFailed? }

  lemma {:induction false} SubErrors(db: Database, q: AccountQ, rows: seq<Row>)
    ensures var trees := LoadSubTrees(db, q.parent, q.children, rows); trees.Err? ==> QueryError(trees.error)
    decreases Height(q), 0
  {
    var parents, children := LoadParents(db, q.parent, rows), LoadChildren(db, q.children, rows);
    if parents.Err? {
      OnlyQueryErrors(db, Narrow(q.parent.value, In(ID, ForeignKeys(rows, PARENT_ID)), None));
    } else if children.Err? {
      OnlyQueryErrors(db, Narrow(q.children.value, In(PARENT_ID, Ids(rows)), Some(PARENT_ID)));
    }
  }

  /** A load fails only because a query is invalid or fails: no stitching error can occur, at any depth. */
  lemma {:induction false} OnlyQueryErrors(db: Database, q: AccountQ)
    requires Load(db, q).Err?
    ensures QueryError(Load(db, q).error)
    decreases Height(q), 1
  {
    var fetched := Fetch(db, Accounts, q.spec);
    if fetched.Ok? {
      LoadIs(db, q, fetched.value);
      NeighboursOf(db, q, fetched.value);
      SubErrors(db, q, fetched.value);
    }
  }

  lemma {:induction false} ErrorsAreQueries(db: Database, q: AccountQ)
    ensures Load(db, q).Err? ==> QueryError(Load(db, q).error)
  {
    if Load(db, q).Err? {
      OnlyQueryErrors(db, q);
    }
  }

  /**
   sqlAll.  The returned nodes are new and stand for the trees of the specification; the query object is
   left with the IN predicates that the run adds to its sub-queries.
   */
  method SqlAll(db: Database, q: AccountQuery, ghost v: AccountQ)
    returns (r: Result<seq<Account>>, ghost R: set<Account>, ghost trees: seq<Tree>)
    requires ValidSchema(db) && q.Denoted() == Some(v)
    modifies q.Repr
    ensures fresh(R) && q.Valid() && q.Repr == old(q.Repr)
    ensures r.Err? ==> Load(db, v) == Err(r.error) && (r.error.InvalidField? || r.error.QueryFailed?)
    ensures r.Ok? ==> Load(db, v) == Ok(trees) && RepresentsAll(r.value, trees, R)
    ensures r.Ok? ==> q.Denoted() == Some(Ran(db, v)) && SharedAll(Objects(r.value), R)
    decreases Height(v), 7
  {
    R, trees := {}, [];
    ErrorsAreQueries(db, v);
    ghost var rows;
    r, rows := QueryAccounts(db, q, v);
    if r.Err? || |r.value| == 0 {
      NoneShared({});
      assert r.Ok? ==> Objects(r.value) == {};
      return;
    }
    assert fresh(Objects(r.value));
    assert Clear(r.value, q.Repr);
    var err;
    err, R, trees := SqlBatch(db, q, r.value, v, rows);
    if err.Some? {
      r := Err(err.value);
    }
  }
}
