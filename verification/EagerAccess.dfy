/** The *OrErr accessors of AccountEdges, after a load. */
module EagerAccess {
  import opened Options
  import opened Rows
  import opened EagerSpec
  import opened QueryBuilder
  import opened EagerLoad
  import opened EagerAll
  import opened NestedJoin

  datatype Access<+T> = Found(value: T) | NotFound(entity: string) | NotLoaded(edge: string)

  function GroupsOrErr(a: Account): Access<seq<Leaf>>
    requires |a.loaded| == 6
    reads a
  {
    if a.loaded[0] then Found(a.groups) else NotLoaded("groups")
  }

  function ProxyOrErr(a: Account): Access<Leaf>
    requires |a.loaded| == 6
    reads a
  {
    if a.proxy != null then Found(a.proxy) else if a.loaded[1] then NotFound("proxy") else NotLoaded("proxy")
  }

  function ParentOrErr(a: Account): Access<Account>
    requires |a.loaded| == 6
    reads a
  {
    if a.parent != null then Found(a.parent) else if a.loaded[2] then NotFound("account") else NotLoaded("parent")
  }

  function ChildrenOrErr(a: Account): Access<seq<Account>>
    requires |a.loaded| == 6
    reads a
  {
    if a.loaded[3] then Found(a.children) else NotLoaded("children")
  }

  function UsageLogsOrErr(a: Account): Access<seq<Leaf>>
    requires |a.loaded| == 6
    reads a
  {
    if a.loaded[4] then Found(a.usageLogs) else NotLoaded("usage_logs")
  }

  function AccountGroupsOrErr(a: Account): Access<seq<Leaf>>
    requires |a.loaded| == 6
    reads a
  {
    if a.loaded[5] then Found(a.accountGroups) else NotLoaded("account_groups")
  }

  /** An edge that was not requested is empty in the tree. */
  lemma {:induction false} NotRequestedEmpty(db: Database, q: AccountQ, i: nat)
    requires Load(db, q).Ok? && i < |Load(db, q).value|
    ensures var t := Load(db, q).value[i];
            && t.loaded == Requested(q)
            && (q.proxy.None? ==> t.proxy == None) && (q.parent.None? ==> t.parent == None)
  {
    var rows := Fetch(db, Accounts, q.spec).value;
    LoadIs(db, q, rows);
    NeighboursAre(db, q, rows, LoadNeighbours(db, q, rows).value);
  }

  /** What the accessors of a node say of the tree it stands for. */
  ghost predicate Reports(a: Account, q: AccountQ, t: Tree, R: set<Account>)
    requires |a.loaded| == 6
    reads a, R
  {
    && (if q.groups.None? then GroupsOrErr(a) == NotLoaded("groups")
        else GroupsOrErr(a).Found? && LeafRows(GroupsOrErr(a).value) == t.groups)
    && (if q.proxy.None? then ProxyOrErr(a) == NotLoaded("proxy")
        else if t.proxy.None? then ProxyOrErr(a) == NotFound("proxy")
        else ProxyOrErr(a).Found? && ProxyOrErr(a).value.row == t.proxy.value)
    && (if q.parent.None? then ParentOrErr(a) == NotLoaded("parent")
        else if t.parent.None? then ParentOrErr(a) == NotFound("account")
        else ParentOrErr(a).Found? && Represents(ParentOrErr(a).value, t.parent.value, R))
    && (if q.children.None? then ChildrenOrErr(a) == NotLoaded("children")
        else ChildrenOrErr(a).Found? && RepresentsAll(ChildrenOrErr(a).value, t.children, R))
    && (if q.usageLogs.None? then UsageLogsOrErr(a) == NotLoaded("usage_logs")
        else UsageLogsOrErr(a).Found? && LeafRows(UsageLogsOrErr(a).value) == t.usageLogs)
    && (if q.accountGroups.None? then AccountGroupsOrErr(a) == NotLoaded("account_groups")
        else AccountGroupsOrErr(a).Found? && LeafRows(AccountGroupsOrErr(a).value) == t.accountGroups)
  }

  /**
   After a successful load: not loaded exactly when the edge was not requested, not found exactly
   when it was requested and no neighbour matched, and the matching neighbours otherwise.
   */
  lemma {:induction false} AccessorsReport(db: Database, q: AccountQ, i: nat, a: Account, R: set<Account>)
    requires Load(db, q).Ok? && i < |Load(db, q).value| && Represents(a, Load(db, q).value[i], R)
    ensures |a.loaded| == 6 && Reports(a, q, Load(db, q).value[i], R)
  {
    NotRequestedEmpty(db, q, i);
  }

  /** The single-valued accessors in terms of the tables: they find what the account's foreign key refers to. */
  lemma {:induction false} AccessorsFindReferred(db: Database, q: AccountQ, i: nat, a: Account, R: set<Account>)
    requires Keyed(db) && Fair(db, q)
    requires Load(db, q).Ok? && i < |Load(db, q).value| && Represents(a, Load(db, q).value[i], R)
    ensures |a.loaded| == 6 && Fetch(db, Accounts, q.spec).Ok? && i < |Fetch(db, Accounts, q.spec).value|
    ensures var row := Fetch(db, Accounts, q.spec).value[i];
            var proxy := Referred(LeafRowsOf(db, Proxies, q.proxy), q.proxy, RefOf(row, PROXY_ID));
            var parent := Referred(SubRows(db, q.parent), SpecOf(q.parent), RefOf(row, PARENT_ID));
            && (ProxyOrErr(a).NotLoaded? <==> q.proxy.None?)
            && (ProxyOrErr(a).NotFound? <==> q.proxy.Some? && proxy.None?)
            && (ProxyOrErr(a).Found? ==>
              proxy.Some? && ProxyOrErr(a).value.row == Project(proxy.value, LeafColumns(db, Proxies, q.proxy, None)))
            && (ParentOrErr(a).NotLoaded? <==> q.parent.None?)
            && (ParentOrErr(a).NotFound? <==> q.parent.Some? && parent.None?)
            && (ParentOrErr(a).Found? ==>
              parent.Some? && Represents(ParentOrErr(a).value, Nested(db, q.parent.value, parent.value), R))
  {
    AccessorsReport(db, q, i, a, R);
    LoadNested(db, q);
    var row := Fetch(db, Accounts, q.spec).value[i];
    var t := Nested(db, q, row);
    assert Load(db, q).value[i] == t;
    assert t.proxy == ProjectOne(Referred(LeafRowsOf(db, Proxies, q.proxy), q.proxy, RefOf(row, PROXY_ID)),
      LeafColumns(db, Proxies, q.proxy, None));
    assert t.parent == NestedParent(db, q, Referred(SubRows(db, q.parent), SpecOf(q.parent), RefOf(row, PARENT_ID)));
  }

  // ----- the object graph and the tables ------------------------------------------------------------------------

  /**
   sqlAll and the nested loop together: the returned objects, with everything reachable through their
   edges, are those of the recursive join over the tables, one tree for each selected account.
   */
  method LoadGraph(db: Database, q: AccountQuery) returns (r: Result<seq<Account>>, ghost R: set<Account>)
    requires Keyed(db) && q.Valid() && Fair(db, q.View())
    modifies q.Repr
    ensures fresh(R) && q.Valid() && q.Repr == old(q.Repr)
    ensures r.Ok? ==> Fetch(db, Accounts, old(q.View()).spec).Ok?
    ensures r.Ok? ==> RepresentsAll(r.value, NestedAll(db, old(q.View()),
                                                       Fetch(db, Accounts, old(q.View()).spec).value), R)
    ensures r.Ok? ==> q.View() == Ran(db, old(q.View())) && SharedAll(Objects(r.value), R)
    ensures r.Err? ==> r.error.InvalidField? || r.error.QueryFailed?
  {
    ghost var v, trees := q.View(), [];
    r, R, trees := SqlAll(db, q, v);
    if r.Ok? {
      LoadNested(db, v);
    }
  }

  // ----- running a clone ------------------------------------------------------------------------------------------

  ghost predicate NoModifiers(q: AccountQ) {
    && q.spec.modifiers == [] && NoneIn(q.groups) && NoneIn(q.proxy) && NoneIn(q.usageLogs) && NoneIn(q.accountGroups)
    && (q.parent.Some? ==> NoModifiers(q.parent.value)) && (q.children.Some? ==> NoModifiers(q.children.value))
  }

  predicate NoneIn(spec: Option<Spec>) {
    spec.Some? ==> spec.value.modifiers == []
  }

  /** A clone is the query itself if and only if the query has no modifier, at any depth. */
  lemma {:induction false} CloneExactly(q: AccountQ)
    ensures CloneOf(q) == q <==> NoModifiers(q)
  {
    if q.parent.Some? {
      CloneExactly(q.parent.value);
    }
    if q.children.Some? {
      CloneExactly(q.children.value);
    }
  }

  /**
   Running a clone in place of the query: the load is that of the cloned query, and the query itself, with
   every sub-query, stays as it was, so that it can be run again on any state of the database.
   */
  method RunClone(db: Database, q: AccountQuery)
    returns (r: Result<seq<Account>>, ghost R: set<Account>, ghost trees: seq<Tree>)
    requires ValidSchema(db) && q.Valid()
    ensures q.Denoted() == old(q.Denoted()) && fresh(R)
    ensures r.Err? ==> Load(db, CloneOf(q.View())) == Err(r.error)
    ensures r.Ok? ==> Load(db, CloneOf(q.View())) == Ok(trees) && RepresentsAll(r.value, trees, R)
    ensures NoModifiers(q.View()) ==> CloneOf(q.View()) == q.View()
  {
    ghost var v := q.View();
    var c := Clone(q);
    CloneExactly(v);
    r, R, trees := SqlAll(db, c, CloneOf(v));
    assert q.Denoted() == Some(v);
  }

  // ----- repeated ids ---------------------------------------------------------------------------------------------

  /** What the node of row i holds after a load, for any rows, in terms of the neighbours that the batch fetched. */
  ghost predicate HoldsShares(db: Database, q: AccountQ, rows: seq<Row>, ns: Neighbours, i: nat, a: Account,
                              R: set<Account>)
    requires i < |rows|
    reads a, R
  {
    var id := IntOf(rows[i], ID);
    && LeafRows(a.groups) == ProjectAll(GroupsFor(ns.groups, id), LeafColumns(db, Groups, q.groups, None))
    && RepresentsAll(a.children, TreesFor(ns.children, PARENT_ID, id), R)
    && LeafRows(a.usageLogs)
      == ProjectAll(RowsFor(ns.usageLogs, ACCOUNT_ID, id), LeafColumns(db, UsageLogs, q.usageLogs, Some(ACCOUNT_ID)))
    && LeafRows(a.accountGroups)
       == ProjectAll(RowsFor(ns.accountGroups, ACCOUNT_ID, id),
         LeafColumns(db, AccountGroups, q.accountGroups, Some(ACCOUNT_ID)))
  }

  /** The M2O edges, which every occurrence gets. */
  ghost predicate HoldsReferred(db: Database, q: AccountQ, rows: seq<Row>, ns: Neighbours, i: nat, a: Account,
                                R: set<Account>)
    requires i < |rows|
    reads a, R
  {
    var proxy, parent := RowById(ns.proxies, RefOf(rows[i], PROXY_ID)), TreeById(ns.parents, RefOf(rows[i], PARENT_ID));
    && (a.proxy == null <==> proxy.None?)
    && (a.proxy != null ==> a.proxy.row == Project(proxy.value, LeafColumns(db, Proxies, q.proxy, None)))
    && (a.parent == null <==> parent.None?)
    && (a.parent != null ==> Represents(a.parent, parent.value, R))
  }

  lemma {:induction false} LastOccurrence(rows: seq<Row>, i: nat) returns (j: nat)
    requires i < |rows|
    ensures i <= j < |rows| && IntOf(rows[j], ID) == IntOf(rows[i], ID) && IsLast(rows, j)
    decreases |rows| - i
  {
    if IsLast(rows, i) {
      j := i;
    } else {
      var k :| i < k < |rows| && IntOf(rows[k], ID) == IntOf(rows[i], ID);
      j := LastOccurrence(rows, k);
    }
  }

  /**
   Repeated ids, on the returned nodes: of all occurrences of an account the last holds every group,
   child, usage log and account group that the batch fetched for it, the others hold none; all of them
   hold the proxy and the parent of their own keys.
   */
  lemma {:induction false} RepeatedIds(db: Database, q: AccountQ, nodes: seq<Account>, R: set<Account>, i: nat)
    returns (j: nat)
    requires Load(db, q).Ok? && RepresentsAll(nodes, Load(db, q).value, R) && i < |nodes|
    ensures Fetch(db, Accounts, q.spec).Ok? && |Fetch(db, Accounts, q.spec).value| == |nodes|
    ensures var rows := Fetch(db, Accounts, q.spec).value;
            && LoadNeighbours(db, q, rows).Ok? && i <= j < |nodes| && IntOf(rows[j], ID) == IntOf(rows[i], ID)
            && var ns := LoadNeighbours(db, q, rows).value;
               && HoldsShares(db, q, rows, ns, j, nodes[j], R)
               && (i < j ==> nodes[i].groups == [] && nodes[i].children == [])
               && (i < j ==> nodes[i].usageLogs == [] && nodes[i].accountGroups == [])
               && HoldsReferred(db, q, rows, ns, i, nodes[i], R)
  {
    var rows := Fetch(db, Accounts, q.spec).value;
    LoadIs(db, q, rows);
    var ns := LoadNeighbours(db, q, rows).value;
    j := LastOccurrence(rows, i);
    ReferredHeld(db, q, rows, ns, i, nodes[i], R);
    assert Represents(nodes[j], Attach(db, q, rows, ns, j), R);
    if i < j {
      assert !IsLast(rows, i);
      assert Represents(nodes[i], Attach(db, q, rows, ns, i), R);
    }
  }

  lemma {:induction false} ReferredHeld(db: Database, q: AccountQ, rows: seq<Row>, ns: Neighbours, i: nat,
                                        a: Account, R: set<Account>)
    requires i < |rows| && Represents(a, Attach(db, q, rows, ns, i), R)
    ensures HoldsReferred(db, q, rows, ns, i, a, R)
  {
  }
}
