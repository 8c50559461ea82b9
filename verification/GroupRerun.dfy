/**
 The predicate that loadGroups adds to a groups query is a function on the selector, and it stays in
 the query: a later run applies those of all runs before it and its own.
 */
module GroupRerun {
  import opened Options
  import opened Rows
  import opened EagerSpec
  import opened EagerPages
  import opened EagerGroups
  import opened GroupJoin
  import opened NestedJoin
  import AccountRow

  type Kind = AccountRow.Kind

  // ----- the selector ------------------------------------------------------------------------------------------

  /** The selected columns, and the rows of the tables joined so far; OUT is the account of the latest join. */
  datatype Selector = Selector(columns: seq<string>, rows: seq<Row>)

  /** s.Join of the link table, on the group. */
  function Join(s: Selector, links: seq<Row>): Selector { s.(rows := Joined(s.rows, links)) }

  /** s.Where of the latest join's account. */
  function WhereAccount(s: Selector, ids: seq<int>): Selector { s.(rows := Filter(s.rows, [In(OUT, ids)])) }

  /** s.Select replaces the columns. */
  function SelectOnly(s: Selector, column: string): Selector { s.(columns := [column]) }

  function AppendSelect(s: Selector, columns: seq<string>): Selector { s.(columns := s.columns + columns) }

  /** What loadGroups hands to query.Where for a batch with these ids. */
  function Predicate(s: Selector, links: seq<Row>, ids: seq<int>): Selector {
    var joined := WhereAccount(Join(s, links), ids);
    AppendSelect(SelectOnly(joined, ACCOUNT_ID), joined.columns)
  }

  /** The predicates of several runs, in the order in which they were added. */
  function Predicates(s: Selector, links: seq<Row>, runs: seq<seq<int>>): Selector {
    if runs == [] then s else Predicate(Predicates(s, links, runs[..|runs| - 1]), links, runs[|runs| - 1])
  }

  /** The selector of a groups query after the predicates of the caller, ordered and paged at the end. */
  function Selected(groups: seq<Row>, links: seq<Row>, spec: Spec, columns: seq<string>,
                    runs: seq<seq<int>>): Selector {
    var s := Predicates(Selector(columns, Filter(groups, spec.preds)), links, runs);
    s.(rows := Page(Sort(s.rows, spec.rank), spec.offset, spec.limit))
  }

  // ----- the rows as loadGroups reads them -----------------------------------------------------------------------

  /** ScanValues of loadGroups: an integer for the first column, and what the group scans the others into. */
  function Holders(kinds: map<string, Kind>, columns: seq<string>): (holders: seq<Kind>)
    ensures |holders| == if columns == [] then 1 else |columns|
  {
    var rest := if columns == [] then [] else columns[1..];
    [AccountRow.NullInt64] + seq(|rest|, i requires 0 <= i < |rest| =>
      if rest[i] in kinds then kinds[rest[i]] else AccountRow.UnknownType)
  }

  datatype Read = Stitched(joined: seq<Row>) | Panicked

  /** Assign reads the group's id from the second holder of every row, and panics if that is no integer. */
  function ReadAll(holders: seq<Kind>, rows: seq<Row>): Read {
    if rows == [] then Stitched([])
    else if |holders| < 2 || holders[1] != AccountRow.NullInt64 then Panicked
    else
      var more := ReadAll(holders, rows[1..]);
      if more.Panicked? then Panicked else Stitched([rows[0]] + more.joined)
  }

  /** A groups query in its latest run; `runs` are the ids of this run and of those before it. */
  function RunGroups(kinds: map<string, Kind>, groups: seq<Row>, links: seq<Row>, spec: Spec, columns: seq<string>,
                     runs: seq<seq<int>>): Read {
    var s := Selected(groups, links, spec, columns, runs);
    ReadAll(Holders(kinds, s.columns), s.rows)
  }

  /** The group scans its id, which comes first, into an integer, and has no account column. */
  predicate GroupScan(kinds: map<string, Kind>, columns: seq<string>) {
    && columns != [] && columns[0] == ID
    && ID in kinds && kinds[ID] == AccountRow.NullInt64 && ACCOUNT_ID !in kinds
  }

  // ----- the columns after n runs --------------------------------------------------------------------------------

  lemma {:induction false} ColumnsAfter(s: Selector, links: seq<Row>, runs: seq<seq<int>>)
    ensures var t := Predicates(s, links, runs);
            && |t.columns| == |runs| + |s.columns|
            && (forall i | 0 <= i < |runs| :: t.columns[i] == ACCOUNT_ID)
            && t.columns[|runs|..] == s.columns
  {
    if runs != [] {
      var n := |runs| - 1;
      ColumnsAfter(s, links, runs[..n]);
      var before, t := Predicates(s, links, runs[..n]).columns, Predicates(s, links, runs).columns;
      assert t == [ACCOUNT_ID] + before;
      assert t[n + 1..] == before[n..];
    }
  }

  /** The group's id is in the second column exactly in the first run. */
  lemma {:induction false} SecondHolder(kinds: map<string, Kind>, columns: seq<string>, s: Selector, links: seq<Row>,
                                        runs: seq<seq<int>>)
    requires GroupScan(kinds, columns) && s.columns == columns && runs != []
    ensures var holders := Holders(kinds, Predicates(s, links, runs).columns);
            |holders| >= 2 && (holders[1] == AccountRow.NullInt64 <==> |runs| == 1)
  {
    ColumnsAfter(s, links, runs);
    var all := Predicates(s, links, runs).columns;
    if |runs| == 1 {
      assert all[1] == all[1..][0];
    }
    assert all[1..][0] == all[1];
  }

  lemma {:induction false} ReadWhole(holders: seq<Kind>, rows: seq<Row>)
    ensures ReadAll(holders, rows)
         == if rows == [] || (|holders| >= 2 && holders[1] == AccountRow.NullInt64) then Stitched(rows) else Panicked
  {
    if rows != [] {
      ReadWhole(holders, rows[1..]);
      assert rows == [rows[0]] + rows[1..];
    }
  }

  // ----- the first run -------------------------------------------------------------------------------------------

  lemma {:induction false} OnePredicate(s: Selector, links: seq<Row>, ids: seq<int>)
    ensures Predicates(s, links, [ids]) == Predicate(s, links, ids)
  {
    assert [ids][..0] == [] && Predicates(s, links, []) == s;
  }

  lemma {:induction false} FilterGroupsFirst(groups: seq<Row>, links: seq<Row>, spec: Spec, ids: seq<int>)
    requires Blind(spec)
    ensures Filter(Joined(Filter(groups, spec.preds), links), [In(OUT, ids)])
         == Filter(Joined(groups, links), spec.preds + [In(OUT, ids)])
  {
    FilterJoined(spec, ids, groups, links);
    var free := spec.(preds := []);
    assert Blind(free);
    FilterJoined(free, ids, Filter(groups, spec.preds), links);
    assert free.preds + [In(OUT, ids)] == [In(OUT, ids)];
    FilterNothing(Filter(groups, spec.preds));
  }

  lemma {:induction false} FilterNothing(rows: seq<Row>)
    ensures Filter(rows, []) == rows
  {
    if rows != [] {
      FilterNothing(rows[1..]);
      assert rows == [rows[0]] + rows[1..];
    }
  }

  /** The first run reads what the eager load fetches for its groups edge. */
  lemma {:induction false} FirstRunIsFetch(kinds: map<string, Kind>, groups: seq<Row>, links: seq<Row>, spec: Spec,
                                           columns: seq<string>, ids: seq<int>)
    requires GroupScan(kinds, columns) && Blind(spec)
    ensures RunGroups(kinds, groups, links, spec, columns, [ids])
         == Stitched(Select(Joined(groups, links), Where(spec, In(OUT, ids))))
  {
    var start := Selector(columns, Filter(groups, spec.preds));
    OnePredicate(start, links, ids);
    FilterGroupsFirst(groups, links, spec, ids);
    SecondHolder(kinds, columns, start, links, [ids]);
    var s := Selected(groups, links, spec, columns, [ids]);
    ReadWhole(Holders(kinds, s.columns), s.rows);
  }

  // ----- every later run -----------------------------------------------------------------------------------------

  /** A later run of a groups edge stitches nothing: it panics if its joined result has a row, and else finds none. */
  lemma {:induction false} LaterRun(kinds: map<string, Kind>, groups: seq<Row>, links: seq<Row>, spec: Spec,
                                    columns: seq<string>, runs: seq<seq<int>>)
    requires GroupScan(kinds, columns) && |runs| > 1
    ensures RunGroups(kinds, groups, links, spec, columns, runs)
         == if Selected(groups, links, spec, columns, runs).rows == [] then Stitched([]) else Panicked
  {
    var s := Selected(groups, links, spec, columns, runs);
    SecondHolder(kinds, columns, Selector(columns, Filter(groups, spec.preds)), links, runs);
    ReadWhole(Holders(kinds, s.columns), s.rows);
  }

  predicate LinkedToOne(links: seq<Row>, ids: seq<int>, group: int) {
    exists i | 0 <= i < |ids| :: Linked(links, ids[i], group)
  }

  lemma {:induction false} JoinedOut(groups: seq<Row>, links: seq<Row>)
    ensures forall row | row in Joined(groups, links) :: RefOf(row, OUT) == Some(IntOf(row, OUT))
  {
    if groups != [] {
      JoinedOut(groups[1..], links);
      LinksHaveOut(groups[0], links);
    }
  }

  lemma {:induction false} LinksHaveOut(group: Row, links: seq<Row>)
    ensures forall row | row in Links(group, links) :: RefOf(row, OUT) == Some(IntOf(row, OUT))
  {
    if links != [] {
      LinksHaveOut(group, links[1..]);
    }
  }

  /** The groups that one predicate leaves. */
  lemma {:induction false} PredicateIds(s: Selector, links: seq<Row>, ids: seq<int>, group: int)
    ensures group in Ids(Predicate(s, links, ids).rows) <==> group in Ids(s.rows) && LinkedToOne(links, ids, group)
  {
    var joined, ps := Joined(s.rows, links), [In(OUT, ids)];
    var left := Filter(joined, ps);
    JoinedOut(s.rows, links);
    if group in Ids(left) {
      var k :| 0 <= k < |left| && Ids(left)[k] == group;
      InFilter(joined, ps, left[k]);
      assert Holds(ps[0], left[k]);
      var i :| 0 <= i < |ids| && ids[i] == IntOf(left[k], OUT);
      var j :| 0 <= j < |joined| && joined[j] == left[k];
      assert IntOf(joined[j], OUT) == ids[i] && IntOf(joined[j], ID) == group;
      PairedJoined(s.rows, links, ids[i], group);
    }
    if group in Ids(s.rows) && LinkedToOne(links, ids, group) {
      var i :| 0 <= i < |ids| && Linked(links, ids[i], group);
      PairedJoined(s.rows, links, ids[i], group);
      var j :| 0 <= j < |joined| && IntOf(joined[j], OUT) == ids[i] && IntOf(joined[j], ID) == group;
      assert joined[j] in joined;
      assert Matches(ps, joined[j]);
      InFilter(joined, ps, joined[j]);
      var k :| 0 <= k < |left| && left[k] == joined[j];
      assert Ids(left)[k] == group;
    }
  }

  predicate LinkedToAll(links: seq<Row>, runs: seq<seq<int>>, group: int) {
    forall r | 0 <= r < |runs| :: LinkedToOne(links, runs[r], group)
  }

  /** The groups that the predicates of several runs leave: those linked to an account of every run. */
  lemma {:induction false} PredicatesIds(s: Selector, links: seq<Row>, runs: seq<seq<int>>, group: int)
    ensures group in Ids(Predicates(s, links, runs).rows) <==> group in Ids(s.rows) && LinkedToAll(links, runs, group)
  {
    if runs != [] {
      var n := |runs| - 1;
      PredicatesIds(s, links, runs[..n], group);
      PredicateIds(Predicates(s, links, runs[..n]), links, runs[n], group);
      assert LinkedToAll(links, runs, group)
        <==> LinkedToAll(links, runs[..n], group) && LinkedToOne(links, runs[n], group);
    }
  }

  lemma {:induction false} SortSize(rows: seq<Row>, rank: Row -> int)
    ensures |Sort(rows, rank)| == |rows|
  {
    if rows != [] {
      SortSize(rows[1..], rank);
      InsertSize(rows[0], Sort(rows[1..], rank), rank);
    }
  }

  lemma {:induction false} InsertSize(row: Row, sorted: seq<Row>, rank: Row -> int)
    ensures |Insert(row, sorted, rank)| == |sorted| + 1
  {
    if sorted != [] && rank(row) > rank(sorted[0]) {
      InsertSize(row, sorted[1..], rank);
    }
  }

  /** Some group of the sub-query is linked to an account of every run. */
  ghost predicate Shared(groups: seq<Row>, links: seq<Row>, spec: Spec, runs: seq<seq<int>>) {
    exists row | row in groups :: Matches(spec.preds, row) && LinkedToAll(links, runs, IntOf(row, ID))
  }

  lemma {:induction false} SharedExactly(groups: seq<Row>, links: seq<Row>, spec: Spec, columns: seq<string>,
                                         runs: seq<seq<int>>)
    ensures Predicates(Selector(columns, Filter(groups, spec.preds)), links, runs).rows != []
            <==> Shared(groups, links, spec, runs)
  {
    var start := Selector(columns, Filter(groups, spec.preds));
    var left := Predicates(start, links, runs).rows;
    if left != [] {
      var group := IntOf(left[0], ID);
      assert Ids(left)[0] == group;
      PredicatesIds(start, links, runs, group);
      var k :| 0 <= k < |start.rows| && Ids(start.rows)[k] == group;
      InFilter(groups, spec.preds, start.rows[k]);
    }
    if Shared(groups, links, spec, runs) {
      var row :| row in groups && Matches(spec.preds, row) && LinkedToAll(links, runs, IntOf(row, ID));
      InFilter(groups, spec.preds, row);
      var k :| 0 <= k < |start.rows| && start.rows[k] == row;
      assert Ids(start.rows)[k] == IntOf(row, ID);
      PredicatesIds(start, links, runs, IntOf(row, ID));
    }
  }

  /**
   Running a groups edge again, on any state of the database: the run panics if and only if some group of
   the sub-query is linked to an account of this batch and of every batch before; otherwise no account
   gets a group.  An offset lets it pass if it skips all joined rows.
   */
  lemma {:induction false} LaterRunExactly(kinds: map<string, Kind>, groups: seq<Row>, links: seq<Row>, spec: Spec,
                                           columns: seq<string>, runs: seq<seq<int>>)
    requires GroupScan(kinds, columns) && |runs| > 1
    ensures var read := RunGroups(kinds, groups, links, spec, columns, runs);
            var matches := Predicates(Selector(columns, Filter(groups, spec.preds)), links, runs).rows;
            && (read == Panicked <==> spec.offset < |matches|)
            && (read != Panicked ==> read == Stitched([]))
            && (spec.offset == 0 ==> (read == Panicked <==> Shared(groups, links, spec, runs)))
  {
    LaterRun(kinds, groups, links, spec, columns, runs);
    SharedExactly(groups, links, spec, columns, runs);
    SortSize(Predicates(Selector(columns, Filter(groups, spec.preds)), links, runs).rows, spec.rank);
  }

  lemma {:induction false} LinkedAgain(links: seq<Row>, ids: seq<int>, group: int)
    ensures LinkedToAll(links, [ids, ids], group) <==> LinkedToAll(links, [ids], group)
  {
    assert [ids, ids][0] == ids && [ids, ids][1] == ids && [ids][0] == ids;
    assert LinkedToAll(links, [ids], group) <==> LinkedToOne(links, ids, group);
    assert LinkedToAll(links, [ids, ids], group) <==> LinkedToOne(links, ids, group);
  }

  /**
   On an unchanged database, without an offset, a second run of a groups edge does what the first did if
   and only if the first run found no group at all; and it panics otherwise.
   */
  lemma {:induction false} GroupsAgainExactly(kinds: map<string, Kind>, groups: seq<Row>, links: seq<Row>, spec: Spec,
                                              columns: seq<string>, ids: seq<int>)
    requires GroupScan(kinds, columns) && Blind(spec) && spec.offset == 0
    ensures var first := Select(Joined(groups, links), Where(spec, In(OUT, ids)));
            RunGroups(kinds, groups, links, spec, columns, [ids, ids]) == if first == [] then Stitched(first)
              else Panicked
  {
    var start := Selector(columns, Filter(groups, spec.preds));
    LaterRunExactly(kinds, groups, links, spec, columns, [ids, ids]);
    FirstRunIsFetch(kinds, groups, links, spec, columns, ids);
    SharedExactly(groups, links, spec, columns, [ids]);
    SortSize(Predicates(start, links, [ids]).rows, spec.rank);
    ReadWhole(Holders(kinds, Selected(groups, links, spec, columns, [ids]).columns),
      Selected(groups, links, spec, columns, [ids]).rows);
    forall group ensures LinkedToAll(links, [ids, ids], group) <==> LinkedToAll(links, [ids], group) {
      LinkedAgain(links, ids, group);
    }
  }

  /** One account in one group: the second run panics. */
  lemma {:induction false} SecondRunPanics(kinds: map<string, Kind>, columns: seq<string>)
    requires GroupScan(kinds, columns)
    ensures RunGroups(kinds, [GroupRow(10)], [LinkRow(1, 10)], Spec([], [], row => 0, 0, 0, []), columns, [[1], [1]])
            == Panicked
  {
    var groups, links, spec := [GroupRow(10)], [LinkRow(1, 10)], Spec([], [], row => 0, 0, 0, []);
    LaterRunExactly(kinds, groups, links, spec, columns, [[1], [1]]);
    assert LinkOf(links[0], 1, 10);
    assert Linked(links, 1, 10);
    assert [1][0] == 1 && LinkedToOne(links, [1], 10);
    assert LinkedToAll(links, [[1], [1]], 10);
    assert groups[0] in groups && IntOf(groups[0], ID) == 10 && Matches(spec.preds, groups[0]);
    assert Shared(groups, links, spec, [[1], [1]]);
  }

  /**
   The groups edge of a query that has loaded a batch: run again on the same database, it panics if and
   only if the batch has any group.
   */
  lemma {:induction false} GroupsEdgeAgain(kinds: map<string, Kind>, db: Database, q: AccountQ, rows: seq<Row>,
                                           ns: Neighbours)
    requires LoadNeighbours(db, q, rows) == Ok(ns) && q.groups.Some? && Blind(q.groups.value)
    requires q.groups.value.offset == 0
    requires GroupScan(kinds, LeafColumns(db, Groups, q.groups, None))
    ensures var columns, ids := LeafColumns(db, Groups, q.groups, None), Ids(rows);
            RunGroups(kinds, db.groups, db.accountGroups, q.groups.value, columns, [ids, ids])
            == if ns.groups == [] then Stitched([]) else Panicked
  {
    NeighboursAre(db, q, rows, ns);
    GroupsAgainExactly(kinds, db.groups, db.accountGroups, q.groups.value, LeafColumns(db, Groups, q.groups, None),
      Ids(rows));
  }
}
