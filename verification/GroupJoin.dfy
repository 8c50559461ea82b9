/** The joined query of loadGroups against a nested loop over groups and links. */
module GroupJoin {
  import opened Options
  import opened Rows
  import opened EagerSpec
  import opened EagerLoad
  import opened EagerGroups
  import opened EagerPages

  /** The sub-query's predicates and order look at the group only, not at the join table. */
  ghost predicate Blind(spec: Spec) {
    forall row: Row, v: int ::
      && (Matches(spec.preds, row[OUT := Int(v)]) <==> Matches(spec.preds, row))
      && spec.rank(row[OUT := Int(v)]) == spec.rank(row)
  }

  predicate LinkOf(link: Row, account: int, group: int) {
    RefOf(link, GROUP_ID) == Some(group) && RefOf(link, ACCOUNT_ID) == Some(account)
  }

  predicate Linked(links: seq<Row>, account: int, group: int) {
    exists k | 0 <= k < |links| :: LinkOf(links[k], account, group)
  }

  /** The nested loop: each group in turn, kept if some link connects it to the account. */
  function NestedGroups(groups: seq<Row>, links: seq<Row>, account: int): seq<Row> {
    if groups == [] then []
    else (if Linked(links, account, IntOf(groups[0], ID)) then [groups[0]] else [])
         + NestedGroups(groups[1..], links, account)
  }

  // ----- the filter of the joined query moves to its tables ------------------------------------------------

  /** The links of the accounts of one batch. */
  function Kept(links: seq<Row>, ids: seq<int>): seq<Row> {
    if links == [] then []
    else if RefOf(links[0], ACCOUNT_ID).Some?
      && RefOf(links[0], ACCOUNT_ID).value in ids then [links[0]] + Kept(links[1..], ids)
    else Kept(links[1..], ids)
  }

  lemma {:induction false} FilterConcat(a: seq<Row>, b: seq<Row>, ps: seq<Pred>)
    ensures Filter(a + b, ps) == Filter(a, ps) + Filter(b, ps)
  {
    if a == [] {
      assert a + b == b;
    } else {
      assert (a + b)[1..] == a[1..] + b;
      FilterConcat(a[1..], b, ps);
    }
  }

  lemma {:induction false} LinkMatches(spec: Spec, ids: seq<int>, group: Row, account: int)
    requires Blind(spec)
    ensures Matches(spec.preds + [In(OUT, ids)], group[OUT := Int(account)])
            <==> Matches(spec.preds, group) && account in ids
  {
    var row := group[OUT := Int(account)];
    MatchesConcat(spec.preds, [In(OUT, ids)], row);
    assert Holds(In(OUT, ids), row) <==> account in ids;
    assert Matches([In(OUT, ids)], row) <==> Holds([In(OUT, ids)][0], row);
  }

  lemma {:induction false} FilterLinks(spec: Spec, ids: seq<int>, group: Row, links: seq<Row>)
    requires Blind(spec)
    ensures Filter(Links(group, links), spec.preds + [In(OUT, ids)])
         == if Matches(spec.preds, group) then Links(group, Kept(links, ids)) else []
  {
    if links != [] {
      FilterLinks(spec, ids, group, links[1..]);
      if RefOf(links[0], GROUP_ID) == Some(IntOf(group, ID)) && RefOf(links[0], ACCOUNT_ID).Some? {
        var row, rest := group[OUT := Int(IntOf(links[0], ACCOUNT_ID))], Links(group, links[1..]);
        LinkMatches(spec, ids, group, IntOf(links[0], ACCOUNT_ID));
        assert ([row] + rest)[1..] == rest;
        KeptStep(links, ids, group);
      } else {
        KeptStep(links, ids, group);
      }
    }
  }

  lemma {:induction false} KeptStep(links: seq<Row>, ids: seq<int>, group: Row)
    requires links != []
    ensures var link := links[0];
            Links(group, Kept(links, ids))
            == (if LinkOf(link, IntOf(link, ACCOUNT_ID), IntOf(group, ID)) && IntOf(link, ACCOUNT_ID) in ids
                then [group[OUT := Int(IntOf(link, ACCOUNT_ID))]] else [])
               + Links(group, Kept(links[1..], ids))
  {
    var rest := Kept(links[1..], ids);
    assert ([links[0]] + rest)[1..] == rest;
  }

  lemma {:induction false} FilterJoined(spec: Spec, ids: seq<int>, groups: seq<Row>, links: seq<Row>)
    requires Blind(spec)
    ensures Filter(Joined(groups, links), spec.preds + [In(OUT, ids)])
            == Joined(Filter(groups, spec.preds), Kept(links, ids))
  {
    if groups != [] {
      FilterJoined(spec, ids, groups[1..], links);
      FilterLinks(spec, ids, groups[0], links);
      FilterConcat(Links(groups[0], links), Joined(groups[1..], links), spec.preds + [In(OUT, ids)]);
      if Matches(spec.preds, groups[0]) {
        var rest := Filter(groups[1..], spec.preds);
        assert ([groups[0]] + rest)[1..] == rest;
      }
    }
  }

  // ----- so does its order ----------------------------------------------------------------------------------

  function InsertAll(block: seq<Row>, sorted: seq<Row>, rank: Row -> int): seq<Row> {
    if block == [] then sorted else Insert(block[0], InsertAll(block[1..], sorted, rank), rank)
  }

  lemma {:induction false} SortConcat(block: seq<Row>, rest: seq<Row>, rank: Row -> int)
    ensures Sort(block + rest, rank) == InsertAll(block, Sort(rest, rank), rank)
  {
    if block == [] {
      assert block + rest == rest;
    } else {
      assert (block + rest)[1..] == block[1..] + rest;
      SortConcat(block[1..], rest, rank);
    }
  }

  predicate RankedAtLeast(rows: seq<Row>, rank: Row -> int, r: int) {
    forall k | 0 <= k < |rows| :: r <= rank(rows[k])
  }

  predicate RankedBelow(rows: seq<Row>, rank: Row -> int, r: int) {
    forall k | 0 <= k < |rows| :: rank(rows[k]) < r
  }

  predicate RankedAt(rows: seq<Row>, rank: Row -> int, r: int) {
    forall k | 0 <= k < |rows| :: rank(rows[k]) == r
  }

  lemma {:induction false} InsertAllFirst(block: seq<Row>, rows: seq<Row>, rank: Row -> int, r: int)
    requires RankedAt(block, rank, r) && RankedAtLeast(rows, rank, r)
    ensures InsertAll(block, rows, rank) == block + rows
  {
    if block == [] {
      assert block + rows == rows;
    } else {
      InsertAllFirst(block[1..], rows, rank, r);
      assert block + rows == [block[0]] + (block[1..] + rows);
      InsertFirst(block[0], block[1..] + rows, rank);
    }
  }

  lemma {:induction false} InsertPast(row: Row, low: seq<Row>, rows: seq<Row>, rank: Row -> int)
    requires RankedBelow(low, rank, rank(row))
    ensures Insert(row, low + rows, rank) == low + Insert(row, rows, rank)
  {
    if low == [] {
      assert low + rows == rows;
    } else {
      assert (low + rows)[1..] == low[1..] + rows;
      InsertPast(row, low[1..], rows, rank);
    }
  }

  lemma {:induction false} InsertAllPast(block: seq<Row>, low: seq<Row>, rows: seq<Row>, rank: Row -> int, r: int)
    requires RankedAt(block, rank, r) && RankedBelow(low, rank, r)
    ensures InsertAll(block, low + rows, rank) == low + InsertAll(block, rows, rank)
  {
    if block != [] {
      InsertAllPast(block[1..], low, rows, rank, r);
      InsertPast(block[0], low, InsertAll(block[1..], rows, rank), rank);
    }
  }

  lemma {:induction false} LinksRank(spec: Spec, group: Row, links: seq<Row>)
    requires Blind(spec)
    ensures RankedAt(Links(group, links), spec.rank, spec.rank(group))
  {
    if links != [] {
      LinksRank(spec, group, links[1..]);
    }
  }

  lemma {:induction false} JoinedRank(spec: Spec, groups: seq<Row>, links: seq<Row>, r: int)
    requires Blind(spec) && RankedAtLeast(groups, spec.rank, r)
    ensures RankedAtLeast(Joined(groups, links), spec.rank, r)
  {
    if groups != [] {
      LinksRank(spec, groups[0], links);
      JoinedRank(spec, groups[1..], links, r);
    }
  }

  lemma {:induction false} InsertJoined(spec: Spec, group: Row, sorted: seq<Row>, links: seq<Row>)
    requires Blind(spec) && Sorted(sorted, spec.rank)
    ensures Joined(Insert(group, sorted, spec.rank), links)
         == InsertAll(Links(group, links), Joined(sorted, links), spec.rank)
  {
    var rank, block := spec.rank, Links(group, links);
    LinksRank(spec, group, links);
    if sorted == [] || rank(group) <= rank(sorted[0]) {
      assert ([group] + sorted)[1..] == sorted;
      JoinedRank(spec, sorted, links, rank(group));
      InsertAllFirst(block, Joined(sorted, links), rank, rank(group));
    } else {
      var rest := Insert(group, sorted[1..], rank);
      assert ([sorted[0]] + rest)[1..] == rest;
      LinksRank(spec, sorted[0], links);
      InsertAllPast(block, Links(sorted[0], links), Joined(sorted[1..], links), rank, rank(group));
      InsertJoined(spec, group, sorted[1..], links);
    }
  }

  lemma {:induction false} SortJoined(spec: Spec, groups: seq<Row>, links: seq<Row>)
    requires Blind(spec)
    ensures Sort(Joined(groups, links), spec.rank) == Joined(Sort(groups, spec.rank), links)
  {
    if groups != [] {
      SortJoined(spec, groups[1..], links);
      SortConcat(Links(groups[0], links), Joined(groups[1..], links), spec.rank);
      SortSorted(groups[1..], spec.rank);
      InsertJoined(spec, groups[0], Sort(groups[1..], spec.rank), links);
    }
  }

  // ----- one node for each group that has a link -------------------------------------------------------------

  /** The first joined row of each group. */
  function Heads(groups: seq<Row>, links: seq<Row>): seq<Row> {
    if groups == [] then []
    else (if Links(groups[0], links) == [] then [] else [Links(groups[0], links)[0]]) + Heads(groups[1..], links)
  }

  /** One more row: a node of its own unless its group was met before. */
  lemma {:induction false} FirstRowsSnoc(rows: seq<Row>, row: Row)
    ensures FirstRows(rows + [row]) == if IntOf(row, ID) in Ids(rows) then FirstRows(rows) else FirstRows(rows) + [row]
  {
    assert (rows + [row])[..|rows|] == rows;
    FirstRowsIds(rows, IntOf(row, ID));
  }

  lemma {:induction false} IdsConcat(a: seq<Row>, b: seq<Row>)
    ensures Ids(a + b) == Ids(a) + Ids(b)
  {
  }

  lemma {:induction false} FirstRowsConcat(a: seq<Row>, b: seq<Row>)
    requires forall id | id in Ids(b) :: id !in Ids(a)
    ensures FirstRows(a + b) == FirstRows(a) + FirstRows(b)
  {
    if b == [] {
      assert a + b == a;
    } else {
      var n := |b| - 1;
      var init, row := b[..n], b[n];
      assert b == init + [row] && a + b == (a + init) + [row];
      IdsConcat(init, [row]);
      IdsConcat(a, init);
      assert IntOf(row, ID) in Ids([row]);
      FirstRowsConcat(a, init);
      FirstRowsSnoc(init, row);
      FirstRowsSnoc(a + init, row);
    }
  }

  lemma {:induction false} FirstRowsSame(rows: seq<Row>, id: int)
    requires forall k | 0 <= k < |rows| :: IntOf(rows[k], ID) == id
    ensures FirstRows(rows) == if rows == [] then [] else [rows[0]]
  {
    if rows != [] {
      FirstRowsSame(rows[..|rows| - 1], id);
      assert Ids([rows[0]]) == [id];
    }
  }

  lemma {:induction false} LinksIds(group: Row, links: seq<Row>)
    ensures forall row | row in Links(group, links) :: IntOf(row, ID) == IntOf(group, ID)
  {
    if links != [] {
      LinksIds(group, links[1..]);
    }
  }

  lemma {:induction false} JoinedIds(groups: seq<Row>, links: seq<Row>)
    ensures forall row | row in Joined(groups, links) :: IntOf(row, ID) in Ids(groups)
  {
    if groups != [] {
      LinksIds(groups[0], links);
      JoinedIds(groups[1..], links);
      assert Ids(groups) == [IntOf(groups[0], ID)] + Ids(groups[1..]);
    }
  }

  lemma {:induction false} FirstRowsJoined(groups: seq<Row>, links: seq<Row>)
    requires DistinctRows(groups)
    ensures FirstRows(Joined(groups, links)) == Heads(groups, links)
  {
    if groups != [] {
      var block, rest := Links(groups[0], links), Joined(groups[1..], links);
      LinksIds(groups[0], links);
      FirstRowsSame(block, IntOf(groups[0], ID));
      JoinedIds(groups[1..], links);
      forall id | id in Ids(rest) ensures id !in Ids(block) {
        var k :| 0 <= k < |rest| && Ids(rest)[k] == id;
        assert rest[k] in rest;
        var j :| 0 <= j < |groups[1..]| && Ids(groups[1..])[j] == id;
        assert groups[1..][j] == groups[j + 1];
        forall i | 0 <= i < |block| ensures Ids(block)[i] != id {
          assert block[i] in block;
        }
      }
      FirstRowsConcat(block, rest);
      FirstRowsJoined(groups[1..], links);
    }
  }

  lemma {:induction false} GroupsInConcat(a: seq<Row>, b: seq<Row>, joined: seq<Row>, account: int)
    ensures GroupsIn(a + b, joined, account) == GroupsIn(a, joined, account) + GroupsIn(b, joined, account)
  {
    if b == [] {
      assert a + b == a;
    } else {
      var n := |b| - 1;
      assert (a + b)[..|a| + n] == a + b[..n];
      GroupsInConcat(a, b[..n], joined, account);
    }
  }

  /** A group's joined rows pair it with the accounts it is linked to. */
  lemma {:induction false} LinksPaired(group: Row, links: seq<Row>, account: int)
    ensures Linked(links, account, IntOf(group, ID))
            <==> exists row | row in Links(group, links) :: IntOf(row, OUT) == account
  {
    if links != [] {
      LinksPaired(group, links[1..], account);
      LinkedStep(links, account, IntOf(group, ID));
      var rest := Links(group, links[1..]);
      if LinkOf(links[0], account, IntOf(group, ID)) {
        var row := group[OUT := Int(account)];
        assert row in Links(group, links) && IntOf(row, OUT) == account;
      } else if exists row | row in rest :: IntOf(row, OUT) == account {
        var row :| row in rest && IntOf(row, OUT) == account;
        assert row in Links(group, links);
      }
    }
  }

  lemma {:induction false} LinkedStep(links: seq<Row>, account: int, group: int)
    requires links != []
    ensures Linked(links, account, group) <==> LinkOf(links[0], account, group) || Linked(links[1..], account, group)
  {
    if Linked(links[1..], account, group) {
      var k :| 0 <= k < |links[1..]| && LinkOf(links[1..][k], account, group);
      assert LinkOf(links[k + 1], account, group);
    }
    if Linked(links, account, group) {
      var k :| 0 <= k < |links| && LinkOf(links[k], account, group);
      if k > 0 {
        assert LinkOf(links[1..][k - 1], account, group);
      }
    }
  }

  lemma {:induction false} PairedConcat(a: seq<Row>, b: seq<Row>, account: int, group: int)
    ensures Paired(a + b, account, group) <==> Paired(a, account, group) || Paired(b, account, group)
  {
    if Paired(a, account, group) {
      var k :| 0 <= k < |a| && IntOf(a[k], OUT) == account && IntOf(a[k], ID) == group;
      assert (a + b)[k] == a[k];
    }
    if Paired(b, account, group) {
      var k :| 0 <= k < |b| && IntOf(b[k], OUT) == account && IntOf(b[k], ID) == group;
      assert (a + b)[|a| + k] == b[k];
    }
    if Paired(a + b, account, group) {
      var k :| 0 <= k < |a + b| && IntOf((a + b)[k], OUT) == account && IntOf((a + b)[k], ID) == group;
      if k >= |a| {
        assert b[k - |a|] == (a + b)[k];
      }
    }
  }

  lemma {:induction false} PairedLinks(group: Row, links: seq<Row>, account: int, id: int)
    ensures Paired(Links(group, links), account, id) <==> id == IntOf(group, ID) && Linked(links, account, id)
  {
    var rows := Links(group, links);
    LinksIds(group, links);
    LinksPaired(group, links, account);
    if id == IntOf(group, ID) && Linked(links, account, id) {
      var row :| row in rows && IntOf(row, OUT) == account;
      var k :| 0 <= k < |rows| && rows[k] == row;
      assert IntOf(rows[k], OUT) == account && IntOf(rows[k], ID) == id;
    }
    if Paired(rows, account, id) {
      var k :| 0 <= k < |rows| && IntOf(rows[k], OUT) == account && IntOf(rows[k], ID) == id;
      assert rows[k] in rows;
    }
  }

  lemma {:induction false} PairedJoined(groups: seq<Row>, links: seq<Row>, account: int, id: int)
    ensures Paired(Joined(groups, links), account, id) <==> id in Ids(groups) && Linked(links, account, id)
  {
    if groups != [] {
      PairedJoined(groups[1..], links, account, id);
      PairedLinks(groups[0], links, account, id);
      PairedConcat(Links(groups[0], links), Joined(groups[1..], links), account, id);
      assert Ids(groups) == [IntOf(groups[0], ID)] + Ids(groups[1..]);
    }
  }

  lemma {:induction false} ProjectHead(group: Row, links: seq<Row>, columns: seq<string>)
    requires OUT !in columns
    ensures forall row | row in Links(group, links) :: Project(row, columns) == Project(group, columns)
  {
    if links != [] {
      ProjectHead(group, links[1..], columns);
    }
  }

  lemma {:induction false} HeadsNested(groups: seq<Row>, links: seq<Row>, joined: seq<Row>, account: int,
                                       columns: seq<string>)
    requires OUT !in columns
    requires forall k | 0 <= k < |groups| ::
               Paired(joined, account, IntOf(groups[k], ID)) <==> Linked(links, account, IntOf(groups[k], ID))
    ensures ProjectAll(GroupsIn(Heads(groups, links), joined, account), columns)
         == ProjectAll(NestedGroups(groups, links, account), columns)
  {
    if groups != [] {
      var block, rest := Links(groups[0], links), Heads(groups[1..], links);
      var head := if block == [] then [] else [block[0]];
      assert Paired(joined, account, IntOf(groups[0], ID)) <==> Linked(links, account, IntOf(groups[0], ID));
      HeadsNested(groups[1..], links, joined, account, columns);
      GroupsInConcat(head, rest, joined, account);
      LinksIds(groups[0], links);
      LinksPaired(groups[0], links, account);
      ProjectHead(groups[0], links, columns);
      HeadGroup(groups[0], links, joined, account, columns);
      var one := if Linked(links, account, IntOf(groups[0], ID)) then [groups[0]] else [];
      ProjectConcat(GroupsIn(head, joined, account), GroupsIn(rest, joined, account), columns);
      ProjectConcat(one, NestedGroups(groups[1..], links, account), columns);
    }
  }

  lemma {:induction false} ProjectConcat(a: seq<Row>, b: seq<Row>, columns: seq<string>)
    ensures ProjectAll(a + b, columns) == ProjectAll(a, columns) + ProjectAll(b, columns)
  {
  }

  lemma {:induction false} HeadGroup(group: Row, links: seq<Row>, joined: seq<Row>, account: int, columns: seq<string>)
    requires OUT !in columns
    requires Paired(joined, account, IntOf(group, ID)) <==> Linked(links, account, IntOf(group, ID))
    ensures var block := Links(group, links);
            ProjectAll(GroupsIn(if block == [] then [] else [block[0]], joined, account), columns)
            == ProjectAll(if Linked(links, account, IntOf(group, ID)) then [group] else [], columns)
  {
    var block := Links(group, links);
    LinksIds(group, links);
    LinksPaired(group, links, account);
    ProjectHead(group, links, columns);
    if block != [] {
      assert block[0] in block;
      assert GroupsIn([], joined, account) == [] && [block[0]][..0] == [];
      assert GroupsIn([block[0]], joined, account) == if Paired(joined, account, IntOf(group, ID)) then [block[0]]
        else [];
    }
  }

  // ----- the join ----------------------------------------------------------------------------------------------

  lemma {:induction false} LinkedKept(links: seq<Row>, ids: seq<int>, account: int, group: int)
    requires account in ids
    ensures Linked(Kept(links, ids), account, group) <==> Linked(links, account, group)
  {
    if links != [] {
      var rest := Kept(links[1..], ids);
      LinkedKept(links[1..], ids, account, group);
      LinkedStep(links, account, group);
      if Kept(links, ids) != rest {
        assert ([links[0]] + rest)[1..] == rest;
        LinkedStep([links[0]] + rest, account, group);
      }
    }
  }

  lemma {:induction false} NestedKept(groups: seq<Row>, links: seq<Row>, ids: seq<int>, account: int)
    requires account in ids
    ensures NestedGroups(groups, Kept(links, ids), account) == NestedGroups(groups, links, account)
  {
    if groups != [] {
      NestedKept(groups[1..], links, ids, account);
      LinkedKept(links, ids, account, IntOf(groups[0], ID));
    }
  }

  /** With distinct groups, the nodes and pairs of the join are those of the nested loop. */
  lemma {:induction false} GroupsOfJoined(groups: seq<Row>, links: seq<Row>, account: int, columns: seq<string>)
    requires DistinctRows(groups) && OUT !in columns
    ensures ProjectAll(GroupsFor(Joined(groups, links), account), columns)
         == ProjectAll(NestedGroups(groups, links, account), columns)
  {
    var joined := Joined(groups, links);
    FirstRowsJoined(groups, links);
    forall k | 0 <= k < |groups|
      ensures Paired(joined, account, IntOf(groups[k], ID)) <==> Linked(links, account, IntOf(groups[k], ID))
    {
      PairedJoined(groups, links, account, IntOf(groups[k], ID));
      assert Ids(groups)[k] == IntOf(groups[k], ID);
    }
    HeadsNested(groups, links, joined, account, columns);
  }

  // ----- the joined query --------------------------------------------------------------------------------

  lemma {:induction false} SelectAll(rows: seq<Row>, spec: Spec)
    requires spec.offset == 0 && spec.limit == 0
    ensures Select(rows, spec) == Sort(Filter(rows, spec.preds), spec.rank)
  {
    var all := Sort(Filter(rows, spec.preds), spec.rank);
    assert all[0..] == all;
  }

  /**
   loadGroups gives an account the groups of the nested loop: those of the sub-query, in its order,
   that a link connects to the account; whatever other accounts are in the batch.
   */
  lemma {:induction false} GroupsNested(groups: seq<Row>, links: seq<Row>, spec: Spec, ids: seq<int>, account: int,
                                        columns: seq<string>)
    requires DistinctRows(groups) && Blind(spec) && spec.offset == 0 && spec.limit == 0
    requires account in ids && OUT !in columns
    ensures ProjectAll(GroupsFor(Select(Joined(groups, links), Where(spec, In(OUT, ids))), account), columns)
         == ProjectAll(NestedGroups(Select(groups, spec), links, account), columns)
  {
    SelectAll(Joined(groups, links), Where(spec, In(OUT, ids)));
    SelectAll(groups, spec);
    FilterJoined(spec, ids, groups, links);
    SortJoined(spec, Filter(groups, spec.preds), Kept(links, ids));
    SelectDistinct(groups, spec);
    GroupsOfJoined(Select(groups, spec), Kept(links, ids), account, columns);
    NestedKept(Select(groups, spec), links, ids, account);
  }
}
