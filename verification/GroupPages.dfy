/** loadGroups with an offset or a limit: the joined rows come group by group, and a page is a slice of them. */
module GroupPages {
  import opened Options
  import opened Rows
  import opened EagerSpec
  import opened EagerLoad
  import opened EagerGroups
  import opened EagerPages
  import opened GroupJoin

  /** account_groups has the key (account_id, group_id). */
  predicate DistinctLinks(links: seq<Row>) {
    forall i, j | 0 <= i < j < |links| ::
      RefOf(links[i], GROUP_ID) != RefOf(links[j], GROUP_ID)
        || RefOf(links[i], ACCOUNT_ID) != RefOf(links[j], ACCOUNT_ID)
  }

  // ----- rows that come group by group ----------------------------------------------------------------------------

  /** Every row is of the group of the row before it or of a group not met before. */
  predicate GroupMajor(rows: seq<Row>) {
    forall k | 0 < k < |rows| :: IntOf(rows[k], ID) == IntOf(rows[k - 1], ID) || NewGroup(rows, k)
  }

  predicate NewGroup(rows: seq<Row>, k: nat)
    requires k < |rows|
  {
    forall i | 0 <= i < k :: IntOf(rows[i], ID) != IntOf(rows[k], ID)
  }

  /** No account is paired with a group twice. */
  predicate PairedOnce(rows: seq<Row>) {
    forall i, j | 0 <= i < j < |rows| ::
      IntOf(rows[i], ID) != IntOf(rows[j], ID) || IntOf(rows[i], OUT) != IntOf(rows[j], OUT)
  }

  /** Every row names an account, and the rows of one group show the same columns. */
  predicate OneFace(rows: seq<Row>, columns: seq<string>) {
    && (forall i | 0 <= i < |rows| :: RefOf(rows[i], OUT).Some?)
    && forall i, j | 0 <= i < |rows| && 0 <= j < |rows| && IntOf(rows[i], ID) == IntOf(rows[j], ID) ::
         Project(rows[i], columns) == Project(rows[j], columns)
  }

  predicate Grouped(rows: seq<Row>, columns: seq<string>) {
    GroupMajor(rows) && PairedOnce(rows) && OneFace(rows, columns)
  }

  lemma {:induction false} GroupedSlice(rows: seq<Row>, columns: seq<string>, lo: nat, hi: nat)
    requires Grouped(rows, columns) && lo <= hi <= |rows|
    ensures Grouped(rows[lo..hi], columns)
  {
    var part := rows[lo..hi];
    forall k | 0 < k < |part| ensures IntOf(part[k], ID) == IntOf(part[k - 1], ID) || NewGroup(part, k) {
      assert part[k] == rows[lo + k] && part[k - 1] == rows[lo + k - 1];
      if NewGroup(rows, lo + k) {
        forall i | 0 <= i < k ensures IntOf(part[i], ID) != IntOf(part[k], ID) {
          assert part[i] == rows[lo + i];
        }
      }
    }
  }

  lemma {:induction false} GroupedPage(rows: seq<Row>, columns: seq<string>, offset: nat, limit: nat)
    requires Grouped(rows, columns)
    ensures Grouped(Page(rows, offset, limit), columns)
  {
    if offset <= |rows| {
      var hi := if limit == 0 || |rows| - offset <= limit then |rows| else offset + limit;
      assert Page(rows, offset, limit) == rows[offset..hi];
      GroupedSlice(rows, columns, offset, hi);
    }
  }

  /** The last group met is the group of the last row. */
  lemma {:induction false} LastGroup(rows: seq<Row>)
    requires GroupMajor(rows) && rows != []
    ensures var firsts := FirstRows(rows);
            firsts != [] && IntOf(firsts[|firsts| - 1], ID) == IntOf(rows[|rows| - 1], ID)
  {
    var n := |rows| - 1;
    var init := rows[..n];
    assert rows == init + [rows[n]];
    FirstRowsSnoc(init, rows[n]);
    if n > 0 && IntOf(rows[n], ID) == IntOf(rows[n - 1], ID) {
      assert Ids(init)[n - 1] == IntOf(rows[n], ID);
      assert GroupMajor(init) by {
        InitMajor(rows);
      }
      LastGroup(init);
    }
  }

  lemma {:induction false} InitMajor(rows: seq<Row>)
    requires GroupMajor(rows) && rows != []
    ensures GroupMajor(rows[..|rows| - 1])
  {
    var init := rows[..|rows| - 1];
    forall k | 0 < k < |init| ensures IntOf(init[k], ID) == IntOf(init[k - 1], ID) || NewGroup(init, k) {
      assert init[k] == rows[k] && init[k - 1] == rows[k - 1];
      if NewGroup(rows, k) {
        assert forall i | 0 <= i < k :: init[i] == rows[i];
      }
    }
  }

  lemma {:induction false} GroupsInSame(firsts: seq<Row>, a: seq<Row>, b: seq<Row>, account: int)
    requires forall row | row in firsts :: Paired(a, account, IntOf(row, ID)) <==> Paired(b, account, IntOf(row, ID))
    ensures GroupsIn(firsts, a, account) == GroupsIn(firsts, b, account)
  {
    if firsts != [] {
      var n := |firsts| - 1;
      assert forall row | row in firsts[..n] :: row in firsts;
      GroupsInSame(firsts[..n], a, b, account);
      assert firsts[n] in firsts;
    }
  }

  lemma {:induction false} FirstRowsIn(rows: seq<Row>)
    ensures forall row | row in FirstRows(rows) :: row in rows
  {
    if rows != [] {
      FirstRowsIn(rows[..|rows| - 1]);
      assert forall row | row in rows[..|rows| - 1] :: row in rows;
    }
  }

  lemma {:induction false} PairedOne(row: Row, account: int, group: int)
    ensures Paired([row], account, group) <==> IntOf(row, OUT) == account && IntOf(row, ID) == group
  {
    assert [row][0] == row;
  }

  /** A row of another account adds nothing to the account's groups. */
  lemma {:induction false} OtherRow(init: seq<Row>, row: Row, account: int)
    requires IntOf(row, OUT) != account
    ensures GroupsFor(init + [row], account) == GroupsFor(init, account)
  {
    var firsts, rows := FirstRows(init), init + [row];
    FirstRowsSnoc(init, row);
    forall g ensures Paired(rows, account, g) <==> Paired(init, account, g) {
      PairedConcat(init, [row], account, g);
      PairedOne(row, account, g);
    }
    GroupsInSame(firsts, rows, init, account);
    if IntOf(row, ID) !in Ids(init) {
      PairedId(init, account, IntOf(row, ID));
      assert (firsts + [row])[..|firsts|] == firsts;
    }
  }

  /** A row of the account adds its group at the end, shown by this row or by the first row of the group. */
  lemma {:induction false} OwnRow(init: seq<Row>, row: Row, account: int) returns (shown: Row)
    requires IntOf(row, OUT) == account && GroupMajor(init + [row]) && PairedOnce(init + [row])
    ensures GroupsFor(init + [row], account) == GroupsFor(init, account) + [shown]
    ensures shown in init + [row] && IntOf(shown, ID) == IntOf(row, ID)
  {
    var firsts, rows, id := FirstRows(init), init + [row], IntOf(row, ID);
    FirstRowsSnoc(init, row);
    NotYetPaired(init, row, account);
    forall g ensures Paired(rows, account, g) <==> Paired(init, account, g) || g == id {
      PairedConcat(init, [row], account, g);
      PairedOne(row, account, g);
    }
    if id !in Ids(init) {
      FirstRowsIn(init);
      forall r | r in firsts ensures IntOf(r, ID) != id {
        var k :| 0 <= k < |init| && init[k] == r;
        assert Ids(init)[k] == IntOf(r, ID);
      }
      GroupsInSame(firsts, rows, init, account);
      assert (firsts + [row])[..|firsts|] == firsts;
      shown := row;
    } else {
      shown := OldGroup(init, row, account);
    }
  }

  lemma {:induction false} NotYetPaired(init: seq<Row>, row: Row, account: int)
    requires IntOf(row, OUT) == account && PairedOnce(init + [row])
    ensures !Paired(init, account, IntOf(row, ID))
  {
    var rows := init + [row];
    assert rows[|init|] == row;
    forall k | 0 <= k < |init| ensures !(IntOf(init[k], OUT) == account && IntOf(init[k], ID) == IntOf(row, ID)) {
      assert rows[k] == init[k];
    }
  }

  /** The group of the row is the last one met. */
  lemma {:induction false} OldGroup(init: seq<Row>, row: Row, account: int) returns (shown: Row)
    requires GroupMajor(init + [row]) && IntOf(row, ID) in Ids(init) && !Paired(init, account, IntOf(row, ID))
    requires forall g :: Paired(init + [row], account, g) <==> Paired(init, account, g) || g == IntOf(row, ID)
    ensures FirstRows(init + [row]) == FirstRows(init)
    ensures GroupsFor(init + [row], account) == GroupsFor(init, account) + [shown]
    ensures shown in init && IntOf(shown, ID) == IntOf(row, ID)
  {
    var firsts, rows, n := FirstRows(init), init + [row], |init|;
    FirstRowsSnoc(init, row);
    assert rows[n] == row && rows[..n] == init;
    InitMajor(rows);
    var i :| 0 <= i < n && Ids(init)[i] == IntOf(row, ID);
    assert rows[i] == init[i] && !NewGroup(rows, n);
    assert rows[n - 1] == init[n - 1];
    LastGroup(init);
    var m := |firsts| - 1;
    shown := firsts[m];
    FirstRowsIn(init);
    FirstRowsDistinct(init);
    OthersDiffer(firsts);
    GroupsInSame(firsts[..m], rows, init, account);
  }

  lemma {:induction false} OthersDiffer(firsts: seq<Row>)
    requires firsts != [] && DistinctRows(firsts)
    ensures var m := |firsts| - 1; forall r | r in firsts[..m] :: IntOf(r, ID) != IntOf(firsts[m], ID)
  {
    var m := |firsts| - 1;
    forall r | r in firsts[..m] ensures IntOf(r, ID) != IntOf(firsts[m], ID) {
      var k :| 0 <= k < m && firsts[..m][k] == r;
      assert firsts[k] == r;
    }
  }

  /** For rows that come group by group, an account's groups are its own rows, in its own order. */
  lemma {:induction false} OwnRows(rows: seq<Row>, account: int, columns: seq<string>)
    requires Grouped(rows, columns)
    ensures ProjectAll(GroupsFor(rows, account), columns) == ProjectAll(RowsFor(rows, OUT, account), columns)
  {
    if rows != [] {
      var n := |rows| - 1;
      var init, row := rows[..n], rows[n];
      assert rows == init + [row];
      GroupedSlice(rows, columns, 0, n);
      assert rows[0..n] == init;
      OwnRows(init, account, columns);
      assert RefOf(row, OUT) == Some(IntOf(row, OUT));
      if IntOf(row, OUT) == account {
        var shown := OwnRow(init, row, account);
        var k :| 0 <= k < |rows| && rows[k] == shown;
        assert Project(rows[k], columns) == Project(rows[n], columns);
        ProjectConcat(GroupsFor(init, account), [shown], columns);
        ProjectConcat(RowsFor(init, OUT, account), [row], columns);
      } else {
        OtherRow(init, row, account);
      }
    }
  }

  // ----- the join comes group by group ------------------------------------------------------------------------------

  /** The joined rows of one group name the linked accounts. */
  lemma {:induction false} LinksAccounts(group: Row, links: seq<Row>)
    ensures forall row | row in Links(group, links) ::
              RefOf(row, OUT) == Some(IntOf(row, OUT)) && Linked(links, IntOf(row, OUT), IntOf(group, ID))
  {
    forall row | row in Links(group, links)
      ensures RefOf(row, OUT) == Some(IntOf(row, OUT)) && Linked(links, IntOf(row, OUT), IntOf(group, ID))
    {
      LinksOut(group, links, row);
      LinksPaired(group, links, IntOf(row, OUT));
    }
  }

  lemma {:induction false} LinksOut(group: Row, links: seq<Row>, row: Row)
    requires row in Links(group, links)
    ensures RefOf(row, OUT).Some?
  {
    if row in Links(group, links[1..]) {
      LinksOut(group, links[1..], row);
    }
  }

  lemma {:induction false} LinkedOnce(links: seq<Row>, account: int, group: int)
    requires DistinctLinks(links) && links != [] && LinkOf(links[0], account, group)
    ensures !Linked(links[1..], account, group)
  {
    forall i | 0 <= i < |links[1..]| ensures !LinkOf(links[1..][i], account, group) {
      assert links[i + 1] == links[1..][i];
    }
  }

  lemma {:induction false} LinksOnce(group: Row, links: seq<Row>)
    requires DistinctLinks(links)
    ensures PairedOnce(Links(group, links))
  {
    if links != [] {
      var rest, link := Links(group, links[1..]), links[0];
      LinksOnce(group, links[1..]);
      LinksAccounts(group, links[1..]);
      forall k | 0 <= k < |rest| && LinkOf(link, IntOf(link, ACCOUNT_ID), IntOf(group, ID))
        ensures IntOf(rest[k], OUT) != IntOf(link, ACCOUNT_ID)
      {
        assert rest[k] in rest;
        LinkedOnce(links, IntOf(link, ACCOUNT_ID), IntOf(group, ID));
      }
    }
  }

  /** Blocks of different groups one after the other. */
  lemma {:induction false} GroupedConcat(a: seq<Row>, b: seq<Row>, columns: seq<string>)
    requires Grouped(a, columns) && Grouped(b, columns)
    requires forall i, j | 0 <= i < |a| && 0 <= j < |b| :: IntOf(a[i], ID) != IntOf(b[j], ID)
    ensures Grouped(a + b, columns)
  {
    var rows := a + b;
    forall k | 0 < k < |rows| ensures IntOf(rows[k], ID) == IntOf(rows[k - 1], ID) || NewGroup(rows, k) {
      if k < |a| {
        assert rows[k] == a[k] && rows[k - 1] == a[k - 1];
        assert forall i | 0 <= i < k :: rows[i] == a[i];
      } else {
        var j := k - |a|;
        assert rows[k] == b[j] && (j > 0 ==> rows[k - 1] == b[j - 1]);
        if j == 0 || NewGroup(b, j) {
          forall i | 0 <= i < k ensures IntOf(rows[i], ID) != IntOf(rows[k], ID) {
            assert rows[i] == if i < |a| then a[i] else b[i - |a|];
          }
        }
      }
    }
    ConcatOnce(a, b);
    ConcatFace(a, b, columns);
  }

  lemma {:induction false} ConcatOnce(a: seq<Row>, b: seq<Row>)
    requires PairedOnce(a) && PairedOnce(b)
    requires forall i, j | 0 <= i < |a| && 0 <= j < |b| :: IntOf(a[i], ID) != IntOf(b[j], ID)
    ensures PairedOnce(a + b)
  {
  }

  lemma {:induction false} ConcatFace(a: seq<Row>, b: seq<Row>, columns: seq<string>)
    requires OneFace(a, columns) && OneFace(b, columns)
    requires forall i, j | 0 <= i < |a| && 0 <= j < |b| :: IntOf(a[i], ID) != IntOf(b[j], ID)
    ensures OneFace(a + b, columns)
  {
  }

  // ----- paged group sub-queries -----------------------------------------------------------------------------------

  lemma {:induction false} BatchPage(rows: seq<Row>, spec: Spec, column: string, ids: seq<int>)
    ensures Select(rows, Where(spec, In(column, ids)))
            == Page(AllMatches(rows, spec, column, ids), spec.offset, spec.limit)
  {
    assert Free(Where(spec, In(column, ids))) == Where(Free(spec), In(column, ids));
    SelectPaged(rows, Where(spec, In(column, ids)));
  }

  /** The sub-query's order looks at the group only; its predicates may look at the account. */
  ghost predicate RankBlind(spec: Spec) {
    forall row: Row, v: int :: spec.rank(row[OUT := Int(v)]) == spec.rank(row)
  }

  lemma {:induction false} FilterOnce(rows: seq<Row>, ps: seq<Pred>)
    requires PairedOnce(rows)
    ensures PairedOnce(Filter(rows, ps))
  {
    if rows != [] {
      var rest := Filter(rows[1..], ps);
      FilterOnce(rows[1..], ps);
      forall k | 0 <= k < |rest|
        ensures IntOf(rows[0], ID) != IntOf(rest[k], ID) || IntOf(rows[0], OUT) != IntOf(rest[k], OUT)
      {
        InFilter(rows[1..], ps, rest[k]);
        var i :| 0 <= i < |rows[1..]| && rows[1..][i] == rest[k];
        assert rows[i + 1] == rest[k];
      }
    }
  }

  lemma {:induction false} FilterBlock(group: Row, links: seq<Row>, ps: seq<Pred>, columns: seq<string>)
    requires DistinctLinks(links) && OUT !in columns
    ensures Grouped(Filter(Links(group, links), ps), columns)
    ensures forall row | row in Filter(Links(group, links), ps) :: IntOf(row, ID) == IntOf(group, ID)
  {
    var block := Links(group, links);
    var kept := Filter(block, ps);
    LinksIds(group, links);
    LinksOnce(group, links);
    LinksAccounts(group, links);
    ProjectHead(group, links, columns);
    FilterOnce(block, ps);
    forall row | row in kept ensures row in block {
      InFilter(block, ps, row);
    }
    assert forall k | 0 <= k < |kept| :: kept[k] in kept;
  }

  lemma {:induction false} FilterJoinedGrouped(groups: seq<Row>, links: seq<Row>, ps: seq<Pred>, columns: seq<string>)
    requires DistinctRows(groups) && DistinctLinks(links) && OUT !in columns
    ensures Grouped(Filter(Joined(groups, links), ps), columns)
  {
    if groups != [] {
      var block, rest := Filter(Links(groups[0], links), ps), Filter(Joined(groups[1..], links), ps);
      FilterConcat(Links(groups[0], links), Joined(groups[1..], links), ps);
      FilterJoinedGrouped(groups[1..], links, ps, columns);
      FilterBlock(groups[0], links, ps, columns);
      JoinedIds(groups[1..], links);
      forall i, j | 0 <= i < |block| && 0 <= j < |rest| ensures IntOf(block[i], ID) != IntOf(rest[j], ID) {
        assert block[i] in block;
        InFilter(Joined(groups[1..], links), ps, rest[j]);
        var k :| 0 <= k < |groups[1..]| && Ids(groups[1..])[k] == IntOf(rest[j], ID);
        assert groups[1..][k] == groups[k + 1];
      }
      GroupedConcat(block, rest, columns);
    }
  }

  /** The ordered rows of the query come group by group. */
  lemma {:induction false} OrderedGrouped(groups: seq<Row>, links: seq<Row>, spec: Spec, ps: seq<Pred>,
                                          columns: seq<string>)
    requires DistinctRows(groups) && DistinctLinks(links) && RankBlind(spec) && OUT !in columns
    ensures Grouped(Sort(Filter(Joined(groups, links), ps), spec.rank), columns)
  {
    var free := spec.(preds := []);
    assert Blind(free);
    FilterSort(Joined(groups, links), spec.rank, ps);
    SortJoined(free, groups, links);
    SortDistinct(groups, spec.rank);
    FilterJoinedGrouped(Sort(groups, spec.rank), links, ps, columns);
  }

  lemma {:induction false} MatchesGrouped(groups: seq<Row>, links: seq<Row>, spec: Spec, ids: seq<int>,
                                          columns: seq<string>)
    requires DistinctRows(groups) && DistinctLinks(links) && RankBlind(spec) && OUT !in columns
    ensures Grouped(AllMatches(Joined(groups, links), spec, OUT, ids), columns)
  {
    var ps := spec.preds + [In(OUT, ids)];
    OrderedGrouped(groups, links, spec, ps, columns);
    PageFree(Sort(Filter(Joined(groups, links), ps), spec.rank));
  }

  /**
   A group sub-query whose order looks at groups only keeps an account's own row order, whatever other
   accounts are in the batch and however it is paged.
   */
  lemma {:induction false} OwnOrderKept(groups: seq<Row>, links: seq<Row>, spec: Spec, ids: seq<int>, account: int,
                                        columns: seq<string>)
    requires DistinctRows(groups) && DistinctLinks(links) && RankBlind(spec) && OUT !in columns
    ensures var joined := Select(Joined(groups, links), Where(spec, In(OUT, ids)));
            ProjectAll(GroupsFor(joined, account), columns) == ProjectAll(RowsFor(joined, OUT, account), columns)
  {
    var ps := spec.preds + [In(OUT, ids)];
    OrderedGrouped(groups, links, spec, ps, columns);
    GroupedPage(Sort(Filter(Joined(groups, links), ps), spec.rank), columns, spec.offset, spec.limit);
    OwnRows(Select(Joined(groups, links), Where(spec, In(OUT, ids))), account, columns);
  }

  lemma {:induction false} ProjectPage(a: seq<Row>, b: seq<Row>, columns: seq<string>, offset: nat, limit: nat)
    requires ProjectAll(a, columns) == ProjectAll(b, columns)
    ensures ProjectAll(Page(a, offset, limit), columns) == ProjectAll(Page(b, offset, limit), columns)
  {
    assert |a| == |ProjectAll(a, columns)| == |b|;
    forall i | 0 <= i < |a| ensures Project(a[i], columns) == Project(b[i], columns) {
      assert ProjectAll(a, columns)[i] == ProjectAll(b, columns)[i];
    }
  }

  /** The account's matches, without the batch, are the nested loop. */
  lemma {:induction false} OwnMatches(groups: seq<Row>, links: seq<Row>, spec: Spec, ids: seq<int>, account: int,
                                      columns: seq<string>)
    requires DistinctRows(groups) && DistinctLinks(links) && Blind(spec) && OUT !in columns && account in ids
    ensures ProjectAll(RowsFor(AllMatches(Joined(groups, links), spec, OUT, ids), OUT, account), columns)
         == ProjectAll(NestedGroups(Select(groups, Free(spec)), links, account), columns)
  {
    assert Blind(Free(spec));
    GroupsNested(groups, links, Free(spec), ids, account, columns);
    OwnOrderKept(groups, links, Free(spec), ids, account, columns);
  }

  /** Where the page agrees, an account gets the page of its own groups. */
  lemma {:induction false} GroupsPaged(groups: seq<Row>, links: seq<Row>, spec: Spec, ids: seq<int>, account: int,
                                       columns: seq<string>)
    requires DistinctRows(groups) && DistinctLinks(links) && Blind(spec) && OUT !in columns && account in ids
    requires PageAgrees(AllMatches(Joined(groups, links), spec, OUT, ids), OUT, spec.offset, spec.limit)
    ensures ProjectAll(GroupsFor(Select(Joined(groups, links), Where(spec, In(OUT, ids))), account), columns)
         == ProjectAll(Page(NestedGroups(Select(groups, Free(spec)), links, account), spec.offset, spec.limit), columns)
  {
    var found := AllMatches(Joined(groups, links), spec, OUT, ids);
    OwnOrderKept(groups, links, spec, ids, account, columns);
    BatchPage(Joined(groups, links), spec, OUT, ids);
    AgreesShares(found, OUT, spec.offset, spec.limit, account);
    OwnMatches(groups, links, spec, ids, account, columns);
    ProjectPage(RowsFor(found, OUT, account), NestedGroups(Select(groups, Free(spec)), links, account), columns,
      spec.offset, spec.limit);
  }

  /** What loadGroups gives an account of a batch. */
  function GroupsInBatch(groups: seq<Row>, links: seq<Row>, spec: Spec, ids: seq<int>, account: int,
                         columns: seq<string>): seq<Row> {
    ProjectAll(GroupsFor(Select(Joined(groups, links), Where(spec, In(OUT, ids))), account), columns)
  }

  lemma {:induction false} SameProjected(found: seq<Row>, a: seq<Row>, b: seq<Row>, account: int, columns: seq<string>)
    requires PairedOnce(found) && ID in columns && ProjectAll(a, columns) == ProjectAll(b, columns)
    requires forall row | row in a || row in b :: row in found && IntOf(row, OUT) == account
    ensures a == b
  {
    assert |a| == |ProjectAll(a, columns)| == |b|;
    forall i | 0 <= i < |a| ensures a[i] == b[i] {
      assert Project(a[i], columns) == ProjectAll(a, columns)[i] == ProjectAll(b, columns)[i] == Project(b[i], columns);
      ProjectKeeps(a[i], columns, ID);
      ProjectKeeps(b[i], columns, ID);
      assert a[i] in a && b[i] in b;
      var k :| 0 <= k < |found| && found[k] == a[i];
      var l :| 0 <= l < |found| && found[l] == b[i];
    }
  }

  lemma {:induction false} PageIn(rows: seq<Row>, offset: nat, limit: nat)
    ensures forall row | row in Page(rows, offset, limit) :: row in rows
  {
  }

  lemma {:induction false} RowsForAll(rows: seq<Row>, column: string, id: int)
    ensures forall row | row in RowsFor(rows, column, id) :: row in rows && RefOf(row, column) == Some(id)
  {
    forall row | row in RowsFor(rows, column, id) ensures row in rows && RefOf(row, column) == Some(id) {
      RowsForIn(rows, column, id, row);
    }
  }

  /** One account: the batch gives it what a query for it alone gives, if and only if its shares agree. */
  lemma {:induction false} GroupShareExactly(groups: seq<Row>, links: seq<Row>, spec: Spec, ids: seq<int>, account: int,
                                             columns: seq<string>)
    requires DistinctRows(groups) && DistinctLinks(links) && RankBlind(spec) && OUT !in columns && ID in columns
    requires account in ids
    ensures GroupsInBatch(groups, links, spec, ids, account, columns)
            == GroupsInBatch(groups, links, spec, [account], account, columns)
       <==> SharesAgree(AllMatches(Joined(groups, links), spec, OUT, ids), OUT, spec.offset, spec.limit, account)
  {
    var joined := Joined(groups, links);
    var found := AllMatches(joined, spec, OUT, ids);
    OwnOrderKept(groups, links, spec, ids, account, columns);
    OwnOrderKept(groups, links, spec, [account], account, columns);
    BothArePages(joined, spec, OUT, ids, account);
    OwnPage(found, spec.offset, spec.limit, account);
    MatchesGrouped(groups, links, spec, ids, columns);
    ProjectedShares(found, spec.offset, spec.limit, account, columns);
  }

  lemma {:induction false} OwnPage(found: seq<Row>, offset: nat, limit: nat, account: int)
    ensures var own := Page(RowsFor(found, OUT, account), offset, limit); RowsFor(own, OUT, account) == own
  {
    var own := Page(RowsFor(found, OUT, account), offset, limit);
    RowsForAll(found, OUT, account);
    PageIn(RowsFor(found, OUT, account), offset, limit);
    assert forall k | 0 <= k < |own| :: own[k] in own;
    RowsForSize(own, OUT, account);
  }

  /** Shares that look the same are the same. */
  lemma {:induction false} ProjectedShares(found: seq<Row>, offset: nat, limit: nat, account: int, columns: seq<string>)
    requires PairedOnce(found) && ID in columns
    ensures ProjectAll(RowsFor(Page(found, offset, limit), OUT, account), columns)
            == ProjectAll(Page(RowsFor(found, OUT, account), offset, limit), columns)
       <==> SharesAgree(found, OUT, offset, limit, account)
  {
    var a, b := RowsFor(Page(found, offset, limit), OUT, account), Page(RowsFor(found, OUT, account), offset, limit);
    RowsForAll(found, OUT, account);
    PageIn(RowsFor(found, OUT, account), offset, limit);
    RowsForAll(Page(found, offset, limit), OUT, account);
    PageIn(found, offset, limit);
    if ProjectAll(a, columns) == ProjectAll(b, columns) {
      SameProjected(found, a, b, account, columns);
    }
  }

  lemma {:induction false} OnceNoRepeat(rows: seq<Row>)
    requires PairedOnce(rows)
    ensures NoRepeat(rows)
  {
  }

  /**
   A group sub-query with any offset and limit gives every account of the batch what it would give
   that account alone, if and only if PageAgrees holds of the joined rows.
   */
  lemma {:induction false} GroupsExactly(groups: seq<Row>, links: seq<Row>, spec: Spec, ids: seq<int>,
                                         columns: seq<string>)
    requires DistinctRows(groups) && DistinctLinks(links) && RankBlind(spec) && OUT !in columns && ID in columns
    ensures (forall id | id in ids ::
            GroupsInBatch(groups, links, spec, ids, id, columns)
              == GroupsInBatch(groups, links, spec, [id], id, columns))
       <==> PageAgrees(AllMatches(Joined(groups, links), spec, OUT, ids), OUT, spec.offset, spec.limit)
  {
    var found := AllMatches(Joined(groups, links), spec, OUT, ids);
    MatchesGrouped(groups, links, spec, ids, columns);
    MatchesOwned(Joined(groups, links), spec, OUT, ids);
    OnceNoRepeat(found);
    assert Owned(found, OUT);
    forall id | id in ids
      ensures GroupsInBatch(groups, links, spec, ids, id, columns)
              == GroupsInBatch(groups, links, spec, [id], id, columns)
         <==> SharesAgree(found, OUT, spec.offset, spec.limit, id)
    {
      GroupShareExactly(groups, links, spec, ids, id, columns);
    }
    PageExactly(found, OUT, spec.offset, spec.limit);
    if PageAgrees(found, OUT, spec.offset, spec.limit) {
      forall id | id in ids ensures SharesAgree(found, OUT, spec.offset, spec.limit, id) {
        AgreesShares(found, OUT, spec.offset, spec.limit, id);
      }
    }
  }
}
