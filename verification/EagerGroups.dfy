/** loadGroups as a join: what an account's groups are, and in which order. */
module EagerGroups {
  import opened Options
  import opened Rows
  import opened EagerSpec
  import opened EagerLoad

  // ----- for every sequence of joined rows -------------------------------------------------------------------

  lemma {:induction false} GroupsInIds(firsts: seq<Row>, joined: seq<Row>, account: int, group: int)
    ensures group in Ids(GroupsIn(firsts, joined, account)) <==> group in Ids(firsts) && Paired(joined, account, group)
  {
    if firsts != [] {
      var n := |firsts| - 1;
      var before, row := GroupsIn(firsts[..n], joined, account), firsts[n];
      GroupsInIds(firsts[..n], joined, account, group);
      assert Ids(firsts) == Ids(firsts[..n]) + [IntOf(row, ID)];
      assert Ids(before + [row]) == Ids(before) + [IntOf(row, ID)];
    }
  }

  /** The account's nodes are some of the nodes, in the order of the nodes. */
  ghost predicate Subsequence(part: seq<Row>, whole: seq<Row>) {
    if part == [] then true
    else if whole == [] then false
    else if part[|part| - 1] == whole[|whole| - 1] && Subsequence(part[..|part| - 1], whole[..|whole| - 1]) then true
    else Subsequence(part, whole[..|whole| - 1])
  }

  lemma {:induction false} GroupsInOrder(firsts: seq<Row>, joined: seq<Row>, account: int)
    ensures Subsequence(GroupsIn(firsts, joined, account), firsts)
  {
    if firsts != [] {
      var n := |firsts| - 1;
      var before := GroupsIn(firsts[..n], joined, account);
      GroupsInOrder(firsts[..n], joined, account);
      if Paired(joined, account, IntOf(firsts[n], ID)) {
        assert (before + [firsts[n]])[..|before|] == before;
      }
    }
  }

  lemma {:induction false} SubsequenceIn(part: seq<Row>, whole: seq<Row>)
    requires Subsequence(part, whole)
    ensures forall row | row in part :: row in whole
    decreases |whole|
  {
    if part != [] {
      var m, n := |part| - 1, |whole| - 1;
      if part[m] == whole[n] && Subsequence(part[..m], whole[..n]) {
        SubsequenceIn(part[..m], whole[..n]);
        assert part == part[..m] + [part[m]];
      } else {
        SubsequenceIn(part, whole[..n]);
      }
    }
  }

  lemma {:induction false} SubsequenceDistinct(part: seq<Row>, whole: seq<Row>)
    requires Subsequence(part, whole) && DistinctRows(whole)
    ensures DistinctRows(part)
    decreases |whole|
  {
    if part != [] {
      var m, n := |part| - 1, |whole| - 1;
      if part[m] == whole[n] && Subsequence(part[..m], whole[..n]) {
        SubsequenceDistinct(part[..m], whole[..n]);
        SubsequenceIn(part[..m], whole[..n]);
        forall i | 0 <= i < m ensures IntOf(part[i], ID) != IntOf(part[m], ID) {
          assert part[i] in part[..m];
        }
      } else {
        SubsequenceDistinct(part, whole[..n]);
      }
    }
  }

  /**
   The groups that loadGroups gives an account, for any joined rows: exactly those paired with it,
   each once, in the order in which the groups first occur in the whole result.
   */
  lemma {:induction false} GroupsExact(joined: seq<Row>, account: int)
    ensures DistinctRows(GroupsFor(joined, account))
    ensures forall group :: group in Ids(GroupsFor(joined, account)) <==> Paired(joined, account, group)
    ensures Subsequence(GroupsFor(joined, account), FirstRows(joined))
  {
    var firsts := FirstRows(joined);
    GroupsInOrder(firsts, joined, account);
    FirstRowsDistinct(joined);
    SubsequenceDistinct(GroupsFor(joined, account), firsts);
    forall group ensures group in Ids(GroupsFor(joined, account)) <==> Paired(joined, account, group) {
      GroupsInIds(firsts, joined, account, group);
      FirstRowsIds(joined, group);
      PairedId(joined, account, group);
    }
  }

  lemma {:induction false} PairedId(joined: seq<Row>, account: int, group: int)
    ensures Paired(joined, account, group) ==> group in Ids(joined)
  {
    if Paired(joined, account, group) {
      var k :| 0 <= k < |joined| && IntOf(joined[k], OUT) == account && IntOf(joined[k], ID) == group;
      assert Ids(joined)[k] == group;
    }
  }

  function GroupRow(group: int): Row { map[ID := Int(group)] }

  function JoinedRow(account: int, group: int): Row { GroupRow(group)[OUT := Int(account)] }

  function LinkRow(account: int, group: int): Row { map[ACCOUNT_ID := Int(account), GROUP_ID := Int(group)] }

  /** An order that looks at the account: account 1 first, and then higher groups first. */
  const BY_ACCOUNT: Spec := Spec([], [], row => if IntOf(row, OUT) == 1 then -100 else -IntOf(row, ID), 0, 0, [])

  /**
   The order is that of the whole result and not of the account's own rows, when the sub-query orders
   by the account: here account 2 meets group 20 first, but gets group 10 first, because account 1 met
   group 10 before.
   */
  lemma {:induction false} OwnOrderLost()
    ensures var joined := Select(Joined([GroupRow(10), GroupRow(20)], [LinkRow(1, 10), LinkRow(2, 10), LinkRow(2, 20)]),
                                 Where(BY_ACCOUNT, In(OUT, [1, 2])));
            && joined == [JoinedRow(1, 10), JoinedRow(2, 20), JoinedRow(2, 10)]
            && GroupsFor(joined, 2) == [JoinedRow(1, 10), JoinedRow(2, 20)]
            && RowsFor(joined, OUT, 2) == [JoinedRow(2, 20), JoinedRow(2, 10)]
  {
    LostSelect();
    LostOrder([JoinedRow(1, 10), JoinedRow(2, 20), JoinedRow(2, 10)]);
    OwnOrder([JoinedRow(1, 10), JoinedRow(2, 20), JoinedRow(2, 10)]);
  }

  lemma {:induction false} LostOrder(joined: seq<Row>)
    requires joined == [JoinedRow(1, 10), JoinedRow(2, 20), JoinedRow(2, 10)]
    ensures GroupsFor(joined, 2) == [JoinedRow(1, 10), JoinedRow(2, 20)]
  {
    TwoGroups(joined, JoinedRow(1, 10), JoinedRow(2, 20));
    assert joined[..2] == [JoinedRow(1, 10), JoinedRow(2, 20)];
    assert FirstRows([JoinedRow(1, 10)]) == [JoinedRow(1, 10)];
    assert Ids([JoinedRow(1, 10)]) == [10];
    assert joined[..2][..1] == [JoinedRow(1, 10)];
    assert FirstRows(joined[..2]) == joined[..2];
    assert Ids(joined[..2]) == [10, 20];
    assert FirstRows(joined) == joined[..2];
    assert IntOf(joined[2], OUT) == 2 && IntOf(joined[2], ID) == 10;
    assert IntOf(joined[1], OUT) == 2 && IntOf(joined[1], ID) == 20;
  }

  lemma {:induction false} OwnOrder(joined: seq<Row>)
    requires joined == [JoinedRow(1, 10), JoinedRow(2, 20), JoinedRow(2, 10)]
    ensures RowsFor(joined, OUT, 2) == [JoinedRow(2, 20), JoinedRow(2, 10)]
  {
    assert joined[..2] == [joined[0], joined[1]] && [joined[0], joined[1]][..1] == [joined[0]]
      && [joined[0]][..0] == [];
    assert RowsFor([joined[0]], OUT, 2) == [];
    assert RowsFor([joined[0], joined[1]], OUT, 2) == [joined[1]];
  }

  lemma {:induction false} LostJoined(links: seq<Row>)
    requires links == [LinkRow(1, 10), LinkRow(2, 10), LinkRow(2, 20)]
    ensures Joined([GroupRow(10), GroupRow(20)], links) == [JoinedRow(1, 10), JoinedRow(2, 10), JoinedRow(2, 20)]
  {
    var a, b := GroupRow(10), GroupRow(20);
    var second, third := [LinkRow(2, 10), LinkRow(2, 20)], [LinkRow(2, 20)];
    assert links == [LinkRow(1, 10)] + second && second == [LinkRow(2, 10)] + third && third == [LinkRow(2, 20)] + [];
    LinksStep(10, 1, 10, second);
    LinksStep(10, 2, 10, third);
    LinksStep(10, 2, 20, []);
    LinksStep(20, 1, 10, second);
    LinksStep(20, 2, 10, third);
    LinksStep(20, 2, 20, []);
    assert Links(a, links) == [JoinedRow(1, 10), JoinedRow(2, 10)] && Links(b, links) == [JoinedRow(2, 20)];
    assert [a, b][1..] == [b] && [b][1..] == [] && Joined([], links) == [];
    assert Joined([b], links) == [JoinedRow(2, 20)];
  }

  lemma {:induction false} LinksStep(group: int, account: int, linked: int, rest: seq<Row>)
    ensures Links(GroupRow(group), [LinkRow(account, linked)] + rest)
         == (if linked == group then [JoinedRow(account, group)] else []) + Links(GroupRow(group), rest)
    ensures rest == [] ==> Links(GroupRow(group), rest) == []
  {
    assert ([LinkRow(account, linked)] + rest)[1..] == rest;
  }

  lemma {:induction false} LostSort(rows: seq<Row>)
    requires rows == [JoinedRow(1, 10), JoinedRow(2, 10), JoinedRow(2, 20)]
    ensures Sort(rows, BY_ACCOUNT.rank) == [JoinedRow(1, 10), JoinedRow(2, 20), JoinedRow(2, 10)]
  {
    var rank := BY_ACCOUNT.rank;
    assert rows[1..][1..] == [rows[2]] && [rows[2]][1..] == [] && rows[1..][0] == rows[1];
    assert Sort([rows[2]], rank) == [rows[2]];
    assert Insert(rows[1], [], rank) == [rows[1]];
    assert Sort(rows[1..], rank) == [rows[2], rows[1]];
  }

  lemma {:induction false} LostSelect()
    ensures Select(Joined([GroupRow(10), GroupRow(20)], [LinkRow(1, 10), LinkRow(2, 10), LinkRow(2, 20)]),
                   Where(BY_ACCOUNT, In(OUT, [1, 2])))
         == [JoinedRow(1, 10), JoinedRow(2, 20), JoinedRow(2, 10)]
  {
    var rows := [JoinedRow(1, 10), JoinedRow(2, 10), JoinedRow(2, 20)];
    LostJoined([LinkRow(1, 10), LinkRow(2, 10), LinkRow(2, 20)]);
    assert BY_ACCOUNT.preds + [In(OUT, [1, 2])] == [In(OUT, [1, 2])];
    LostFilter(rows, [In(OUT, [1, 2])]);
    LostSort(rows);
    var sorted := Sort(rows, BY_ACCOUNT.rank);
    assert sorted[0..] == sorted;
  }

  lemma {:induction false} LostFilter(rows: seq<Row>, ps: seq<Pred>)
    requires rows == [JoinedRow(1, 10), JoinedRow(2, 10), JoinedRow(2, 20)] && ps == [In(OUT, [1, 2])]
    ensures Filter(rows, ps) == rows
  {
    assert Matches(ps, rows[0]) && Matches(ps, rows[1]) && Matches(ps, rows[2]);
    assert rows[1..][1..] == [rows[2]] && [rows[2]][1..] == [] && rows[1..][0] == rows[1];
    assert Filter([rows[2]], ps) == [rows[2]];
    assert Filter(rows[1..], ps) == [rows[1], rows[2]];
  }

  lemma {:induction false} TwoGroups(joined: seq<Row>, a: Row, b: Row)
    ensures Paired(joined, 2, IntOf(a, ID)) && Paired(joined, 2, IntOf(b, ID)) ==> GroupsIn([a, b], joined, 2) == [a, b]
  {
    assert [a, b][..1] == [a] && [a][..0] == [];
    assert GroupsIn([], joined, 2) == [];
    if Paired(joined, 2, IntOf(a, ID)) {
      assert GroupsIn([a], joined, 2) == [a];
    }
  }
}
