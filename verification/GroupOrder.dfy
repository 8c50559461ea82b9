/** In which order an account gets its groups, and exactly when that is the order of its own joined rows. */
module GroupOrder {
  import opened Options
  import opened Rows
  import opened EagerSpec
  import opened EagerLoad
  import opened EagerGroups
  import opened EagerPages
  import opened GroupJoin
  import opened GroupPages

  /** Where a group first occurs in the joined rows. */
  function FirstAt(joined: seq<Row>, group: int): (k: nat)
    ensures k <= |joined| && forall i | 0 <= i < k :: IntOf(joined[i], ID) != group
    ensures k < |joined| ==> IntOf(joined[k], ID) == group
  {
    if joined == [] || IntOf(joined[0], ID) == group then 0 else 1 + FirstAt(joined[1..], group)
  }

  lemma {:induction false} FirstIs(joined: seq<Row>, group: int, k: nat)
    requires k < |joined| && IntOf(joined[k], ID) == group && forall i | 0 <= i < k :: IntOf(joined[i], ID) != group
    ensures FirstAt(joined, group) == k
  {
  }

  /** The groups come in the order in which they first occur. */
  predicate InOrder(joined: seq<Row>, groups: seq<int>) {
    forall i, j | 0 <= i < j < |groups| :: FirstAt(joined, groups[i]) < FirstAt(joined, groups[j])
  }

  /** Of two rows of the account the earlier one's group occurs first, whoever brings it in. */
  predicate OwnFirst(joined: seq<Row>, account: int) {
    forall k, l | 0 <= k < l < |joined| && IntOf(joined[k], OUT) == account && IntOf(joined[l], OUT) == account ::
      FirstAt(joined, IntOf(joined[k], ID)) < FirstAt(joined, IntOf(joined[l], ID))
  }

  predicate HasAccounts(joined: seq<Row>) {
    forall i | 0 <= i < |joined| :: RefOf(joined[i], OUT).Some?
  }

  // ----- two sequences in order ----------------------------------------------------------------------------------

  lemma {:induction false} SameInOrder(joined: seq<Row>, a: seq<int>, b: seq<int>)
    requires InOrder(joined, a) && InOrder(joined, b) && forall g :: g in a <==> g in b
    ensures a == b
  {
    if b != [] {
      NotEmpty(b, a);
    }
    if a != [] {
      NotEmpty(a, b);
      var n, m := |a| - 1, |b| - 1;
      SameLast(joined, a, b);
      forall g ensures g in a[..n] <==> g in b[..m] {
        InInit(joined, a, g);
        InInit(joined, b, g);
      }
      SameInOrder(joined, a[..n], b[..m]);
      assert a == a[..n] + [a[n]] && b == b[..m] + [b[m]];
    }
  }

  lemma {:induction false} NotEmpty(a: seq<int>, b: seq<int>)
    requires a != [] && forall g | g in a :: g in b
    ensures b != []
  {
    var g := a[0];
    assert g in a;
  }

  lemma {:induction false} SameLast(joined: seq<Row>, a: seq<int>, b: seq<int>)
    requires InOrder(joined, a) && InOrder(joined, b) && a != [] && b != [] && forall g :: g in a <==> g in b
    ensures a[|a| - 1] == b[|b| - 1]
  {
    var n, m := |a| - 1, |b| - 1;
    assert a[n] in a && b[m] in b;
    var i :| 0 <= i <= n && a[i] == b[m];
    var j :| 0 <= j <= m && b[j] == a[n];
  }

  lemma {:induction false} InInit(joined: seq<Row>, a: seq<int>, g: int)
    requires InOrder(joined, a) && a != []
    ensures g in a[..|a| - 1] <==> g in a && g != a[|a| - 1]
  {
    var n := |a| - 1;
    if g in a[..n] {
      var i :| 0 <= i < n && a[..n][i] == g;
      assert a[i] == g;
    }
    if g in a && g != a[n] {
      var i :| 0 <= i <= n && a[i] == g;
      assert a[..n][i] == g;
    }
  }

  // ----- what an account gets -----------------------------------------------------------------------------------

  lemma {:induction false} FirstAtPrefix(rows: seq<Row>, joined: seq<Row>, group: int)
    requires rows <= joined && group in Ids(rows)
    ensures FirstAt(joined, group) == FirstAt(rows, group) < |rows|
  {
    var i :| 0 <= i < |rows| && Ids(rows)[i] == group;
    var k := FirstAt(rows, group);
    assert joined[k] == rows[k];
    FirstIs(joined, group, k);
  }

  lemma {:induction false} FirstRowsInOrder(rows: seq<Row>, joined: seq<Row>)
    requires rows <= joined
    ensures InOrder(joined, Ids(FirstRows(rows)))
  {
    if rows != [] {
      var n := |rows| - 1;
      var init, row := rows[..n], rows[n];
      var firsts := FirstRows(init);
      FirstRowsInOrder(init, joined);
      if IntOf(row, ID) !in Ids(firsts) {
        FirstRowsIds(init, IntOf(row, ID));
        assert Ids(firsts + [row]) == Ids(firsts) + [IntOf(row, ID)];
        NewIsLast(rows, joined, Ids(firsts));
      }
    }
  }

  lemma {:induction false} NewIsLast(rows: seq<Row>, joined: seq<Row>, before: seq<int>)
    requires rows != [] && rows <= joined && InOrder(joined, before)
    requires before == Ids(FirstRows(rows[..|rows| - 1])) && IntOf(rows[|rows| - 1], ID) !in Ids(rows[..|rows| - 1])
    ensures InOrder(joined, before + [IntOf(rows[|rows| - 1], ID)])
  {
    var n := |rows| - 1;
    var init, id := rows[..n], IntOf(rows[n], ID);
    assert Ids(rows)[n] == id;
    FirstAtPrefix(rows, joined, id);
    assert forall k | 0 <= k < n :: Ids(init)[k] in Ids(init) && IntOf(rows[k], ID) == Ids(init)[k];
    FirstIs(rows, id, n);
    forall i | 0 <= i < |before| ensures FirstAt(joined, before[i]) < FirstAt(joined, id) {
      assert before[i] in before;
      FirstRowsIds(init, before[i]);
      FirstAtPrefix(init, joined, before[i]);
    }
  }

  lemma {:induction false} GroupsInInOrder(firsts: seq<Row>, joined: seq<Row>, account: int)
    requires InOrder(joined, Ids(firsts))
    ensures InOrder(joined, Ids(GroupsIn(firsts, joined, account)))
  {
    if firsts != [] {
      var n := |firsts| - 1;
      var init := firsts[..n];
      var before := GroupsIn(init, joined, account);
      assert forall i | 0 <= i < n :: Ids(init)[i] == Ids(firsts)[i];
      GroupsInInOrder(init, joined, account);
      forall i | 0 <= i < |before| ensures FirstAt(joined, Ids(before)[i]) < FirstAt(joined, IntOf(firsts[n], ID)) {
        assert Ids(before)[i] in Ids(before);
        GroupsInIds(init, joined, account, Ids(before)[i]);
        var k :| 0 <= k < n && Ids(init)[k] == Ids(before)[i];
        assert Ids(firsts)[k] == Ids(before)[i] && Ids(firsts)[n] == IntOf(firsts[n], ID);
      }
      assert Ids(before + [firsts[n]]) == Ids(before) + [IntOf(firsts[n], ID)];
    }
  }

  // ----- the account's own rows ------------------------------------------------------------------------------------

  lemma {:induction false} OwnPaired(joined: seq<Row>, account: int, group: int)
    requires HasAccounts(joined)
    ensures group in Ids(RowsFor(joined, OUT, account)) <==> Paired(joined, account, group)
  {
    var own := RowsFor(joined, OUT, account);
    if group in Ids(own) {
      var i :| 0 <= i < |own| && Ids(own)[i] == group;
      RowsForIn(joined, OUT, account, own[i]);
      var k :| 0 <= k < |joined| && joined[k] == own[i];
      assert IntOf(joined[k], OUT) == account && IntOf(joined[k], ID) == group;
    }
    if Paired(joined, account, group) {
      var k :| 0 <= k < |joined| && IntOf(joined[k], OUT) == account && IntOf(joined[k], ID) == group;
      OwnRowIn(joined, account, k);
      var i :| 0 <= i < |own| && own[i] == joined[k];
      assert Ids(own)[i] == group;
    }
  }

  lemma {:induction false} OwnRowIn(joined: seq<Row>, account: int, k: nat)
    requires k < |joined| && HasAccounts(joined) && IntOf(joined[k], OUT) == account
    ensures joined[k] in RowsFor(joined, OUT, account)
  {
    var n := |joined| - 1;
    if k < n {
      OwnRowIn(joined[..n], account, k);
      assert joined[..n][k] == joined[k];
    }
  }

  lemma {:induction false} OwnInOrder(joined: seq<Row>, account: int, n: nat)
    requires n <= |joined| && HasAccounts(joined) && OwnFirst(joined, account)
    ensures InOrder(joined, Ids(RowsFor(joined[..n], OUT, account)))
  {
    if n > 0 {
      var init, row := joined[..n - 1], joined[n - 1];
      assert joined[..n][..n - 1] == init && joined[..n][n - 1] == row;
      OwnInOrder(joined, account, n - 1);
      var before := RowsFor(init, OUT, account);
      if RefOf(row, OUT) == Some(account) {
        OwnBefore(joined, account, n - 1, before);
        InOrderSnoc(joined, before, row);
      }
    }
  }

  lemma {:induction false} InOrderSnoc(joined: seq<Row>, rows: seq<Row>, row: Row)
    requires InOrder(joined, Ids(rows))
    requires forall i | 0 <= i < |rows| :: FirstAt(joined, IntOf(rows[i], ID)) < FirstAt(joined, IntOf(row, ID))
    ensures InOrder(joined, Ids(rows + [row]))
  {
    assert Ids(rows + [row]) == Ids(rows) + [IntOf(row, ID)];
  }

  lemma {:induction false} OwnBefore(joined: seq<Row>, account: int, n: nat, before: seq<Row>)
    requires n < |joined| && HasAccounts(joined) && OwnFirst(joined, account) && IntOf(joined[n], OUT) == account
    requires before == RowsFor(joined[..n], OUT, account)
    ensures forall i | 0 <= i < |before| ::
            FirstAt(joined, IntOf(before[i], ID)) < FirstAt(joined, IntOf(joined[n], ID))
  {
    forall i | 0 <= i < |before|
      ensures FirstAt(joined, IntOf(before[i], ID)) < FirstAt(joined, IntOf(joined[n], ID))
    {
      RowsForIn(joined[..n], OUT, account, before[i]);
      var k :| 0 <= k < n && joined[..n][k] == before[i];
      assert joined[k] == before[i];
    }
  }

  lemma {:induction false} InOrderOwn(joined: seq<Row>, account: int)
    requires HasAccounts(joined) && InOrder(joined, Ids(RowsFor(joined, OUT, account)))
    ensures OwnFirst(joined, account)
  {
    forall k, l | 0 <= k < l < |joined| && IntOf(joined[k], OUT) == account && IntOf(joined[l], OUT) == account
      ensures FirstAt(joined, IntOf(joined[k], ID)) < FirstAt(joined, IntOf(joined[l], ID))
    {
      TwoOwn(joined, account, k, l);
    }
  }

  lemma {:induction false} TwoOwn(joined: seq<Row>, account: int, k: nat, l: nat)
    requires HasAccounts(joined) && InOrder(joined, Ids(RowsFor(joined, OUT, account))) && k < l < |joined|
    requires IntOf(joined[k], OUT) == account && IntOf(joined[l], OUT) == account
    ensures FirstAt(joined, IntOf(joined[k], ID)) < FirstAt(joined, IntOf(joined[l], ID))
  {
    var own := RowsFor(joined, OUT, account);
    var i, m := OwnPlaces(joined, account, k, l);
    assert Ids(own)[i] == IntOf(joined[k], ID) && Ids(own)[m] == IntOf(joined[l], ID);
  }

  /** Two rows of the account keep their order among its own rows. */
  lemma {:induction false} OwnPlaces(joined: seq<Row>, account: int, k: nat, l: nat) returns (i: nat, m: nat)
    requires HasAccounts(joined) && k < l < |joined|
    requires IntOf(joined[k], OUT) == account && IntOf(joined[l], OUT) == account
    ensures var own := RowsFor(joined, OUT, account); i < m < |own| && own[i] == joined[k] && own[m] == joined[l]
  {
    var a, rest := joined[..l], joined[l + 1..];
    var before := RowsFor(a, OUT, account);
    OwnRowIn(a, account, k);
    i :| 0 <= i < |before| && before[i] == a[k];
    m := |before|;
    assert joined == (a + [joined[l]]) + rest;
    RowsForConcat(a + [joined[l]], rest, OUT, account);
    RowsForConcat(a, [joined[l]], OUT, account);
    RowsForOne(joined[l], OUT, account);
  }

  /**
   For any joined rows: an account gets its groups in the order of its own rows if and only if, of any two
   of its rows, the earlier one's group is the first to occur in the whole result.
   */
  lemma {:induction false} OwnOrderExactly(joined: seq<Row>, account: int)
    requires HasAccounts(joined)
    ensures Ids(GroupsFor(joined, account)) == Ids(RowsFor(joined, OUT, account)) <==> OwnFirst(joined, account)
  {
    var got, own := Ids(GroupsFor(joined, account)), Ids(RowsFor(joined, OUT, account));
    FirstRowsInOrder(joined, joined);
    GroupsInInOrder(FirstRows(joined), joined, account);
    assert joined[..|joined|] == joined;
    if OwnFirst(joined, account) {
      OwnInOrder(joined, account, |joined|);
      GroupsExact(joined, account);
      forall group ensures group in got <==> group in own {
        OwnPaired(joined, account, group);
      }
      SameInOrder(joined, got, own);
    }
    if got == own {
      InOrderOwn(joined, account);
    }
  }
}
