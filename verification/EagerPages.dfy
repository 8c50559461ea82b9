/** Offset and limit of a sub-query apply to the batch and not to each parent: exactly when that makes no difference. */
module EagerPages {
  import opened Options
  import opened Rows
  import opened EagerSpec
  import opened EagerLoad

  /** The sub-query without offset and limit. */
  function Free(spec: Spec): Spec { spec.(offset := 0, limit := 0) }

  /** The rows of the batch before they are paged. */
  function AllMatches(rows: seq<Row>, spec: Spec, column: string, ids: seq<int>): seq<Row> {
    Select(rows, Where(Free(spec), In(column, ids)))
  }

  /** What the loader stitches to one parent. */
  function Batched(rows: seq<Row>, spec: Spec, column: string, ids: seq<int>, id: int): seq<Row> {
    RowsFor(Select(rows, Where(spec, In(column, ids))), column, id)
  }

  /** What the same sub-query gives for this parent alone. */
  function Alone(rows: seq<Row>, spec: Spec, column: string, id: int): seq<Row> {
    Select(rows, Where(spec, In(column, [id])))
  }

  // ----- the rows of one parent ------------------------------------------------------------------------------

  lemma {:induction false} RowsForConcat(a: seq<Row>, b: seq<Row>, column: string, id: int)
    ensures RowsFor(a + b, column, id) == RowsFor(a, column, id) + RowsFor(b, column, id)
  {
    if b == [] {
      assert a + b == a;
    } else {
      var n := |b| - 1;
      assert (a + b)[..|a| + n] == a + b[..n];
      RowsForConcat(a, b[..n], column, id);
    }
  }

  lemma {:induction false} RowsForOne(row: Row, column: string, id: int)
    ensures RowsFor([row], column, id) == if RefOf(row, column) == Some(id) then [row] else []
  {
    assert [row][..0] == [];
  }

  lemma {:induction false} RowsForFilter(rows: seq<Row>, column: string, ids: seq<int>, id: int)
    requires id in ids
    ensures RowsFor(Filter(rows, [In(column, ids)]), column, id) == RowsFor(rows, column, id)
  {
    if rows != [] {
      var ps := [In(column, ids)];
      var rest := Filter(rows[1..], ps);
      RowsForFilter(rows[1..], column, ids, id);
      assert rows == [rows[0]] + rows[1..];
      RowsForConcat([rows[0]], rows[1..], column, id);
      RowsForConcat([rows[0]], rest, column, id);
      RowsForOne(rows[0], column, id);
      assert Matches(ps, rows[0]) <==> Holds(ps[0], rows[0]);
    }
  }

  lemma {:induction false} FilterIsRowsFor(rows: seq<Row>, column: string, id: int)
    ensures Filter(rows, [In(column, [id])]) == RowsFor(rows, column, id)
  {
    if rows != [] {
      FilterIsRowsFor(rows[1..], column, id);
      assert rows == [rows[0]] + rows[1..];
      RowsForConcat([rows[0]], rows[1..], column, id);
      RowsForOne(rows[0], column, id);
      var ps := [In(column, [id])];
      assert Matches(ps, rows[0]) <==> Holds(ps[0], rows[0]);
    }
  }

  /** One account's share of an unpaged batch is what its own scan finds. */
  lemma {:induction false} ShareOfBatch(rows: seq<Row>, spec: Spec, column: string, ids: seq<int>, id: int)
    requires spec.offset == 0 && spec.limit == 0 && id in ids
    ensures RowsFor(Select(rows, Where(spec, In(column, ids))), column, id) == RowsFor(Select(rows, spec), column, id)
  {
    SelectWhere(rows, spec, In(column, ids));
    RowsForFilter(Select(rows, spec), column, ids, id);
  }

  lemma {:induction false} RowsForSize(rows: seq<Row>, column: string, id: int)
    ensures |RowsFor(rows, column, id)| <= |rows|
    ensures |RowsFor(rows, column, id)| == |rows| ==> RowsFor(rows, column, id) == rows
    ensures |RowsFor(rows, column, id)| == |rows| <==> forall k | 0 <= k < |rows| :: RefOf(rows[k], column) == Some(id)
  {
    if rows != [] {
      RowsForSize(rows[..|rows| - 1], column, id);
    }
  }

  lemma {:induction false} RowsForSome(rows: seq<Row>, column: string, id: int, k: nat)
    requires k < |rows| && RefOf(rows[k], column) == Some(id)
    ensures RowsFor(rows, column, id) != []
  {
    if k < |rows| - 1 {
      RowsForSome(rows[..|rows| - 1], column, id, k);
    }
  }

  lemma {:induction false} RowsForNone(rows: seq<Row>, column: string, id: int)
    requires forall k | 0 <= k < |rows| :: RefOf(rows[k], column) != Some(id)
    ensures RowsFor(rows, column, id) == []
  {
    if rows != [] {
      RowsForNone(rows[..|rows| - 1], column, id);
    }
  }

  lemma {:induction false} RowsForIn(rows: seq<Row>, column: string, id: int, row: Row)
    requires row in RowsFor(rows, column, id)
    ensures row in rows && RefOf(row, column) == Some(id)
  {
    var n := |rows| - 1;
    if row in RowsFor(rows[..n], column, id) {
      RowsForIn(rows[..n], column, id, row);
    }
  }

  // ----- paging ----------------------------------------------------------------------------------------------

  lemma {:induction false} SelectPaged(rows: seq<Row>, spec: Spec)
    ensures Select(rows, spec) == Page(Select(rows, Free(spec)), spec.offset, spec.limit)
  {
    var all := Sort(Filter(rows, spec.preds), spec.rank);
    assert all[0..] == all;
  }

  lemma {:induction false} PageFree(rows: seq<Row>)
    ensures Page(rows, 0, 0) == rows
  {
    assert rows[0..] == rows;
  }

  /** A batch is the page of its matches, and a query for one parent is the page of that parent's matches. */
  lemma {:induction false} BothArePages(rows: seq<Row>, spec: Spec, column: string, ids: seq<int>, id: int)
    requires id in ids
    ensures var found := AllMatches(rows, spec, column, ids);
            && Select(rows, Where(spec, In(column, ids))) == Page(found, spec.offset, spec.limit)
            && Alone(rows, spec, column, id) == Page(RowsFor(found, column, id), spec.offset, spec.limit)
            && RowsFor(found, column, id) == RowsFor(Select(rows, Free(spec)), column, id)
  {
    assert Free(Where(spec, In(column, ids))) == Where(Free(spec), In(column, ids));
    assert Free(Where(spec, In(column, [id]))) == Where(Free(spec), In(column, [id]));
    SelectPaged(rows, Where(spec, In(column, ids)));
    SelectPaged(rows, Where(spec, In(column, [id])));
    SelectWhere(rows, Free(spec), In(column, [id]));
    FilterIsRowsFor(Select(rows, Free(spec)), column, id);
    ShareOfBatch(rows, Free(spec), column, ids, id);
  }

  predicate OneParent(rows: seq<Row>, column: string) {
    forall i, j | 0 <= i < |rows| && 0 <= j < |rows| :: RefOf(rows[i], column) == RefOf(rows[j], column)
  }

  /** Every parent but that of the first row has at most this many rows. */
  ghost predicate OthersAtMost(found: seq<Row>, column: string, offset: nat) {
    forall id | found != [] && RefOf(found[0], column) != Some(id) :: |RowsFor(found, column, id)| <= offset
  }

  ghost predicate FirstParentOnly(found: seq<Row>, column: string, offset: nat, limit: nat) {
    0 < limit && offset + limit < |found| && OneParent(found[..offset + limit], column)
      && OthersAtMost(found, column, offset)
  }

  /**
   The page touches every parent as it would touch that parent alone: the offset leaves nothing; or
   nothing is cut; or all matches have one parent; or the page and what it skips have one parent, and
   the others have no more rows than the offset skips.
   */
  ghost predicate PageAgrees(found: seq<Row>, column: string, offset: nat, limit: nat) {
    || |found| <= offset
    || (offset == 0 && (limit == 0 || |found| <= limit))
    || OneParent(found, column)
    || FirstParentOnly(found, column, offset, limit)
  }

  ghost predicate SharesAgree(found: seq<Row>, column: string, offset: nat, limit: nat, id: int) {
    RowsFor(Page(found, offset, limit), column, id) == Page(RowsFor(found, column, id), offset, limit)
  }

  lemma {:induction false} OneParentShares(found: seq<Row>, column: string, offset: nat, limit: nat, id: int)
    requires OneParent(found, column)
    ensures SharesAgree(found, column, offset, limit, id)
  {
    var page := Page(found, offset, limit);
    if found != [] && RefOf(found[0], column) == Some(id) {
      RowsForSize(found, column, id);
      RowsForSize(page, column, id);
    } else {
      RowsForNone(found, column, id);
      RowsForNone(page, column, id);
    }
  }

  lemma {:induction false} FirstParentShares(found: seq<Row>, column: string, offset: nat, limit: nat, id: int)
    requires FirstParentOnly(found, column, offset, limit)
    ensures SharesAgree(found, column, offset, limit, id)
  {
    var head := found[..offset + limit];
    assert head[0] == found[0];
    if RefOf(found[0], column) == Some(id) {
      assert AllOf(head, column, id);
      OwnShares(found, column, offset, limit, id);
    } else {
      assert forall k | 0 <= k < |head| :: found[k] == head[k] && RefOf(head[k], column) == RefOf(head[0], column);
      OtherShares(found, column, offset, limit, id);
    }
  }

  predicate AllOf(rows: seq<Row>, column: string, p: int) {
    forall k | 0 <= k < |rows| :: RefOf(rows[k], column) == Some(p)
  }

  lemma {:induction false} OwnShares(found: seq<Row>, column: string, offset: nat, limit: nat, id: int)
    requires 0 < limit && offset + limit < |found| && AllOf(found[..offset + limit], column, id)
    ensures SharesAgree(found, column, offset, limit, id)
  {
    var head, tail := found[..offset + limit], found[offset + limit..];
    assert found == head + tail;
    PageHead(head, tail, offset, limit);
    RowsForConcat(head, tail, column, id);
    RowsForSize(head, column, id);
    RowsForSize(head[offset..], column, id);
    PageHead(head, RowsFor(tail, column, id), offset, limit);
  }

  lemma {:induction false} PageHead(head: seq<Row>, tail: seq<Row>, offset: nat, limit: nat)
    requires |head| == offset + limit && 0 < limit
    ensures Page(head + tail, offset, limit) == head[offset..]
  {
    assert (head + tail)[offset..][..limit] == head[offset..];
  }

  lemma {:induction false} OtherShares(found: seq<Row>, column: string, offset: nat, limit: nat, id: int)
    requires 0 < limit && offset + limit < |found| && |RowsFor(found, column, id)| <= offset
    requires forall k | 0 <= k < offset + limit :: RefOf(found[k], column) != Some(id)
    ensures SharesAgree(found, column, offset, limit, id)
  {
    var page := Page(found, offset, limit);
    assert page == found[..offset + limit][offset..];
    RowsForNone(page, column, id);
  }

  lemma {:induction false} AgreesShares(found: seq<Row>, column: string, offset: nat, limit: nat, id: int)
    requires PageAgrees(found, column, offset, limit)
    ensures SharesAgree(found, column, offset, limit, id)
  {
    RowsForSize(found, column, id);
    if |found| <= offset {
      assert RowsFor([], column, id) == [];
    } else if offset == 0 && (limit == 0 || |found| <= limit) {
      assert found[0..] == found && RowsFor(found, column, id)[0..] == RowsFor(found, column, id);
    } else if OneParent(found, column) {
      OneParentShares(found, column, offset, limit, id);
    } else {
      FirstParentShares(found, column, offset, limit, id);
    }
  }

  // ----- the other direction ------------------------------------------------------------------------------------

  /** No row occurs twice, as in a table with a primary key. */
  predicate NoRepeat(rows: seq<Row>) {
    forall i, j | 0 <= i < j < |rows| :: rows[i] != rows[j]
  }

  ghost predicate Owned(found: seq<Row>, column: string) {
    forall i | 0 <= i < |found| :: RefOf(found[i], column).Some?
  }

  ghost predicate AllAgree(found: seq<Row>, column: string, offset: nat, limit: nat) {
    forall i | 0 <= i < |found| && RefOf(found[i], column).Some? ::
      SharesAgree(found, column, offset, limit, RefOf(found[i], column).value)
  }

  lemma {:induction false} RowsForNoRepeat(rows: seq<Row>, column: string, id: int)
    requires NoRepeat(rows)
    ensures NoRepeat(RowsFor(rows, column, id))
  {
    if rows != [] {
      var n := |rows| - 1;
      var before := RowsFor(rows[..n], column, id);
      RowsForNoRepeat(rows[..n], column, id);
      forall i | 0 <= i < |before| ensures before[i] != rows[n] {
        RowsForIn(rows[..n], column, id, before[i]);
      }
    }
  }

  /** The rows before, in and after the window. */
  lemma {:induction false} Windows(found: seq<Row>, column: string, offset: nat, limit: nat, id: int)
    requires offset <= |found|
    ensures var page := Page(found, offset, limit);
            && offset + |page| <= |found| && page == found[offset..offset + |page|]
            && RowsFor(found, column, id)
               == RowsFor(found[..offset], column, id) + RowsFor(page, column, id)
                 + RowsFor(found[offset + |page|..], column, id)
  {
    var page := Page(found, offset, limit);
    var e := offset + |page|;
    assert page == found[offset..e];
    assert found == found[..offset] + page + found[e..];
    RowsForConcat(found[..offset] + page, found[e..], column, id);
    RowsForConcat(found[..offset], page, column, id);
  }

  /** A parent that the page shows has exactly `offset` rows before its first row there. */
  lemma {:induction false} ShownAfterOffset(found: seq<Row>, column: string, offset: nat, limit: nat, id: int)
    requires NoRepeat(found) && offset <= |found| && SharesAgree(found, column, offset, limit, id)
    requires RowsFor(Page(found, offset, limit), column, id) != []
    ensures |RowsFor(found[..offset], column, id)| == offset
  {
    var own, before, shown := RowsFor(found, column, id), RowsFor(found[..offset], column, id),
      RowsFor(Page(found, offset, limit), column, id);
    Windows(found, column, offset, limit, id);
    RowsForNoRepeat(found, column, id);
    assert own[|before|] == shown[0];
    assert own[offset] == shown[0];
  }

  lemma {:induction false} AllOfOneParent(rows: seq<Row>, column: string, p: int)
    requires AllOf(rows, column, p)
    ensures OneParent(rows, column)
  {
  }

  /** With an offset that leaves something, agreement means that the page and what it skips have one parent. */
  lemma {:induction false} OffsetShows(found: seq<Row>, column: string, offset: nat, limit: nat) returns (p: int)
    requires NoRepeat(found) && Owned(found, column) && AllAgree(found, column, offset, limit) && 0 < offset < |found|
    ensures offset + |Page(found, offset, limit)| <= |found|
    ensures AllOf(found[..offset + |Page(found, offset, limit)|], column, p)
  {
    var page := Page(found, offset, limit);
    p := RefOf(found[offset], column).value;
    assert page[0] == found[offset];
    Windows(found, column, offset, limit, p);
    RowsForSome(page, column, p, 0);
    assert SharesAgree(found, column, offset, limit, p);
    ShownAfterOffset(found, column, offset, limit, p);
    RowsForSize(found[..offset], column, p);
    SkippedThenPage(found, column, offset, limit, p);
  }

  lemma {:induction false} SkippedThenPage(found: seq<Row>, column: string, offset: nat, limit: nat, p: int)
    requires NoRepeat(found) && Owned(found, column) && AllAgree(found, column, offset, limit) && 0 < offset < |found|
    requires AllOf(found[..offset], column, p) && offset + |Page(found, offset, limit)| <= |found|
    ensures AllOf(found[..offset + |Page(found, offset, limit)|], column, p)
  {
    var n := |Page(found, offset, limit)|;
    forall k | offset <= k < offset + n ensures RefOf(found[k], column) == Some(p) {
      PageShows(found, column, offset, limit, p, k - offset);
    }
    AllOfNext(found, column, offset, n, p);
  }

  lemma {:induction false} AllOfNext(found: seq<Row>, column: string, offset: nat, n: nat, p: int)
    requires offset + n <= |found| && AllOf(found[..offset], column, p)
    requires forall k | offset <= k < offset + n :: RefOf(found[k], column) == Some(p)
    ensures AllOf(found[..offset + n], column, p)
  {
    var all := found[..offset + n];
    forall k | 0 <= k < |all| ensures RefOf(all[k], column) == Some(p) {
      if k < offset {
        assert all[k] == found[..offset][k];
      } else {
        assert all[k] == found[k];
      }
    }
  }

  /** Once the skipped rows have one parent, so has the page. */
  lemma {:induction false} PageShows(found: seq<Row>, column: string, offset: nat, limit: nat, p: int, k: nat)
    requires NoRepeat(found) && Owned(found, column) && AllAgree(found, column, offset, limit) && 0 < offset < |found|
    requires k < |Page(found, offset, limit)| && AllOf(found[..offset], column, p)
    ensures offset + k < |found| && RefOf(found[offset + k], column) == Some(p)
  {
    var page := Page(found, offset, limit);
    Windows(found, column, offset, limit, p);
    assert page[k] == found[offset + k];
    var q := RefOf(found[offset + k], column).value;
    RowsForSome(page, column, q, k);
    ShownAfterOffset(found, column, offset, limit, q);
    if q != p {
      RowsForNone(found[..offset], column, q);
      assert false;
    }
  }

  /** A parent that is not in the page has no more rows than the offset skips. */
  lemma {:induction false} OtherParent(found: seq<Row>, column: string, offset: nat, limit: nat, p: int, id: int)
    requires AllAgree(found, column, offset, limit) && offset <= |found| && id != p
    requires offset + |Page(found, offset, limit)| <= |found|
    requires AllOf(found[..offset + |Page(found, offset, limit)|], column, p)
    ensures |RowsFor(found, column, id)| <= offset
  {
    var page, own := Page(found, offset, limit), RowsFor(found, column, id);
    if own != [] {
      RowsForIn(found, column, id, own[0]);
      var i :| 0 <= i < |found| && found[i] == own[0];
      assert SharesAgree(found, column, offset, limit, id);
      Windows(found, column, offset, limit, id);
      assert forall k | 0 <= k < |page| :: page[k] == found[..offset + |page|][offset + k];
      RowsForNone(page, column, id);
    }
  }

  /** A limit alone that cuts something, with agreement: the page has the parent of the row after it. */
  lemma {:induction false} LimitShows(found: seq<Row>, column: string, limit: nat) returns (p: int)
    requires Owned(found, column) && AllAgree(found, column, 0, limit) && 0 < limit < |found|
    ensures Page(found, 0, limit) == found[..limit] && AllOf(found[..limit], column, p)
  {
    var page := found[..limit];
    assert found[0..] == found && Page(found, 0, limit) == page;
    p := RefOf(found[limit], column).value;
    assert found == page + found[limit..];
    RowsForConcat(page, found[limit..], column, p);
    RowsForSome(found[limit..], column, p, 0);
    RowsForSize(page, column, p);
    assert SharesAgree(found, column, 0, limit, p);
  }

  lemma {:induction false} OneParentLeft(found: seq<Row>, column: string, limit: nat, p: int)
    requires Owned(found, column) && AllAgree(found, column, 0, limit) && 0 < limit < |found|
    requires Page(found, 0, limit) == found[..limit] && AllOf(found[..limit], column, p)
    ensures AllOf(found, column, p)
  {
    forall i | 0 <= i < |found| ensures RefOf(found[i], column) == Some(p) {
      var q := RefOf(found[i], column).value;
      if q != p {
        OtherParent(found, column, 0, limit, p, q);
        RowsForSome(found, column, q, i);
        assert false;
      }
    }
  }

  lemma {:induction false} OffsetAgrees(found: seq<Row>, column: string, offset: nat, limit: nat)
    requires NoRepeat(found) && Owned(found, column) && AllAgree(found, column, offset, limit) && 0 < offset < |found|
    ensures PageAgrees(found, column, offset, limit)
  {
    var p := OffsetShows(found, column, offset, limit);
    OffsetLeaves(found, column, offset, limit, p, offset + |Page(found, offset, limit)|);
  }

  lemma {:induction false} OffsetLeaves(found: seq<Row>, column: string, offset: nat, limit: nat, p: int, e: nat)
    requires AllAgree(found, column, offset, limit) && 0 < offset < |found|
    requires e == offset + |Page(found, offset, limit)| <= |found| && AllOf(found[..e], column, p)
    ensures OneParent(found, column) || FirstParentOnly(found, column, offset, limit)
  {
    AllOfOneParent(found[..e], column, p);
    if e == |found| {
      assert found[..e] == found;
    } else {
      PageEnd(found, offset, limit);
      OthersFew(found, column, offset, limit, p);
    }
  }

  lemma {:induction false} PageEnd(found: seq<Row>, offset: nat, limit: nat)
    requires offset <= |found| && offset + |Page(found, offset, limit)| != |found|
    ensures 0 < limit == |Page(found, offset, limit)| && offset + limit < |found|
  {
  }

  lemma {:induction false} OthersFew(found: seq<Row>, column: string, offset: nat, limit: nat, p: int)
    requires AllAgree(found, column, offset, limit) && 0 < offset <= |found|
    requires offset + |Page(found, offset, limit)| <= |found|
    requires AllOf(found[..offset + |Page(found, offset, limit)|], column, p)
    ensures OthersAtMost(found, column, offset)
  {
    assert found[..offset + |Page(found, offset, limit)|][0] == found[0];
    forall id | RefOf(found[0], column) != Some(id) ensures |RowsFor(found, column, id)| <= offset {
      OtherParent(found, column, offset, limit, p, id);
    }
  }

  lemma {:induction false} SharesAgreeAll(found: seq<Row>, column: string, offset: nat, limit: nat)
    requires NoRepeat(found) && Owned(found, column) && AllAgree(found, column, offset, limit)
    ensures PageAgrees(found, column, offset, limit)
  {
    if 0 < offset < |found| {
      OffsetAgrees(found, column, offset, limit);
    } else if offset == 0 && 0 < limit < |found| {
      var p := LimitShows(found, column, limit);
      OneParentLeft(found, column, limit, p);
      AllOfOneParent(found, column, p);
    }
  }

  /** The page gives every parent its own page if and only if PageAgrees. */
  lemma {:induction false} PageExactly(found: seq<Row>, column: string, offset: nat, limit: nat)
    requires NoRepeat(found) && Owned(found, column)
    ensures AllAgree(found, column, offset, limit) <==> PageAgrees(found, column, offset, limit)
  {
    if PageAgrees(found, column, offset, limit) {
      forall i | 0 <= i < |found| && RefOf(found[i], column).Some?
        ensures SharesAgree(found, column, offset, limit, RefOf(found[i], column).value)
      {
        AgreesShares(found, column, offset, limit, RefOf(found[i], column).value);
      }
    }
    if AllAgree(found, column, offset, limit) {
      SharesAgreeAll(found, column, offset, limit);
    }
  }

  // ----- select keeps distinct ids distinct -----------------------------------------------------------------

  lemma {:induction false} FilterDistinct(rows: seq<Row>, ps: seq<Pred>)
    requires DistinctRows(rows)
    ensures DistinctRows(Filter(rows, ps))
  {
    if rows != [] {
      FilterDistinct(rows[1..], ps);
      forall k | 0 <= k < |Filter(rows[1..], ps)|
        ensures IntOf(Filter(rows[1..], ps)[k], ID) != IntOf(rows[0], ID)
      {
        InFilter(rows[1..], ps, Filter(rows[1..], ps)[k]);
      }
    }
  }

  lemma {:induction false} InsertDistinct(row: Row, rows: seq<Row>, rank: Row -> int)
    requires DistinctRows(rows) && forall k | 0 <= k < |rows| :: IntOf(rows[k], ID) != IntOf(row, ID)
    ensures DistinctRows(Insert(row, rows, rank))
  {
    if rows != [] && rank(row) > rank(rows[0]) {
      InsertDistinct(row, rows[1..], rank);
      var rest := Insert(row, rows[1..], rank);
      forall k | 0 <= k < |rest| ensures IntOf(rest[k], ID) != IntOf(rows[0], ID) {
        InInsert(row, rows[1..], rank, rest[k]);
      }
    }
  }

  lemma {:induction false} SortDistinct(rows: seq<Row>, rank: Row -> int)
    requires DistinctRows(rows)
    ensures DistinctRows(Sort(rows, rank))
  {
    if rows != [] {
      SortDistinct(rows[1..], rank);
      var rest := Sort(rows[1..], rank);
      forall k | 0 <= k < |rest| ensures IntOf(rest[k], ID) != IntOf(rows[0], ID) {
        InSort(rows[1..], rank, rest[k]);
      }
      InsertDistinct(rows[0], rest, rank);
    }
  }

  lemma {:induction false} SelectDistinct(rows: seq<Row>, spec: Spec)
    requires DistinctRows(rows)
    ensures DistinctRows(Select(rows, spec))
  {
    FilterDistinct(rows, spec.preds);
    SortDistinct(Filter(rows, spec.preds), spec.rank);
  }

  // ----- tables with a primary key ---------------------------------------------------------------------------------

  lemma {:induction false} FilterNoRepeat(rows: seq<Row>, ps: seq<Pred>)
    requires NoRepeat(rows)
    ensures NoRepeat(Filter(rows, ps))
  {
    if rows != [] {
      var rest := Filter(rows[1..], ps);
      FilterNoRepeat(rows[1..], ps);
      forall k | 0 <= k < |rest| ensures rest[k] != rows[0] {
        InFilter(rows[1..], ps, rest[k]);
      }
    }
  }

  lemma {:induction false} InsertNoRepeat(row: Row, rows: seq<Row>, rank: Row -> int)
    requires NoRepeat(rows) && row !in rows
    ensures NoRepeat(Insert(row, rows, rank))
  {
    if rows != [] && rank(row) > rank(rows[0]) {
      var rest := Insert(row, rows[1..], rank);
      InsertNoRepeat(row, rows[1..], rank);
      forall k | 0 <= k < |rest| ensures rest[k] != rows[0] {
        InInsert(row, rows[1..], rank, rest[k]);
      }
    }
  }

  lemma {:induction false} SortNoRepeat(rows: seq<Row>, rank: Row -> int)
    requires NoRepeat(rows)
    ensures NoRepeat(Sort(rows, rank))
  {
    if rows != [] {
      SortNoRepeat(rows[1..], rank);
      InSort(rows[1..], rank, rows[0]);
      InsertNoRepeat(rows[0], Sort(rows[1..], rank), rank);
    }
  }

  /** The matches of a batch: every one has a parent of the batch, and none repeats. */
  lemma {:induction false} MatchesOwned(rows: seq<Row>, spec: Spec, column: string, ids: seq<int>)
    ensures var found := AllMatches(rows, spec, column, ids);
            && (forall row | row in found :: RefOf(row, column).Some? && RefOf(row, column).value in ids)
            && (NoRepeat(rows) ==> NoRepeat(found))
  {
    var found := AllMatches(rows, spec, column, ids);
    forall row | row in found ensures RefOf(row, column).Some? && RefOf(row, column).value in ids {
      SelectedIn(rows, Free(spec), In(column, ids), row);
    }
    if NoRepeat(rows) {
      FilterNoRepeat(rows, Where(Free(spec), In(column, ids)).preds);
      SortNoRepeat(Filter(rows, Where(Free(spec), In(column, ids)).preds), spec.rank);
    }
  }

  /**
   A sub-query of an O2M edge with any offset and limit gives every parent of the batch what it would
   give that parent alone, if and only if PageAgrees holds of its matches.
   */
  lemma {:induction false} BatchExactly(rows: seq<Row>, spec: Spec, column: string, ids: seq<int>)
    requires NoRepeat(rows)
    ensures (forall id | id in ids :: Batched(rows, spec, column, ids, id) == Alone(rows, spec, column, id))
       <==> PageAgrees(AllMatches(rows, spec, column, ids), column, spec.offset, spec.limit)
  {
    var found := AllMatches(rows, spec, column, ids);
    MatchesOwned(rows, spec, column, ids);
    assert Owned(found, column);
    forall id | id in ids
      ensures Batched(rows, spec, column, ids, id) == Alone(rows, spec, column, id)
         <==> SharesAgree(found, column, spec.offset, spec.limit, id)
    {
      BothArePages(rows, spec, column, ids, id);
    }
    PageExactly(found, column, spec.offset, spec.limit);
    if PageAgrees(found, column, spec.offset, spec.limit) {
      forall id | id in ids ensures SharesAgree(found, column, spec.offset, spec.limit, id) {
        AgreesShares(found, column, spec.offset, spec.limit, id);
      }
    }
  }

  // ----- many to one ------------------------------------------------------------------------------------------------

  function LastRow(rows: seq<Row>): Option<Row> {
    if rows == [] then None else Some(rows[|rows| - 1])
  }

  lemma {:induction false} AtMostOne(rows: seq<Row>, id: int)
    requires DistinctRows(rows)
    ensures |RowsFor(rows, ID, id)| <= 1
  {
    if rows != [] {
      var n := |rows| - 1;
      AtMostOne(rows[..n], id);
      if RowsFor(rows[..n], ID, id) != [] && RefOf(rows[n], ID) == Some(id) {
        RowsForIn(rows[..n], ID, id, RowsFor(rows[..n], ID, id)[0]);
        assert false;
      }
    }
  }

  lemma {:induction false} DistinctPage(rows: seq<Row>, offset: nat, limit: nat)
    requires DistinctRows(rows)
    ensures DistinctRows(Page(rows, offset, limit)) && NoRepeat(rows)
  {
  }

  /** Where every parent has one row, only a page that cuts nothing off, or leaves nothing, agrees. */
  lemma {:induction false} KeyedAgrees(found: seq<Row>, offset: nat, limit: nat)
    requires DistinctRows(found) && Owned(found, ID)
    ensures PageAgrees(found, ID, offset, limit)
            <==> |found| <= offset || (offset == 0 && (limit == 0 || |found| <= limit))
  {
    if |found| > 1 {
      assert RefOf(found[0], ID) != RefOf(found[1], ID);
      if 1 < offset + limit < |found| {
        var head := found[..offset + limit];
        assert head[0] == found[0] && head[1] == found[1];
        assert !OneParent(head, ID);
      }
      RowsForSome(found, ID, RefOf(found[1], ID).value, 1);
      assert !OthersAtMost(found, ID, 0);
    }
  }

  lemma {:induction false} KeyedShare(found: seq<Row>, offset: nat, limit: nat, id: int)
    requires DistinctRows(found)
    ensures SharesAgree(found, ID, offset, limit, id)
       <==> LastRow(RowsFor(Page(found, offset, limit), ID, id)) == LastRow(Page(RowsFor(found, ID, id), offset, limit))
  {
    AtMostOne(found, id);
    DistinctPage(found, offset, limit);
    AtMostOne(Page(found, offset, limit), id);
  }

  /**
   A sub-query of an M2O edge with any offset and limit finds for every foreign key of the batch what
   it would find for that key alone, if and only if it is past its matches or cuts none of them off.
   */
  lemma {:induction false} KeyedExactly(rows: seq<Row>, spec: Spec, keys: seq<int>)
    requires DistinctRows(rows)
    ensures (forall key | key in keys ::
            LastRow(Batched(rows, spec, ID, keys, key)) == LastRow(Alone(rows, spec, ID, key)))
       <==> var n := |AllMatches(rows, spec, ID, keys)|;
            n <= spec.offset || (spec.offset == 0 && (spec.limit == 0 || n <= spec.limit))
  {
    var found := AllMatches(rows, spec, ID, keys);
    MatchesOwned(rows, spec, ID, keys);
    assert Owned(found, ID);
    FilterDistinct(rows, Where(Free(spec), In(ID, keys)).preds);
    SortDistinct(Filter(rows, Where(Free(spec), In(ID, keys)).preds), spec.rank);
    assert DistinctRows(found);
    forall key | key in keys
      ensures LastRow(Batched(rows, spec, ID, keys, key)) == LastRow(Alone(rows, spec, ID, key))
         <==> SharesAgree(found, ID, spec.offset, spec.limit, key)
    {
      BothArePages(rows, spec, ID, keys, key);
      KeyedShare(found, spec.offset, spec.limit, key);
    }
    DistinctPage(found, 0, 0);
    PageExactly(found, ID, spec.offset, spec.limit);
    KeyedAgrees(found, spec.offset, spec.limit);
    if PageAgrees(found, ID, spec.offset, spec.limit) {
      forall key | key in keys ensures SharesAgree(found, ID, spec.offset, spec.limit, key) {
        AgreesShares(found, ID, spec.offset, spec.limit, key);
      }
    }
  }

  // ----- a batch that starves an account -----------------------------------------------------------------------------

  function LogOf(account: int, log: int): Row {
    map[ID := Int(log), ACCOUNT_ID := Int(account)]
  }

  /** One log for each of two accounts and a limit of one: the batch starves the second account. */
  lemma {:induction false} LimitStarves()
    ensures var spec := Spec([], [], row => 0, 0, 1, []);
            var logs := [LogOf(1, 10), LogOf(2, 20)];
            && Batched(logs, spec, ACCOUNT_ID, [1, 2], 2) == []
            && Alone(logs, spec, ACCOUNT_ID, 2) == [LogOf(2, 20)]
  {
    var spec := Spec([], [], row => 0, 0, 1, []);
    var logs := [LogOf(1, 10), LogOf(2, 20)];
    LogsMatch(logs, spec);
    BothArePages(logs, spec, ACCOUNT_ID, [1, 2], 2);
    assert logs[0..] == logs && logs[..1] == [logs[0]] && logs == [logs[0]] + [logs[1]];
    RowsForOne(logs[0], ACCOUNT_ID, 2);
    RowsForConcat([logs[0]], [logs[1]], ACCOUNT_ID, 2);
    RowsForOne(logs[1], ACCOUNT_ID, 2);
  }

  lemma {:induction false} LogsMatch(logs: seq<Row>, spec: Spec)
    requires logs == [LogOf(1, 10), LogOf(2, 20)] && spec.preds == [] && forall row: Row :: spec.rank(row) == 0
    ensures AllMatches(logs, spec, ACCOUNT_ID, [1, 2]) == logs
  {
    var ps := spec.preds + [In(ACCOUNT_ID, [1, 2])];
    assert ps == [In(ACCOUNT_ID, [1, 2])];
    assert Matches(ps, logs[0]) && Matches(ps, logs[1]);
    assert logs[1..] == [logs[1]] && [logs[1]][1..] == [];
    assert Filter([logs[1]], ps) == [logs[1]];
    assert Filter(logs, ps) == logs;
    assert Sort([logs[1]], spec.rank) == [logs[1]];
    assert Sort(logs, spec.rank) == logs;
    PageFree(logs);
  }
}
