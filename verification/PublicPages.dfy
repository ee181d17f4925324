/** Public pages: which rows a selection shows, how far a page reads, and exactly when a request is refused. */
module PublicPages {
  import opened Wrappers
  import opened Time
  import opened PublicRead

  /** A row is selected exactly when its game was asked for and it stands without a date, or on a day from yesterday to
      the end of the range, counted in UTC+8. */
  lemma SelectedExactly(row: Row, sel: Selection)
    ensures Selected(row, sel) <==>
              && row.game in sel.games && !row.tombstone
              && (row.time.Unknown?
                  || (sel.day - 1 <= RowDay(row) && (sel.range.None? || RowDay(row) < sel.day + sel.range.value)))
  {
    if !row.time.Unknown? { WindowIsWholeDays(row, sel); }
  }

  /** The day of a row: as written, or the one its instant falls on eight hours east. */
  lemma RowDayIs(row: Row)
    requires !row.time.Unknown?
    ensures row.time.DateOnly? ==> RowDay(row) == row.time.day
    ensures row.time.DateTime? ==>
              RowDay(row) * 86_400_000 <= row.time.utcMs + 28_800_000 < (RowDay(row) + 1) * 86_400_000
  {
  }

  /** The response with the first `k` rows of the page and a cursor after them. */
  predicate TooLong(q: Request, page: seq<Row>, k: nat)
    requires 0 < k <= |page|
  {
    q.size(Shown(page[..k], q.sel), Some(Cursor(q.generation, q.sel.day * 86_400_000 - 28_800_000, q.sel.range,
                                                q.sel.games, page[k-1].id))) > 524_288
  }

  /** How many rows are read before the response is too long. */
  predicate Reads(q: Request, page: seq<Row>, n: nat) {
    n <= |page| && (forall k :: 0 < k <= n ==> !TooLong(q, page, k)) && (n < |page| ==> TooLong(q, page, n + 1))
  }

  lemma FitsIs(q: Request, page: seq<Row>, k: nat)
    requires 0 < k <= |page|
    ensures Fits(q, page, k) <==> !TooLong(q, page, k)
  {
  }

  lemma ReadsIsFitCount(q: Request, page: seq<Row>, n: nat)
    requires Reads(q, page, n)
    ensures FitCount(q, page, 0) == n
  {
    var m := FitCount(q, page, 0);
    forall k | 0 < k <= |page| ensures Fits(q, page, k) <==> !TooLong(q, page, k) { FitsIs(q, page, k); }
  }

  lemma SomethingIsRead(q: Request, page: seq<Row>) returns (n: nat)
    ensures Reads(q, page, n)
  {
    n := FitCount(q, page, 0);
    forall k | 0 < k <= |page| ensures Fits(q, page, k) <==> !TooLong(q, page, k) { FitsIs(q, page, k); }
  }

  /** The cursor was handed out for this generation, day, range and list of games. */
  predicate CursorIsOurs(q: Request) {
    q.cursor.Some? ==>
      q.cursor.value.generation == q.generation && q.cursor.value.start == q.sel.day * 86_400_000 - 28_800_000
      && q.cursor.value.range == q.sel.range && q.cursor.value.games == q.sel.games
  }

  /** A request is answered exactly when its cursor is ours, every row of the page may be shown, the public head has
      not moved, and the response fits: all of the page, or up to a selected row that made it too long, with
      something selected before it. */
  lemma AnsweredExactly(q: Request, rows: seq<Row>, n: nat)
    requires Reads(q, PageRows(rows, After(q)), n)
    ensures var page := PageRows(rows, After(q));
            var more := |Rest(rows, After(q))| > 100;
            PageOf(q, rows).Ok? <==>
              && CursorIsOurs(q) && (forall i :: 0 <= i < |page| ==> page[i].readable) && q.sameHead
              && (if n < |page| then
                    Selected(page[n], q.sel) && exists i :: 0 <= i < n && Selected(page[i], q.sel)
                  else page == [] || !more ==> q.size(Shown(page, q.sel), None) <= 524_288)
  {
    var page := PageRows(rows, After(q));
    ReadsIsFitCount(q, page, n);
    ShownSome(page[..n], q.sel);
    assert n == |page| ==> page[..n] == page;
    if n > 0 { FitsIs(q, page, n); }
    if i :| 0 <= i < n && Selected(page[i], q.sel) { assert Selected(page[..n][i], q.sel); }
  }

  lemma {:induction false} ShownSome(rows: seq<Row>, sel: Selection)
    ensures Shown(rows, sel) != [] <==> exists i :: 0 <= i < |rows| && Selected(rows[i], sel)
  {
    if rows != [] {
      var k := |rows| - 1;
      ShownSome(rows[..k], sel);
      if i :| 0 <= i < k && Selected(rows[i], sel) { assert Selected(rows[..k][i], sel); }
      if i :| 0 <= i < k && Selected(rows[..k][i], sel) { assert Selected(rows[i], sel); }
    }
  }

  /** A page stops only at the end, after a hundred rows, or where the next row would make it too long; and it hands
      out a cursor exactly when rows are left. */
  lemma PageIsFull(q: Request, rows: seq<Row>, n: nat)
    requires Sorted(rows) && PageOf(q, rows).Ok? && Reads(q, PageRows(rows, After(q)), n)
    ensures var p, from := PageOf(q, rows), Past(rows, After(q));
            var to := Until(rows, p.next);
            && to == from + n && n <= 100
            && (p.next.Some? <==> to < |rows|)
            && (to < |rows| && n < 100 ==> TooLong(q, PageRows(rows, After(q)), n + 1))
  {
    var page := PageRows(rows, After(q));
    ReadsIsFitCount(q, page, n);
    CutShape(q, page, n, |Rest(rows, After(q))| > SCAN_PAGE);
    PageOrRest(rows, After(q));
    ScannedRows(rows, After(q), n);
  }
}
