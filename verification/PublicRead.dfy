/** Paged public reads: each page scans a bounded number of rows of one generation, keeps what the
    selection shows, stops before the byte limit, and hands out a cursor. */
module PublicRead {
  import opened Wrappers
  import opened Time

  const SCAN_PAGE: nat := 100
  const RESPONSE_BYTES: nat := 524_288
  const UTC8: int := 28_800_000

  /** A snapshot row; `id` is the milestone's place in the database's own order, above zero.
      `readable` is false for a row the server refuses to show. */
  datatype Row = Row(id: nat, readable: bool, game: string, tombstone: bool, time: TimeValue)

  type Days = n: nat | n > 0 witness 1

  /** A browse range in days (None: everything), the games, and the browse day in UTC+8. */
  datatype Selection = Selection(range: Option<Days>, games: seq<string>, day: int)

  datatype Cursor = Cursor(generation: nat, start: int, range: Option<Days>, games: seq<string>, after: nat)

  function StartOf(day: int): int { day * DAY_MS - UTC8 }

  function BrowseDay(ms: int): int { (ms + UTC8) / DAY_MS }

  predicate InWindow(row: Row, sel: Selection) {
    var start := StartOf(sel.day);
    !row.tombstone &&
    match row.time
    case Unknown(_, _, _) => true
    case DateTime(ms, _, _, _) =>
      || (start - DAY_MS <= ms < start)
      || (start <= ms && (sel.range.Some? ==> ms < start + sel.range.value * DAY_MS))
    case DateOnly(day, _, _, _) =>
      || day == BrowseDay(start - DAY_MS)
      || (BrowseDay(start) <= day && (sel.range.Some? ==> day < BrowseDay(start + sel.range.value * DAY_MS)))
  }

  predicate Selected(row: Row, sel: Selection) { row.game in sel.games && InWindow(row, sel) }

  /** The day a dated row falls on in UTC+8. */
  function RowDay(row: Row): int
    requires !row.time.Unknown?
  {
    if row.time.DateTime? then BrowseDay(row.time.utcMs) else row.time.day
  }

  /** Instants and dates are cut at the same days: from yesterday to the end of the range. */
  lemma WindowIsWholeDays(row: Row, sel: Selection)
    requires !row.time.Unknown?
    ensures InWindow(row, sel) <==>
              !row.tombstone && sel.day - 1 <= RowDay(row)
              && (sel.range.Some? ==> RowDay(row) < sel.day + sel.range.value)
  {
    WholeDay(sel.day - 1);
    WholeDay(sel.day);
    if sel.range.Some? { WholeDay(sel.day + sel.range.value); }
    if row.time.DateTime? { InDay(row.time.utcMs); }
  }

  lemma WholeDay(day: int)
    ensures BrowseDay(StartOf(day)) == day
  {
  }

  lemma InDay(ms: int)
    ensures StartOf(BrowseDay(ms)) <= ms < StartOf(BrowseDay(ms) + 1)
  {
  }

  function Shown(rows: seq<Row>, sel: Selection): seq<Row> {
    if rows == [] then []
    else Shown(rows[..|rows| - 1], sel) + if Selected(rows[|rows| - 1], sel) then [rows[|rows| - 1]] else []
  }

  lemma {:induction false} ShownConcat(a: seq<Row>, b: seq<Row>, sel: Selection)
    ensures Shown(a + b, sel) == Shown(a, sel) + Shown(b, sel)
  {
    if b == [] {
      assert a + b == a;
    } else {
      var k := |b| - 1;
      ShownConcat(a, b[..k], sel);
      assert (a + b)[..|a + b| - 1] == a + b[..k];
    }
  }

  // ---------------------------------------------------------------- one page

  predicate Sorted(rows: seq<Row>) {
    (forall i, j :: 0 <= i < j < |rows| ==> rows[i].id < rows[j].id) && forall i :: 0 <= i < |rows| ==> rows[i].id > 0
  }

  /** How many rows a cursor is past. */
  function Past(rows: seq<Row>, after: nat): (n: nat)
    ensures n <= |rows|
    ensures forall i :: 0 <= i < n ==> rows[i].id <= after
    ensures n < |rows| ==> rows[n].id > after
  {
    if rows == [] || rows[0].id > after then 0 else 1 + Past(rows[1..], after)
  }

  function Min(a: nat, b: nat): nat { if a < b then a else b }

  /** `WHERE milestone_id > ? ORDER BY milestone_id LIMIT ?` */
  function Rest(rows: seq<Row>, after: nat): seq<Row> { rows[Past(rows, after)..] }

  function PageRows(rows: seq<Row>, after: nat): seq<Row> {
    var rest := Rest(rows, after);
    rest[..Min(SCAN_PAGE, |rest|)]
  }

  function MakeCursor(generation: nat, sel: Selection, after: nat): Cursor {
    Cursor(generation, StartOf(sel.day), sel.range, sel.games, after)
  }

  predicate CursorMatches(c: Cursor, sel: Selection, generation: nat) {
    c.generation == generation && c.start == StartOf(sel.day) && c.range == sel.range && c.games == sel.games
  }

  datatype Page = Refused | Ok(nodes: seq<Row>, next: Option<Cursor>)

  /** One request: the head it found, its selection and cursor, the byte size of a response with the given
      nodes and cursor, and whether the head was still the same at the end. */
  datatype Request = Request(
    generation: nat, sel: Selection, cursor: Option<Cursor>, size: (seq<Row>, Option<Cursor>) -> nat, sameHead: bool)

  function After(q: Request): nat { if q.cursor.Some? then q.cursor.value.after else 0 }

  /** The response after `k` rows of the page, while scanning. */
  function Partial(q: Request, page: seq<Row>, k: nat): (seq<Row>, Option<Cursor>)
    requires 0 < k <= |page|
  {
    (Shown(page[..k], q.sel), Some(MakeCursor(q.generation, q.sel, page[k-1].id)))
  }

  predicate Fits(q: Request, page: seq<Row>, k: nat)
    requires 0 < k <= |page|
  {
    Small(q, Partial(q, page, k).0, Partial(q, page, k).1)
  }

  /** How many rows fit before the first one that does not. */
  function FitCount(q: Request, page: seq<Row>, k: nat): (n: nat)
    requires k <= |page|
    ensures k <= n <= |page|
    ensures forall i :: k < i <= n ==> Fits(q, page, i)
    ensures n < |page| ==> !Fits(q, page, n + 1)
    decreases |page| - k
  {
    if k == |page| || !Fits(q, page, k + 1) then k else FitCount(q, page, k + 1)
  }

  /** Whether a full response is within the byte limit. */
  predicate Small(q: Request, nodes: seq<Row>, next: Option<Cursor>) { q.size(nodes, next) <= RESPONSE_BYTES }

  function Sent(q: Request, nodes: seq<Row>, next: Option<Cursor>): Page {
    if !q.sameHead || !Small(q, nodes, next) then Refused else Ok(nodes, next)
  }

  predicate AllReadable(page: seq<Row>) { forall i :: 0 <= i < |page| ==> page[i].readable }

  /** What a page is once its rows are read and `n` of them fit. */
  function Cut(q: Request, page: seq<Row>, n: nat, more: bool): Page
    requires n <= |page|
  {
    if n < |page| then
      (if n == 0 || !Selected(page[n], q.sel) || Shown(page[..n], q.sel) == [] then Refused
       else Sent(q, Shown(page[..n], q.sel), Some(MakeCursor(q.generation, q.sel, page[n-1].id))))
    else Sent(q, Shown(page, q.sel),
        if more && n > 0 then Some(MakeCursor(q.generation, q.sel, page[n-1].id)) else None)
  }

  /** What a page is, in terms of the rows that fit. */
  function PageOf(q: Request, rows: seq<Row>): Page {
    var page := PageRows(rows, After(q));
    if q.cursor.Some? && !CursorMatches(q.cursor.value, q.sel, q.generation) then Refused
    else if !AllReadable(page) then Refused
    else Cut(q, page, FitCount(q, page, 0), |Rest(rows, After(q))| > SCAN_PAGE)
  }

  method ReadEvents(q: Request, rows: seq<Row>) returns (response: Page)
    ensures response == PageOf(q, rows)
  {
    if q.cursor.Some? && !CursorMatches(q.cursor.value, q.sel, q.generation) { return Refused; }
    var rest := Rest(rows, After(q));
    var page := PageRows(rows, After(q));
    if !AllReadable(page) { return Refused; }
    response := ScanPage(q, page, |rest| > SCAN_PAGE);
  }

  /** The loop over the page: append, measure, and take the last row back if it does not fit. */
  method ScanPage(q: Request, page: seq<Row>, more: bool) returns (response: Page)
    ensures response == Cut(q, page, FitCount(q, page, 0), more)
  {
    var nodes: seq<Row>, next: Option<Cursor> := [], None;
    var consumed := After(q);
    for i := 0 to |page|
      invariant nodes == Shown(page[..i], q.sel)
      invariant i > 0 ==> consumed == page[i-1].id
      invariant FitCount(q, page, 0) == FitCount(q, page, i)
    {
      assert page[..i+1][..i] == page[..i];
      var matches := Selected(page[i], q.sel);
      ghost var before := nodes;
      if matches { nodes := nodes + [page[i]]; }
      assert nodes == Shown(page[..i+1], q.sel);
      next := Some(MakeCursor(q.generation, q.sel, page[i].id));
      assert Small(q, nodes, next) <==> Fits(q, page, i + 1);
      if !Small(q, nodes, next) {
        if !matches || |nodes| == 1 { return Refused; }
        nodes := nodes[..|nodes| - 1];
        assert nodes == before;
        next := Some(MakeCursor(q.generation, q.sel, consumed));
        response := Sent(q, nodes, next);
        return;
      }
      consumed := page[i].id;
    }
    assert page[..|page|] == page;
    next := if more && |page| > 0 then Some(MakeCursor(q.generation, q.sel, consumed)) else None;
    response := Sent(q, nodes, next);
  }

  // ---------------------------------------------------------------- what one page promises

  lemma {:induction false} PastOf(rows: seq<Row>, k: nat)
    requires Sorted(rows) && 0 < k <= |rows|
    ensures Past(rows, rows[k-1].id) == k
  {
    var n := Past(rows, rows[k-1].id);
    assert n < |rows| ==> rows[n].id > rows[k-1].id;
    assert k < |rows| ==> rows[k].id > rows[k-1].id;
    assert forall i :: 0 <= i < k ==> rows[i].id <= rows[k-1].id;
  }

  lemma ZeroIsPastNothing(rows: seq<Row>)
    requires Sorted(rows)
    ensures Past(rows, 0) == 0
  {
  }

  lemma ScannedRows(rows: seq<Row>, after: nat, k: nat)
    requires Sorted(rows) && k <= |PageRows(rows, after)|
    ensures var from := Past(rows, after);
            && from + k <= |rows|
            && PageRows(rows, after)[..k] == rows[from..from + k]
            && (k > 0 ==> Past(rows, PageRows(rows, after)[k-1].id) == from + k)
  {
    var from := Past(rows, after);
    if k > 0 {
      assert PageRows(rows, after)[k-1] == rows[from + k - 1];
      PastOf(rows, from + k);
    }
  }

  /** The rows a returned page consumed: from the cursor it was given up to the cursor it gives out. */
  function Until(rows: seq<Row>, next: Option<Cursor>): nat {
    if next.Some? then Past(rows, next.value.after) else |rows|
  }

  /** A page that is returned fits, shows exactly the selected rows it consumed in order, and its cursor
      resumes right after them; without a cursor it consumed everything that was left. */
  ghost predicate PageExact(q: Request, rows: seq<Row>, p: Page)
    requires p.Ok?
  {
    var from, to := Past(rows, After(q)), Until(rows, p.next);
    && Small(q, p.nodes, p.next)
    && from <= to <= |rows| && (p.next.Some? ==> from < to)
    && p.nodes == Shown(rows[from..to], q.sel)
    && (p.next.Some? ==> CursorMatches(p.next.value, q.sel, q.generation))
    && (q.cursor.Some? ==> CursorMatches(q.cursor.value, q.sel, q.generation))
  }

  lemma CutShape(q: Request, page: seq<Row>, n: nat, more: bool)
    requires n <= |page| && Cut(q, page, n, more).Ok?
    ensures var p := Cut(q, page, n, more);
            && Small(q, p.nodes, p.next) && p.nodes == Shown(page[..n], q.sel)
            && (n < |page| ==> n > 0)
            && p.next == (if n < |page| || (more && n > 0)
                          then Some(MakeCursor(q.generation, q.sel, page[n-1].id)) else None)
  {
    assert n == |page| ==> page[..n] == page;
  }

  lemma PageOrRest(rows: seq<Row>, after: nat)
    ensures var page, rest := PageRows(rows, after), Rest(rows, after);
            if |rest| > SCAN_PAGE then |page| == SCAN_PAGE else page == rest
  {
  }

  lemma ExactFrom(q: Request, rows: seq<Row>, p: Page, n: nat)
    requires Sorted(rows) && p.Ok? && Small(q, p.nodes, p.next)
    requires q.cursor.Some? ==> CursorMatches(q.cursor.value, q.sel, q.generation)
    requires n <= |PageRows(rows, After(q))| && p.nodes == Shown(PageRows(rows, After(q))[..n], q.sel)
    requires if p.next.Some?
             then n > 0 && p.next.value == MakeCursor(q.generation, q.sel, PageRows(rows, After(q))[n-1].id)
             else n == |Rest(rows, After(q))|
    ensures PageExact(q, rows, p)
  {
    ScannedRows(rows, After(q), n);
  }

  lemma PageIsExact(q: Request, rows: seq<Row>)
    requires Sorted(rows) && PageOf(q, rows).Ok?
    ensures PageExact(q, rows, PageOf(q, rows))
  {
    var page, more := PageRows(rows, After(q)), |Rest(rows, After(q))| > SCAN_PAGE;
    var n := FitCount(q, page, 0);
    CutShape(q, page, n, more);
    PageOrRest(rows, After(q));
    ExactFrom(q, rows, Cut(q, page, n, more), n);
  }

  // ---------------------------------------------------------------- following cursors

  /** A client following nextCursor until there is none, and the pages it got; snapshots are immutable per
      generation, while sizes, clocks and heads are whatever they are at each request. */
  ghost predicate Follows(snapshots: map<nat, seq<Row>>, requests: seq<Request>, pages: seq<Page>) {
    && |requests| == |pages| > 0 && requests[0].cursor.None?
    && (forall i :: 0 <= i < |pages| ==> Answered(snapshots, requests[i], pages[i]))
    && (forall i :: 0 < i < |requests| ==> requests[i].cursor == pages[i-1].next && requests[i].cursor.Some?)
  }

  ghost predicate Answered(snapshots: map<nat, seq<Row>>, q: Request, p: Page) {
    && q.generation in snapshots && Sorted(snapshots[q.generation])
    && p.Ok? && p == PageOf(q, snapshots[q.generation])
  }

  function Concatenated(pages: seq<Page>, k: nat): seq<Row>
    requires k <= |pages| && forall i :: 0 <= i < k ==> pages[i].Ok?
  {
    if k == 0 then [] else Concatenated(pages, k - 1) + pages[k-1].nodes
  }

  predicate SameView(a: Request, b: Request) { a.generation == b.generation && a.sel == b.sel }

  lemma AnswerIsExact(snapshots: map<nat, seq<Row>>, q: Request, p: Page)
    requires Answered(snapshots, q, p)
    ensures PageExact(q, snapshots[q.generation], p)
  {
    PageIsExact(q, snapshots[q.generation]);
  }

  /** What following cursors means once every page is known to be exact. */
  ghost predicate Chained(snapshots: map<nat, seq<Row>>, requests: seq<Request>, pages: seq<Page>) {
    && |requests| == |pages| > 0 && requests[0].cursor.None?
    && (forall i :: 0 <= i < |pages| ==>
          && requests[i].generation in snapshots && Sorted(snapshots[requests[i].generation])
          && pages[i].Ok? && PageExact(requests[i], snapshots[requests[i].generation], pages[i]))
    && (forall i :: 0 < i < |requests| ==> requests[i].cursor == pages[i-1].next && requests[i].cursor.Some?)
  }

  lemma {:induction false} FollowingIsChained(snapshots: map<nat, seq<Row>>, requests: seq<Request>, pages: seq<Page>)
    requires Follows(snapshots, requests, pages)
    ensures Chained(snapshots, requests, pages)
  {
    forall i | 0 <= i < |pages| ensures PageExact(requests[i], snapshots[requests[i].generation], pages[i]) {
      AnswerIsExact(snapshots, requests[i], pages[i]);
    }
  }

  lemma CursorFixesView(c: Cursor, a: Request, b: Request)
    requires CursorMatches(c, a.sel, a.generation) && CursorMatches(c, b.sel, b.generation)
    ensures SameView(a, b)
  {
    assert StartOf(a.sel.day) == StartOf(b.sel.day);
  }

  /** Every accepted request of a run reads the same generation with the same window. */
  lemma {:induction false} ViewIsFixed(snapshots: map<nat, seq<Row>>, requests: seq<Request>, pages: seq<Page>, k: nat)
    requires Chained(snapshots, requests, pages) && k < |requests|
    ensures SameView(requests[0], requests[k])
  {
    if k > 0 {
      ViewIsFixed(snapshots, requests, pages, k - 1);
      NextViewIsSame(snapshots, requests, pages, k);
    }
  }

  lemma {:induction false} NextViewIsSame(
    snapshots: map<nat, seq<Row>>, requests: seq<Request>, pages: seq<Page>, k: nat)
    requires Chained(snapshots, requests, pages) && 0 < k < |requests|
    ensures SameView(requests[k-1], requests[k])
  {
    var a, b := requests[k-1], requests[k];
    assert PageExact(a, snapshots[a.generation], pages[k-1]) && PageExact(b, snapshots[b.generation], pages[k]);
    assert b.cursor == pages[k-1].next && b.cursor.Some?;
    CursorFixesView(b.cursor.value, a, b);
  }

  lemma Extend(rows: seq<Row>, before: nat, done: nat, sel: Selection)
    requires before <= done <= |rows|
    ensures Shown(rows[..done], sel) == Shown(rows[..before], sel) + Shown(rows[before..done], sel)
  {
    ShownConcat(rows[..before], rows[before..done], sel);
    assert rows[..before] + rows[before..done] == rows[..done];
  }

  lemma Stepped(q: Request, rows: seq<Row>, p: Page, shown: seq<Row>)
    requires p.Ok? && PageExact(q, rows, p) && shown == Shown(rows[..Past(rows, After(q))], q.sel)
    ensures Past(rows, After(q)) <= Until(rows, p.next) <= |rows|
    ensures p.next.Some? ==> Past(rows, After(q)) < Until(rows, p.next)
    ensures shown + p.nodes == Shown(rows[..Until(rows, p.next)], q.sel)
  {
    Extend(rows, Past(rows, After(q)), Until(rows, p.next), q.sel);
  }

  /** After `k` pages: what has been shown is what the rows consumed so far show, and every page moved on. */
  ghost predicate ConsumedBy(rows: seq<Row>, sel: Selection, pages: seq<Page>, k: nat)
    requires 0 < k <= |pages| && forall i :: 0 <= i < k ==> pages[i].Ok?
  {
    var done := Until(rows, pages[k-1].next);
    && k - 1 <= done <= |rows| && (pages[k-1].next.Some? ==> k <= done)
    && Concatenated(pages, k) == Shown(rows[..done], sel)
  }

  lemma {:induction false} Consumed(snapshots: map<nat, seq<Row>>, requests: seq<Request>, pages: seq<Page>, k: nat)
    requires Chained(snapshots, requests, pages) && 0 < k <= |requests|
    ensures ConsumedBy(snapshots[requests[0].generation], requests[0].sel, pages, k)
  {
    var rows := snapshots[requests[0].generation];
    var q := requests[k-1];
    ViewIsFixed(snapshots, requests, pages, k - 1);
    assert SameView(requests[0], q) && PageExact(q, rows, pages[k-1]) && Sorted(rows);
    if k == 1 {
      FirstPage(q, rows, pages);
    } else {
      Consumed(snapshots, requests, pages, k - 1);
      assert q.cursor == pages[k-2].next && q.cursor.Some?;
      NextPage(q, rows, pages, k);
    }
  }

  lemma {:induction false} FirstPage(q: Request, rows: seq<Row>, pages: seq<Page>)
    requires pages != [] && pages[0].Ok? && PageExact(q, rows, pages[0]) && q.cursor.None? && Sorted(rows)
    ensures ConsumedBy(rows, q.sel, pages, 1)
  {
    ZeroIsPastNothing(rows);
    assert rows[..0] == [];
    assert Concatenated(pages, 0) == [];
    Stepped(q, rows, pages[0], []);
  }

  lemma {:induction false} NextPage(q: Request, rows: seq<Row>, pages: seq<Page>, k: nat)
    requires 1 < k <= |pages| && (forall i :: 0 <= i < k ==> pages[i].Ok?) && PageExact(q, rows, pages[k-1])
    requires q.cursor == pages[k-2].next && q.cursor.Some? && ConsumedBy(rows, q.sel, pages, k - 1)
    ensures ConsumedBy(rows, q.sel, pages, k)
  {
    Stepped(q, rows, pages[k-1], Concatenated(pages, k - 1));
  }

  /** The pages of a run that reached its end show exactly the selected rows of one generation, in order,
      each once; and a run has at most one page more than the generation has rows. */
  lemma {:induction false} PagesShowEverythingOnce(
      snapshots: map<nat, seq<Row>>, requests: seq<Request>, pages: seq<Page>)
    requires Follows(snapshots, requests, pages)
    ensures |requests| <= |snapshots[requests[0].generation]| + 1
    ensures pages[|pages| - 1].next.None? ==>
              Concatenated(pages, |pages|) == Shown(snapshots[requests[0].generation], requests[0].sel)
  {
    var rows := snapshots[requests[0].generation];
    FollowingIsChained(snapshots, requests, pages);
    Consumed(snapshots, requests, pages, |pages|);
    assert rows[..|rows|] == rows;
  }

  lemma {:induction false} ShownMembers(rows: seq<Row>, sel: Selection)
    ensures forall r :: r in Shown(rows, sel) <==> r in rows && Selected(r, sel)
  {
    if rows != [] {
      var k := |rows| - 1;
      ShownMembers(rows[..k], sel);
      assert rows == rows[..k] + [rows[k]];
    }
  }

  lemma SortedAppend(rows: seq<Row>, last: Row)
    requires Sorted(rows) && last.id > 0 && forall r :: r in rows ==> r.id < last.id
    ensures Sorted(rows + [last])
  {
  }

  lemma {:induction false} ShownSorted(rows: seq<Row>, sel: Selection)
    requires Sorted(rows)
    ensures Sorted(Shown(rows, sel))
  {
    if rows != [] {
      var k := |rows| - 1;
      ShownSorted(rows[..k], sel);
      ShownMembers(rows[..k], sel);
      if Selected(rows[k], sel) { SortedAppend(Shown(rows[..k], sel), rows[k]); }
    }
  }

  /** What is shown is the selected rows, in the database's order. */
  lemma ShownIsFilter(rows: seq<Row>, sel: Selection)
    requires Sorted(rows)
    ensures forall r :: r in Shown(rows, sel) <==> r in rows && Selected(r, sel)
    ensures Sorted(Shown(rows, sel))
  {
    ShownMembers(rows, sel);
    ShownSorted(rows, sel);
  }
}
