/**
 The replication export: journal pages addressed by cursors, and what a reader
 collects while the journal keeps growing.
 */
module Export {
  import opened Prelude
  import opened Json
  import opened Events
  import opened Journal

  const CURSOR_PREFIX := "cf-sqlite-v1:"
  const MAX_READ_BATCH := 500

  datatype Selection = Mirror | Filter(filters: seq<Json>) | FromSource(source: string)

  datatype Record = Record(source: string, cursor: string, event: Event)

  datatype Request = Request(source: string, cursor: Option<string>, limit: nat)

  datatype Batch = Batch(records: seq<Record>, nextCursor: string, caughtUp: bool)

  // ------------------------------------------------------------- requests

  function Cursor(sequence: nat): string {
    CURSOR_PREFIX + Decimal(sequence)
  }

  predicate IsCursor(s: string) {
    CURSOR_PREFIX < s && AllDigits(s[|CURSOR_PREFIX|..])
  }

  /** Where a validated cursor resumes: after this sequence number. */
  function Position(cursor: Option<string>): nat
    requires cursor.Some? ==> IsCursor(cursor.value)
  {
    if cursor.None? then 0 else ParseDecimal(cursor.value[|CURSOR_PREFIX|..])
  }

  lemma CursorRoundTrip(sequence: nat)
    ensures IsCursor(Cursor(sequence)) && Position(Some(Cursor(sequence))) == sequence
  {
    DecimalRoundTrip(sequence);
    assert Cursor(sequence)[|CURSOR_PREFIX|..] == Decimal(sequence);
  }

  /** Request validation. `limit` is absent when it is missing or not a safe integer. */
  function ParseRequest(source: string, cursor: Option<string>, limit: Option<int>): (r: Result<Request, string>)
    ensures r.Ok? <==>
              source != "" && (cursor.Some? ==> IsCursor(cursor.value)) && (limit.Some? ==> limit.value >= 1)
    ensures r.Ok? ==> r.value.source == source && r.value.cursor == cursor && r.value.limit >= 1
  {
    if source == "" then Err("replication read requires a source")
    else if cursor.Some? && !IsCursor(cursor.value) then Err("cursor was not issued by this source")
    else if limit.Some? && limit.value < 1 then Err("limit must be at least 1")
    else Ok(Request(source, cursor, if limit.Some? then limit.value else MAX_READ_BATCH))
  }

  // ---------------------------------------------------------------- pages

  /** Rows after a sequence number, in order, at most `limit` of them. */
  function Scan(j: seq<Row>, after: nat, limit: nat): seq<Row> {
    if j == [] || limit == 0 then []
    else if j[0].sequence > after then [j[0]] + Scan(j[1..], after, limit - 1)
    else Scan(j[1..], after, limit)
  }

  predicate Selects(matches: (seq<Json>, Event) -> bool, sel: Selection, row: Row) {
    match sel
    case Mirror => true
    case Filter(filters) => matches(filters, row.event)
    case FromSource(s) => row.source == Some(s)
  }

  /** The records of the selected rows, in row order. */
  function Records(matches: (seq<Json>, Event) -> bool, sel: Selection, source: string, rows: seq<Row>): seq<Record> {
    if rows == [] then []
    else
      var last := rows[|rows| - 1];
      Records(matches, sel, source, rows[..|rows| - 1]) +
      if Selects(matches, sel, last) then [Record(source, Cursor(last.sequence), last.event)] else []
  }

  function Least(a: nat, b: nat): nat {
    if a <= b then a else b
  }

  function ReadPage(matches: (seq<Json>, Event) -> bool, sel: Selection, j: seq<Row>, request: Request): Batch
    requires request.cursor.Some? ==> IsCursor(request.cursor.value)
  {
    var after := Position(request.cursor);
    var scanLimit := Least(request.limit, MAX_READ_BATCH);
    var rows := Scan(j, after, scanLimit);
    var lastScanned := if rows != [] then rows[|rows| - 1].sequence else after;
    Batch(Records(matches, sel, request.source, rows), Cursor(lastScanned), |rows| < scanLimit)
  }

  /** Row numbers count up from `base + 1`. */
  ghost predicate Numbered(j: seq<Row>, base: nat) {
    forall i | 0 <= i < |j| :: j[i].sequence == base + i + 1
  }

  lemma {:induction false} ScanIsSlice(j: seq<Row>, base: nat, after: nat, limit: nat)
    requires Numbered(j, base) && base <= after <= base + |j|
    ensures Scan(j, after, limit) == j[after - base..Least(after - base + limit, |j|)]
  {
    if j != [] && limit > 0 {
      var k, m := after - base, Least(after - base + limit, |j|);
      assert Numbered(j[1..], base + 1);
      if after > base {
        ScanIsSlice(j[1..], base + 1, after, limit);
        assert j[1..][k - 1..m - 1] == j[k..m];
      } else {
        ScanIsSlice(j[1..], base + 1, after + 1, limit - 1);
        ScanSkips(j[1..], base + 1, after, limit - 1);
        assert [j[0]] + j[1..][..m - 1] == j[0..m];
      }
    }
  }

  /** Below the first row, every starting point scans the same rows. */
  lemma {:induction false} ScanSkips(j: seq<Row>, base: nat, after: nat, limit: nat)
    requires Numbered(j, base) && after <= base
    ensures Scan(j, after, limit) == Scan(j, base, limit)
  {
    if j != [] && limit > 0 {
      ScanSkips(j[1..], base + 1, after, limit - 1);
      ScanSkips(j[1..], base + 1, base, limit - 1);
    }
  }

  lemma {:induction false} RecordsConcat(matches: (seq<Json>, Event) -> bool, sel: Selection, source: string, a: seq<Row>, b: seq<Row>)
    ensures Records(matches, sel, source, a + b) ==
            Records(matches, sel, source, a) + Records(matches, sel, source, b)
  {
    if b == [] {
      assert a + b == a;
    } else {
      RecordsConcat(matches, sel, source, a, b[..|b| - 1]);
      assert (a + b)[..|a + b| - 1] == a + b[..|b| - 1];
    }
  }

  /** Flags play no part in what is exported. */
  predicate SameExport(j: seq<Row>, n: seq<Row>) {
    |j| <= |n| && forall i | 0 <= i < |j| ::
      n[i].sequence == j[i].sequence && n[i].event == j[i].event && n[i].source == j[i].source
  }

  lemma {:induction false} RecordsStable(matches: (seq<Json>, Event) -> bool, sel: Selection, source: string, j: seq<Row>, n: seq<Row>)
    requires SameExport(j, n)
    ensures Records(matches, sel, source, n[..|j|]) == Records(matches, sel, source, j)
  {
    if j != [] {
      RecordsStable(matches, sel, source, j[..|j| - 1], n);
      assert n[..|j|][..|j| - 1] == n[..|j| - 1];
    }
  }

  lemma ApplyKeepsExport(verify: Event -> bool, t: Tables, d: Delivery)
    requires Numbered(t.journal, 0)
    ensures SameExport(t.journal, Apply(verify, t, d).0.journal)
    ensures Numbered(Apply(verify, t, d).0.journal, 0)
  {
  }

  /** One page read from position `n` covers exactly the next rows, and moves to their end. */
  lemma PageCoversSlice(matches: (seq<Json>, Event) -> bool, sel: Selection, j: seq<Row>, request: Request, n: nat)
    requires Numbered(j, 0) && n <= |j| && request.limit >= 1
    requires request.cursor.Some? ==> IsCursor(request.cursor.value)
    requires Position(request.cursor) == n
    ensures var batch := ReadPage(matches, sel, j, request);
            var m := Least(n + Least(request.limit, MAX_READ_BATCH), |j|);
            && batch.records == Records(matches, sel, request.source, j[n..m])
            && batch.nextCursor == Cursor(m)
            && (batch.caughtUp <==> |j| < n + Least(request.limit, MAX_READ_BATCH))
  {
    ScanIsSlice(j, 0, n, Least(request.limit, MAX_READ_BATCH));
  }

  lemma RecordsPrefix(matches: (seq<Json>, Event) -> bool, sel: Selection, source: string, j: seq<Row>, n: nat, m: nat)
    requires n <= m <= |j|
    ensures Records(matches, sel, source, j[..n]) + Records(matches, sel, source, j[n..m]) ==
            Records(matches, sel, source, j[..m])
  {
    RecordsConcat(matches, sel, source, j[..n], j[n..m]);
    assert j[..n] + j[n..m] == j[..m];
  }

  /** A page read after row `n` extends the reader's records to those of a longer prefix. */
  lemma PageExtends(matches: (seq<Json>, Event) -> bool, sel: Selection, j: seq<Row>, request: Request, n: nat) returns (m: nat)
    requires Numbered(j, 0) && n <= |j| && request.limit >= 1
    requires request.cursor.Some? ==> IsCursor(request.cursor.value)
    requires Position(request.cursor) == n
    ensures n <= m <= |j|
    ensures var batch := ReadPage(matches, sel, j, request);
            && IsCursor(batch.nextCursor) && Position(Some(batch.nextCursor)) == m
            && batch.nextCursor == Cursor(m)
            && Records(matches, sel, request.source, j[..n]) + batch.records ==
               Records(matches, sel, request.source, j[..m])
            && (if batch.caughtUp then m == |j| else n < m)
  {
    PageCoversSlice(matches, sel, j, request, n);
    m := Least(n + Least(request.limit, MAX_READ_BATCH), |j|);
    CursorRoundTrip(m);
    RecordsPrefix(matches, sel, request.source, j, n, m);
  }

  // -------------------------------------------------- reading while writing

  /** A reader's life: deliveries to the node interleaved with page reads. */
  datatype Move = Deliver(d: Delivery) | Page(limit: nat)

  datatype Reader = Reader(tables: Tables, cursor: Option<string>, collected: seq<Record>, caughtUp: bool)

  predicate Honest(moves: seq<Move>) {
    forall m | m in moves && m.Page? :: m.limit >= 1
  }

  function Follow(verify: Event -> bool, matches: (seq<Json>, Event) -> bool, sel: Selection, source: string, r: Reader, m: Move): Reader {
    match m
    case Deliver(d) => r.(tables := Apply(verify, r.tables, d).0, caughtUp := false)
    case Page(limit) =>
      if r.cursor.Some? && !IsCursor(r.cursor.value) then r
      else
        var batch := ReadPage(matches, sel, r.tables.journal, Request(source, r.cursor, limit));
        Reader(r.tables, Some(batch.nextCursor), r.collected + batch.records, batch.caughtUp)
  }

  function FollowAll(verify: Event -> bool, matches: (seq<Json>, Event) -> bool, sel: Selection, source: string, moves: seq<Move>): Reader {
    if moves == [] then Reader(EMPTY, None, [], false)
    else
      Follow(verify, matches, sel, source,
             FollowAll(verify, matches, sel, source, moves[..|moves| - 1]), moves[|moves| - 1])
  }

  /** The reader holds exactly the selected rows up to its cursor. */
  ghost predicate InStep(matches: (seq<Json>, Event) -> bool, sel: Selection, source: string, r: Reader) {
    && Numbered(r.tables.journal, 0)
    && (r.cursor.Some? ==> IsCursor(r.cursor.value))
    && Position(r.cursor) <= |r.tables.journal|
    && r.collected == Records(matches, sel, source, r.tables.journal[..Position(r.cursor)])
    && (r.caughtUp ==> Position(r.cursor) == |r.tables.journal|)
  }

  /**
   Lossless paging: for every interleaving of deliveries and page reads of any
   limits, the pages joined together are exactly the selected rows up to the
   cursor, once each and in sequence order; `caughtUp` means none is left.
   */
  lemma {:induction false} PagesAreLossless(verify: Event -> bool, matches: (seq<Json>, Event) -> bool, sel: Selection, source: string, moves: seq<Move>)
    requires Honest(moves)
    ensures InStep(matches, sel, source, FollowAll(verify, matches, sel, source, moves))
  {
    if moves != [] {
      var front, last := moves[..|moves| - 1], moves[|moves| - 1];
      PagesAreLossless(verify, matches, sel, source, front);
      var r := FollowAll(verify, matches, sel, source, front);
      match last
      case Deliver(d) => DeliverKeepsStep(verify, matches, sel, source, r, d);
      case Page(limit) => PageKeepsStep(verify, matches, sel, source, r, limit);
    }
  }

  lemma DeliverKeepsStep(verify: Event -> bool, matches: (seq<Json>, Event) -> bool, sel: Selection, source: string, r: Reader, d: Delivery)
    requires InStep(matches, sel, source, r)
    ensures InStep(matches, sel, source, Follow(verify, matches, sel, source, r, Deliver(d)))
  {
    ApplyKeepsExport(verify, r.tables, d);
    var j, n := r.tables.journal, Apply(verify, r.tables, d).0.journal;
    RecordsStable(matches, sel, source, j[..Position(r.cursor)], n);
  }

  lemma PageKeepsStep(verify: Event -> bool, matches: (seq<Json>, Event) -> bool, sel: Selection, source: string, r: Reader, limit: nat)
    requires InStep(matches, sel, source, r) && limit >= 1
    ensures InStep(matches, sel, source, Follow(verify, matches, sel, source, r, Page(limit)))
  {
    var m := PageExtends(matches, sel, r.tables.journal, Request(source, r.cursor, limit), Position(r.cursor));
  }

  /** What "exactly the selected rows" means, record by record. */
  lemma {:induction false} RecordsExact(matches: (seq<Json>, Event) -> bool, sel: Selection, source: string, rows: seq<Row>, r: Record)
    ensures r in Records(matches, sel, source, rows) <==>
            exists i | 0 <= i < |rows| ::
              Selects(matches, sel, rows[i]) && r == Record(source, Cursor(rows[i].sequence), rows[i].event)
  {
    if rows != [] {
      var front := rows[..|rows| - 1];
      RecordsExact(matches, sel, source, front, r);
      assert forall i | 0 <= i < |front| :: rows[i] == front[i];
    }
  }

  /** Cursors strictly increase within `(lo, hi]`. */
  ghost predicate Increasing(rs: seq<Record>, lo: nat, hi: nat) {
    && (forall i | 0 <= i < |rs| :: IsCursor(rs[i].cursor) && lo < Position(Some(rs[i].cursor)) <= hi)
    && (forall i, k | 0 <= i < k < |rs| :: Position(Some(rs[i].cursor)) < Position(Some(rs[k].cursor)))
  }

  lemma IncreasingMore(rs: seq<Record>, lo: nat, hi: nat, r: Record)
    requires Increasing(rs, lo, hi) && lo <= hi
    requires IsCursor(r.cursor) && Position(Some(r.cursor)) == hi + 1
    ensures Increasing(rs, lo, hi + 1) && Increasing(rs + [r], lo, hi + 1)
  {
  }

  /** No row is exported twice or out of order. */
  lemma {:induction false} RecordsOrdered(matches: (seq<Json>, Event) -> bool, sel: Selection, source: string, rows: seq<Row>, base: nat)
    requires Numbered(rows, base)
    ensures Increasing(Records(matches, sel, source, rows), base, base + |rows|)
  {
    if rows != [] {
      var front, last := rows[..|rows| - 1], rows[|rows| - 1];
      RecordsOrdered(matches, sel, source, front, base);
      CursorRoundTrip(last.sequence);
      var r := Record(source, Cursor(last.sequence), last.event);
      IncreasingMore(Records(matches, sel, source, front), base, base + |front|, r);
      assert Records(matches, sel, source, front) + [] == Records(matches, sel, source, front);
    }
  }

  // ---------------------------------------------------------------- drains

  /** The pull loop: pages until the node says it is caught up. */
  method Drain(matches: (seq<Json>, Event) -> bool, sel: Selection, j: seq<Row>, source: string, limit: nat)
    returns (out: seq<Record>, cursor: Option<string>)
    requires Numbered(j, 0) && limit >= 1
    ensures out == Records(matches, sel, source, j)
    ensures cursor == Some(Cursor(|j|))
  {
    out, cursor := [], None;
    ghost var n: nat := 0;
    while true
      invariant n <= |j|
      invariant cursor.Some? ==> IsCursor(cursor.value)
      invariant Position(cursor) == n
      invariant out == Records(matches, sel, source, j[..n])
      decreases |j| - n, |j| == n
    {
      var batch := ReadPage(matches, sel, j, Request(source, cursor, limit));
      ghost var m := PageExtends(matches, sel, j, Request(source, cursor, limit), n);
      out, cursor, n := out + batch.records, Some(batch.nextCursor), m;
      if batch.caughtUp {
        assert j[..n] == j;
        return;
      }
    }
  }
}
