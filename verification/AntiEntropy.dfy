/**
 The replication sink, and two nodes that drain each other's mirror export:
 whatever the page sizes, batch splits, crashes, denials and re-sends, a node
 that reached the end of the other's journal holds the winners of everything
 that was ever delivered to either.
 */
module AntiEntropy {
  import opened Prelude
  import opened Json
  import opened Events
  import opened Replacement
  import opened Journal
  import opened Export

  // ----------------------------------------------------------------- sink

  datatype Outcome = WasStored | WasDuplicate | WasSuperseded | Rejected(reason: string)

  datatype Receipt = Receipt(source: string, cursor: string, eventId: string, outcome: Outcome)

  function MessageText(m: Message): string {
    match m
    case Stored => "stored"
    case Duplicate => "duplicate"
    case Superseded => "superseded"
    case Ephemeral => "ephemeral"
    case Invalid => "invalid"
  }

  /** One replicated record through the ingest pipeline. */
  function ApplyRecord(verify: Event -> bool, t: Tables, source: string, r: Record): (Tables, Outcome) {
    if r.source != source then
      (t, Rejected("record source does not match the authenticated batch"))
    else if IsEphemeralKind(r.event.kind) then
      (t, Rejected("ephemeral events are not part of durable replication"))
    else if r.event.kind == KIND_AUTH || r.event.kind == KIND_HTTP_AUTH then
      (t, Rejected("authentication events are never journaled"))
    else
      var (t', m) := Apply(verify, t, Delivery(r.event, Some(source), false));
      match m
      case Stored => (t', WasStored)
      case Duplicate => (t', WasDuplicate)
      case Superseded => (t', WasSuperseded)
      case Ephemeral => (t', Rejected("unexpected accepted outcome: " + MessageText(m)))
      case Invalid => (t', Rejected(MessageText(m)))
  }

  datatype Ingested = Ingested(tables: Tables, receipts: seq<Receipt>, checkpoint: Option<string>)

  /** Records in order, stopping at the first rejection; the checkpoint is the last accepted cursor. */
  function Ingest(verify: Event -> bool, t: Tables, source: string, rs: seq<Record>): Ingested
    decreases |rs|
  {
    if rs == [] then Ingested(t, [], None)
    else
      var (t', outcome) := ApplyRecord(verify, t, source, rs[0]);
      var receipt := Receipt(rs[0].source, rs[0].cursor, rs[0].event.id, outcome);
      if outcome.Rejected? then Ingested(t', [receipt], None)
      else
        var rest := Ingest(verify, t', source, rs[1..]);
        Ingested(rest.tables, [receipt] + rest.receipts,
                 if rest.checkpoint.Some? then rest.checkpoint else Some(rs[0].cursor))
  }

  function RecordBodies(rs: seq<Record>): set<Event> {
    set r | r in rs :: Body(r.event)
  }

  predicate Sound(verify: Event -> bool, source: string, rs: seq<Record>) {
    forall r | r in rs :: r.source == source && Counts(verify, r.event)
  }

  lemma ApplyRecordTakes(verify: Event -> bool, t: Tables, source: string, r: Record)
    requires r.source == source && Counts(verify, r.event)
    ensures var (t', outcome) := ApplyRecord(verify, t, source, r);
            !outcome.Rejected? && t' == Apply(verify, t, Delivery(r.event, Some(source), false)).0
  {
  }

  lemma ApplyRecordSound(verify: Event -> bool, t: Tables, ds: set<Event>, source: string, r: Record)
    requires HashBinding(verify) && Represents(verify, t, ds)
    requires r.source == source && Counts(verify, r.event)
    ensures var (t', outcome) := ApplyRecord(verify, t, source, r);
            !outcome.Rejected? && Represents(verify, t', ds + {Body(r.event)})
  {
    ApplyRepresents(verify, t, ds, Delivery(r.event, Some(source), false));
    ApplyRecordTakes(verify, t, source, r);
    assert Adds(verify, r.event) == {Body(r.event)};
  }

  lemma RecordBodiesCons(rs: seq<Record>)
    requires rs != []
    ensures RecordBodies(rs) == {Body(rs[0].event)} + RecordBodies(rs[1..])
  {
    assert rs == [rs[0]] + rs[1..];
  }

  /** Records of durable verified events are all accepted, and the checkpoint names the last. */
  lemma {:induction false} IngestSound(verify: Event -> bool, t: Tables, ds: set<Event>, source: string, rs: seq<Record>)
    requires HashBinding(verify) && Represents(verify, t, ds) && Sound(verify, source, rs)
    ensures Represents(verify, Ingest(verify, t, source, rs).tables, ds + RecordBodies(rs))
    ensures Ingest(verify, t, source, rs).checkpoint ==
            if rs == [] then None else Some(rs[|rs| - 1].cursor)
    ensures |Ingest(verify, t, source, rs).receipts| == |rs|
    decreases |rs|
  {
    if rs == [] {
      assert ds + RecordBodies(rs) == ds;
    } else {
      assert rs[0] in rs;
      ApplyRecordSound(verify, t, ds, source, rs[0]);
      var b, t' := Body(rs[0].event), ApplyRecord(verify, t, source, rs[0]).0;
      assert forall r | r in rs[1..] :: r in rs;
      IngestSound(verify, t', ds + {b}, source, rs[1..]);
      RecordBodiesCons(rs);
      assert ds + {b} + RecordBodies(rs[1..]) == ds + RecordBodies(rs);
    }
  }

  /** What one more record does to a batch that was accepted so far. */
  lemma {:induction false} IngestNext(verify: Event -> bool, t: Tables, source: string, rs: seq<Record>, n: nat)
    requires n < |rs| && |Ingest(verify, t, source, rs[..n]).receipts| == n
    requires n > 0 ==> !Ingest(verify, t, source, rs[..n]).receipts[n - 1].outcome.Rejected?
    ensures var done := Ingest(verify, t, source, rs[..n]);
            var (t', outcome) := ApplyRecord(verify, done.tables, source, rs[n]);
            var receipt := Receipt(rs[n].source, rs[n].cursor, rs[n].event.id, outcome);
            var next := Ingested(t', done.receipts + [receipt],
                                 if outcome.Rejected? then done.checkpoint else Some(rs[n].cursor));
            && Ingest(verify, t, source, rs[..n + 1]) == next
            && (outcome.Rejected? ==> Ingest(verify, t, source, rs) == next)
    decreases n
  {
    if n == 0 {
      assert rs[..1][1..] == [] && rs[..1][0] == rs[0];
    } else {
      var t' := ApplyRecord(verify, t, source, rs[0]).0;
      assert rs[..n][1..] == rs[1..][..n - 1] && rs[..n + 1][1..] == rs[1..][..n];
      IngestNext(verify, t', source, rs[1..], n - 1);
    }
  }

  // ------------------------------------------------------------- two nodes

  /**
   A node as a sink. `marks` is history: per stream, how many rows of the source's
   journal attempts have covered from its start. Checkpoints may fall behind it.
   */
  datatype Node = Node(tables: Tables, checkpoints: map<string, string>, marks: map<string, nat>)

  datatype System = System(a: Node, b: Node)

  /** One attempt to move a page: where to resume, how much to send, whether the sink dies midway. */
  datatype Attempt = Attempt(back: nat, limit: nat, take: nat, crash: Option<nat>)

  datatype Act =
    | DeliverA(d: Delivery)
    | DeliverB(d: Delivery)
    | TransferAB(x: Attempt)
    | TransferBA(x: Attempt)

  const STREAM_A := "a"
  const STREAM_B := "b"

  const START := System(Node(EMPTY, map[], map[]), Node(EMPTY, map[], map[]))

  function NoFilters(fs: seq<Json>, e: Event): bool {
    false
  }

  function Reached(to: Node, stream: string): nat {
    if stream in to.checkpoints && IsCursor(to.checkpoints[stream])
    then Position(Some(to.checkpoints[stream]))
    else 0
  }

  function Mark(to: Node, stream: string): nat {
    if stream in to.marks then to.marks[stream] else 0
  }

  function Most(a: nat, b: nat): nat {
    if a < b then b else a
  }

  /**
   Where an attempt resumes. A puller resumes from a cursor of its own, which an
   earlier attempt of any puller got to, whatever the sink's checkpoint says by now.
   */
  function Resume(to: Node, stream: string, x: Attempt): (n: nat)
    ensures n <= Mark(to, stream)
  {
    if x.back >= Mark(to, stream) then 0 else Mark(to, stream) - x.back
  }

  /** The records one attempt sends: part of the page that follows the resume point. */
  function Sent(from: Node, to: Node, stream: string, x: Attempt): seq<Record> {
    var n := Resume(to, stream, x);
    CursorRoundTrip(n);
    var batch := ReadPage(NoFilters, Mirror, from.tables.journal, Request(stream, Some(Cursor(n)), x.limit));
    batch.records[..Least(x.take, |batch.records|)]
  }

  /** What of it the sink gets to: a crash cuts the batch short. */
  function Used(from: Node, to: Node, stream: string, x: Attempt): seq<Record> {
    var sent := Sent(from, to, stream, x);
    if x.crash.Some? then sent[..Least(x.crash.value, |sent|)] else sent
  }

  /** Where an attempt gets to. */
  function GotTo(from: Node, to: Node, stream: string, x: Attempt): nat {
    Resume(to, stream, x) + |Used(from, to, stream, x)|
  }

  /**
   A batch at the sink, which covers the rows after `n`. The checkpoint is only written
   when the whole call returns, and then overwritten.
   */
  function Land(verify: Event -> bool, to: Node, stream: string, used: seq<Record>, n: nat, whole: bool): Node {
    var done := Ingest(verify, to.tables, stream, used);
    Node(done.tables,
         if whole && done.checkpoint.Some?
         then to.checkpoints[stream := done.checkpoint.value] else to.checkpoints,
         to.marks[stream := Most(Mark(to, stream), n + |used|)])
  }

  function Transfer(verify: Event -> bool, from: Node, to: Node, stream: string, x: Attempt): Node {
    Land(verify, to, stream, Used(from, to, stream, x), Resume(to, stream, x), x.crash.None?)
  }

  function Take(verify: Event -> bool, s: System, act: Act): System {
    match act
    case DeliverA(d) => s.(a := s.a.(tables := Apply(verify, s.a.tables, d).0))
    case DeliverB(d) => s.(b := s.b.(tables := Apply(verify, s.b.tables, d).0))
    case TransferAB(x) => s.(b := Transfer(verify, s.a, s.b, STREAM_A, x))
    case TransferBA(x) => s.(a := Transfer(verify, s.b, s.a, STREAM_B, x))
  }

  function TakeAll(verify: Event -> bool, s: System, acts: seq<Act>): System {
    if acts == [] then s
    else Take(verify, TakeAll(verify, s, acts[..|acts| - 1]), acts[|acts| - 1])
  }

  /** What clients delivered, to either node; replication adds nothing to it. */
  function Outside(verify: Event -> bool, acts: seq<Act>): set<Event> {
    set act | act in acts && (act.DeliverA? || act.DeliverB?) && Counts(verify, act.d.event) :: Body(act.d.event)
  }

  // -------------------------------------------------------------- invariant

  /** Every row up to the mark was accepted, and the stored checkpoint is not past it. */
  ghost predicate Link(from: Node, to: Node, stream: string) {
    && (stream in to.checkpoints ==> IsCursor(to.checkpoints[stream]))
    && Reached(to, stream) <= Mark(to, stream) <= |from.tables.journal|
    && forall i | 0 <= i < Mark(to, stream) :: from.tables.journal[i].event.id in to.tables.accepted
  }

  ghost predicate Consistent(verify: Event -> bool, s: System, da: set<Event>, db: set<Event>, all: set<Event>) {
    && Represents(verify, s.a.tables, da)
    && Represents(verify, s.b.tables, db)
    && da + db == all
    && Link(s.a, s.b, STREAM_A)
    && Link(s.b, s.a, STREAM_B)
  }

  /** Journals only grow at the end, and acceptance is never withdrawn. */
  predicate Grew(t: Tables, t': Tables) {
    && t.accepted.Keys <= t'.accepted.Keys
    && |t.journal| <= |t'.journal|
    && forall i | 0 <= i < |t.journal| :: t'.journal[i].event == t.journal[i].event
  }

  lemma ApplyGrows(verify: Event -> bool, t: Tables, d: Delivery)
    ensures Grew(t, Apply(verify, t, d).0)
  {
  }

  lemma ApplyRecordGrows(verify: Event -> bool, t: Tables, source: string, r: Record)
    ensures Grew(t, ApplyRecord(verify, t, source, r).0)
  {
    ApplyGrows(verify, t, Delivery(r.event, Some(source), false));
  }

  lemma GrewTwice(a: Tables, b: Tables, c: Tables)
    requires Grew(a, b) && Grew(b, c)
    ensures Grew(a, c)
  {
  }

  lemma {:induction false} IngestGrows(verify: Event -> bool, t: Tables, source: string, rs: seq<Record>)
    ensures Grew(t, Ingest(verify, t, source, rs).tables)
    decreases |rs|
  {
    if rs != [] {
      var t' := ApplyRecord(verify, t, source, rs[0]).0;
      ApplyRecordGrows(verify, t, source, rs[0]);
      IngestGrows(verify, t', source, rs[1..]);
      GrewTwice(t, t', Ingest(verify, t', source, rs[1..]).tables);
    }
  }

  lemma TransferGrows(verify: Event -> bool, from: Node, to: Node, stream: string, x: Attempt)
    ensures Grew(to.tables, Transfer(verify, from, to, stream, x).tables)
  {
    IngestGrows(verify, to.tables, stream, Used(from, to, stream, x));
  }

  lemma LinkGrows(from: Node, to: Node, stream: string, from': Node, to': Node)
    requires Link(from, to, stream)
    requires Grew(from.tables, from'.tables) && Grew(to.tables, to'.tables)
    requires to'.checkpoints == to.checkpoints && to'.marks == to.marks
    ensures Link(from', to', stream)
  {
  }

  /** With a mirror export every row is a record. */
  lemma {:induction false} MirrorRecords(source: string, rows: seq<Row>)
    ensures |Records(NoFilters, Mirror, source, rows)| == |rows|
    ensures forall i | 0 <= i < |rows| ::
              Records(NoFilters, Mirror, source, rows)[i] == Record(source, Cursor(rows[i].sequence), rows[i].event)
  {
    if rows != [] { MirrorRecords(source, rows[..|rows| - 1]); }
  }

  /** `rs` are the mirror records of the rows that follow row `n`. */
  ghost predicate IsRun(j: seq<Row>, stream: string, rs: seq<Record>, n: nat) {
    && n + |rs| <= |j|
    && forall k | 0 <= k < |rs| :: rs[k] == Record(stream, Cursor(n + k + 1), j[n + k].event)
  }

  lemma MirrorPage(j: seq<Row>, stream: string, n: nat, limit: nat)
    requires Numbered(j, 0) && n <= |j| && IsCursor(Cursor(n)) && Position(Some(Cursor(n))) == n
    ensures var rs := ReadPage(NoFilters, Mirror, j, Request(stream, Some(Cursor(n)), limit)).records;
            IsRun(j, stream, rs, n) && |rs| == Least(Least(limit, MAX_READ_BATCH), |j| - n)
  {
    var m := Least(n + Least(limit, MAX_READ_BATCH), |j|);
    var rs := ReadPage(NoFilters, Mirror, j, Request(stream, Some(Cursor(n)), limit)).records;
    ScanIsSlice(j, 0, n, Least(limit, MAX_READ_BATCH));
    assert rs == Records(NoFilters, Mirror, stream, j[n..m]);
    MirrorRecords(stream, j[n..m]);
    SliceIsRun(j, stream, rs, n, m);
  }

  lemma SliceIsRun(j: seq<Row>, stream: string, rs: seq<Record>, n: nat, m: nat)
    requires Numbered(j, 0) && n <= m <= |j| && |rs| == m - n
    requires forall i | 0 <= i < |rs| :: rs[i] == Record(stream, Cursor(j[n..m][i].sequence), j[n..m][i].event)
    ensures IsRun(j, stream, rs, n)
  {
    forall k | 0 <= k < |rs| ensures rs[k] == Record(stream, Cursor(n + k + 1), j[n + k].event) {
      assert j[n..m][k] == j[n + k];
    }
  }

  /** An attempt sends a run of consecutive rows that starts inside the accepted prefix. */
  lemma SentIsRun(verify: Event -> bool, from: Node, to: Node, stream: string, x: Attempt)
    requires JournalOk(verify, from.tables.journal) && Link(from, to, stream)
    ensures IsRun(from.tables.journal, stream, Sent(from, to, stream, x), Resume(to, stream, x))
    ensures x.limit >= 1 && x.take >= 1 && Resume(to, stream, x) < |from.tables.journal| ==>
              Sent(from, to, stream, x) != []
  {
    var j := from.tables.journal;
    forall i | 0 <= i < |j| ensures j[i].sequence == i + 1 { assert RowOk(verify, j, i); }
    CursorRoundTrip(Resume(to, stream, x));
    MirrorPage(j, stream, Resume(to, stream, x), x.limit);
  }

  lemma RunIsSound(verify: Event -> bool, from: Node, df: set<Event>, stream: string, rs: seq<Record>, n: nat)
    requires Represents(verify, from.tables, df) && IsRun(from.tables.journal, stream, rs, n)
    ensures Sound(verify, stream, rs) && RecordBodies(rs) <= df
  {
    forall r | r in rs ensures r.source == stream && Counts(verify, r.event) && Body(r.event) in df {
      var k :| 0 <= k < |rs| && rs[k] == r;
      assert RowOk(verify, from.tables.journal, n + k);
      assert Body(from.tables.journal[n + k].event) in JournalBodies(from.tables);
    }
  }

  predicate OthersKept(to: Node, to': Node, stream: string) {
    && to'.checkpoints.Keys - {stream} == to.checkpoints.Keys - {stream}
    && forall other | other in to.checkpoints && other != stream ::
         other in to'.checkpoints && to'.checkpoints[other] == to.checkpoints[other]
  }

  /** A run of the source's rows lands: both nodes stay in step with what was delivered to them. */
  lemma LandKeeps(verify: Event -> bool, from: Node, to: Node, df: set<Event>, dt: set<Event>, stream: string, used: seq<Record>, n: nat, whole: bool)
    returns (dt': set<Event>)
    requires HashBinding(verify)
    requires Represents(verify, from.tables, df) && Represents(verify, to.tables, dt) && Link(from, to, stream)
    requires IsRun(from.tables.journal, stream, used, n) && n <= Mark(to, stream)
    ensures var to' := Land(verify, to, stream, used, n, whole);
            && Represents(verify, to'.tables, dt') && Link(from, to', stream)
            && dt <= dt' <= dt + df
            && OthersKept(to, to', stream)
  {
    var to' := Land(verify, to, stream, used, n, whole);
    dt' := dt + RecordBodies(used);
    RunIsSound(verify, from, df, stream, used, n);
    IngestSound(verify, to.tables, dt, stream, used);
    IngestGrows(verify, to.tables, stream, used);
    LinkMoves(verify, from, to, to', dt', stream, used, n, whole && used != []);
  }

  /** Any attempt does. */
  lemma TransferKeeps(verify: Event -> bool, from: Node, to: Node, df: set<Event>, dt: set<Event>, stream: string, x: Attempt)
    returns (dt': set<Event>)
    requires HashBinding(verify)
    requires Represents(verify, from.tables, df) && Represents(verify, to.tables, dt) && Link(from, to, stream)
    ensures var to' := Transfer(verify, from, to, stream, x);
            && Represents(verify, to'.tables, dt') && Link(from, to', stream)
            && dt <= dt' <= dt + df
            && OthersKept(to, to', stream)
  {
    SentIsRun(verify, from, to, stream, x);
    dt' := LandKeeps(verify, from, to, df, dt, stream, Used(from, to, stream, x), Resume(to, stream, x), x.crash.None?);
  }

  lemma LinkMoves(verify: Event -> bool, from: Node, to: Node, to': Node, dt': set<Event>, stream: string, used: seq<Record>, n: nat, completed: bool)
    requires Link(from, to, stream) && Grew(to.tables, to'.tables) && n <= Mark(to, stream)
    requires IsRun(from.tables.journal, stream, used, n) && (completed ==> used != [])
    requires Represents(verify, to'.tables, dt') && RecordBodies(used) <= dt'
    requires to'.checkpoints == if completed then to.checkpoints[stream := used[|used| - 1].cursor] else to.checkpoints
    requires to'.marks == to.marks[stream := Most(Mark(to, stream), n + |used|)]
    ensures Link(from, to', stream) && OthersKept(to, to', stream)
  {
    MarkMoves(verify, from, to, to', dt', stream, used, n);
    CheckpointMoves(from, to, to', stream, used, n, completed);
  }

  /** The mark moves to the end of the run that was ingested, if that is further. */
  lemma MarkMoves(verify: Event -> bool, from: Node, to: Node, to': Node, dt': set<Event>, stream: string, used: seq<Record>, n: nat)
    requires Link(from, to, stream) && Grew(to.tables, to'.tables) && n <= Mark(to, stream)
    requires IsRun(from.tables.journal, stream, used, n)
    requires Represents(verify, to'.tables, dt') && RecordBodies(used) <= dt'
    requires to'.marks == to.marks[stream := Most(Mark(to, stream), n + |used|)]
    ensures Mark(to', stream) == Most(Mark(to, stream), n + |used|) <= |from.tables.journal|
    ensures forall i | 0 <= i < Mark(to', stream) :: from.tables.journal[i].event.id in to'.tables.accepted
  {
    RunAccepted(verify, from, to', dt', stream, used, n);
    forall i | 0 <= i < Mark(to', stream) ensures from.tables.journal[i].event.id in to'.tables.accepted {
      if i < Mark(to, stream) { assert from.tables.journal[i].event.id in to.tables.accepted; }
    }
  }

  /** A completed batch puts the checkpoint at the end of the run, forward or back. */
  lemma CheckpointMoves(from: Node, to: Node, to': Node, stream: string, used: seq<Record>, n: nat, completed: bool)
    requires Link(from, to, stream) && IsRun(from.tables.journal, stream, used, n)
    requires completed ==> used != []
    requires to'.checkpoints == if completed then to.checkpoints[stream := used[|used| - 1].cursor] else to.checkpoints
    requires Mark(to', stream) == Most(Mark(to, stream), n + |used|)
    ensures stream in to'.checkpoints ==> IsCursor(to'.checkpoints[stream])
    ensures Reached(to', stream) == if completed then n + |used| else Reached(to, stream)
    ensures Reached(to', stream) <= Mark(to', stream) && OthersKept(to, to', stream)
  {
    CursorRoundTrip(n + |used|);
  }

  /** The rows of an ingested run are accepted. */
  lemma RunAccepted(verify: Event -> bool, from: Node, to: Node, dt: set<Event>, stream: string, used: seq<Record>, n: nat)
    requires IsRun(from.tables.journal, stream, used, n)
    requires Represents(verify, to.tables, dt) && RecordBodies(used) <= dt
    ensures forall i | n <= i < n + |used| :: from.tables.journal[i].event.id in to.tables.accepted
  {
    forall i | n <= i < n + |used| ensures from.tables.journal[i].event.id in to.tables.accepted {
      var r := used[i - n];
      assert Body(r.event) in RecordBodies(used);
      assert r.event.id in Ids(dt);
    }
  }

  // --------------------------------------------------------------- all runs

  lemma DeliveryKeeps(verify: Event -> bool, from: Node, to: Node, df: set<Event>, d: Delivery, stream: string, back: string)
    requires HashBinding(verify) && Represents(verify, from.tables, df)
    requires Link(from, to, stream) && Link(to, from, back)
    ensures var from' := from.(tables := Apply(verify, from.tables, d).0);
            && Represents(verify, from'.tables, df + Adds(verify, d.event))
            && Link(from', to, stream) && Link(to, from', back)
  {
    ApplyRepresents(verify, from.tables, df, d);
    ApplyGrows(verify, from.tables, d);
    var from' := from.(tables := Apply(verify, from.tables, d).0);
    LinkGrows(from, to, stream, from', to);
    LinkGrows(to, from, back, to, from');
  }

  lemma OutsideNext(verify: Event -> bool, front: seq<Act>, last: Act)
    ensures Outside(verify, front + [last]) ==
            Outside(verify, front) +
            if last.DeliverA? || last.DeliverB? then Adds(verify, last.d.event) else {}
  {
  }

  /** Every step of every run keeps the two-node invariant. */
  lemma TakeKeeps(verify: Event -> bool, s: System, da: set<Event>, db: set<Event>, all: set<Event>, act: Act)
    returns (da': set<Event>, db': set<Event>)
    requires HashBinding(verify) && Consistent(verify, s, da, db, all)
    ensures Consistent(verify, Take(verify, s, act), da', db',
                       all + if act.DeliverA? || act.DeliverB? then Adds(verify, act.d.event) else {})
    ensures da <= da' && db <= db'
  {
    da', db' := da, db;
    var s' := Take(verify, s, act);
    match act
    case DeliverA(d) =>
      DeliveryKeeps(verify, s.a, s.b, da, d, STREAM_A, STREAM_B);
      da' := da + Adds(verify, d.event);
    case DeliverB(d) =>
      DeliveryKeeps(verify, s.b, s.a, db, d, STREAM_B, STREAM_A);
      db' := db + Adds(verify, d.event);
    case TransferAB(x) =>
      db' := TransferKeeps(verify, s.a, s.b, da, db, STREAM_A, x);
      TransferGrows(verify, s.a, s.b, STREAM_A, x);
      LinkGrows(s.b, s.a, STREAM_B, s'.b, s'.a);
      assert da' + db' == all + {};
    case TransferBA(x) =>
      da' := TransferKeeps(verify, s.b, s.a, db, da, STREAM_B, x);
      TransferGrows(verify, s.b, s.a, STREAM_B, x);
      LinkGrows(s.a, s.b, STREAM_A, s'.a, s'.b);
      assert da' + db' == all + {};
  }

  lemma StartIsConsistent(verify: Event -> bool)
    ensures Consistent(verify, START, {}, {}, {})
  {
    assert Ids({}) == {};
  }

  lemma {:induction false} RunsAreConsistent(verify: Event -> bool, acts: seq<Act>) returns (da: set<Event>, db: set<Event>)
    requires HashBinding(verify)
    ensures Consistent(verify, TakeAll(verify, START, acts), da, db, Outside(verify, acts))
  {
    if acts == [] {
      da, db := {}, {};
      StartIsConsistent(verify);
    } else {
      var front, last := acts[..|acts| - 1], acts[|acts| - 1];
      var ma, mb := RunsAreConsistent(verify, front);
      OutsideNext(verify, front, last);
      assert acts == front + [last];
      da, db := TakeKeeps(verify, TakeAll(verify, START, front), ma, mb, Outside(verify, front), last);
    }
  }

  /** A node that accepted every row of another node's journal holds the winners of both. */
  lemma AcceptedAllMeansWinners(verify: Event -> bool, from: Node, to: Node, df: set<Event>, dt: set<Event>)
    requires HashBinding(verify)
    requires Represents(verify, from.tables, df) && Represents(verify, to.tables, dt)
    requires forall i | 0 <= i < |from.tables.journal| :: from.tables.journal[i].event.id in to.tables.accepted
    ensures EffectiveBodies(to.tables) == Winners(df + dt)
  {
    var j := from.tables.journal;
    forall i | 0 <= i < |j| ensures Body(j[i].event) in dt {
      assert RowOk(verify, j, i);
      DuplicateIsDelivered(verify, to.tables, dt, j[i].event);
    }
    EffectiveIsWinners(verify, from.tables, df);
    EffectiveIsWinners(verify, to.tables, dt);
    Absorb(JournalBodies(from.tables), df, dt);
    assert JournalBodies(from.tables) + dt == dt;
  }

  /**
   Anti-entropy: in every run, as soon as attempts have covered all of A's journal,
   B holds exactly the winners of everything clients delivered to A or B, although
   A exports none of the events it judged superseded. This does not depend on which
   puller got there, nor on a re-send having lowered the checkpoint since. The same
   holds of A, and when both are at the end they agree.
   */
  lemma DrainedMeansConverged(verify: Event -> bool, acts: seq<Act>)
    requires HashBinding(verify)
    ensures var s := TakeAll(verify, START, acts);
            && (Mark(s.b, STREAM_A) == |s.a.tables.journal| ==>
                  EffectiveBodies(s.b.tables) == Winners(Outside(verify, acts)))
            && (Mark(s.a, STREAM_B) == |s.b.tables.journal| ==>
                  EffectiveBodies(s.a.tables) == Winners(Outside(verify, acts)))
  {
    var da, db := RunsAreConsistent(verify, acts);
    var s := TakeAll(verify, START, acts);
    if Mark(s.b, STREAM_A) == |s.a.tables.journal| {
      AcceptedAllMeansWinners(verify, s.a, s.b, da, db);
    }
    if Mark(s.a, STREAM_B) == |s.b.tables.journal| {
      AcceptedAllMeansWinners(verify, s.b, s.a, db, da);
      assert db + da == da + db;
    }
  }

  /** A checkpoint that names the last row implies the same. */
  lemma CheckpointMeansConverged(verify: Event -> bool, acts: seq<Act>)
    requires HashBinding(verify)
    ensures var s := TakeAll(verify, START, acts);
            Reached(s.b, STREAM_A) == |s.a.tables.journal| ==>
              EffectiveBodies(s.b.tables) == Winners(Outside(verify, acts))
  {
    DrainedMeansConverged(verify, acts);
    var da, db := RunsAreConsistent(verify, acts);
  }

  /** In every run the stored checkpoint names a row whose event was accepted, as were all before it. */
  lemma CheckpointNamesAccepted(verify: Event -> bool, acts: seq<Act>, i: nat)
    requires HashBinding(verify)
    requires i < Reached(TakeAll(verify, START, acts).b, STREAM_A)
    ensures var s := TakeAll(verify, START, acts);
            i < |s.a.tables.journal| && s.a.tables.journal[i].event.id in s.b.tables.accepted
  {
    var da, db := RunsAreConsistent(verify, acts);
  }

  /** A position that an attempt got to stays within the mark, so its puller may go on from it at any time. */
  lemma {:induction false} CursorsStayGood(verify: Event -> bool, s: System, x: Attempt, acts: seq<Act>)
    ensures GotTo(s.a, s.b, STREAM_A, x) <= Mark(TakeAll(verify, Take(verify, s, TransferAB(x)), acts).b, STREAM_A)
  {
    if acts != [] { CursorsStayGood(verify, s, x, acts[..|acts| - 1]); }
  }

  predicate OnlyTransfers(acts: seq<Act>) {
    forall act | act in acts :: act.TransferAB? || act.TransferBA?
  }

  /** Once converged, replication alone does not disturb a node. */
  lemma {:induction false} ConvergedIsStable(verify: Event -> bool, s: System, da: set<Event>, db: set<Event>, all: set<Event>, acts: seq<Act>)
    returns (da': set<Event>, db': set<Event>)
    requires HashBinding(verify) && Consistent(verify, s, da, db, all) && OnlyTransfers(acts)
    ensures Consistent(verify, TakeAll(verify, s, acts), da', db', all)
    ensures EffectiveBodies(s.b.tables) == Winners(all) ==>
              EffectiveBodies(TakeAll(verify, s, acts).b.tables) == Winners(all)
  {
    da', db' := da, db;
    if acts != [] {
      var front, last := acts[..|acts| - 1], acts[|acts| - 1];
      assert last in acts && forall act | act in front :: act in acts;
      var ma, mb := ConvergedIsStable(verify, s, da, db, all, front);
      var m := TakeAll(verify, s, front);
      da', db' := TakeKeeps(verify, m, ma, mb, all, last);
      assert all + {} == all;
      EffectiveIsWinners(verify, m.b.tables, mb);
      EffectiveIsWinners(verify, Take(verify, m, last).b.tables, db');
      if EffectiveBodies(m.b.tables) == Winners(all) {
        Sandwich(mb, db', all);
      }
    }
  }

  lemma {:induction false} TakeAllConcat(verify: Event -> bool, s: System, xs: seq<Act>, ys: seq<Act>)
    ensures TakeAll(verify, s, xs + ys) == TakeAll(verify, TakeAll(verify, s, xs), ys)
  {
    if ys == [] {
      assert xs + ys == xs;
    } else {
      var front, last := ys[..|ys| - 1], ys[|ys| - 1];
      TakeAllConcat(verify, s, xs, front);
      assert (xs + ys)[..|xs + ys| - 1] == xs + front && (xs + ys)[|xs + ys| - 1] == last;
    }
  }

  /**
   Draining one way and then the other makes the effective sets equal: after
   any history in which B reached the end of A, followed by transfers only,
   until A reached the end of B.
   */
  lemma DrainBothWays(verify: Event -> bool, history: seq<Act>, back: seq<Act>)
    requires HashBinding(verify) && OnlyTransfers(back)
    requires var m := TakeAll(verify, START, history);
             Mark(m.b, STREAM_A) == |m.a.tables.journal|
    requires var s := TakeAll(verify, START, history + back);
             Mark(s.a, STREAM_B) == |s.b.tables.journal|
    ensures var s := TakeAll(verify, START, history + back);
            EffectiveBodies(s.a.tables) == EffectiveBodies(s.b.tables) == Winners(Outside(verify, history))
  {
    DrainedMeansConverged(verify, history);
    var da, db := RunsAreConsistent(verify, history);
    TakeAllConcat(verify, START, history, back);
    var ea, eb := ConvergedIsStable(verify, TakeAll(verify, START, history), da, db, Outside(verify, history), back);
    DrainedMeansConverged(verify, history + back);
    assert Outside(verify, history + back) == Outside(verify, history);
  }

  // -------------------------------------------------------------- progress

  predicate Undisturbed(x: Attempt) {
    x.limit >= 1 && x.take >= 1 && x.crash.None?
  }

  /** An undisturbed attempt gets past where it resumed, until the end is reached; the mark follows the furthest. */
  lemma TransferAdvances(verify: Event -> bool, from: Node, to: Node, df: set<Event>, dt: set<Event>, stream: string, x: Attempt)
    requires HashBinding(verify) && Undisturbed(x)
    requires Represents(verify, from.tables, df) && Represents(verify, to.tables, dt) && Link(from, to, stream)
    ensures Resume(to, stream, x) < |from.tables.journal| ==> Resume(to, stream, x) < GotTo(from, to, stream, x)
    ensures Mark(Transfer(verify, from, to, stream, x), stream) == Most(Mark(to, stream), GotTo(from, to, stream, x))
  {
    SentIsRun(verify, from, to, stream, x);
  }

  /** It goes on from the furthest position. */
  predicate Effectual(x: Attempt) {
    Undisturbed(x) && x.back == 0
  }

  lemma AttemptDrains(verify: Event -> bool, s: System, da: set<Event>, db: set<Event>, all: set<Event>, x: Attempt)
    returns (da': set<Event>, db': set<Event>)
    requires HashBinding(verify) && Consistent(verify, s, da, db, all) && Effectual(x)
    ensures var e := Take(verify, s, TransferAB(x));
            && e.a == s.a && Consistent(verify, e, da', db', all)
            && Mark(e.b, STREAM_A) >= Least(Mark(s.b, STREAM_A) + 1, |s.a.tables.journal|)
  {
    TransferAdvances(verify, s.a, s.b, da, db, STREAM_A, x);
    da', db' := TakeKeeps(verify, s, da, db, all, TransferAB(x));
    assert all + {} == all;
  }

  function Transfers(xs: seq<Attempt>): (acts: seq<Act>)
    ensures |acts| == |xs|
  {
    if xs == [] then [] else Transfers(xs[..|xs| - 1]) + [TransferAB(xs[|xs| - 1])]
  }

  /** As many undisturbed attempts as A has rows drain A into B, whatever the page and batch sizes. */
  lemma {:induction false} EnoughAttemptsDrain(verify: Event -> bool, s: System, da: set<Event>, db: set<Event>, all: set<Event>, xs: seq<Attempt>)
    returns (da': set<Event>, db': set<Event>)
    requires HashBinding(verify) && Consistent(verify, s, da, db, all)
    requires forall x | x in xs :: Effectual(x)
    ensures var e := TakeAll(verify, s, Transfers(xs));
            && e.a == s.a
            && Consistent(verify, e, da', db', all)
            && Mark(e.b, STREAM_A) >= Least(Mark(s.b, STREAM_A) + |xs|, |s.a.tables.journal|)
  {
    da', db' := da, db;
    if xs != [] {
      var front, last := xs[..|xs| - 1], xs[|xs| - 1];
      assert last in xs && forall x | x in front :: x in xs;
      var ma, mb := EnoughAttemptsDrain(verify, s, da, db, all, front);
      assert Transfers(xs)[..|front|] == Transfers(front) && Transfers(xs)[|front|] == TransferAB(last);
      da', db' := AttemptDrains(verify, TakeAll(verify, s, Transfers(front)), ma, mb, all, last);
    }
  }
}
