/** The artifact reference index, and who may fetch a blob. */
module Artifacts {
  import opened Prelude
  import opened Json
  import opened Events
  import opened Journal
  import opened Export
  import opened Declarations

  function LowerChar(c: char): char {
    if 'A' <= c <= 'Z' then (c as int + 32) as char else c
  }

  function Lower(s: string): string {
    seq(|s|, i requires 0 <= i < |s| => LowerChar(s[i]))
  }

  predicate IsHex64(s: string) {
    |s| == 64 && forall i | 0 <= i < 64 :: '0' <= s[i] <= '9' || 'a' <= s[i] <= 'f'
  }

  /** The content hash one tag refers to, if it is a well-formed `x` tag. */
  function Reference(tag: seq<string>): Option<string> {
    if |tag| > 1 && tag[0] == "x" && IsHex64(Lower(tag[1])) then Some(Lower(tag[1])) else None
  }

  function References(tags: seq<seq<string>>): set<string> {
    set tag | tag in tags && Reference(tag).Some? :: Reference(tag).value
  }

  type Index = set<(string, string)>

  /** Index entries of one event. */
  function Entries(id: string, tags: seq<seq<string>>): Index {
    set sha | sha in References(tags) :: (sha, id)
  }

  /** The index as a scan of the whole journal. */
  function ScanIndex(j: seq<Row>): Index {
    set i, sha | 0 <= i < |j| && sha in References(j[i].event.tags) :: (sha, j[i].event.id)
  }

  // ------------------------------------------------------ life of the index

  /**
   The durable object over its whole life. `Legacy` deliveries were journaled
   by code that had no index yet; `Open` is construction, which backfills once.
   */
  datatype Life = Life(tables: Tables, index: Index, backfilled: bool, running: bool)

  datatype Moment = Legacy(d: Delivery) | Open | Evict | Live(d: Delivery)

  /** Rows the backfill looks at: those whose text passes a coarse prefilter. */
  function Backfill(like: Event -> bool, j: seq<Row>): Index {
    set i, sha | 0 <= i < |j| && like(j[i].event) && sha in References(j[i].event.tags) :: (sha, j[i].event.id)
  }

  ghost predicate KeepsReferences(like: Event -> bool) {
    forall e: Event :: References(e.tags) != {} ==> like(e)
  }

  function Live1(verify: Event -> bool, l: Life, d: Delivery): Life {
    var (t, m) := Apply(verify, l.tables, d);
    l.(tables := t, index := if m == Stored then l.index + Entries(d.event.id, d.event.tags) else l.index)
  }

  function Pass(verify: Event -> bool, like: Event -> bool, l: Life, m: Moment): Life {
    match m
    case Legacy(d) => if l.backfilled then l else l.(tables := Apply(verify, l.tables, d).0)
    case Open =>
      if l.backfilled then l.(running := true)
      else Life(l.tables, l.index + Backfill(like, l.tables.journal), true, true)
    case Evict => l.(running := false)
    case Live(d) => if l.running then Live1(verify, l, d) else l
  }

  function PassAll(verify: Event -> bool, like: Event -> bool, ms: seq<Moment>): Life {
    if ms == [] then Life(EMPTY, {}, false, false)
    else Pass(verify, like, PassAll(verify, like, ms[..|ms| - 1]), ms[|ms| - 1])
  }

  lemma AppendIndex(j: seq<Row>, e: Event, source: Option<string>)
    ensures ScanIndex(Append(j, e, source)) == ScanIndex(j) + Entries(e.id, e.tags)
  {
    var n := Append(j, e, source);
    assert n[|j|].event == e && forall i | 0 <= i < |j| :: n[i].event == j[i].event;
    forall x | x in ScanIndex(j) ensures x in ScanIndex(n) {
      var i, sha :| 0 <= i < |j| && sha in References(j[i].event.tags) && x == (sha, j[i].event.id);
      assert n[i].event == j[i].event;
    }
    forall x | x in Entries(e.id, e.tags) ensures x in ScanIndex(n) {
      assert x.0 in References(n[|j|].event.tags);
    }
  }

  /** In every state the index is the scan of the journal, once the one-time backfill has run. */
  lemma {:induction false} IndexIsScan(verify: Event -> bool, like: Event -> bool, ms: seq<Moment>)
    requires KeepsReferences(like)
    ensures var l := PassAll(verify, like, ms);
            && (l.running ==> l.backfilled)
            && l.index == if l.backfilled then ScanIndex(l.tables.journal) else {}
  {
    if ms != [] {
      IndexIsScan(verify, like, ms[..|ms| - 1]);
      var l, m := PassAll(verify, like, ms[..|ms| - 1]), ms[|ms| - 1];
      if m.Open? {
        assert Backfill(like, l.tables.journal) == ScanIndex(l.tables.journal);
        assert {} + ScanIndex(l.tables.journal) == ScanIndex(l.tables.journal);
      }
      if m.Live? {
        AppendIndex(l.tables.journal, m.d.event, m.d.source);
      }
    }
  }

  // ----------------------------------------------------------------- access

  datatype Decree = Granted | ScopeDenied

  /** Some stream the principal reads selects a row that the index lists under `sha`. */
  ghost predicate Visible(matches: (seq<Json>, Event) -> bool, j: seq<Row>, index: Index, sel: Selection, sha: string) {
    exists i | 0 <= i < |j| :: (sha, j[i].event.id) in index && Selects(matches, sel, j[i])
  }

  predicate Grants(readers: map<string, Trust>, streams: map<string, Selection>, principal: string, stream: string) {
    stream in readers && principal in readers[stream].keys && stream in streams
  }

  ghost predicate MayFetch(matches: (seq<Json>, Event) -> bool, j: seq<Row>, index: Index, readers: map<string, Trust>, streams: map<string, Selection>, owner: string, principal: string, sha: string) {
    || (owner != "" && principal == owner)
    || exists stream :: Grants(readers, streams, principal, stream) && Visible(matches, j, index, streams[stream], sha)
  }

  lemma IndexedRow(verify: Event -> bool, j: seq<Row>, sha: string, i: nat)
    requires JournalOk(verify, j) && i < |j|
    ensures (sha, j[i].event.id) in ScanIndex(j) <==> sha in References(j[i].event.tags)
  {
    if (sha, j[i].event.id) in ScanIndex(j) {
      var k, s :| 0 <= k < |j| && s in References(j[k].event.tags) && (sha, j[i].event.id) == (s, j[k].event.id);
      assert k == i;
    }
  }

  /** A selection exposes a hash exactly when a record of its full drain refers to it. */
  lemma VisibleIffDrained(verify: Event -> bool, matches: (seq<Json>, Event) -> bool, j: seq<Row>, sel: Selection, stream: string, sha: string)
    requires JournalOk(verify, j)
    ensures Visible(matches, j, ScanIndex(j), sel, sha) <==>
            exists r :: r in Records(matches, sel, stream, j) && sha in References(r.event.tags)
  {
    if Visible(matches, j, ScanIndex(j), sel, sha) {
      var i :| 0 <= i < |j| && (sha, j[i].event.id) in ScanIndex(j) && Selects(matches, sel, j[i]);
      IndexedRow(verify, j, sha, i);
      var r := Record(stream, Cursor(j[i].sequence), j[i].event);
      RecordsExact(matches, sel, stream, j, r);
      assert r in Records(matches, sel, stream, j) && sha in References(r.event.tags);
    }
    if exists r :: r in Records(matches, sel, stream, j) && sha in References(r.event.tags) {
      var r :| r in Records(matches, sel, stream, j) && sha in References(r.event.tags);
      RecordsExact(matches, sel, stream, j, r);
      var i :| 0 <= i < |j| && Selects(matches, sel, j[i]) && r == Record(stream, Cursor(j[i].sequence), j[i].event);
      IndexedRow(verify, j, sha, i);
    }
  }

  /**
   Access follows reference: over every life of the node, a principal other
   than the owner may fetch a hash if and only if draining some stream granted
   to it yields an event whose `x` tag is that hash.
   */
  lemma AccessFollowsReference(verify: Event -> bool, like: Event -> bool, matches: (seq<Json>, Event) -> bool, ms: seq<Moment>,
                               readers: map<string, Trust>, streams: map<string, Selection>, owner: string, principal: string, sha: string)
    requires HashBinding(verify) && KeepsReferences(like)
    requires PassAll(verify, like, ms).running
    requires owner == "" || principal != owner
    ensures var l := PassAll(verify, like, ms);
            MayFetch(matches, l.tables.journal, l.index, readers, streams, owner, principal, sha) <==>
            exists stream, r ::
              && Grants(readers, streams, principal, stream)
              && r in Records(matches, streams[stream], stream, l.tables.journal)
              && sha in References(r.event.tags)
  {
    IndexIsScan(verify, like, ms);
    var ds := LifeRepresents(verify, like, ms);
    var j := PassAll(verify, like, ms).tables.journal;
    forall stream | Grants(readers, streams, principal, stream)
      ensures Visible(matches, j, ScanIndex(j), streams[stream], sha) <==>
              exists r :: r in Records(matches, streams[stream], stream, j) && sha in References(r.event.tags)
    {
      VisibleIffDrained(verify, matches, j, streams[stream], stream, sha);
    }
  }

  lemma {:induction false} LifeRepresents(verify: Event -> bool, like: Event -> bool, ms: seq<Moment>) returns (ds: set<Event>)
    requires HashBinding(verify)
    ensures Represents(verify, PassAll(verify, like, ms).tables, ds)
  {
    ds := {};
    if ms == [] {
      RunRepresents(verify, []);
    } else {
      ds := LifeRepresents(verify, like, ms[..|ms| - 1]);
      var l, m := PassAll(verify, like, ms[..|ms| - 1]), ms[|ms| - 1];
      if m.Legacy? || m.Live? {
        ApplyRepresents(verify, l.tables, ds, m.d);
        if PassAll(verify, like, ms).tables != l.tables {
          ds := ds + Adds(verify, m.d.event);
        }
      }
    }
  }
}
