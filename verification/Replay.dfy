/** Replaying a journal into an empty node, and what re-delivery leaves open. */
module Replay {
  import opened Prelude
  import opened Events
  import opened Replacement
  import opened Journal
  import opened Export
  import opened AntiEntropy

  /** The deliveries that hand a journal over row by row, keeping provenance. */
  function Rows(j: seq<Row>): (ds: seq<Delivery>)
    ensures |ds| == |j|
  {
    seq(|j|, i requires 0 <= i < |j| => Delivery(j[i].event, j[i].source, false))
  }

  /** What the node answers to each delivery of a run. */
  function Answers(verify: Event -> bool, t: Tables, ds: seq<Delivery>): (ms: seq<Message>)
    ensures |ms| == |ds|
  {
    if ds == [] then []
    else
      var front := ds[..|ds| - 1];
      Answers(verify, t, front) + [Apply(verify, Run(verify, t, front), ds[|ds| - 1]).1]
  }

  /** The first `n` rows with their flags as they stood when row `n` arrived. */
  function Prefix(j: seq<Row>, n: nat): (p: seq<Row>)
    requires n <= |j|
    ensures |p| == n
  {
    seq(n, i requires 0 <= i < n => j[i].(effective := Latest(j[..n], i)))
  }

  lemma PrefixNext(verify: Event -> bool, j: seq<Row>, n: nat)
    requires JournalOk(verify, j) && n < |j|
    ensures Append(Prefix(j, n), j[n].event, j[n].source) == Prefix(j, n + 1)
    ensures !Loses(Prefix(j, n), j[n].event)
  {
    var p, e := Prefix(j, n), j[n].event;
    assert RowOk(verify, j, n);
    var a, q := Append(p, e, j[n].source), Prefix(j, n + 1);
    forall i | 0 <= i <= n ensures a[i] == q[i] {
      assert RowOk(verify, j, i);
      assert Latest(j[..n + 1], i) <==> i == n || (Latest(j[..n], i) && !SameKey(j[i].event, e)) by {
        if i < n { LatestNext(j, n, i); }
      }
    }
    if ReplacementKey(e).Some? {
      var r := EffectiveReplacementMeaning(p, ReplacementKey(e).value);
      if EffectiveReplacement(p, ReplacementKey(e).value).Some? {
        assert RowOk(verify, j, r);
        assert SameKey(j[r].event, e);
      }
    }
  }

  lemma LatestNext(j: seq<Row>, n: nat, i: nat)
    requires i < n < |j|
    ensures Latest(j[..n + 1], i) <==> Latest(j[..n], i) && !SameKey(j[i].event, j[n].event)
  {
    if Latest(j[..n + 1], i) {
      assert j[..n + 1][n] == j[n];
      forall k | i < k < n ensures !SameKey(j[..n][i].event, j[..n][k].event) {
        assert j[..n + 1][k] == j[..n][k];
      }
    }
  }

  lemma {:induction false} ReplayPrefix(verify: Event -> bool, j: seq<Row>, n: nat)
    requires JournalOk(verify, j) && n <= |j|
    ensures Run(verify, EMPTY, Rows(j)[..n]).journal == Prefix(j, n)
    ensures Run(verify, EMPTY, Rows(j)[..n]).accepted.Keys == set i | 0 <= i < n :: j[i].event.id
    ensures forall m | m in Answers(verify, EMPTY, Rows(j)[..n]) :: m == Stored
  {
    if n > 0 {
      ReplayPrefix(verify, j, n - 1);
      assert RowOk(verify, j, n - 1);
      var ds := Rows(j)[..n];
      assert ds[..|ds| - 1] == Rows(j)[..n - 1];
      PrefixNext(verify, j, n - 1);
    }
  }

  /**
   Any reachable journal, replayed in sequence order into an empty node, is
   stored row by row and rebuilt with the same rows and the same flags.
   */
  lemma ReplayRebuilds(verify: Event -> bool, ds: seq<Delivery>)
    requires HashBinding(verify)
    ensures var j := Run(verify, EMPTY, ds).journal;
            && Run(verify, EMPTY, Rows(j)).journal == j
            && (forall m | m in Answers(verify, EMPTY, Rows(j)) :: m == Stored)
  {
    RunRepresents(verify, ds);
    var j := Run(verify, EMPTY, ds).journal;
    ReplayPrefix(verify, j, |j|);
    assert Rows(j)[..|j|] == Rows(j) && j[..|j|] == j;
    forall i | 0 <= i < |j| ensures Prefix(j, |j|)[i] == j[i] {
      assert RowOk(verify, j, i);
    }
  }

  // ------------------------------------------------------- replay by ingest

  /** The rows as a sink keeps them: all attributed to the stream they came from. */
  function Attributed(j: seq<Row>, stream: string): (k: seq<Row>)
    ensures |k| == |j|
  {
    seq(|j|, i requires 0 <= i < |j| => j[i].(source := Some(stream)))
  }

  lemma AttributedOk(verify: Event -> bool, j: seq<Row>, stream: string)
    requires JournalOk(verify, j)
    ensures JournalOk(verify, Attributed(j, stream))
  {
    var k := Attributed(j, stream);
    forall i | 0 <= i < |k| ensures RowOk(verify, k, i) {
      assert RowOk(verify, j, i);
      LatestAttributed(j, stream, i);
    }
  }

  lemma LatestAttributed(j: seq<Row>, stream: string, i: nat)
    requires i < |j|
    ensures Latest(Attributed(j, stream), i) <==> Latest(j, i)
  {
    var k := Attributed(j, stream);
    if Latest(k, i) {
      forall n | i < n < |j| ensures !SameKey(j[i].event, j[n].event) { assert k[n].event == j[n].event; }
    }
  }

  /** A sink that ingested the first `n` records is where the first `n` replayed rows take it, and stored each. */
  ghost predicate Replayed(verify: Event -> bool, j: seq<Row>, stream: string, n: nat)
    requires n <= |j|
  {
    var rs := Records(NoFilters, Mirror, stream, j);
    && |rs| == |j|
    && var done := Ingest(verify, EMPTY, stream, rs[..n]);
    && done.tables == Run(verify, EMPTY, Rows(Attributed(j, stream))[..n])
    && |done.receipts| == n
    && forall i | 0 <= i < n ::
         done.receipts[i] == Receipt(stream, Cursor(j[i].sequence), j[i].event.id, WasStored)
  }

  /** The next record does what the next replayed row does, and is stored. */
  lemma ReplayStep(verify: Event -> bool, j: seq<Row>, stream: string, n: nat)
    requires JournalOk(verify, j) && n < |j|
    ensures var ds := Rows(Attributed(j, stream));
            ApplyRecord(verify, Run(verify, EMPTY, ds[..n]), stream, Record(stream, Cursor(j[n].sequence), j[n].event)) ==
            (Run(verify, EMPTY, ds[..n + 1]), WasStored)
  {
    var ds := Rows(Attributed(j, stream));
    AttributedOk(verify, j, stream);
    ReplayPrefix(verify, Attributed(j, stream), n + 1);
    var now, next := ds[..n], ds[..n + 1];
    assert next[..|next| - 1] == now && next[|next| - 1] == Delivery(j[n].event, Some(stream), false);
    var m := Answers(verify, EMPTY, next)[n];
    assert m in Answers(verify, EMPTY, next) && m == Apply(verify, Run(verify, EMPTY, now), next[n]).1;
    assert RowOk(verify, j, n);
  }

  lemma ReplayedNext(verify: Event -> bool, j: seq<Row>, stream: string, n: nat)
    requires JournalOk(verify, j) && n < |j| && Replayed(verify, j, stream, n)
    ensures Replayed(verify, j, stream, n + 1)
  {
    MirrorRecords(stream, j);
    ReplayStep(verify, j, stream, n);
    IngestNext(verify, EMPTY, stream, Records(NoFilters, Mirror, stream, j), n);
  }

  lemma {:induction false} ReplayedAll(verify: Event -> bool, j: seq<Row>, stream: string, n: nat)
    requires JournalOk(verify, j) && n <= |j|
    ensures Replayed(verify, j, stream, n)
  {
    if n > 0 {
      ReplayedAll(verify, j, stream, n - 1);
      ReplayedNext(verify, j, stream, n - 1);
    } else {
      MirrorRecords(stream, j);
    }
  }

  /**
   The records of any reachable journal, ingested in order by an empty sink, are
   all stored and rebuild the same rows with the same flags, attributed to the stream.
   */
  lemma IngestRebuilds(verify: Event -> bool, ds: seq<Delivery>, stream: string)
    requires HashBinding(verify)
    ensures var j := Run(verify, EMPTY, ds).journal;
            var done := Ingest(verify, EMPTY, stream, Records(NoFilters, Mirror, stream, j));
            && done.tables.journal == Attributed(j, stream)
            && |done.receipts| == |j|
            && (forall r | r in done.receipts :: r.outcome == WasStored)
  {
    RunRepresents(verify, ds);
    var j := Run(verify, EMPTY, ds).journal;
    var k, rs := Attributed(j, stream), Records(NoFilters, Mirror, stream, j);
    ReplayedAll(verify, j, stream, |j|);
    assert rs[..|j|] == rs;
    AttributedOk(verify, j, stream);
    ReplayPrefix(verify, k, |k|);
    assert k[..|k|] == k;
    forall i | 0 <= i < |k| ensures Prefix(k, |k|)[i] == k[i] {
      assert RowOk(verify, k, i);
    }
  }

  /** No ephemeral event, and so no authentication event, is ever journaled, by either path. */
  lemma {:induction false} NoAuthInJournal(verify: Event -> bool, ds: seq<Delivery>, i: nat)
    requires HashBinding(verify)
    requires i < |Run(verify, EMPTY, ds).journal|
    ensures var kind := Run(verify, EMPTY, ds).journal[i].event.kind;
            !IsEphemeralKind(kind) && kind !in {KIND_AUTH, KIND_HTTP_AUTH, KIND_BEACON_RESPONSE}
  {
    RunRepresents(verify, ds);
    assert RowOk(verify, Run(verify, EMPTY, ds).journal, i);
  }

  function EffectiveEvents(t: Tables): set<Event> {
    set i | 0 <= i < |t.journal| && t.journal[i].effective :: t.journal[i].event
  }

  /** Delivery `k` brings `e`, and no earlier one brought its id. */
  ghost predicate FirstAt(verify: Event -> bool, ds: seq<Delivery>, k: nat, e: Event) {
    && k < |ds| && ds[k].event == e
    && forall i | 0 <= i < k :: !(Counts(verify, ds[i].event) && ds[i].event.id == e.id)
  }

  lemma FirstStays(verify: Event -> bool, ds: seq<Delivery>, n: nat, k: nat, e: Event)
    requires n <= |ds| && FirstAt(verify, ds[..n], k, e)
    ensures FirstAt(verify, ds, k, e)
  {
    forall i | 0 <= i < k ensures !(Counts(verify, ds[i].event) && ds[i].event.id == e.id) {
      assert ds[..n][i] == ds[i];
    }
  }

  lemma DeliveredIsDecided(verify: Event -> bool, ds: seq<Delivery>, i: nat)
    requires HashBinding(verify) && i < |ds| && Counts(verify, ds[i].event)
    ensures ds[i].event.id in Run(verify, EMPTY, ds).accepted
  {
    RunRepresents(verify, ds);
    assert Body(ds[i].event) in Delivered(verify, ds);
  }

  lemma ApplyRow(verify: Event -> bool, t: Tables, d: Delivery, i: nat)
    requires i < |Apply(verify, t, d).0.journal|
    ensures i < |t.journal| ==> Apply(verify, t, d).0.journal[i].event == t.journal[i].event
    ensures i >= |t.journal| ==> Apply(verify, t, d).0.journal[i].event == d.event && d.event.id !in t.accepted
  {
  }

  /** What the journal keeps of an id, signature included, is what came first. */
  lemma {:induction false} RowsAreFirst(verify: Event -> bool, ds: seq<Delivery>, i: nat) returns (k: nat)
    requires HashBinding(verify) && i < |Run(verify, EMPTY, ds).journal|
    ensures FirstAt(verify, ds, k, Run(verify, EMPTY, ds).journal[i].event)
  {
    var n := |ds| - 1;
    var front, last := ds[..n], ds[n];
    var t := Run(verify, EMPTY, front);
    ApplyRow(verify, t, last, i);
    if i < |t.journal| {
      k := RowsAreFirst(verify, front, i);
      FirstStays(verify, ds, n, k, t.journal[i].event);
    } else {
      k := n;
      forall j | 0 <= j < n && Counts(verify, ds[j].event) ensures ds[j].event.id != last.event.id {
        assert front[j] == ds[j];
        DeliveredIsDecided(verify, front, j);
      }
    }
  }

  /** The verified durable events of a run, with their signatures. */
  function Signed(verify: Event -> bool, ds: seq<Delivery>): set<Event> {
    set d | d in ds && Counts(verify, d.event) :: d.event
  }

  lemma RowIsSigned(verify: Event -> bool, ds: seq<Delivery>, i: nat)
    requires HashBinding(verify) && i < |Run(verify, EMPTY, ds).journal|
    ensures Run(verify, EMPTY, ds).journal[i].event in Signed(verify, ds)
  {
    RunRepresents(verify, ds);
    assert RowOk(verify, Run(verify, EMPTY, ds).journal, i);
    var k := RowsAreFirst(verify, ds, i);
    assert ds[k] in ds;
  }

  /** No event that wins was delivered with two signatures. */
  ghost predicate WinnersSignedOnce(verify: Event -> bool, ds: seq<Delivery>) {
    forall e, f | e in Signed(verify, ds) && f in Signed(verify, ds) && e.id == f.id
                  && Body(e) in Winners(Delivered(verify, ds)) :: e == f
  }

  /** Every sequence that delivers the same signed events leaves the same ones effective. */
  ghost predicate SignaturesAgree(verify: Event -> bool, ds: seq<Delivery>) {
    forall es | Signed(verify, es) == Signed(verify, ds) ::
      EffectiveEvents(Run(verify, EMPTY, es)) == EffectiveEvents(Run(verify, EMPTY, ds))
  }

  lemma SignedMeansDelivered(verify: Event -> bool, ds: seq<Delivery>, es: seq<Delivery>)
    requires Signed(verify, ds) == Signed(verify, es)
    ensures Delivered(verify, ds) == Delivered(verify, es)
  {
    assert Delivered(verify, ds) == (set e | e in Signed(verify, ds) :: Body(e));
    assert Delivered(verify, es) == (set e | e in Signed(verify, es) :: Body(e));
  }

  lemma EffectiveAmong(verify: Event -> bool, ds: seq<Delivery>, es: seq<Delivery>)
    requires HashBinding(verify) && Signed(verify, ds) == Signed(verify, es) && WinnersSignedOnce(verify, ds)
    ensures EffectiveEvents(Run(verify, EMPTY, ds)) <= EffectiveEvents(Run(verify, EMPTY, es))
  {
    SignedMeansDelivered(verify, ds, es);
    OrderIndependence(verify, ds, es);
    var j, m := Run(verify, EMPTY, ds).journal, Run(verify, EMPTY, es).journal;
    forall i | 0 <= i < |j| && j[i].effective ensures j[i].event in EffectiveEvents(Run(verify, EMPTY, es)) {
      assert Body(j[i].event) in EffectiveBodies(Run(verify, EMPTY, ds));
      var k :| 0 <= k < |m| && m[k].effective && Body(m[k].event) == Body(j[i].event);
      RowIsSigned(verify, ds, i);
      RowIsSigned(verify, es, k);
      assert m[k].event.id == j[i].event.id;
    }
  }

  /** A winner that is delivered before all else is kept with the signature it came with. */
  lemma FrontStays(verify: Event -> bool, d: Delivery, ds: seq<Delivery>)
    requires HashBinding(verify) && d in ds && Counts(verify, d.event)
    requires Body(d.event) in Winners(Delivered(verify, ds))
    ensures Signed(verify, [d] + ds) == Signed(verify, ds)
    ensures d.event in EffectiveEvents(Run(verify, EMPTY, [d] + ds))
  {
    var es := [d] + ds;
    assert forall x :: x in es <==> x in ds;
    SignedMeansDelivered(verify, ds, es);
    OrderIndependence(verify, es, ds);
    var j := Run(verify, EMPTY, es).journal;
    var i :| 0 <= i < |j| && j[i].effective && Body(j[i].event) == Body(d.event);
    var k := RowsAreFirst(verify, es, i);
    assert es[0] == d && j[i].event.id == d.event.id;
  }

  lemma EffectiveIdsOnce(verify: Event -> bool, ds: seq<Delivery>, e: Event, f: Event)
    requires HashBinding(verify) && e.id == f.id
    requires e in EffectiveEvents(Run(verify, EMPTY, ds)) && f in EffectiveEvents(Run(verify, EMPTY, ds))
    ensures e == f
  {
    RunRepresents(verify, ds);
  }

  /**
   Order independence does not extend to signatures: whenever a winner was delivered
   with two of them, which one stays depends on which came first.
   */
  lemma SignatureKeptDependsOnOrder(verify: Event -> bool, ds: seq<Delivery>, d: Delivery, e: Delivery)
    requires HashBinding(verify) && d in ds && e in ds && Counts(verify, d.event) && Counts(verify, e.event)
    requires d.event.id == e.event.id && d.event != e.event && Body(d.event) in Winners(Delivered(verify, ds))
    ensures Signed(verify, [d] + ds) == Signed(verify, [e] + ds) == Signed(verify, ds)
    ensures EffectiveEvents(Run(verify, EMPTY, [d] + ds)) != EffectiveEvents(Run(verify, EMPTY, [e] + ds))
  {
    assert Body(d.event) == Body(e.event);
    FrontStays(verify, d, ds);
    FrontStays(verify, e, ds);
    if e.event in EffectiveEvents(Run(verify, EMPTY, [d] + ds)) {
      EffectiveIdsOnce(verify, [d] + ds, d.event, e.event);
    }
  }

  /** It extends to them exactly for deliveries in which no winner has two signatures. */
  lemma SignedOrderIndependence(verify: Event -> bool, ds: seq<Delivery>)
    requires HashBinding(verify)
    ensures SignaturesAgree(verify, ds) <==> WinnersSignedOnce(verify, ds)
  {
    if WinnersSignedOnce(verify, ds) {
      forall es | Signed(verify, es) == Signed(verify, ds)
        ensures EffectiveEvents(Run(verify, EMPTY, es)) == EffectiveEvents(Run(verify, EMPTY, ds))
      {
        SignedMeansDelivered(verify, ds, es);
        EffectiveAmong(verify, ds, es);
        EffectiveAmong(verify, es, ds);
      }
    }
    forall e, f | SignaturesAgree(verify, ds) && e in Signed(verify, ds) && f in Signed(verify, ds) && e.id == f.id
                  && Body(e) in Winners(Delivered(verify, ds))
      ensures e == f
    {
      var d :| d in ds && Counts(verify, d.event) && d.event == e;
      var g :| g in ds && Counts(verify, g.event) && g.event == f;
      if e != f { SignatureKeptDependsOnOrder(verify, ds, d, g); }
    }
  }
}
