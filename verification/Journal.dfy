/**
 The durable event journal: what one delivery does to the `accepted_event_ids`
 and `event_journal` tables, and what every run of deliveries leaves behind.
 */
module Journal {
  import opened Prelude
  import opened Events
  import opened Replacement

  datatype Row = Row(
    sequence: nat,
    event: Event,
    key: Option<Key>,
    effective: bool,
    source: Option<string>
  )

  datatype Decision = KeptInJournal | LostOnArrival

  datatype Message = Stored | Duplicate | Superseded | Ephemeral | Invalid

  datatype Tables = Tables(accepted: map<string, Decision>, journal: seq<Row>)

  const EMPTY := Tables(map[], [])

  /** One call of the ingest pipeline. `beaconOk` is the answer of the beacon tally. */
  datatype Delivery = Delivery(event: Event, source: Option<string>, beaconOk: bool)

  /** The effective row of a key, as the node looks it up. */
  function EffectiveReplacement(j: seq<Row>, key: Key): Option<Event> {
    if j == [] then None
    else if j[0].key == Some(key) && j[0].effective then Some(j[0].event)
    else EffectiveReplacement(j[1..], key)
  }

  function Demote(j: seq<Row>, key: Option<Key>): (d: seq<Row>)
    ensures |d| == |j|
  {
    seq(|j|, i requires 0 <= i < |j| =>
      if key.Some? && j[i].key == key then j[i].(effective := false) else j[i])
  }

  /** Appends `e` as the effective row of its key. */
  function Append(j: seq<Row>, e: Event, source: Option<string>): seq<Row> {
    Demote(j, ReplacementKey(e)) + [Row(|j| + 1, e, ReplacementKey(e), true, source)]
  }

  predicate Loses(j: seq<Row>, e: Event) {
    var key := ReplacementKey(e);
    key.Some? &&
    var current := EffectiveReplacement(j, key.value);
    current.Some? && !Wins(e, current.value)
  }

  /** The ingest pipeline on the two tables. */
  function Apply(verify: Event -> bool, t: Tables, d: Delivery): (Tables, Message) {
    var e := d.event;
    if !verify(e) then (t, Invalid)
    else if e.id in t.accepted then (t, Duplicate)
    else if e.kind == KIND_BEACON_RESPONSE then (t, if d.beaconOk then Ephemeral else Invalid)
    else if IsEphemeralKind(e.kind) then (t, Ephemeral)
    else if Loses(t.journal, e) then
      (t.(accepted := t.accepted[e.id := LostOnArrival]), Superseded)
    else
      (Tables(t.accepted[e.id := KeptInJournal], Append(t.journal, e, d.source)), Stored)
  }

  /** A whole run: deliveries applied in order. */
  function Run(verify: Event -> bool, t: Tables, ds: seq<Delivery>): Tables {
    if ds == [] then t
    else Apply(verify, Run(verify, t, ds[..|ds| - 1]), ds[|ds| - 1]).0
  }

  predicate Counts(verify: Event -> bool, e: Event) {
    verify(e) && !IsEphemeralKind(e.kind)
  }

  /** The bodies a run delivered: order, repeats, sources and signatures forgotten. */
  function Delivered(verify: Event -> bool, ds: seq<Delivery>): set<Event> {
    set d | d in ds && Counts(verify, d.event) :: Body(d.event)
  }

  function EffectiveBodies(t: Tables): set<Event> {
    set i | 0 <= i < |t.journal| && t.journal[i].effective :: Body(t.journal[i].event)
  }

  function JournalBodies(t: Tables): set<Event> {
    set i | 0 <= i < |t.journal| :: Body(t.journal[i].event)
  }

  // ------------------------------------------------------------ invariant

  /** No later row shares the replacement key of row `i`. */
  predicate Latest(j: seq<Row>, i: nat)
    requires i < |j|
  {
    forall k | i < k < |j| :: !SameKey(j[i].event, j[k].event)
  }

  predicate RowOk(verify: Event -> bool, j: seq<Row>, i: nat)
    requires i < |j|
  {
    && j[i].sequence == i + 1
    && j[i].key == ReplacementKey(j[i].event)
    && Counts(verify, j[i].event)
    && (j[i].effective <==> Latest(j, i))
  }

  /**
   Ids occur once, rows sharing a key strictly increase in win order, exactly
   the last of each key is effective, and no ephemeral (hence no
   authentication) event is present.
   */
  ghost predicate JournalOk(verify: Event -> bool, j: seq<Row>) {
    && (forall i | 0 <= i < |j| :: RowOk(verify, j, i))
    && (forall i, k | 0 <= i < k < |j| :: j[i].event.id != j[k].event.id)
    && (forall i, k | 0 <= i < k < |j| && SameKey(j[i].event, j[k].event) ::
          Wins(j[k].event, j[i].event))
  }

  ghost predicate FromVerified(verify: Event -> bool, b: Event) {
    exists s :: verify(b.(sig := s)) && Body(b) == b
  }

  /** `b` is in the journal, or a journal row replaced it. */
  ghost predicate Covered(j: seq<Row>, b: Event) {
    exists i | 0 <= i < |j| ::
      Body(j[i].event) == b || (SameKey(j[i].event, b) && Wins(j[i].event, b))
  }

  predicate HasId(j: seq<Row>, id: string) {
    exists i | 0 <= i < |j| :: j[i].event.id == id
  }

  function Ids(ds: set<Event>): set<string> {
    set b | b in ds :: b.id
  }

  /** The decision table lists exactly the delivered ids, and tells journaled from lost. */
  ghost predicate DecisionsOk(t: Tables, ds: set<Event>) {
    && t.accepted.Keys == Ids(ds)
    && (forall id | id in t.accepted :: t.accepted[id].KeptInJournal? <==> HasId(t.journal, id))
  }

  ghost predicate AllCovered(verify: Event -> bool, j: seq<Row>, ds: set<Event>) {
    forall b | b in ds :: FromVerified(verify, b) && Covered(j, b)
  }

  /** The tables are what a node that was delivered exactly the bodies `ds` holds. */
  ghost predicate Represents(verify: Event -> bool, t: Tables, ds: set<Event>) {
    && JournalOk(verify, t.journal)
    && DecisionsOk(t, ds)
    && JournalBodies(t) <= ds
    && AllCovered(verify, t.journal, ds)
  }

  lemma EffectiveReplacementMeaning(j: seq<Row>, key: Key) returns (i: int)
    ensures EffectiveReplacement(j, key).None? ==>
              forall k | 0 <= k < |j| :: !(j[k].key == Some(key) && j[k].effective)
    ensures EffectiveReplacement(j, key).Some? ==>
              0 <= i < |j| && j[i].key == Some(key) && j[i].effective &&
              EffectiveReplacement(j, key).value == j[i].event
  {
    i := 0;
    if j != [] && !(j[0].key == Some(key) && j[0].effective) {
      i := EffectiveReplacementMeaning(j[1..], key);
      assert forall k | 0 < k < |j| :: j[k] == j[1..][k - 1];
      i := i + 1;
    }
  }

  /** Each key present in the journal has a latest row. */
  lemma LatestOfKey(j: seq<Row>, i: nat) returns (k: nat)
    requires i < |j| && ReplacementKey(j[i].event).Some?
    ensures i <= k < |j| && SameKey(j[i].event, j[k].event) && Latest(j, k)
    decreases |j| - i
  {
    if Latest(j, i) {
      return i;
    }
    var m :| i < m < |j| && SameKey(j[i].event, j[m].event);
    k := LatestOfKey(j, m);
  }

  /** An incoming event that does not lose wins over every row of its key. */
  lemma NotLosingWins(verify: Event -> bool, j: seq<Row>, e: Event, i: nat)
    requires JournalOk(verify, j)
    requires i < |j| && SameKey(j[i].event, e) && !Loses(j, e)
    ensures Wins(e, j[i].event)
  {
    var k := LatestOfKey(j, i);
    assert RowOk(verify, j, k);
    var r := EffectiveReplacementMeaning(j, ReplacementKey(e).value);
    assert RowOk(verify, j, r);
    if r < k { assert SameKey(j[r].event, j[k].event); }
    if k < r { assert SameKey(j[k].event, j[r].event); }
    if i < k { WinsTransitive(e, j[k].event, j[i].event); }
  }

  /** A loser is replaced by a journal row. */
  lemma LosingIsCovered(verify: Event -> bool, j: seq<Row>, e: Event)
    requires JournalOk(verify, j)
    requires Loses(j, e)
    requires forall i | 0 <= i < |j| :: j[i].event.id != e.id
    ensures Covered(j, Body(e))
  {
    var r := EffectiveReplacementMeaning(j, ReplacementKey(e).value);
    assert RowOk(verify, j, r);
    WinsTotal(e, j[r].event);
    assert SameKey(j[r].event, Body(e)) && Wins(j[r].event, Body(e));
  }

  lemma AppendKeepsJournalOk(verify: Event -> bool, j: seq<Row>, e: Event, source: Option<string>)
    requires JournalOk(verify, j)
    requires Counts(verify, e) && !Loses(j, e)
    requires forall i | 0 <= i < |j| :: j[i].event.id != e.id
    ensures JournalOk(verify, Append(j, e, source))
  {
    var n := Append(j, e, source);
    assert forall i | 0 <= i < |j| :: n[i].event == j[i].event;
    forall i | 0 <= i < |n| ensures RowOk(verify, n, i) {
      if i < |j| {
        assert RowOk(verify, j, i);
        if SameKey(j[i].event, e) {
          assert SameKey(n[i].event, n[|j|].event);
        }
      }
    }
    forall i, k | 0 <= i < k < |n| && SameKey(n[i].event, n[k].event)
      ensures Wins(n[k].event, n[i].event)
    {
      if k == |j| {
        NotLosingWins(verify, j, e, i);
      }
    }
  }

  // ------------------------------------------------------- every delivery

  function Adds(verify: Event -> bool, e: Event): set<Event> {
    if Counts(verify, e) then {Body(e)} else {}
  }

  lemma DuplicateIsDelivered(verify: Event -> bool, t: Tables, ds: set<Event>, e: Event)
    requires HashBinding(verify) && Represents(verify, t, ds)
    requires verify(e) && e.id in t.accepted
    ensures Body(e) in ds
  {
    assert e.id in Ids(ds);
    var b :| b in ds && b.id == e.id;
    var s :| verify(b.(sig := s)) && Body(b) == b;
    assert Body(b.(sig := s)) == Body(e);
  }

  lemma NewIdIsAbsent(t: Tables, ds: set<Event>, id: string)
    requires DecisionsOk(t, ds) && JournalBodies(t) <= ds && id !in t.accepted
    ensures forall i | 0 <= i < |t.journal| :: t.journal[i].event.id != id
  {
    forall i | 0 <= i < |t.journal| ensures t.journal[i].event.id != id {
      assert Body(t.journal[i].event) in JournalBodies(t);
      assert t.journal[i].event.id in Ids(ds);
    }
  }

  lemma VerifiedBody(verify: Event -> bool, e: Event)
    requires verify(e)
    ensures FromVerified(verify, Body(e))
  {
    assert Body(e).(sig := e.sig) == e;
  }

  lemma CoveredByMore(j: seq<Row>, n: seq<Row>, b: Event)
    requires |j| <= |n| && forall i | 0 <= i < |j| :: n[i].event == j[i].event
    requires Covered(j, b)
    ensures Covered(n, b)
  {
    var i :| 0 <= i < |j| && (Body(j[i].event) == b || (SameKey(j[i].event, b) && Wins(j[i].event, b)));
    assert n[i].event == j[i].event;
  }

  lemma DecisionsAfter(t: Tables, ds: set<Event>, t': Tables, e: Event, kept: Decision)
    requires DecisionsOk(t, ds) && e.id !in t.accepted
    requires t'.accepted == t.accepted[e.id := kept]
    requires kept.LostOnArrival? ==> t'.journal == t.journal && !HasId(t.journal, e.id)
    requires kept.KeptInJournal? ==>
               |t'.journal| == |t.journal| + 1 && t'.journal[|t.journal|].event == e &&
               forall i | 0 <= i < |t.journal| :: t'.journal[i].event == t.journal[i].event
    ensures DecisionsOk(t', ds + {Body(e)})
  {
    assert Ids(ds + {Body(e)}) == Ids(ds) + {e.id} by { assert Body(e).id == e.id; }
    forall id | id in t'.accepted
      ensures t'.accepted[id].KeptInJournal? <==> HasId(t'.journal, id)
    {
      if id != e.id && HasId(t.journal, id) {
        var i :| 0 <= i < |t.journal| && t.journal[i].event.id == id;
        assert t'.journal[i].event.id == id;
      }
      if id == e.id && kept.KeptInJournal? {
        assert t'.journal[|t.journal|].event.id == id;
      }
    }
  }

  lemma RepresentsLost(verify: Event -> bool, t: Tables, ds: set<Event>, d: Delivery)
    requires Represents(verify, t, ds)
    requires Apply(verify, t, d).1 == Superseded
    ensures Represents(verify, Apply(verify, t, d).0, ds + {Body(d.event)})
  {
    NewIdIsAbsent(t, ds, d.event.id);
    LosingIsCovered(verify, t.journal, d.event);
    VerifiedBody(verify, d.event);
    DecisionsAfter(t, ds, Apply(verify, t, d).0, d.event, LostOnArrival);
  }

  lemma RepresentsKept(verify: Event -> bool, t: Tables, ds: set<Event>, d: Delivery)
    requires Represents(verify, t, ds)
    requires Apply(verify, t, d).1 == Stored
    ensures Represents(verify, Apply(verify, t, d).0, ds + {Body(d.event)})
  {
    var e, t' := d.event, Apply(verify, t, d).0;
    NewIdIsAbsent(t, ds, e.id);
    AppendKeepsJournalOk(verify, t.journal, e, d.source);
    DecisionsAfter(t, ds, t', e, KeptInJournal);
    assert JournalBodies(t') <= ds + {Body(e)} by {
      forall i | 0 <= i < |t'.journal| ensures Body(t'.journal[i].event) in ds + {Body(e)} {
        if i < |t.journal| { assert Body(t.journal[i].event) in JournalBodies(t); }
      }
    }
    forall b | b in ds + {Body(e)} ensures FromVerified(verify, b) && Covered(t'.journal, b) {
      if b == Body(e) {
        VerifiedBody(verify, e);
        assert Body(t'.journal[|t.journal|].event) == b;
      } else {
        CoveredByMore(t.journal, t'.journal, b);
      }
    }
  }

  /** One delivery of any kind keeps the tables in step with the delivered set. */
  lemma ApplyRepresents(verify: Event -> bool, t: Tables, ds: set<Event>, d: Delivery)
    requires HashBinding(verify) && Represents(verify, t, ds)
    ensures Represents(verify, Apply(verify, t, d).0, ds + Adds(verify, d.event))
  {
    match Apply(verify, t, d).1
    case Stored => RepresentsKept(verify, t, ds, d);
    case Superseded => RepresentsLost(verify, t, ds, d);
    case Duplicate =>
      DuplicateIsDelivered(verify, t, ds, d.event);
      assert ds + Adds(verify, d.event) == ds;
    case Ephemeral => assert ds + Adds(verify, d.event) == ds;
    case Invalid => assert ds + Adds(verify, d.event) == ds;
  }

  lemma DeliveredNext(verify: Event -> bool, ds: seq<Delivery>)
    requires ds != []
    ensures Delivered(verify, ds) ==
            Delivered(verify, ds[..|ds| - 1]) + Adds(verify, ds[|ds| - 1].event)
  {
    assert ds == ds[..|ds| - 1] + [ds[|ds| - 1]];
  }

  lemma {:induction false} RunRepresents(verify: Event -> bool, ds: seq<Delivery>)
    requires HashBinding(verify)
    ensures Represents(verify, Run(verify, EMPTY, ds), Delivered(verify, ds))
  {
    if ds != [] {
      var front, last := ds[..|ds| - 1], ds[|ds| - 1];
      RunRepresents(verify, front);
      ApplyRepresents(verify, Run(verify, EMPTY, front), Delivered(verify, front), last);
      DeliveredNext(verify, ds);
    }
  }

  // ------------------------------------------------------- what is effective

  lemma BodiesBind(verify: Event -> bool, t: Tables, ds: set<Event>)
    requires HashBinding(verify) && Represents(verify, t, ds)
    ensures IdsBind(ds)
  {
    forall a, b | a in ds && b in ds && a.id == b.id ensures a == b {
      var s :| verify(a.(sig := s)) && Body(a) == a;
      var u :| verify(b.(sig := u)) && Body(b) == b;
      assert Body(a.(sig := s)) == Body(b.(sig := u));
    }
  }

  /** Rows only lose to later rows, and what is not in the journal loses to it. */
  lemma LatestIsUnbeaten(verify: Event -> bool, t: Tables, ds: set<Event>, i: nat, b: Event)
    requires Represents(verify, t, ds)
    requires i < |t.journal| && Latest(t.journal, i)
    requires b in ds && SameKey(b, t.journal[i].event)
    ensures !Wins(b, t.journal[i].event)
  {
    var j := t.journal;
    var k :| 0 <= k < |j| && (Body(j[k].event) == b || (SameKey(j[k].event, b) && Wins(j[k].event, b)));
    assert k <= i by { assert i < k ==> SameKey(j[i].event, j[k].event); }
    if Wins(b, j[i].event) {
      if Wins(j[k].event, b) && Body(j[k].event) != b {
        WinsTransitive(j[k].event, b, j[i].event);
      }
      if k < i { WinsAsymmetric(j[i].event, j[k].event); }
      WinsIrreflexive(j[i].event);
    }
  }

  /** The effective rows are exactly the winners of the delivered set. */
  lemma EffectiveIsWinners(verify: Event -> bool, t: Tables, ds: set<Event>)
    requires HashBinding(verify) && Represents(verify, t, ds)
    ensures EffectiveBodies(t) == Winners(ds)
    ensures Winners(ds) <= JournalBodies(t) <= ds
  {
    var j := t.journal;
    forall i | 0 <= i < |j| && j[i].effective ensures Body(j[i].event) in Winners(ds) {
      assert RowOk(verify, j, i);
      assert Body(j[i].event) in JournalBodies(t);
      forall b | b in ds ensures b !in Beaters(ds, Body(j[i].event)) {
        if SameKey(b, j[i].event) { LatestIsUnbeaten(verify, t, ds, i, b); }
      }
    }
    forall b | b in Winners(ds) ensures b in EffectiveBodies(t) {
      WinnerIsEffective(verify, t, ds, b);
    }
  }

  lemma WinnerIsEffective(verify: Event -> bool, t: Tables, ds: set<Event>, b: Event)
    requires HashBinding(verify) && Represents(verify, t, ds)
    requires b in Winners(ds)
    ensures b in EffectiveBodies(t)
  {
    var j := t.journal;
    var k :| 0 <= k < |j| && (Body(j[k].event) == b || (SameKey(j[k].event, b) && Wins(j[k].event, b)));
    RowIsNoBeater(t, ds, b, k);
    assert RowOk(verify, j, k);
    forall m | k < m < |j| ensures !SameKey(j[k].event, j[m].event) {
      RowIsNoBeater(t, ds, b, m);
    }
    assert Body(j[k].event) == b && j[k].effective;
  }

  lemma RowIsNoBeater(t: Tables, ds: set<Event>, b: Event, k: nat)
    requires JournalBodies(t) <= ds && b in Winners(ds) && k < |t.journal|
    ensures !(SameKey(t.journal[k].event, b) && Wins(t.journal[k].event, b))
  {
    assert Body(t.journal[k].event) in JournalBodies(t);
    assert Body(t.journal[k].event) !in Beaters(ds, b);
  }

  /**
   The effective set of any run is the winners of what the run delivered, so it
   does not depend on order, repetition, source or beacon answers.
   */
  lemma OrderIndependence(verify: Event -> bool, ds: seq<Delivery>, es: seq<Delivery>)
    requires HashBinding(verify)
    ensures EffectiveBodies(Run(verify, EMPTY, ds)) == Winners(Delivered(verify, ds))
    ensures Delivered(verify, ds) == Delivered(verify, es) ==>
              EffectiveBodies(Run(verify, EMPTY, ds)) == EffectiveBodies(Run(verify, EMPTY, es))
  {
    RunRepresents(verify, ds);
    EffectiveIsWinners(verify, Run(verify, EMPTY, ds), Delivered(verify, ds));
    RunRepresents(verify, es);
    EffectiveIsWinners(verify, Run(verify, EMPTY, es), Delivered(verify, es));
  }
}
