/** The witnessed chain of beacon pulses. */
module Pulse {
  import opened Prelude
  import opened Events
  import opened Journal

  /** The two maintenance values that make up the chain. */
  datatype Chain = Chain(head: Option<string>, prev: Option<string>)

  datatype Statement = Statement(sequence: nat, head: Option<string>, previous: Option<string>)

  datatype Witness = Witness(tables: Tables, chain: Chain)

  /**
   A delivery whose emission ran to the end or not (no witness key, a malformed
   declaration, or the object died after the commit), or a pulse read.
   */
  datatype Moment = Deliver(d: Delivery, emitted: bool) | ReadPulse

  function HeadOf(j: seq<Row>): Option<string> {
    if j == [] then None else Some(j[|j| - 1].event.id)
  }

  /** The statement a pulse makes now: synthesized, never stored. */
  function Synthesize(w: Witness): Statement {
    var j, head := w.tables.journal, HeadOf(w.tables.journal);
    Statement(if j == [] then 0 else j[|j| - 1].sequence, head,
              if head == w.chain.head then w.chain.prev else w.chain.head)
  }

  /** Emission moves the chain onto a new head. */
  function Advance(c: Chain, head: Option<string>): Chain {
    if head.None? || head == c.head then c
    else Chain(head, if c.head.Some? then c.head else c.prev)
  }

  function Pass(verify: Event -> bool, w: Witness, m: Moment): Witness {
    match m
    case ReadPulse => w
    case Deliver(d, emitted) =>
      var (t, message) := Apply(verify, w.tables, d);
      Witness(t, if message == Stored && emitted then Advance(w.chain, HeadOf(t.journal)) else w.chain)
  }

  function PassAll(verify: Event -> bool, ms: seq<Moment>): Witness {
    if ms == [] then Witness(EMPTY, Chain(None, None))
    else Pass(verify, PassAll(verify, ms[..|ms| - 1]), ms[|ms| - 1])
  }

  /** Row of `a` comes before row of `b`. */
  ghost predicate Precedes(j: seq<Row>, a: string, b: string) {
    exists i, k :: 0 <= i < k < |j| && j[i].event.id == a && j[k].event.id == b
  }

  ghost predicate Linked(w: Witness) {
    && (w.chain.head.Some? ==> HasId(w.tables.journal, w.chain.head.value))
    && (w.chain.prev.Some? ==>
          w.chain.head.Some? && Precedes(w.tables.journal, w.chain.prev.value, w.chain.head.value))
  }

  predicate Extends(j: seq<Row>, n: seq<Row>) {
    |j| <= |n| && forall i | 0 <= i < |j| :: n[i].event == j[i].event
  }

  lemma GrowKeeps(j: seq<Row>, n: seq<Row>, a: string, b: string)
    requires Extends(j, n)
    ensures HasId(j, a) ==> HasId(n, a)
    ensures Precedes(j, a, b) ==> Precedes(n, a, b)
  {
    if HasId(j, a) {
      var i :| 0 <= i < |j| && j[i].event.id == a;
      assert n[i].event.id == a;
    }
    if Precedes(j, a, b) {
      var i, k :| 0 <= i < k < |j| && j[i].event.id == a && j[k].event.id == b;
      assert n[i].event.id == a && n[k].event.id == b;
    }
  }

  lemma GrowLinked(w: Witness, t: Tables)
    requires Linked(w) && Extends(w.tables.journal, t.journal)
    ensures Linked(Witness(t, w.chain))
  {
    var c := w.chain;
    GrowKeeps(w.tables.journal, t.journal,
              if c.head.Some? then c.head.value else "", "");
    GrowKeeps(w.tables.journal, t.journal,
              if c.prev.Some? then c.prev.value else "", if c.head.Some? then c.head.value else "");
  }

  lemma AdvanceLinked(t: Tables, c: Chain)
    requires Linked(Witness(t, c)) && t.journal != []
    ensures Linked(Witness(t, Advance(c, HeadOf(t.journal))))
  {
    var j := t.journal;
    assert j[|j| - 1].event.id == HeadOf(j).value;
    if c.head.Some? && c.head != HeadOf(j) {
      var i :| 0 <= i < |j| && j[i].event.id == c.head.value;
      assert i < |j| - 1;
    }
  }

  /** A statement never points back to its own head or to a row after it. */
  ghost predicate PointsBack(j: seq<Row>, s: Statement) {
    s.previous.Some? ==> s.head.Some? && Precedes(j, s.previous.value, s.head.value)
  }

  lemma LinkedPointsBack(w: Witness)
    requires Linked(w)
    ensures PointsBack(w.tables.journal, Synthesize(w))
  {
    var j, s := w.tables.journal, Synthesize(w);
    if s.previous.Some? && s.head != w.chain.head {
      var i :| 0 <= i < |j| && j[i].event.id == s.previous.value;
      assert j[|j| - 1].event.id == s.head.value && i < |j| - 1;
    }
  }

  /**
   In every run, whatever emissions were skipped or cut short, the recorded
   previous head precedes the recorded head in the journal and every pulse
   points strictly back.
   */
  lemma {:induction false} ChainIsWitnessed(verify: Event -> bool, ms: seq<Moment>)
    ensures Linked(PassAll(verify, ms))
    ensures PointsBack(PassAll(verify, ms).tables.journal, Synthesize(PassAll(verify, ms)))
  {
    if ms != [] {
      ChainIsWitnessed(verify, ms[..|ms| - 1]);
      var w, m := PassAll(verify, ms[..|ms| - 1]), ms[|ms| - 1];
      if m.Deliver? {
        var (t, message) := Apply(verify, w.tables, m.d);
        GrowLinked(w, t);
        if message == Stored && m.emitted {
          AdvanceLinked(t, w.chain);
        }
      }
    }
    LinkedPointsBack(PassAll(verify, ms));
  }

  /**
   The pulse emitted for a new head and every later pulse read before the next
   emission on that head agree: recording the head does not turn the link into
   a self-loop.
   */
  lemma IdleReadsRepeat(verify: Event -> bool, ms: seq<Moment>, d: Delivery)
    requires HashBinding(verify)
    requires Apply(verify, PassAll(verify, ms).tables, d).1 == Stored
    ensures var w := PassAll(verify, ms);
            var published := Synthesize(Witness(Apply(verify, w.tables, d).0, w.chain));
            && published.previous == w.chain.head
            && Synthesize(Pass(verify, w, Deliver(d, true))) == published
  {
    var w := PassAll(verify, ms);
    HeadIsOld(verify, ms, d);
    ChainIsWitnessed(verify, ms);
    RecordedRepeats(Apply(verify, w.tables, d).0, w.chain);
  }

  lemma RecordedRepeats(t: Tables, c: Chain)
    requires (c.prev.Some? ==> c.head.Some?) && t.journal != [] && HeadOf(t.journal) != c.head
    ensures Synthesize(Witness(t, c)).previous == c.head
    ensures Synthesize(Witness(t, Advance(c, HeadOf(t.journal)))) == Synthesize(Witness(t, c))
  {
  }

  lemma HeadIsOld(verify: Event -> bool, ms: seq<Moment>, d: Delivery)
    requires HashBinding(verify)
    requires Apply(verify, PassAll(verify, ms).tables, d).1 == Stored
    ensures HeadOf(Apply(verify, PassAll(verify, ms).tables, d).0.journal) == Some(d.event.id)
    ensures PassAll(verify, ms).chain.head != Some(d.event.id)
  {
    var w := PassAll(verify, ms);
    var ds := MomentsRepresent(verify, ms);
    NewIdIsAbsent(w.tables, ds, d.event.id);
    ChainIsWitnessed(verify, ms);
  }

  lemma {:induction false} MomentsRepresent(verify: Event -> bool, ms: seq<Moment>) returns (ds: set<Event>)
    requires HashBinding(verify)
    ensures Represents(verify, PassAll(verify, ms).tables, ds)
  {
    ds := {};
    if ms == [] {
      RunRepresents(verify, []);
    } else {
      ds := MomentsRepresent(verify, ms[..|ms| - 1]);
      if ms[|ms| - 1].Deliver? {
        ApplyRepresents(verify, PassAll(verify, ms[..|ms| - 1]).tables, ds, ms[|ms| - 1].d);
        ds := ds + Adds(verify, ms[|ms| - 1].d.event);
      }
    }
  }
}
