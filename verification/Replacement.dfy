/**
 The specification the node converges to: of a set of events, every
 non-replaceable event and, for each replacement key, the one that wins over
 all others of that key ("Kinds" section of NIP-01). Nothing here mentions
 order of arrival.
 */
module Replacement {
  import opened Events

  /** Events of the set that replace `e`. */
  function Beaters(s: set<Event>, e: Event): set<Event> {
    set f | f in s && SameKey(f, e) && Wins(f, e)
  }

  function Winners(s: set<Event>): (w: set<Event>)
    ensures w <= s
  {
    set e | e in s && Beaters(s, e) == {}
  }

  /** Ids determine events inside the set. */
  ghost predicate IdsBind(s: set<Event>) {
    forall e, f | e in s && f in s && e.id == f.id :: e == f
  }

  /** Every event that loses, loses to a winner. */
  lemma Champion(s: set<Event>, e: Event) returns (w: Event)
    requires e in s
    ensures w in Winners(s)
    ensures w == e || (SameKey(w, e) && Wins(w, e))
    decreases |Beaters(s, e)|
  {
    if Beaters(s, e) == {} {
      return e;
    }
    var f :| f in Beaters(s, e);
    assert Beaters(s, f) < Beaters(s, e) by {
      forall g | g in Beaters(s, f) ensures g in Beaters(s, e) {
        WinsTransitive(g, f, e);
      }
      WinsIrreflexive(f);
    }
    SmallerSet(Beaters(s, f), Beaters(s, e));
    w := Champion(s, f);
    if w != f { WinsTransitive(w, f, e); }
  }

  lemma SmallerSet<T>(a: set<T>, b: set<T>)
    requires a < b
    ensures |a| < |b|
  {
    assert |b| == |a| + |b - a| by { assert b == a + (b - a); }
  }

  /** At most one winner per replacement key: the greatest by time, then smallest id. */
  lemma WinnerIsUnique(s: set<Event>, e: Event, f: Event)
    requires IdsBind(s)
    requires e in Winners(s) && f in Winners(s) && SameKey(e, f)
    ensures e == f
  {
    assert e !in Beaters(s, f) && f !in Beaters(s, e);
    if e.id != f.id {
      WinsTotal(e, f);
    }
  }

  /** Characterisation in the terms of NIP-01, both directions. */
  lemma WinnersMeaning(s: set<Event>, e: Event)
    requires IdsBind(s)
    ensures e in Winners(s) <==>
            e in s &&
            (ReplacementKey(e).None? ||
             forall f | f in s && SameKey(f, e) && f != e :: Wins(e, f))
  {
    if e in Winners(s) {
      forall f | f in s && SameKey(f, e) && f != e ensures Wins(e, f) {
        assert f !in Beaters(s, e);
        WinsTotal(e, f);
      }
    } else if e in s {
      var f :| f in Beaters(s, e);
      WinsIrreflexive(e);
      WinsAsymmetric(f, e);
    }
  }

  /**
   Losers can be forgotten: any part of `s` that keeps its winners stands for
   `s` in every larger union. This is why an export that omits superseded
   events still carries a node's whole effect.
   */
  lemma Absorb(part: set<Event>, s: set<Event>, t: set<Event>)
    requires Winners(s) <= part <= s
    ensures Winners(part + t) == Winners(s + t)
  {
    forall e | e in s + t ensures e in Winners(part + t) <==> e in Winners(s + t) {
      if e in part + t {
        BeatersAgree(part, s, t, e);
      } else {
        var w := Champion(s, e);
        assert w in Beaters(s + t, e);
      }
    }
  }

  lemma BeatersAgree(part: set<Event>, s: set<Event>, t: set<Event>, e: Event)
    requires Winners(s) <= part <= s
    ensures Beaters(part + t, e) == {} <==> Beaters(s + t, e) == {}
  {
    assert Beaters(part + t, e) <= Beaters(s + t, e);
    if Beaters(s + t, e) != {} {
      var f :| f in Beaters(s + t, e);
      if f in part + t {
        assert f in Beaters(part + t, e);
      } else {
        var w := Champion(s, f);
        WinsTransitive(w, f, e);
        assert w in Beaters(part + t, e);
      }
    }
  }

  /** Between a set of winners and the full set nothing changes. */
  lemma Sandwich(small: set<Event>, mid: set<Event>, all: set<Event>)
    requires small <= mid <= all
    requires Winners(small) == Winners(all)
    ensures Winners(mid) == Winners(all)
  {
    Absorb(mid, all, {});
    assert mid + {} == mid && all + {} == all;
  }
}
