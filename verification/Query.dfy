/** Filtered queries over the effective, visible events, and keyset paging through them. */
module Query {
  import opened Prelude
  import opened Events
  import opened Journal

  const DEFAULT_QUERY_LIMIT := 500
  const MAX_QUERY_LIMIT := 5_000

  datatype Filter = Filter(
    ids: Option<seq<string>>,
    authors: Option<seq<string>>,
    kinds: Option<seq<int>>,
    tagged: seq<(string, seq<string>)>,
    since: Option<int>,
    until: Option<int>,
    beforeId: Option<string>,
    limit: Option<int>
  )

  // ------------------------------------------------------------- disclosure

  const AUTHOR_ONLY_KINDS := {30_300, 30_350}
  const P_GATED_KINDS := {24_200, 44_100, 44_101, 1_059, 30_622, 44_200}

  predicate HasTag(tags: seq<seq<string>>, name: string, value: string) {
    exists tag | tag in tags :: |tag| > 1 && tag[0] == name && tag[1] == value
  }

  predicate VisibleTo(reader: string, e: Event) {
    && (e.kind in AUTHOR_ONLY_KINDS ==> e.pubkey == reader)
    && (e.kind in P_GATED_KINDS ==> HasTag(e.tags, "p", reader))
  }

  /** Effective events in journal order, cut to what the reader may see. */
  function Readable(j: seq<Row>, reader: Option<string>): seq<Event> {
    if j == [] then []
    else (if j[0].effective && (reader.None? || VisibleTo(reader.value, j[0].event)) then [j[0].event] else [])
         + Readable(j[1..], reader)
  }

  predicate UniqueIds(s: seq<Event>) {
    forall i, k | 0 <= i < k < |s| :: s[i].id != s[k].id
  }

  lemma {:induction false} ReadableMeaning(j: seq<Row>, reader: Option<string>, e: Event)
    ensures e in Readable(j, reader) <==>
            exists i | 0 <= i < |j| :: j[i].effective && j[i].event == e && (reader.None? || VisibleTo(reader.value, e))
  {
    if j != [] {
      ReadableMeaning(j[1..], reader, e);
      assert forall i | 0 < i < |j| :: j[i] == j[1..][i - 1];
    }
  }

  lemma {:induction false} ReadableIsUnique(j: seq<Row>, reader: Option<string>)
    requires forall i, k | 0 <= i < k < |j| :: j[i].event.id != j[k].event.id
    ensures UniqueIds(Readable(j, reader))
  {
    if j != [] {
      ReadableIsUnique(j[1..], reader);
      forall e | e in Readable(j[1..], reader) ensures e.id != j[0].event.id {
        ReadableMeaning(j[1..], reader, e);
      }
    }
  }

  // ------------------------------------------------------------------ order

  /** Newest first, ties by smaller id: the same order that decides replacement. */
  predicate Sorted(s: seq<Event>) {
    forall i, k | 0 <= i < k < |s| :: Wins(s[i], s[k])
  }

  function Insert(e: Event, s: seq<Event>): (r: seq<Event>)
    ensures multiset(r) == multiset{e} + multiset(s)
  {
    if s == [] then [e]
    else if Wins(e, s[0]) then [e] + s
    else assert s == [s[0]] + s[1..]; [s[0]] + Insert(e, s[1..])
  }

  function SortEvents(s: seq<Event>): (r: seq<Event>)
    ensures multiset(r) == multiset(s)
  {
    if s == [] then []
    else assert s == [s[0]] + s[1..]; Insert(s[0], SortEvents(s[1..]))
  }

  lemma SameElements(r: seq<Event>, s: seq<Event>)
    requires multiset(r) == multiset(s)
    ensures forall e :: e in r <==> e in s
  {
    forall e ensures e in r <==> e in s {
      assert e in r <==> e in multiset(r);
      assert e in s <==> e in multiset(s);
    }
  }

  lemma {:induction false} InsertSorted(e: Event, s: seq<Event>)
    requires Sorted(s) && forall f | f in s :: f.id != e.id
    ensures Sorted(Insert(e, s))
  {
    if s != [] && !Wins(e, s[0]) {
      InsertSorted(e, s[1..]);
      WinsTotal(e, s[0]);
      var r := Insert(e, s[1..]);
      forall k | 0 <= k < |r| ensures Wins(s[0], r[k]) {
        assert r[k] in multiset(r);
        assert r[k] == e || r[k] in s[1..];
      }
    } else if s != [] {
      forall k | 0 < k < |s| ensures Wins(e, s[k]) { WinsTransitive(e, s[0], s[k]); }
    }
  }

  lemma {:induction false} SortEventsSorted(s: seq<Event>)
    requires UniqueIds(s)
    ensures Sorted(SortEvents(s))
  {
    if s != [] {
      SortEventsSorted(s[1..]);
      SameElements(SortEvents(s[1..]), s[1..]);
      InsertSorted(s[0], SortEvents(s[1..]));
    }
  }

  // ---------------------------------------------------------------- filters

  /** For every `#name` condition, a tag with one of its values. */
  predicate CarriesTags(tagged: seq<(string, seq<string>)>, e: Event) {
    forall i | 0 <= i < |tagged| :: exists v | v in tagged[i].1 :: HasTag(e.tags, tagged[i].0, v)
  }

  /** Everything a filter asks except the keyset position and the limit. */
  predicate Asks(f: Filter, e: Event) {
    && (f.ids.Some? ==> e.id in f.ids.value)
    && (f.authors.Some? ==> e.pubkey in f.authors.value)
    && (f.kinds.Some? ==> e.kind in f.kinds.value)
    && CarriesTags(f.tagged, e)
    && (f.since.Some? ==> f.since.value <= e.createdAt)
  }

  /** `until` is inclusive. */
  predicate MatchFilter(f: Filter, e: Event) {
    Asks(f, e) && (f.until.Some? ==> e.createdAt <= f.until.value)
  }

  /** Already delivered by an earlier page: same second as `until`, id not after `before_id`. */
  predicate Skipped(f: Filter, e: Event) {
    f.beforeId.Some? && f.until == Some(e.createdAt) && (e.id == f.beforeId.value || Less(e.id, f.beforeId.value))
  }

  predicate Passes(f: Filter, e: Event) {
    MatchFilter(f, e) && !Skipped(f, e)
  }

  function Limit(f: Filter): (n: nat)
    ensures n <= MAX_QUERY_LIMIT
  {
    var asked := if f.limit.Some? then f.limit.value else DEFAULT_QUERY_LIMIT;
    if asked < 0 then 0 else if asked > MAX_QUERY_LIMIT then MAX_QUERY_LIMIT else asked
  }

  /** The events of `s` a filter lets through, in the order of `s`. */
  function Keep(f: Filter, s: seq<Event>): seq<Event> {
    if s == [] then []
    else (if Passes(f, s[0]) then [s[0]] else []) + Keep(f, s[1..])
  }

  function Page(f: Filter, s: seq<Event>): seq<Event> {
    var kept := Keep(f, s);
    if |kept| <= Limit(f) then kept else kept[..Limit(f)]
  }

  lemma {:induction false} KeepMeaning(f: Filter, s: seq<Event>, e: Event)
    ensures e in Keep(f, s) <==> e in s && Passes(f, e)
  {
    if s != [] {
      KeepMeaning(f, s[1..], e);
      assert s == [s[0]] + s[1..];
    }
  }

  lemma {:induction false} KeepSorted(f: Filter, s: seq<Event>)
    requires Sorted(s)
    ensures Sorted(Keep(f, s))
  {
    if s != [] {
      KeepSorted(f, s[1..]);
      forall k | 0 <= k < |Keep(f, s[1..])| ensures Wins(s[0], Keep(f, s[1..])[k]) {
        KeepMeaning(f, s[1..], Keep(f, s[1..])[k]);
      }
    }
  }

  // ----------------------------------------------------------------- paging

  /** The follow-up request: the last event of a page as (`until`, `before_id`). */
  function Next(f: Filter, last: Event): Filter {
    f.(until := Some(last.createdAt), beforeId := Some(last.id))
  }

  /** The part of a list that comes after an event in sort order. */
  function After(last: Event, s: seq<Event>): seq<Event> {
    if s == [] then []
    else (if Wins(last, s[0]) then [s[0]] else []) + After(last, s[1..])
  }

  /** The keyset position selects exactly what the first request selects beyond it. */
  lemma NextPasses(f: Filter, last: Event, e: Event)
    requires Passes(f, last)
    ensures Passes(Next(f, last), e) <==> Passes(f, e) && Wins(last, e)
  {
    var n := Next(f, last);
    assert Asks(n, e) <==> Asks(f, e);
    LessIrreflexive(last.id);
    if e.id != last.id { LessTotal(e.id, last.id); }
    if Less(last.id, e.id) {
      LessAsymmetric(last.id, e.id);
      if f.beforeId.Some? && Less(e.id, f.beforeId.value) {
        LessTransitive(last.id, e.id, f.beforeId.value);
      }
    }
  }

  lemma {:induction false} NextKeeps(f: Filter, last: Event, s: seq<Event>)
    requires Passes(f, last)
    ensures Keep(Next(f, last), s) == After(last, Keep(f, s))
  {
    if s != [] {
      NextKeeps(f, last, s[1..]);
      NextPasses(f, last, s[0]);
      if Passes(f, s[0]) {
        assert Keep(f, s)[0] == s[0] && Keep(f, s)[1..] == Keep(f, s[1..]);
      } else {
        assert Keep(f, s) == Keep(f, s[1..]);
      }
    }
  }

  lemma {:induction false} AfterNothing(last: Event, s: seq<Event>)
    requires forall e | e in s :: Wins(last, e)
    ensures After(last, s) == s
  {
    if s != [] {
      AfterNothing(last, s[1..]);
      assert s[0] in s && s == [s[0]] + s[1..];
    }
  }

  lemma {:induction false} AfterDrops(s: seq<Event>, m: nat)
    requires Sorted(s) && 0 < m <= |s|
    ensures After(s[m - 1], s) == s[m..]
  {
    if m == 1 {
      WinsIrreflexive(s[0]);
      AfterNothing(s[0], s[1..]);
    } else {
      AfterDrops(s[1..], m - 1);
      WinsAsymmetric(s[0], s[m - 1]);
      assert s[1..][m - 2] == s[m - 1] && s[1..][m - 1..] == s[m..];
    }
  }

  lemma NextDrops(f: Filter, s: seq<Event>)
    requires Sorted(s) && Page(f, s) != []
    ensures var p := Page(f, s);
            Keep(Next(f, p[|p| - 1]), s) == Keep(f, s)[|p|..]
  {
    var p, kept := Page(f, s), Keep(f, s);
    var last := p[|p| - 1];
    assert last == kept[|p| - 1];
    KeepMeaning(f, s, last);
    NextKeeps(f, last, s);
    KeepSorted(f, s);
    AfterDrops(kept, |p|);
  }

  /** Page after page until one comes back empty. */
  function Walk(f: Filter, s: seq<Event>): seq<Event>
    requires Sorted(s)
    decreases |Keep(f, s)|
  {
    var p := Page(f, s);
    if p == [] then []
    else
      NextDrops(f, s);
      p + Walk(Next(f, p[|p| - 1]), s)
  }

  lemma PageIsPrefix(f: Filter, s: seq<Event>)
    ensures |Page(f, s)| <= |Keep(f, s)| && Keep(f, s) == Page(f, s) + Keep(f, s)[|Page(f, s)|..]
  {
  }

  /**
   Following the last event as (`until`, `before_id`) visits every matching
   visible event exactly once, in sort order.
   */
  lemma {:induction false} WalkIsExact(f: Filter, s: seq<Event>)
    requires Sorted(s) && Limit(f) >= 1
    ensures Walk(f, s) == Keep(f, s)
    decreases |Keep(f, s)|
  {
    var p := Page(f, s);
    if p != [] {
      var next := Next(f, p[|p| - 1]);
      NextDrops(f, s);
      PageIsPrefix(f, s);
      WalkIsExact(next, s);
      assert Walk(f, s) == p + Walk(next, s);
    }
  }

  // ------------------------------------------------------- whole queries

  /** Selected by some filter's page. */
  predicate Chosen(fs: seq<Filter>, s: seq<Event>, e: Event) {
    exists i | 0 <= i < |fs| :: e in Page(fs[i], s)
  }

  lemma PageMeaning(f: Filter, s: seq<Event>, e: Event)
    requires e in Page(f, s)
    ensures e in s && Passes(f, e)
  {
    KeepMeaning(f, s, e);
  }

  /** One filter's scan: newest first, until its limit. */
  method Select(f: Filter, ordered: seq<Event>, selected: seq<Event>) returns (r: seq<Event>)
    requires UniqueIds(ordered) && UniqueIds(selected) && forall e | e in selected :: e in ordered
    ensures UniqueIds(r)
    ensures forall e :: e in r <==> e in selected || e in Page(f, ordered)
    ensures selected == [] ==> r == Page(f, ordered)
  {
    r := selected;
    var limit := Limit(f);
    if limit == 0 {
      return;
    }
    var matched, i := 0, 0;
    while i < |ordered| && matched < limit
      invariant 0 <= i <= |ordered|
      invariant matched == |Keep(f, ordered[..i])| <= limit
      invariant UniqueIds(r)
      invariant forall e | e in r :: e in ordered
      invariant forall e :: e in r <==> e in selected || e in Keep(f, ordered[..i])
      invariant selected == [] ==> r == Keep(f, ordered[..i])
    {
      var event := ordered[i];
      KeepSnoc(f, ordered, i);
      if Passes(f, event) {
        matched := matched + 1;
        if event !in r {
          KeepMeaning(f, ordered[..i], event);
          forall e | e in r ensures e.id != event.id { SameIdSameEvent(ordered, e, event); }
          r := r + [event];
        } else {
          NotEarlier(f, ordered, i);
        }
      }
      i := i + 1;
    }
    KeepPrefix(f, ordered, i);
    if i == |ordered| { assert ordered[..i] == ordered; }
  }

  lemma SameIdSameEvent(s: seq<Event>, e: Event, f: Event)
    requires UniqueIds(s) && e in s && f in s && e != f
    ensures e.id != f.id
  {
    var i :| 0 <= i < |s| && s[i] == e;
    var k :| 0 <= k < |s| && s[k] == f;
    if i < k { assert s[i].id != s[k].id; } else { assert s[k].id != s[i].id; }
  }

  lemma NotEarlier(f: Filter, s: seq<Event>, i: nat)
    requires UniqueIds(s) && i < |s|
    ensures s[i] !in Keep(f, s[..i])
  {
    KeepMeaning(f, s[..i], s[i]);
  }

  lemma {:induction false} KeepConcat(f: Filter, a: seq<Event>, b: seq<Event>)
    ensures Keep(f, a + b) == Keep(f, a) + Keep(f, b)
  {
    if a == [] {
      assert a + b == b;
    } else {
      KeepConcat(f, a[1..], b);
      assert (a + b)[1..] == a[1..] + b;
    }
  }

  lemma KeepSnoc(f: Filter, s: seq<Event>, i: nat)
    requires i < |s|
    ensures Keep(f, s[..i + 1]) == Keep(f, s[..i]) + (if Passes(f, s[i]) then [s[i]] else [])
  {
    KeepConcat(f, s[..i], [s[i]]);
    assert s[..i + 1] == s[..i] + [s[i]];
  }

  lemma KeepPrefix(f: Filter, s: seq<Event>, i: nat)
    requires i <= |s|
    ensures Keep(f, s[..i]) <= Keep(f, s)
  {
    KeepConcat(f, s[..i], s[i..]);
    assert s == s[..i] + s[i..];
  }

  /** The scans of all filters, one after the other. */
  method SelectAll(filters: seq<Filter>, ordered: seq<Event>) returns (selected: seq<Event>)
    requires UniqueIds(ordered)
    ensures UniqueIds(selected)
    ensures forall e :: e in selected <==> Chosen(filters, ordered, e)
    ensures |filters| == 1 ==> selected == Page(filters[0], ordered)
  {
    selected := [];
    var i := 0;
    while i < |filters|
      invariant 0 <= i <= |filters|
      invariant UniqueIds(selected)
      invariant forall e | e in selected :: e in ordered
      invariant forall e :: e in selected <==> Chosen(filters[..i], ordered, e)
      invariant i == 0 ==> selected == []
      invariant i == 1 ==> selected == Page(filters[0], ordered)
    {
      ghost var before := selected;
      selected := Select(filters[i], ordered, selected);
      forall e ensures e in selected <==> Chosen(filters[..i + 1], ordered, e) {
        ChosenNext(filters, ordered, i, e);
      }
      forall e | e in selected ensures e in ordered {
        if e !in before { PageMeaning(filters[i], ordered, e); }
      }
      i := i + 1;
    }
    assert filters[..i] == filters;
  }

  const KIND_BEACON_PULSE := 20_700

  /** Some filter that names the pulse kind matches the pulse. */
  predicate AsksForPulse(fs: seq<Filter>, pulse: Option<Event>) {
    pulse.Some? && exists i | 0 <= i < |fs| ::
      fs[i].kinds.Some? && KIND_BEACON_PULSE in fs[i].kinds.value && MatchFilter(fs[i], pulse.value)
  }

  lemma AddUnique(s: seq<Event>, e: Event)
    requires UniqueIds(s) && forall f | f in s :: f.id != e.id
    ensures UniqueIds(s + [e]) && forall f :: f in s + [e] <==> f in s || f == e
  {
  }

  /**
   A query: the union of the filters' pages over the visible events, and the pulse
   if it is asked for, sorted, each event once. One filter alone that does not ask
   for the pulse returns exactly its page. `pulse` is the synthesized pulse, if there
   is one and the reader may see it; no stored event has its id.
   */
  method QueryEffective(filters: seq<Filter>, visible: seq<Event>, pulse: Option<Event>) returns (r: seq<Event>)
    requires UniqueIds(visible) && (pulse.Some? ==> forall e | e in visible :: e.id != pulse.value.id)
    ensures Sorted(r) && UniqueIds(r)
    ensures forall e :: e in r <==>
              Chosen(filters, SortEvents(visible), e) || (AsksForPulse(filters, pulse) && pulse == Some(e))
    ensures |filters| == 1 && !AsksForPulse(filters, pulse) ==> r == Page(filters[0], SortEvents(visible))
  {
    var ordered := SortEvents(visible);
    SortKeepsUnique(visible);
    var selected := SelectAll(filters, ordered);
    if AsksForPulse(filters, pulse) {
      forall e | e in selected ensures e.id != pulse.value.id {
        var i :| 0 <= i < |filters| && e in Page(filters[i], ordered);
        PageMeaning(filters[i], ordered, e);
        SameElements(ordered, visible);
      }
      AddUnique(selected, pulse.value);
      selected := selected + [pulse.value];
    } else if |filters| == 1 {
      SortEventsSorted(visible);
      KeepSorted(filters[0], ordered);
      SortedIsFixed(selected);
    }
    r := SortEvents(selected);
    SortKeepsUnique(selected);
    SameElements(r, selected);
    SortEventsSorted(selected);
  }

  lemma ChosenNext(fs: seq<Filter>, s: seq<Event>, i: nat, e: Event)
    requires i < |fs|
    ensures Chosen(fs[..i + 1], s, e) <==> Chosen(fs[..i], s, e) || e in Page(fs[i], s)
  {
    if Chosen(fs[..i], s, e) {
      var k :| 0 <= k < i && e in Page(fs[..i][k], s);
      assert fs[..i + 1][k] == fs[..i][k];
    }
    if e in Page(fs[i], s) {
      assert fs[..i + 1][i] == fs[i];
    }
  }

  lemma {:induction false} SortedIsFixed(s: seq<Event>)
    requires Sorted(s)
    ensures SortEvents(s) == s
  {
    if s != [] {
      SortedIsFixed(s[1..]);
      assert s == [s[0]] + s[1..];
    }
  }

  lemma {:induction false} InsertKeepsUnique(e: Event, s: seq<Event>)
    requires UniqueIds(s) && forall f | f in s :: f.id != e.id
    ensures UniqueIds(Insert(e, s))
  {
    if s != [] && !Wins(e, s[0]) {
      InsertKeepsUnique(e, s[1..]);
      var r := Insert(e, s[1..]);
      forall k | 0 <= k < |r| ensures r[k].id != s[0].id {
        assert r[k] in multiset(r);
        assert r[k] == e || r[k] in s[1..];
      }
    }
  }

  lemma {:induction false} SortKeepsUnique(s: seq<Event>)
    requires UniqueIds(s)
    ensures UniqueIds(SortEvents(s))
  {
    if s != [] {
      SortKeepsUnique(s[1..]);
      SameElements(SortEvents(s[1..]), s[1..]);
      InsertKeepsUnique(s[0], SortEvents(s[1..]));
    }
  }

  // ------------------------------------------------------------------ count

  predicate MatchFilters(fs: seq<Filter>, e: Event) {
    exists i | 0 <= i < |fs| :: MatchFilter(fs[i], e)
  }

  /** Visible events that match some filter; the count endpoint ignores keyset positions. */
  function Matching(fs: seq<Filter>, s: seq<Event>): seq<Event> {
    if s == [] then []
    else (if MatchFilters(fs, s[0]) then [s[0]] else []) + Matching(fs, s[1..])
  }

  function CountEffective(fs: seq<Filter>, visible: seq<Event>): nat {
    |Matching(fs, visible)|
  }

  lemma {:induction false} MatchingMeaning(fs: seq<Filter>, s: seq<Event>, e: Event)
    ensures e in Matching(fs, s) <==> e in s && MatchFilters(fs, e)
  {
    if s != [] {
      MatchingMeaning(fs, s[1..], e);
      assert s == [s[0]] + s[1..];
    }
  }

  lemma {:induction false} MatchingUnique(fs: seq<Filter>, s: seq<Event>)
    requires UniqueIds(s)
    ensures UniqueIds(Matching(fs, s))
  {
    if s != [] {
      MatchingUnique(fs, s[1..]);
      forall e | e in Matching(fs, s[1..]) ensures e.id != s[0].id {
        MatchingMeaning(fs, s[1..], e);
      }
    }
  }

  /** Lists without repeated ids are as long as their sets of elements. */
  lemma UniqueTail(s: seq<Event>)
    requires UniqueIds(s) && s != []
    ensures UniqueIds(s[1..]) && s[0] !in s[1..]
  {
  }

  lemma {:induction false} LengthIsSize(s: seq<Event>)
    requires UniqueIds(s)
    ensures |s| == |set e | e in s|
  {
    if s != [] {
      var rest := s[1..];
      UniqueTail(s);
      LengthIsSize(rest);
      assert s == [s[0]] + rest;
      assert (set e | e in s) == {s[0]} + (set e | e in rest);
    }
  }

  lemma SubsetSize(a: set<Event>, b: set<Event>)
    requires a <= b
    ensures |a| <= |b| && (|a| == |b| ==> a == b)
  {
    assert b == a + (b - a);
    assert |b| == |a| + |b - a|;
  }

  /**
   A query never returns more than the count, and returns exactly as many when
   no limit bites and no filter carries a keyset position.
   */
  lemma QuerySizeIsCount(fs: seq<Filter>, visible: seq<Event>, r: seq<Event>)
    requires UniqueIds(visible) && UniqueIds(r)
    requires forall e :: e in r <==> Chosen(fs, SortEvents(visible), e)
    ensures |r| <= CountEffective(fs, visible)
    ensures (forall i | 0 <= i < |fs| :: fs[i].beforeId.None? && |Keep(fs[i], SortEvents(visible))| <= Limit(fs[i])) ==>
              |r| == CountEffective(fs, visible)
  {
    var s := SortEvents(visible);
    SameElements(s, visible);
    var a, b := set e | e in r, set e | e in Matching(fs, visible);
    LengthIsSize(r);
    MatchingUnique(fs, visible);
    LengthIsSize(Matching(fs, visible));
    forall e | e in r ensures e in b {
      var i :| 0 <= i < |fs| && e in Page(fs[i], s);
      PageMeaning(fs[i], s, e);
      MatchingMeaning(fs, visible, e);
    }
    SubsetSize(a, b);
    if forall i | 0 <= i < |fs| :: fs[i].beforeId.None? && |Keep(fs[i], s)| <= Limit(fs[i]) {
      forall e | e in b ensures e in a {
        MatchingMeaning(fs, visible, e);
        var i :| 0 <= i < |fs| && MatchFilter(fs[i], e);
        KeepMeaning(fs[i], s, e);
        assert e in Page(fs[i], s);
      }
      assert a == b;
    }
  }

  /** For one filter the size is exact: the smaller of its limit and the count. */
  lemma OneFilterSize(f: Filter, visible: seq<Event>)
    requires UniqueIds(visible) && f.beforeId.None?
    ensures |Page(f, SortEvents(visible))| ==
            if CountEffective([f], visible) <= Limit(f) then CountEffective([f], visible) else Limit(f)
  {
    var s := SortEvents(visible);
    SameElements(s, visible);
    SortKeepsUnique(visible);
    MatchingUnique([f], visible);
    KeepUnique(f, s);
    LengthIsSize(Keep(f, s));
    LengthIsSize(Matching([f], visible));
    forall e ensures e in Keep(f, s) <==> e in Matching([f], visible) {
      KeepMeaning(f, s, e);
      MatchingMeaning([f], visible, e);
      assert MatchFilters([f], e) <==> MatchFilter([f][0], e);
    }
    assert (set e | e in Keep(f, s)) == (set e | e in Matching([f], visible));
  }

  lemma {:induction false} KeepUnique(f: Filter, s: seq<Event>)
    requires UniqueIds(s)
    ensures UniqueIds(Keep(f, s))
  {
    if s != [] {
      KeepUnique(f, s[1..]);
      forall e | e in Keep(f, s[1..]) ensures e.id != s[0].id {
        KeepMeaning(f, s[1..], e);
      }
    }
  }
}
