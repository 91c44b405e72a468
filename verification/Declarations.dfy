/**
 Operator configuration derived from the journal: owner-signed kind-30700 heads
 evaluated into peers, readers and streams.
 */
module Declarations {
  import opened Prelude
  import opened Json
  import opened Events
  import opened Export

  const KIND_SYNC_DECLARATION := 30700

  datatype Trust = Trust(principal: string, keys: seq<string>)

  /** Per domain: `None` is unclaimed, a map (possibly empty) governs wholesale. */
  datatype Config = Config(
    peers: Option<map<string, Trust>>,
    readers: Option<map<string, Trust>>,
    streams: Option<map<string, Selection>>
  )

  datatype Malformed = Malformed(dTag: string, eventId: string, reason: string)

  /** What a head is about. */
  datatype Claim = Nothing | Admit(name: string) | Read(name: string) | Export(name: string)

  /** The node's anchors and the JSON parser it evaluates content with. */
  datatype Anchor = Anchor(owner: string, nodeLabel: string, parse: string -> Option<Json>)

  // ------------------------------------------------------- reading one head

  /** What a head is about. A node without an owner or a label has no declarations. */
  function ClaimOf(a: Anchor, e: Event): Claim {
    var d := TagValue(e.tags, "d");
    if a.owner == "" || a.nodeLabel == "" then Nothing
    else if e.kind != KIND_SYNC_DECLARATION || e.pubkey != a.owner || d.None? then Nothing
    else if TagValue(e.tags, "n") != Some(a.nodeLabel) then Nothing
    else if "admit/" <= d.value then Admit(d.value[|"admit/"|..])
    else if "read/" <= d.value then Read(d.value[|"read/"|..])
    else if "export/" <= d.value then Export(d.value[|"export/"|..])
    else Nothing
  }

  predicate IsActive(content: Json) {
    var status := Get(content, "status");
    status.None? || status.value.Null? || status.value == Str("active")
  }

  function ContentOf(a: Anchor, e: Event): Result<Json, string> {
    var parsed := a.parse(e.content);
    if parsed.None? then Err("content is not JSON")
    else if !parsed.value.Obj? then Err("content must be a JSON object")
    else Ok(parsed.value)
  }

  function Keys(tags: seq<seq<string>>): seq<string> {
    if tags == [] then []
    else (if |tags[0]| > 1 && tags[0][0] == "p" then [tags[0][1]] else []) + Keys(tags[1..])
  }

  /** An active admit or read head gives a trust entry; a revoked one gives none. */
  function PeerEntry(a: Anchor, e: Event): Result<Option<Trust>, string> {
    var content := ContentOf(a, e);
    if content.Err? then Err(content.error)
    else if !IsActive(content.value) then Ok(None)
    else
      var principal := Get(content.value, "principal");
      if principal.None? || !principal.value.Str? || principal.value.s == "" then
        Err("active head requires a string principal")
      else if Keys(e.tags) == [] then
        Err("active head requires at least one p-tag verification key")
      else Ok(Some(Trust(principal.value.s, Keys(e.tags))))
  }

  function ExportEntry(a: Anchor, e: Event): Result<Option<Selection>, string> {
    var content := ContentOf(a, e);
    if content.Err? then Err(content.error)
    else if !IsActive(content.value) then Ok(None)
    else
      var selection := Get(content.value, "selection");
      if selection.None? || !(selection.value.Obj? || selection.value.Arr?) then
        Err("active export head requires a selection object")
      else
        var mirror := Get(selection.value, "mirror");
        var filter := Get(selection.value, "filter");
        var from := Get(selection.value, "from_source");
        if mirror == Some(Bool(true)) then Ok(Some(Mirror))
        else if filter.Some? && filter.value.Arr? then Ok(Some(Filter(filter.value.items)))
        else if from.Some? && from.value.Str? && from.value.s != "" then Ok(Some(FromSource(from.value.s)))
        else Err("selection must be {mirror:true}, {filter:[...]}, or {from_source:\"...\"}")
  }

  predicate IsMalformed(a: Anchor, e: Event) {
    match ClaimOf(a, e)
    case Nothing => false
    case Admit(_) => PeerEntry(a, e).Err?
    case Read(_) => PeerEntry(a, e).Err?
    case Export(_) => ExportEntry(a, e).Err?
  }

  // ---------------------------------------------- meaning of a set of heads

  function ClaimsOf(a: Anchor): Event -> Claim {
    (e: Event) => ClaimOf(a, e)
  }

  /** Distinct heads claim distinct things. */
  ghost predicate Apart(of: Event -> Claim, heads: set<Event>) {
    forall e, f | e in heads && f in heads && of(e) != Nothing && of(e) == of(f) :: e == f
  }

  ghost predicate Distinct(a: Anchor, heads: set<Event>) {
    Apart(ClaimsOf(a), heads)
  }

  /** `m` holds exactly the entries of the heads that make the claims `claim(name)`. */
  ghost predicate Holds<T(!new)>(of: Event -> Claim, heads: set<Event>, m: Option<map<string, T>>, claim: string -> Claim, entry: Event -> Option<T>) {
    && (m.Some? <==> exists e, name :: e in heads && of(e) == claim(name))
    && (m.Some? ==>
          && (forall name | name in m.value ::
                exists e :: e in heads && of(e) == claim(name) && entry(e) == Some(m.value[name]))
          && (forall e, name | e in heads && of(e) == claim(name) && entry(e).Some? ::
                name in m.value))
  }

  function PeerOf(a: Anchor): Event -> Option<Trust> {
    (e: Event) => var r := PeerEntry(a, e); if r.Ok? then r.value else None
  }

  function StreamOf(a: Anchor): Event -> Option<Selection> {
    (e: Event) => var r := ExportEntry(a, e); if r.Ok? then r.value else None
  }

  function AdmitClaim(name: string): Claim { Admit(name) }
  function ReadClaim(name: string): Claim { Read(name) }
  function ExportClaim(name: string): Claim { Export(name) }

  /** The configuration that a set of heads stands for, without mention of order. */
  ghost predicate Denotes(a: Anchor, heads: set<Event>, r: Result<Config, Malformed>) {
    match r
    case Err(_) => exists e :: e in heads && IsMalformed(a, e)
    case Ok(c) =>
      && (forall e | e in heads :: !IsMalformed(a, e))
      && Holds(ClaimsOf(a), heads, c.peers, AdmitClaim, PeerOf(a))
      && Holds(ClaimsOf(a), heads, c.readers, ReadClaim, PeerOf(a))
      && Holds(ClaimsOf(a), heads, c.streams, ExportClaim, StreamOf(a))
  }

  ghost predicate Agree(r: Result<Config, Malformed>, q: Result<Config, Malformed>) {
    (r.Err? && q.Err?) || r == q
  }

  lemma HoldsUnique<T(!new)>(of: Event -> Claim, heads: set<Event>, m: Option<map<string, T>>, n: Option<map<string, T>>, claim: string -> Claim, entry: Event -> Option<T>)
    requires Apart(of, heads)
    requires forall name :: claim(name) != Nothing
    requires Holds(of, heads, m, claim, entry) && Holds(of, heads, n, claim, entry)
    ensures m == n
  {
    if m.Some? {
      forall name ensures name in m.value <==> name in n.value {
        if name in m.value {
          var e :| e in heads && of(e) == claim(name) && entry(e) == Some(m.value[name]);
        }
        if name in n.value {
          var e :| e in heads && of(e) == claim(name) && entry(e) == Some(n.value[name]);
        }
      }
      forall name | name in m.value ensures m.value[name] == n.value[name] {
        var e :| e in heads && of(e) == claim(name) && entry(e) == Some(m.value[name]);
        var f :| f in heads && of(f) == claim(name) && entry(f) == Some(n.value[name]);
        assert e == f;
      }
      assert m.value == n.value;
    }
  }

  /** A set of distinct heads stands for one configuration, or for failure. */
  lemma DenotesUnique(a: Anchor, heads: set<Event>, r: Result<Config, Malformed>, q: Result<Config, Malformed>)
    requires Distinct(a, heads) && Denotes(a, heads, r) && Denotes(a, heads, q)
    ensures Agree(r, q)
  {
    if r.Ok? && q.Ok? {
      HoldsUnique(ClaimsOf(a), heads, r.value.peers, q.value.peers, AdmitClaim, PeerOf(a));
      HoldsUnique(ClaimsOf(a), heads, r.value.readers, q.value.readers, ReadClaim, PeerOf(a));
      HoldsUnique(ClaimsOf(a), heads, r.value.streams, q.value.streams, ExportClaim, StreamOf(a));
    }
  }

  // -------------------------------------------------------------- evaluation

  lemma HoldsSkip<T(!new)>(of: Event -> Claim, heads: set<Event>, m: Option<map<string, T>>, claim: string -> Claim, entry: Event -> Option<T>, e: Event)
    requires Holds(of, heads, m, claim, entry)
    requires forall name :: claim(name) != of(e)
    ensures Holds(of, heads + {e}, m, claim, entry)
  {
    var more := heads + {e};
    if m.Some? {
      var f, name :| f in heads && of(f) == claim(name);
      assert f in more;
      forall n | n in m.value
        ensures exists g :: g in more && of(g) == claim(n) && entry(g) == Some(m.value[n])
      {
        var g :| g in heads && of(g) == claim(n) && entry(g) == Some(m.value[n]);
        assert g in more;
      }
    }
  }

  /** A domain's map after one more head of that domain. */
  function Extend<T>(m: Option<map<string, T>>, name: string, entry: Option<T>): Option<map<string, T>> {
    var base := if m.Some? then m.value else map[];
    Some(if entry.Some? then base[name := entry.value] else base)
  }

  lemma HoldsExtend<T(!new)>(of: Event -> Claim, heads: set<Event>, m: Option<map<string, T>>, claim: string -> Claim, entry: Event -> Option<T>, e: Event, name: string)
    requires Holds(of, heads, m, claim, entry)
    requires Apart(of, heads + {e})
    requires of(e) == claim(name) != Nothing
    requires forall n, k :: claim(n) == claim(k) ==> n == k
    ensures Holds(of, heads + {e}, Extend(m, name, entry(e)), claim, entry)
  {
    var more, x := heads + {e}, Extend(m, name, entry(e));
    assert e in more;
    forall n | n in x.value
      ensures exists g :: g in more && of(g) == claim(n) && entry(g) == Some(x.value[n])
    {
      if n == name && entry(e).Some? {
        assert entry(e) == Some(x.value[n]);
      } else {
        var g :| g in heads && of(g) == claim(n) && entry(g) == Some(m.value[n]);
        assert g in more;
      }
    }
    forall g, n | g in more && of(g) == claim(n) && entry(g).Some? ensures n in x.value {
      if n == name { assert g == e; }
    }
  }

  function Bodies(es: seq<Event>): set<Event> {
    set e | e in es :: Body(e)
  }

  lemma BodiesNext(es: seq<Event>, i: nat)
    requires i < |es|
    ensures Bodies(es[..i + 1]) == Bodies(es[..i]) + {Body(es[i])}
  {
    assert es[..i + 1] == es[..i] + [es[i]];
  }

  /** One head folded into the configuration so far. */
  function Fold(a: Anchor, c: Config, e: Event): Result<Config, Malformed> {
    match ClaimOf(a, e)
    case Nothing => Ok(c)
    case Admit(name) =>
      var entry := PeerEntry(a, e);
      if entry.Err? then Err(Malformed("admit/" + name, e.id, entry.error))
      else Ok(c.(peers := Extend(c.peers, name, entry.value)))
    case Read(name) =>
      var entry := PeerEntry(a, e);
      if entry.Err? then Err(Malformed("read/" + name, e.id, entry.error))
      else Ok(c.(readers := Extend(c.readers, name, entry.value)))
    case Export(name) =>
      var entry := ExportEntry(a, e);
      if entry.Err? then Err(Malformed("export/" + name, e.id, entry.error))
      else Ok(c.(streams := Extend(c.streams, name, entry.value)))
  }

  /** The signature plays no part in what a head says. */
  lemma UnsignedReads(a: Anchor, e: Event)
    ensures ClaimOf(a, Body(e)) == ClaimOf(a, e)
    ensures PeerEntry(a, Body(e)) == PeerEntry(a, e) && ExportEntry(a, Body(e)) == ExportEntry(a, e)
  {
    assert ContentOf(a, Body(e)) == ContentOf(a, e);
  }

  lemma FoldDenotes(a: Anchor, heads: set<Event>, c: Config, event: Event)
    requires Denotes(a, heads, Ok(c)) && Distinct(a, heads + {Body(event)})
    requires Fold(a, c, event).Ok?
    ensures Denotes(a, heads + {Body(event)}, Fold(a, c, event))
  {
    var e := Body(event);
    UnsignedReads(a, event);
    match ClaimOf(a, event)
    case Nothing => SkipAll(a, heads, c, e);
    case Admit(name) => AdmitOne(a, heads, c, e, name);
    case Read(name) => ReadOne(a, heads, c, e, name);
    case Export(name) => ExportOne(a, heads, c, e, name);
  }

  lemma FoldFails(a: Anchor, c: Config, event: Event)
    ensures Fold(a, c, event).Err? <==> IsMalformed(a, Body(event))
  {
    UnsignedReads(a, event);
  }

  /**
   The evaluation loop. It fails exactly when some governing head is malformed;
   when heads are distinct its result is the one their set denotes, whatever
   the order of rows.
   */
  method EvaluateDeclarations(a: Anchor, events: seq<Event>) returns (r: Result<Config, Malformed>)
    ensures r.Err? <==> exists e :: e in Bodies(events) && IsMalformed(a, e)
    ensures Distinct(a, Bodies(events)) ==> Denotes(a, Bodies(events), r)
  {
    var config := Config(None, None, None);
    ghost var ok := Distinct(a, Bodies(events));
    var i := 0;
    while i < |events|
      invariant 0 <= i <= |events|
      invariant forall e | e in Bodies(events[..i]) :: !IsMalformed(a, e)
      invariant ok ==> Denotes(a, Bodies(events[..i]), Ok(config))
    {
      var next := Fold(a, config, events[i]);
      FoldFails(a, config, events[i]);
      BodiesNext(events, i);
      if next.Err? {
        assert Body(events[i]) in Bodies(events);
        return next;
      }
      if ok {
        PrefixDistinct(a, events, i);
        FoldDenotes(a, Bodies(events[..i]), config, events[i]);
      }
      config := next.value;
      i := i + 1;
    }
    assert events[..i] == events;
    r := Ok(config);
  }

  lemma PrefixDistinct(a: Anchor, events: seq<Event>, i: nat)
    requires i < |events| && Distinct(a, Bodies(events))
    ensures Distinct(a, Bodies(events[..i]) + {Body(events[i])})
  {
    BodiesNext(events, i);
    assert Bodies(events[..i + 1]) <= Bodies(events);
  }

  /** One more well-formed head keeps all heads well-formed. */
  lemma StillWellFormed(a: Anchor, heads: set<Event>, c: Config, e: Event)
    requires Denotes(a, heads, Ok(c)) && !IsMalformed(a, e)
    ensures forall f | f in heads + {e} :: !IsMalformed(a, f)
  {
  }

  lemma SkipAll(a: Anchor, heads: set<Event>, c: Config, e: Event)
    requires Denotes(a, heads, Ok(c)) && ClaimOf(a, e) == Nothing
    ensures Denotes(a, heads + {e}, Ok(c))
  {
    var of := ClaimsOf(a);
    StillWellFormed(a, heads, c, e);
    HoldsSkip(of, heads, c.peers, AdmitClaim, PeerOf(a), e);
    HoldsSkip(of, heads, c.readers, ReadClaim, PeerOf(a), e);
    HoldsSkip(of, heads, c.streams, ExportClaim, StreamOf(a), e);
  }

  lemma AdmitOne(a: Anchor, heads: set<Event>, c: Config, e: Event, name: string)
    requires Denotes(a, heads, Ok(c)) && Distinct(a, heads + {e})
    requires ClaimOf(a, e) == Admit(name) && PeerEntry(a, e).Ok?
    ensures Denotes(a, heads + {e}, Ok(c.(peers := Extend(c.peers, name, PeerEntry(a, e).value))))
  {
    var of := ClaimsOf(a);
    StillWellFormed(a, heads, c, e);
    HoldsExtend(of, heads, c.peers, AdmitClaim, PeerOf(a), e, name);
    HoldsSkip(of, heads, c.readers, ReadClaim, PeerOf(a), e);
    HoldsSkip(of, heads, c.streams, ExportClaim, StreamOf(a), e);
  }

  lemma ReadOne(a: Anchor, heads: set<Event>, c: Config, e: Event, name: string)
    requires Denotes(a, heads, Ok(c)) && Distinct(a, heads + {e})
    requires ClaimOf(a, e) == Read(name) && PeerEntry(a, e).Ok?
    ensures Denotes(a, heads + {e}, Ok(c.(readers := Extend(c.readers, name, PeerEntry(a, e).value))))
  {
    var of := ClaimsOf(a);
    StillWellFormed(a, heads, c, e);
    HoldsSkip(of, heads, c.peers, AdmitClaim, PeerOf(a), e);
    HoldsExtend(of, heads, c.readers, ReadClaim, PeerOf(a), e, name);
    HoldsSkip(of, heads, c.streams, ExportClaim, StreamOf(a), e);
  }

  lemma ExportOne(a: Anchor, heads: set<Event>, c: Config, e: Event, name: string)
    requires Denotes(a, heads, Ok(c)) && Distinct(a, heads + {e})
    requires ClaimOf(a, e) == Export(name) && ExportEntry(a, e).Ok?
    ensures Denotes(a, heads + {e}, Ok(c.(streams := Extend(c.streams, name, ExportEntry(a, e).value))))
  {
    var of := ClaimsOf(a);
    StillWellFormed(a, heads, c, e);
    HoldsSkip(of, heads, c.peers, AdmitClaim, PeerOf(a), e);
    HoldsSkip(of, heads, c.readers, ReadClaim, PeerOf(a), e);
    HoldsExtend(of, heads, c.streams, ExportClaim, StreamOf(a), e, name);
  }
}
