/** Trust as a function of what was delivered, and the permanence of revocation. */
module TrustPolicy {
  import opened Prelude
  import opened Events
  import opened Replacement
  import opened Journal
  import opened Export
  import opened Declarations

  /**
   The rows the node evaluates: effective ones that pass a coarse text
   prefilter. `like` may let anything else through but never drops a declaration.
   */
  function Heads(like: Event -> bool, t: Tables): set<Event> {
    set i | 0 <= i < |t.journal| && t.journal[i].effective && like(t.journal[i].event) :: Body(t.journal[i].event)
  }

  ghost predicate KeepsDeclarations(like: Event -> bool) {
    forall e: Event :: e.kind == KIND_SYNC_DECLARATION ==> like(e)
  }

  /** Winners of one owner's declarations have distinct `d` tags. */
  lemma WinnersAreDistinct(a: Anchor, ds: set<Event>)
    requires IdsBind(ds)
    ensures Distinct(a, Winners(ds))
  {
    forall e, f | e in Winners(ds) && f in Winners(ds) && ClaimOf(a, e) != Nothing && ClaimOf(a, e) == ClaimOf(a, f)
      ensures e == f
    {
      SameClaimSameKey(a, e, f);
      WinnerIsUnique(ds, e, f);
    }
  }

  lemma SameClaimSameKey(a: Anchor, e: Event, f: Event)
    requires ClaimOf(a, e) != Nothing && ClaimOf(a, e) == ClaimOf(a, f)
    ensures SameKey(e, f)
  {
    var d, c := TagValue(e.tags, "d").value, TagValue(f.tags, "d").value;
    match ClaimOf(a, e)
    case Admit(name) => assert d == "admit/" + name == c;
    case Read(name) => assert d == "read/" + name == c;
    case Export(name) => assert d == "export/" + name == c;
  }

  lemma HoldsSame<T(!new)>(of: Event -> Claim, s: set<Event>, all: set<Event>, m: Option<map<string, T>>, claim: string -> Claim, entry: Event -> Option<T>)
    requires s <= all && forall e | e in all && of(e) != Nothing :: e in s
    requires forall name :: claim(name) != Nothing
    requires Holds(of, s, m, claim, entry)
    ensures Holds(of, all, m, claim, entry)
  {
    if m.Some? {
      var e, name :| e in s && of(e) == claim(name);
      assert e in all;
      forall n | n in m.value
        ensures exists g :: g in all && of(g) == claim(n) && entry(g) == Some(m.value[n])
      {
        var g :| g in s && of(g) == claim(n) && entry(g) == Some(m.value[n]);
        assert g in all;
      }
    }
  }

  /** Events that claim nothing do not matter, so the prefilter does not either. */
  lemma DenotesSame(a: Anchor, s: set<Event>, all: set<Event>, r: Result<Config, Malformed>)
    requires s <= all && forall e | e in all && ClaimOf(a, e) != Nothing :: e in s
    requires Denotes(a, s, r)
    ensures Denotes(a, all, r)
  {
    if r.Ok? {
      HoldsSame(ClaimsOf(a), s, all, r.value.peers, AdmitClaim, PeerOf(a));
      HoldsSame(ClaimsOf(a), s, all, r.value.readers, ReadClaim, PeerOf(a));
      HoldsSame(ClaimsOf(a), s, all, r.value.streams, ExportClaim, StreamOf(a));
    } else {
      var e :| e in s && IsMalformed(a, e);
      assert e in all;
    }
  }

  /** What a node's rows denote is what the winners of its delivered set denote. */
  lemma ConfigFromDelivered(verify: Event -> bool, a: Anchor, like: Event -> bool, t: Tables, ds: set<Event>, r: Result<Config, Malformed>)
    requires HashBinding(verify) && KeepsDeclarations(like) && Represents(verify, t, ds)
    ensures Distinct(a, Heads(like, t)) && Distinct(a, Winners(ds))
    ensures Denotes(a, Heads(like, t), r) ==> Denotes(a, Winners(ds), r)
  {
    EffectiveIsWinners(verify, t, ds);
    BodiesBind(verify, t, ds);
    WinnersAreDistinct(a, ds);
    assert Heads(like, t) <= EffectiveBodies(t);
    if Denotes(a, Heads(like, t), r) {
      DenotesSame(a, Heads(like, t), EffectiveBodies(t), r);
    }
  }

  /**
   Trust is a function of the delivered set: two runs that delivered the same
   bodies, in any orders, evaluate to the same configuration or both fail.
   */
  lemma TrustIsFunctionOfDelivered(verify: Event -> bool, a: Anchor, like: Event -> bool, ds: seq<Delivery>, es: seq<Delivery>, r: Result<Config, Malformed>, q: Result<Config, Malformed>)
    requires HashBinding(verify) && KeepsDeclarations(like)
    requires Delivered(verify, ds) == Delivered(verify, es)
    requires Denotes(a, Heads(like, Run(verify, EMPTY, ds)), r)
    requires Denotes(a, Heads(like, Run(verify, EMPTY, es)), q)
    ensures Agree(r, q)
  {
    RunRepresents(verify, ds);
    RunRepresents(verify, es);
    ConfigFromDelivered(verify, a, like, Run(verify, EMPTY, ds), Delivered(verify, ds), r);
    ConfigFromDelivered(verify, a, like, Run(verify, EMPTY, es), Delivered(verify, es), q);
    DenotesUnique(a, Winners(Delivered(verify, ds)), r, q);
  }

  /** Peers in force: the journal's when it claims the domain, the environment's otherwise. */
  function ResolvedPeers(c: Config, env: map<string, Trust>): map<string, Trust> {
    if c.peers.Some? then c.peers.value else env
  }

  function ResolvedReaders(c: Config, env: map<string, Trust>): map<string, Trust> {
    if c.readers.Some? then c.readers.value else env
  }

  function ResolvedStreams(c: Config, env: map<string, Selection>): map<string, Selection> {
    if c.streams.Some? then c.streams.value else env
  }

  predicate Revoked(a: Anchor, h: Event) {
    match ClaimOf(a, h)
    case Nothing => false
    case Admit(_) => PeerEntry(a, h) == Ok(None)
    case Read(_) => PeerEntry(a, h) == Ok(None)
    case Export(_) => ExportEntry(a, h) == Ok(None)
  }

  /** `c` gives no trust for the thing `h` is about, whatever the environment says. */
  ghost predicate Withholds(c: Config, claim: Claim) {
    match claim
    case Nothing => true
    case Admit(name) => forall env: map<string, Trust> :: name !in ResolvedPeers(c, env)
    case Read(name) => forall env: map<string, Trust> :: name !in ResolvedReaders(c, env)
    case Export(name) => forall env: map<string, Selection> :: name !in ResolvedStreams(c, env)
  }

  lemma RevokedWinnerWithholds<T(!new)>(of: Event -> Claim, heads: set<Event>, h: Event, m: Option<map<string, T>>, claim: string -> Claim, entry: Event -> Option<T>, name: string)
    requires Apart(of, heads) && h in heads && of(h) == claim(name) != Nothing && entry(h) == None
    requires Holds(of, heads, m, claim, entry)
    ensures m.Some? && name !in m.value
  {
  }

  /**
   Revocation sticks: as long as nothing that wins over a revoked head `h` has
   been delivered, no evaluation confers the trust it revoked and the
   environment is not consulted for it, however often older heads come back.
   */
  lemma RevocationSticks(verify: Event -> bool, a: Anchor, like: Event -> bool, ds: seq<Delivery>, h: Event, r: Result<Config, Malformed>)
    requires HashBinding(verify) && KeepsDeclarations(like)
    requires h in Delivered(verify, ds) && Revoked(a, h)
    requires forall e | e in Delivered(verify, ds) && SameKey(e, h) :: !Wins(e, h)
    requires Denotes(a, Heads(like, Run(verify, EMPTY, ds)), r)
    ensures r.Ok? ==> Withholds(r.value, ClaimOf(a, h))
  {
    var all := Delivered(verify, ds);
    RunRepresents(verify, ds);
    ConfigFromDelivered(verify, a, like, Run(verify, EMPTY, ds), all, r);
    assert h in Winners(all) by { assert Beaters(all, h) == {}; }
    if r.Ok? {
      match ClaimOf(a, h)
      case Admit(name) => RevokedWinnerWithholds(ClaimsOf(a), Winners(all), h, r.value.peers, AdmitClaim, PeerOf(a), name);
      case Read(name) => RevokedWinnerWithholds(ClaimsOf(a), Winners(all), h, r.value.readers, ReadClaim, PeerOf(a), name);
      case Export(name) => RevokedWinnerWithholds(ClaimsOf(a), Winners(all), h, r.value.streams, ExportClaim, StreamOf(a), name);
    }
  }

  /** A domain with any governing head is governed by the journal alone. */
  lemma ClaimedDomainIgnoresEnvironment(a: Anchor, heads: set<Event>, h: Event, c: Config,
                                        env: map<string, Trust>, other: map<string, Trust>,
                                        streams: map<string, Selection>, otherStreams: map<string, Selection>)
    requires h in heads && Denotes(a, heads, Ok(c))
    ensures ClaimOf(a, h).Admit? ==> ResolvedPeers(c, env) == ResolvedPeers(c, other)
    ensures ClaimOf(a, h).Read? ==> ResolvedReaders(c, env) == ResolvedReaders(c, other)
    ensures ClaimOf(a, h).Export? ==> ResolvedStreams(c, streams) == ResolvedStreams(c, otherStreams)
  {
    match ClaimOf(a, h)
    case Nothing =>
    case Admit(name) => assert ClaimsOf(a)(h) == AdmitClaim(name);
    case Read(name) => assert ClaimsOf(a)(h) == ReadClaim(name);
    case Export(name) => assert ClaimsOf(a)(h) == ExportClaim(name);
  }
}
