/**
 Signed events and the NIP-01 replacement rules of the portable relay node.
 */
module Events {
  import opened Prelude

  /** A signed event. The id is the hash of every other field except the signature. */
  datatype Event = Event(
    id: string,
    pubkey: string,
    createdAt: int,
    kind: int,
    tags: seq<seq<string>>,
    content: string,
    sig: string
  )

  const KIND_AUTH := 22242
  const KIND_HTTP_AUTH := 27235
  const KIND_BEACON_RESPONSE := 20701

  /** The hashed part of an event: what an id stands for. Signatures are not hashed. */
  function Body(e: Event): Event {
    e.(sig := "")
  }

  /** What signature checking gives: two verified events with one id have one body. */
  ghost predicate HashBinding(verify: Event -> bool) {
    forall e, f :: verify(e) && verify(f) && e.id == f.id ==> Body(e) == Body(f)
  }

  predicate IsEphemeralKind(kind: int) {
    20_000 <= kind < 30_000
  }

  /** The second entry of the first tag whose first entry is `name`, if it has one. */
  function TagValue(tags: seq<seq<string>>, name: string): Option<string> {
    if tags == [] then None
    else if tags[0] != [] && tags[0][0] == name then
      if |tags[0]| > 1 then Some(tags[0][1]) else None
    else TagValue(tags[1..], name)
  }

  datatype Key =
    | Replaceable(pubkey: string, kind: int)
    | Parameterized(pubkey: string, kind: int, identifier: string)

  function ReplacementKey(e: Event): Option<Key> {
    if e.kind == 0 || e.kind == 3 || 10_000 <= e.kind < 20_000 then
      Some(Replaceable(e.pubkey, e.kind))
    else if 30_000 <= e.kind < 40_000 then
      var d := TagValue(e.tags, "d");
      Some(Parameterized(e.pubkey, e.kind, if d.Some? then d.value else ""))
    else
      None
  }

  /** Newer wins; at equal times the smaller id wins. */
  predicate Wins(candidate: Event, current: Event) {
    candidate.createdAt > current.createdAt ||
    (candidate.createdAt == current.createdAt && Less(candidate.id, current.id))
  }

  predicate SameKey(e: Event, f: Event) {
    ReplacementKey(e).Some? && ReplacementKey(e) == ReplacementKey(f)
  }

  lemma WinsTransitive(a: Event, b: Event, c: Event)
    requires Wins(a, b) && Wins(b, c)
    ensures Wins(a, c)
  {
    if a.createdAt == b.createdAt == c.createdAt {
      LessTransitive(a.id, b.id, c.id);
    }
  }

  lemma WinsIrreflexive(a: Event)
    ensures !Wins(a, a)
  {
    LessIrreflexive(a.id);
  }

  lemma WinsTotal(a: Event, b: Event)
    requires a.id != b.id
    ensures Wins(a, b) || Wins(b, a)
  {
    LessTotal(a.id, b.id);
  }

  lemma WinsAsymmetric(a: Event, b: Event)
    requires Wins(a, b)
    ensures !Wins(b, a)
  {
    if Wins(b, a) {
      WinsTransitive(a, b, a);
      WinsIrreflexive(a);
    }
  }
}
