/** One-use authentication proofs (NIP-42, NIP-98) under pruning and an unsteady clock. */
module Proofs {
  const TIMESTAMP_TOLERANCE_SECS := 60
  const PROOF_RETENTION_SECS := 600

  /**
   One request that presents a proof. `checked` tells whether every check other
   than freshness and replay passed; the node reads its clock once to judge
   freshness and once more to consume the proof.
   */
  datatype Attempt = Attempt(id: string, checked: bool, verifyAt: int, consumeAt: int)

  predicate WithinTolerance(createdAt: int, now: int) {
    -TIMESTAMP_TOLERANCE_SECS <= now - createdAt <= TIMESTAMP_TOLERANCE_SECS
  }

  /** Inserts the proof, then deletes what is older than the retention period. */
  function Consume(consumed: map<string, int>, id: string, now: int): map<string, int> {
    var more := consumed[id := now];
    map p | p in more && more[p] >= now - PROOF_RETENTION_SECS :: more[p]
  }

  /** The id is a hash, so it fixes the creation time the proof is judged by. */
  function Try(createdAt: string -> int, consumed: map<string, int>, x: Attempt): (map<string, int>, bool) {
    if !x.checked || !WithinTolerance(createdAt(x.id), x.verifyAt) then (consumed, false)
    else if x.id in consumed then (consumed, false)
    else (Consume(consumed, x.id, x.consumeAt), true)
  }

  function After(createdAt: string -> int, xs: seq<Attempt>): map<string, int> {
    if xs == [] then map[]
    else Try(createdAt, After(createdAt, xs[..|xs| - 1]), xs[|xs| - 1]).0
  }

  predicate Accepted(createdAt: string -> int, xs: seq<Attempt>, i: nat)
    requires i < |xs|
  {
    Try(createdAt, After(createdAt, xs[..i]), xs[i]).1
  }

  ghost predicate AtMostOnce(createdAt: string -> int, xs: seq<Attempt>) {
    forall i, k | 0 <= i < k < |xs| && Accepted(createdAt, xs, i) && Accepted(createdAt, xs, k) ::
      xs[i].id != xs[k].id
  }

  /** No reading is more than `slack` below an earlier one. */
  ghost predicate Clock(xs: seq<Attempt>, slack: nat) {
    && (forall i | 0 <= i < |xs| :: xs[i].consumeAt >= xs[i].verifyAt - slack)
    && (forall i, k | 0 <= i < k < |xs| ::
          && xs[k].verifyAt >= xs[i].verifyAt - slack && xs[k].verifyAt >= xs[i].consumeAt - slack
          && xs[k].consumeAt >= xs[i].verifyAt - slack && xs[k].consumeAt >= xs[i].consumeAt - slack)
  }

  predicate OneReading(xs: seq<Attempt>) {
    forall i | 0 <= i < |xs| :: xs[i].consumeAt == xs[i].verifyAt
  }

  /** An accepted proof is still on record unless a later acceptance pruned it. */
  ghost predicate OnRecord(createdAt: string -> int, xs: seq<Attempt>, i: nat, n: nat)
    requires i < n <= |xs|
  {
    || (xs[i].id in After(createdAt, xs[..n]) && After(createdAt, xs[..n])[xs[i].id] == xs[i].consumeAt)
    || exists m | i < m < n :: xs[i].consumeAt < xs[m].consumeAt - PROOF_RETENTION_SECS
  }

  /** Acceptance means absent from the record, so equal ids cannot overwrite each other. */
  lemma {:induction false} RecordKept(createdAt: string -> int, xs: seq<Attempt>, i: nat, n: nat)
    requires i < n <= |xs| && Accepted(createdAt, xs, i)
    ensures OnRecord(createdAt, xs, i, n)
    decreases n
  {
    assert xs[..n][..n - 1] == xs[..n - 1];
    var last := xs[n - 1];
    var before := After(createdAt, xs[..n - 1]);
    if i < n - 1 {
      RecordKept(createdAt, xs, i, n - 1);
      if Accepted(createdAt, xs, n - 1) && xs[i].id in before && before[xs[i].id] == xs[i].consumeAt {
        if xs[i].consumeAt < last.consumeAt - PROOF_RETENTION_SECS {
          assert i < n - 1 < n;
        }
      }
    }
  }

  /**
   Each proof is accepted at most once, when the clock never falls more than
   480 s below an earlier reading (one reading per request), or more than
   240 s (two readings).
   */
  lemma OneUse(createdAt: string -> int, xs: seq<Attempt>, slack: nat)
    requires Clock(xs, slack)
    requires slack <= 240 || (slack <= 480 && OneReading(xs))
    ensures AtMostOnce(createdAt, xs)
  {
    forall i, k | 0 <= i < k < |xs| && Accepted(createdAt, xs, i) && Accepted(createdAt, xs, k)
      ensures xs[i].id != xs[k].id
    {
      RecordKept(createdAt, xs, i, k);
    }
  }

  /** Two proofs, `p` presented twice around an acceptance of `q`. */
  function Replayed(early: int, recorded: int, prune: int, late: int): seq<Attempt> {
    [Attempt("p", true, early, recorded), Attempt("q", true, prune, prune), Attempt("p", true, late, late)]
  }

  lemma ReplayedIsAccepted(createdAt: string -> int, early: int, recorded: int, prune: int, late: int)
    requires WithinTolerance(createdAt("p"), early) && WithinTolerance(createdAt("p"), late)
    requires createdAt("q") == prune && recorded < prune - PROOF_RETENTION_SECS
    ensures !AtMostOnce(createdAt, Replayed(early, recorded, prune, late))
  {
    var xs := Replayed(early, recorded, prune, late);
    assert xs[..0] == [];
    assert xs[..1][..0] == [] && xs[..2][..1] == xs[..1];
    assert "q" != "p";
    assert After(createdAt, xs[..1]) == Consume(map[], "p", recorded);
    assert After(createdAt, xs[..2]) == Consume(After(createdAt, xs[..1]), "q", prune);
    assert Accepted(createdAt, xs, 0) && Accepted(createdAt, xs, 2);
  }

  ghost predicate SafeWithOneReading(slack: nat) {
    forall createdAt: string -> int, xs: seq<Attempt> ::
      Clock(xs, slack) && OneReading(xs) ==> AtMostOnce(createdAt, xs)
  }

  ghost predicate SafeWithTwoReadings(slack: nat) {
    forall createdAt: string -> int, xs: seq<Attempt> ::
      Clock(xs, slack) ==> AtMostOnce(createdAt, xs)
  }

  function CreatedAt(p: int, q: int): string -> int {
    id => if id == "p" then p else q
  }

  lemma UnsafeBeyond480(slack: nat)
    requires slack > 480
    ensures !SafeWithOneReading(slack)
  {
    var xs := Replayed(0, 0, 601, 120);
    ReplayedIsAccepted(CreatedAt(60, 601), 0, 0, 601, 120);
    assert Clock(xs, slack) && OneReading(xs);
  }

  lemma UnsafeBeyond240(slack: nat)
    requires slack > 240
    ensures !SafeWithTwoReadings(slack)
  {
    var xs := Replayed(0, -241, 360, 120);
    ReplayedIsAccepted(CreatedAt(60, 360), 0, -241, 360, 120);
    assert Clock(xs, slack);
  }

  /** The retention of 600 s tolerates clock set-backs up to exactly 480 s and 240 s. */
  lemma ExactSlack(slack: nat)
    ensures SafeWithOneReading(slack) <==> slack <= 480
    ensures SafeWithTwoReadings(slack) <==> slack <= 240
  {
    if slack <= 480 {
      forall createdAt: string -> int, xs: seq<Attempt> | Clock(xs, slack) && OneReading(xs)
        ensures AtMostOnce(createdAt, xs)
      {
        OneUse(createdAt, xs, slack);
      }
    } else {
      UnsafeBeyond480(slack);
    }
    if slack <= 240 {
      forall createdAt: string -> int, xs: seq<Attempt> | Clock(xs, slack)
        ensures AtMostOnce(createdAt, xs)
      {
        OneUse(createdAt, xs, slack);
      }
    } else {
      UnsafeBeyond240(slack);
    }
  }
}
