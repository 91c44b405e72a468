/**
 The durable object itself: its tables as fields, its operations as methods
 that update them step by step, each tied to the specification it refines.
 */
module RelayNode {
  import opened Prelude
  import opened Json
  import opened Events
  import opened Replacement
  import opened Journal
  import opened Export
  import opened AntiEntropy
  import opened Declarations
  import opened TrustPolicy
  import opened Artifacts
  import Pulse
  import Proofs
  import Query

  /** What the node is deployed with. `coarse` is the text filter in front of declarations. */
  datatype Setup = Setup(witnessKey: bool, anchor: Anchor, coarse: Event -> bool)

  /** What a call returns; a throw after the commit loses the answer, not the commit. */
  datatype Answer = Said(message: Message) | Crashed

  datatype IngestAnswer = Denied(code: string) | Receipts(receipts: seq<Receipt>) | IngestCrashed

  datatype ReadAnswer = ReadDenied(code: string) | Served(batch: Batch)

  /** What survives between two lives of the object. */
  datatype Storage = Storage(tables: Tables, refs: Index, checkpoints: map<string, string>, proofs: map<string, int>,
                             chain: Pulse.Chain, backfilled: bool)

  /**
   The emission that follows a commit throws exactly if the node has a witness key
   and a winner of everything delivered to it is a malformed declaration.
   */
  predicate EmissionThrows(setup: Setup, bodies: set<Event>) {
    setup.witnessKey && exists e | e in Winners(bodies) :: IsMalformed(setup.anchor, e)
  }

  /** The records of a batch that a call dies on: they are stored, and the emission after them throws. */
  function Deaths(setup: Setup, verify: Event -> bool, source: string, before: set<Event>, rs: seq<Record>): (nat, Receipt) -> bool {
    (k: nat, receipt: Receipt) =>
      k < |rs| && receipt.outcome.WasStored? && EmissionThrows(setup, before + Taken(verify, source, rs[..k + 1]))
  }

  ghost predicate NoneDies(dies: (nat, Receipt) -> bool, receipts: seq<Receipt>, n: nat) {
    n <= |receipts| && forall k | 0 <= k < n :: !dies(k, receipts[k])
  }

  ghost predicate SomeDies(dies: (nat, Receipt) -> bool, receipts: seq<Receipt>) {
    exists k | 0 <= k < |receipts| :: dies(k, receipts[k])
  }

  lemma NoneDiesNext(dies: (nat, Receipt) -> bool, receipts: seq<Receipt>, receipt: Receipt)
    requires NoneDies(dies, receipts, |receipts|)
    ensures NoneDies(dies, receipts + [receipt], |receipts|)
    ensures !dies(|receipts|, receipt) ==> NoneDies(dies, receipts + [receipt], |receipts| + 1)
  {
    assert forall k | 0 <= k < |receipts| :: (receipts + [receipt])[k] == receipts[k];
  }

  /** Receipts of a batch that was cut off start the receipts of the whole batch. */
  lemma {:induction false} ReceiptsPrefix(verify: Event -> bool, t: Tables, source: string, rs: seq<Record>, n: nat)
    requires n <= |rs|
    ensures Ingest(verify, t, source, rs[..n]).receipts <= Ingest(verify, t, source, rs).receipts
    ensures |Ingest(verify, t, source, rs).receipts| <= |rs|
    decreases |rs|
  {
    if rs != [] {
      var t' := ApplyRecord(verify, t, source, rs[0]).0;
      ReceiptsPrefix(verify, t', source, rs[1..], if n == 0 then 0 else n - 1);
      if n > 0 { assert rs[..n][1..] == rs[1..][..n - 1]; }
    }
  }

  /** A call dies exactly if it would die on some record of the batch. */
  lemma CrashIff(verify: Event -> bool, t: Tables, source: string, rs: seq<Record>, dies: (nat, Receipt) -> bool, n: nat, crashed: bool, receipts: seq<Receipt>)
    requires n <= |rs| && |receipts| == n
    requires receipts == Ingest(verify, t, source, if crashed then rs[..n] else rs).receipts
    requires crashed ==> n > 0 && dies(n - 1, receipts[n - 1])
    requires !crashed ==> NoneDies(dies, receipts, n)
    ensures crashed <==> SomeDies(dies, Ingest(verify, t, source, rs).receipts)
  {
    ReceiptsPrefix(verify, t, source, rs, n);
    if crashed { assert Ingest(verify, t, source, rs).receipts[n - 1] == receipts[n - 1]; }
  }

  /** The bodies that records of the authenticated source add. */
  function Taken(verify: Event -> bool, source: string, rs: seq<Record>): set<Event> {
    set r | r in rs && r.source == source && Counts(verify, r.event) :: Body(r.event)
  }

  lemma TakenOne(verify: Event -> bool, source: string, r: Record)
    ensures Taken(verify, source, [r]) == if r.source == source then Adds(verify, r.event) else {}
  {
  }

  class RelayNode {
    const verify: Event -> bool
    const matches: (seq<Json>, Event) -> bool
    const setup: Setup

    var accepted: map<string, Decision>
    var journal: seq<Row>
    var artifactRefs: Index
    var checkpoints: map<string, string>
    var consumedProofs: map<string, int>
    var witnessed: Pulse.Chain
    var backfilled: bool

    /** Bodies of all durable verified events that were ever delivered here. */
    ghost var delivered: set<Event>

    ghost function State(): Tables
      reads this
    {
      Tables(accepted, journal)
    }

    ghost predicate Valid()
      reads this
    {
      && HashBinding(verify) && KeepsDeclarations(setup.coarse)
      && Represents(verify, State(), delivered)
      && artifactRefs == ScanIndex(journal)
    }

    /**
     Opening a node over what storage holds. Everything is kept; unless it ran
     before, one backfill over the journal completes the index.
     */
    constructor (verify: Event -> bool, matches: (seq<Json>, Event) -> bool, setup: Setup, like: Event -> bool,
                 stored: Storage, ghost bodies: set<Event>)
      requires HashBinding(verify) && KeepsDeclarations(setup.coarse) && KeepsReferences(like)
      requires Represents(verify, stored.tables, bodies)
      requires stored.refs == if stored.backfilled then ScanIndex(stored.tables.journal) else {}
      ensures Valid() && State() == stored.tables && delivered == bodies && backfilled
      ensures checkpoints == stored.checkpoints && consumedProofs == stored.proofs && witnessed == stored.chain
      ensures this.verify == verify && this.matches == matches && this.setup == setup
    {
      this.verify, this.matches, this.setup := verify, matches, setup;
      accepted, journal, delivered := stored.tables.accepted, stored.tables.journal, bodies;
      artifactRefs, checkpoints, consumedProofs := stored.refs, stored.checkpoints, stored.proofs;
      witnessed, backfilled := stored.chain, stored.backfilled;
      new;
      if !backfilled {
        BackfillArtifactRefs(like);
      }
    }

    /** The one-time scan of the rows whose text may hold a reference. */
    method BackfillArtifactRefs(like: Event -> bool)
      requires KeepsReferences(like) && artifactRefs == {}
      modifies this`artifactRefs, this`backfilled
      ensures artifactRefs == ScanIndex(journal) && backfilled
    {
      var i := 0;
      while i < |journal|
        invariant 0 <= i <= |journal|
        invariant artifactRefs == ScanIndex(journal[..i])
      {
        ScanNext(journal, i);
        if like(journal[i].event) {
          IndexArtifactRefs(journal[i].event.id, journal[i].event.tags);
        } else {
          assert Entries(journal[i].event.id, journal[i].event.tags) == {};
        }
        i := i + 1;
      }
      assert journal[..i] == journal;
      backfilled := true;
    }

    /** Records every well-formed `x`-tag reference carried by an event. */
    method IndexArtifactRefs(id: string, tags: seq<seq<string>>)
      modifies this`artifactRefs
      ensures artifactRefs == old(artifactRefs) + Entries(id, tags)
    {
      var i := 0;
      while i < |tags|
        invariant 0 <= i <= |tags|
        invariant artifactRefs == old(artifactRefs) + Entries(id, tags[..i])
      {
        var sha := Reference(tags[i]);
        EntriesNext(id, tags, i);
        if sha.Some? {
          artifactRefs := artifactRefs + {(sha.value, id)};
        }
        i := i + 1;
      }
      assert tags[..i] == tags;
    }

    /** Clears the effective flag of a key's rows. */
    method ClearEffective(key: Key)
      modifies this`journal
      ensures journal == Demote(old(journal), Some(key))
    {
      var i := 0;
      while i < |journal|
        invariant 0 <= i <= |journal| == |old(journal)|
        invariant forall k | 0 <= k < i :: journal[k] == Demote(old(journal), Some(key))[k]
        invariant forall k | i <= k < |journal| :: journal[k] == old(journal)[k]
      {
        if journal[i].key == Some(key) && journal[i].effective {
          journal := journal[i := journal[i].(effective := false)];
        }
        i := i + 1;
      }
    }

    /** Stores a winning event: decision, flags, row and references in one transaction. */
    method Store(event: Event, source: Option<string>)
      modifies this`accepted, this`journal, this`artifactRefs
      ensures accepted == old(accepted)[event.id := KeptInJournal]
      ensures journal == Append(old(journal), event, source)
      ensures artifactRefs == old(artifactRefs) + Entries(event.id, event.tags)
    {
      var candidateKey := ReplacementKey(event);
      accepted := accepted[event.id := KeptInJournal];
      if candidateKey.Some? {
        ClearEffective(candidateKey.value);
      }
      assert journal == Demote(old(journal), candidateKey);
      journal := journal + [Row(|journal| + 1, event, candidateKey, true, source)];
      IndexArtifactRefs(event.id, event.tags);
    }

    /** The pipeline up to the commit, as it changes the tables. */
    method Decide(event: Event, source: Option<string>, beaconOk: bool) returns (m: Message)
      modifies this`accepted, this`journal, this`artifactRefs
      ensures (State(), m) == Apply(verify, old(State()), Delivery(event, source, beaconOk))
      ensures artifactRefs == old(artifactRefs) + if m == Stored then Entries(event.id, event.tags) else {}
    {
      if !verify(event) {
        return Invalid;
      }
      if event.id in accepted {
        return Duplicate;
      }
      if event.kind == KIND_BEACON_RESPONSE {
        return if beaconOk then Ephemeral else Invalid;
      }
      if IsEphemeralKind(event.kind) {
        return Ephemeral;
      }
      var candidateKey := ReplacementKey(event);
      if candidateKey.Some? {
        var current := EffectiveReplacement(journal, candidateKey.value);
        if current.Some? && !Wins(event, current.value) {
          accepted := accepted[event.id := LostOnArrival];
          return Superseded;
        }
      }
      Store(event, source);
      return Stored;
    }

    /** The pipeline with its invariant. */
    method Accept(event: Event, source: Option<string>, beaconOk: bool) returns (m: Message)
      requires Valid()
      modifies this`accepted, this`journal, this`artifactRefs, this`delivered
      ensures Valid() && delivered == old(delivered) + Adds(verify, event)
      ensures (State(), m) == Apply(verify, old(State()), Delivery(event, source, beaconOk))
    {
      ApplyRepresents(verify, State(), delivered, Delivery(event, source, beaconOk));
      AppendIndex(journal, event, source);
      m := Decide(event, source, beaconOk);
      delivered := delivered + Adds(verify, event);
    }

    /**
     One delivery. The tables move by the specification step, the delivered set
     grows by the event's body, and the effective rows stay the winners of
     everything delivered.
     */
    method ApplyEvent(event: Event, source: Option<string>, beaconOk: bool) returns (answer: Answer)
      requires Valid()
      modifies this`accepted, this`journal, this`artifactRefs, this`witnessed, this`delivered
      ensures Valid() && delivered == old(delivered) + Adds(verify, event)
      ensures var (t, m) := Apply(verify, old(State()), Delivery(event, source, beaconOk));
              && State() == t
              && answer == (if m == Stored && EmissionThrows(setup, delivered) then Crashed else Said(m))
              && witnessed == (if m == Stored && setup.witnessKey && !EmissionThrows(setup, delivered)
                               then Pulse.Advance(old(witnessed), Pulse.HeadOf(t.journal)) else old(witnessed))
      ensures EffectiveBodies(State()) == Winners(delivered)
    {
      var message := Accept(event, source, beaconOk);
      EffectiveIsWinners(verify, State(), delivered);
      answer := Said(message);
      if message == Stored {
        var threw := EmitPulse();
        if threw {
          answer := Crashed;
        }
      }
    }

    /**
     Emission is the only place the witnessed chain moves. It needs the witness key,
     and evaluates the declarations before it signs anything.
     */
    method EmitPulse() returns (threw: bool)
      requires Valid()
      modifies this`witnessed
      ensures Valid() && threw == EmissionThrows(setup, delivered)
      ensures witnessed == if setup.witnessKey && !threw
                           then Pulse.Advance(old(witnessed), Pulse.HeadOf(journal)) else old(witnessed)
    {
      if !setup.witnessKey {
        return false;
      }
      var declarations := OwnerDeclarations();
      if declarations.Err? {
        return true;
      }
      var head := if journal == [] then None else Some(journal[|journal| - 1].event.id);
      if head.None? || head == witnessed.head {
        return false;
      }
      if witnessed.head.Some? {
        witnessed := witnessed.(prev := witnessed.head);
      }
      witnessed := witnessed.(head := head);
      return false;
    }

    /** One replicated record. */
    method ApplyReplicationRecord(source: string, record: Record) returns (crashed: bool, receipt: Receipt)
      requires Valid()
      modifies this`accepted, this`journal, this`artifactRefs, this`witnessed, this`delivered
      ensures Valid()
      ensures State() == ApplyRecord(verify, old(State()), source, record).0
      ensures crashed <==> receipt.outcome.WasStored? && EmissionThrows(setup, delivered)
      ensures delivered == old(delivered) + Taken(verify, source, [record])
      ensures receipt == Receipt(record.source, record.cursor, record.event.id,
                                 ApplyRecord(verify, old(State()), source, record).1)
    {
      TakenOne(verify, source, record);
      crashed := false;
      var outcome;
      if record.source != source {
        outcome := Rejected("record source does not match the authenticated batch");
      } else if IsEphemeralKind(record.event.kind) {
        outcome := Rejected("ephemeral events are not part of durable replication");
      } else if record.event.kind == KIND_AUTH || record.event.kind == KIND_HTTP_AUTH {
        outcome := Rejected("authentication events are never journaled");
      } else {
        var answer := ApplyEvent(record.event, Some(source), false);
        match answer
        case Crashed => crashed, outcome := true, WasStored;
        case Said(Stored) => outcome := WasStored;
        case Said(Duplicate) => outcome := WasDuplicate;
        case Said(Superseded) => outcome := WasSuperseded;
        case Said(Invalid) => outcome := Rejected("invalid");
        case Said(Ephemeral) => outcome := Rejected("unexpected accepted outcome: ephemeral");
      }
      receipt := Receipt(record.source, record.cursor, record.event.id, outcome);
    }

    /** One more record of a batch that was accepted so far. */
    method IngestOne(source: string, records: seq<Record>, n: nat, receipts: seq<Receipt>, checkpoint: Option<string>,
                     ghost t: Tables, ghost before: set<Event>, ghost dies: (nat, Receipt) -> bool)
      returns (died: bool, receipt: Receipt, next: Option<string>)
      requires Valid() && n < |records| && |receipts| == n && (n > 0 ==> !receipts[n - 1].outcome.Rejected?)
      requires Ingest(verify, t, source, records[..n]) == Ingested(State(), receipts, checkpoint)
      requires delivered == before + Taken(verify, source, records[..n])
      requires dies == Deaths(setup, verify, source, before, records)
      modifies this`accepted, this`journal, this`artifactRefs, this`witnessed, this`delivered
      ensures Valid() && Ingest(verify, t, source, records[..n + 1]) == Ingested(State(), receipts + [receipt], next)
      ensures receipt.outcome.Rejected? ==>
                Ingest(verify, t, source, records) == Ingest(verify, t, source, records[..n + 1])
      ensures delivered == before + Taken(verify, source, records[..n + 1])
      ensures died <==> dies(n, receipt)
      ensures died ==> !receipt.outcome.Rejected?
    {
      IngestNext(verify, t, source, records, n);
      TakenNext(verify, source, records, n);
      died, receipt := ApplyReplicationRecord(source, records[n]);
      next := if receipt.outcome.Rejected? then checkpoint else Some(records[n].cursor);
    }

    /** The record loop: stops at the first rejection, or dies with a throw. */
    method IngestRecords(source: string, records: seq<Record>, ghost dies: (nat, Receipt) -> bool)
      returns (crashed: bool, n: nat, done: Ingested)
      requires Valid() && dies == Deaths(setup, verify, source, delivered, records)
      modifies this`accepted, this`journal, this`artifactRefs, this`witnessed, this`delivered
      ensures Valid() && n <= |records| && done.tables == State()
      ensures crashed ==> 0 < n && done == Ingest(verify, old(State()), source, records[..n])
      ensures !crashed ==> done == Ingest(verify, old(State()), source, records)
      ensures |done.receipts| == n
      ensures crashed ==> dies(n - 1, done.receipts[n - 1])
      ensures NoneDies(dies, done.receipts, if crashed then n - 1 else n)
      ensures delivered == old(delivered) + Taken(verify, source, records[..n])
    {
      n, crashed := 0, false;
      var receipts: seq<Receipt> := [];
      var checkpoint: Option<string> := None;
      var rejected := false;
      while n < |records| && !crashed && !rejected
        invariant n <= |records| && Valid() && |receipts| == n
        invariant Ingest(verify, old(State()), source, records[..n]) == Ingested(State(), receipts, checkpoint)
        invariant n > 0 && !rejected ==> !receipts[n - 1].outcome.Rejected?
        invariant rejected ==>
                    Ingest(verify, old(State()), source, records) == Ingest(verify, old(State()), source, records[..n])
        invariant crashed ==> n > 0 && !rejected && dies(n - 1, receipts[n - 1])
        invariant NoneDies(dies, receipts, if crashed then n - 1 else n)
        invariant delivered == old(delivered) + Taken(verify, source, records[..n])
        decreases |records| - n
      {
        var receipt;
        crashed, receipt, checkpoint :=
          IngestOne(source, records, n, receipts, checkpoint, old(State()), old(delivered), dies);
        NoneDiesNext(dies, receipts, receipt);
        receipts := receipts + [receipt];
        rejected := receipt.outcome.Rejected?;
        n := n + 1;
      }
      assert n == |records| ==> records[..n] == records;
      done := Ingested(Tables(accepted, journal), receipts, checkpoint);
    }

    /**
     A batch from an authenticated peer. Without trust nothing happens. When a
     call dies on the `n`-th record, the records up to it are committed and the
     checkpoint is not; otherwise tables, receipts and checkpoint are those of
     the specification.
     */
    method IngestReplication(records: seq<Record>, principal: string, peers: map<string, Trust>)
      returns (answer: IngestAnswer, n: nat)
      requires Valid()
      modifies this`accepted, this`journal, this`artifactRefs, this`witnessed, this`delivered, this`checkpoints
      ensures Valid()
      ensures records == [] ==> answer == Receipts([])
      ensures answer.Denied? || records == [] ==>
                State() == old(State()) && checkpoints == old(checkpoints) && delivered == old(delivered) && n == 0
      ensures answer == Denied("peer_unbound") <==> records != [] && records[0].source !in peers
      ensures answer.Denied? <==>
                records != [] && !(records[0].source in peers && principal in peers[records[0].source].keys)
      ensures answer.IngestCrashed? ==>
                && 0 < n <= |records|
                && State() == Ingest(verify, old(State()), records[0].source, records[..n]).tables
                && checkpoints == old(checkpoints)
      ensures !answer.Denied? && records != [] ==>
                && n <= |records| && delivered == old(delivered) + Taken(verify, records[0].source, records[..n])
                && (answer.IngestCrashed? <==>
                      SomeDies(Deaths(setup, verify, records[0].source, old(delivered), records),
                               Ingest(verify, old(State()), records[0].source, records).receipts))
      ensures answer.Receipts? && records != [] ==>
                var done := Ingest(verify, old(State()), records[0].source, records);
                && State() == done.tables
                && answer.receipts == done.receipts
                && checkpoints == (if done.checkpoint.Some?
                                   then old(checkpoints)[records[0].source := done.checkpoint.value]
                                   else old(checkpoints))
    {
      if |records| == 0 {
        return Receipts([]), 0;
      }
      var source := records[0].source;
      if source !in peers {
        return Denied("peer_unbound"), 0;
      }
      if principal !in peers[source].keys {
        return Denied("source_mismatch"), 0;
      }
      ghost var dies := Deaths(setup, verify, source, delivered, records);
      var crashed, k, done := IngestRecords(source, records, dies);
      CrashIff(verify, old(State()), source, records, dies, k, crashed, done.receipts);
      if crashed {
        return IngestCrashed, k;
      }
      if done.checkpoint.Some? {
        checkpoints := checkpoints[source := done.checkpoint.value];
      }
      return Receipts(done.receipts), k;
    }

    /** A page of the journal for an authorised reader. */
    method ReadReplication(request: Request, principal: string, readers: map<string, Trust>, streams: map<string, Selection>)
      returns (answer: ReadAnswer)
      requires request.limit >= 1 && (request.cursor.Some? ==> IsCursor(request.cursor.value))
      ensures answer.Served? <==> Grants(readers, streams, principal, request.source)
      ensures answer.Served? ==> answer.batch == ReadPage(matches, streams[request.source], journal, request)
      ensures answer == ReadDenied("peer_unbound") <==> request.source !in streams || request.source !in readers
      ensures answer == ReadDenied("source_mismatch") <==>
                request.source in streams && request.source in readers && principal !in readers[request.source].keys
    {
      if request.source !in streams || request.source !in readers {
        return ReadDenied("peer_unbound");
      }
      if principal !in readers[request.source].keys {
        return ReadDenied("source_mismatch");
      }
      return Served(ReadPage(matches, streams[request.source], journal, request));
    }

    /**
     Owner-signed heads evaluated into configuration: what they denote is what
     the winners of the delivered set denote.
     */
    method OwnerDeclarations() returns (r: Result<Config, Malformed>)
      requires Valid()
      ensures Denotes(setup.anchor, Winners(delivered), r)
    {
      var like := setup.coarse;
      var heads: seq<Event> := [];
      var i := 0;
      while i < |journal|
        invariant 0 <= i <= |journal|
        invariant Bodies(heads) == Heads(like, Tables(accepted, journal[..i]))
      {
        HeadsNext(like, accepted, journal, i);
        if journal[i].effective && like(journal[i].event) {
          BodiesSnoc(heads, journal[i].event);
          heads := heads + [journal[i].event];
        }
        i := i + 1;
      }
      assert journal[..i] == journal;
      r := EvaluateDeclarations(setup.anchor, heads);
      ConfigFromDelivered(verify, setup.anchor, like, State(), delivered, r);
    }

    /**
     May this principal fetch a blob? Granted exactly to the owner and to readers
     of a stream that selects a journal row referring to the hash.
     */
    method AuthorizeArtifactFetch(sha: string, principal: string, owner: string,
                                  readers: map<string, Trust>, streams: map<string, Selection>)
      returns (decree: Decree)
      ensures decree == Granted <==>
                MayFetch(matches, journal, artifactRefs, readers, streams, owner, principal, sha)
    {
      if owner != "" && principal == owner {
        return Granted;
      }
      var todo := readers.Keys;
      while todo != {}
        invariant todo <= readers.Keys
        invariant forall stream | Grants(readers, streams, principal, stream) && stream !in todo ::
                    !Visible(matches, journal, artifactRefs, streams[stream], sha)
        decreases todo
      {
        var stream :| stream in todo;
        todo := todo - {stream};
        if principal in readers[stream].keys && stream in streams {
          var shown := AnyVisible(streams[stream], sha);
          if shown {
            assert Grants(readers, streams, principal, stream);
            return Granted;
          }
        }
      }
      return ScopeDenied;
    }

    /** Scans the rows that refer to a hash for one that a selection shows. */
    method AnyVisible(selection: Selection, sha: string) returns (shown: bool)
      ensures shown <==> Visible(matches, journal, artifactRefs, selection, sha)
    {
      var i := 0;
      while i < |journal|
        invariant 0 <= i <= |journal|
        invariant forall k | 0 <= k < i ::
                    !((sha, journal[k].event.id) in artifactRefs && Selects(matches, selection, journal[k]))
      {
        if (sha, journal[i].event.id) in artifactRefs && Selects(matches, selection, journal[i]) {
          return true;
        }
        i := i + 1;
      }
      return false;
    }

    /** Refuses a proof on record, else records it and prunes old ones. */
    method ConsumeProof(id: string, now: int) returns (consumed: bool)
      modifies this`consumedProofs
      ensures consumed <==> id !in old(consumedProofs)
      ensures consumedProofs == if consumed then Proofs.Consume(old(consumedProofs), id, now) else old(consumedProofs)
    {
      if id in consumedProofs {
        return false;
      }
      consumedProofs := consumedProofs[id := now];
      consumedProofs := map p | p in consumedProofs && consumedProofs[p] >= now - Proofs.PROOF_RETENTION_SECS :: consumedProofs[p];
      return true;
    }

    /** Verification at one clock reading, consumption at the next. */
    method PresentProof(createdAt: string -> int, x: Proofs.Attempt) returns (granted: bool)
      modifies this`consumedProofs
      ensures (consumedProofs, granted) == Proofs.Try(createdAt, old(consumedProofs), x)
    {
      if !x.checked || !Proofs.WithinTolerance(createdAt(x.id), x.verifyAt) {
        return false;
      }
      granted := ConsumeProof(x.id, x.consumeAt);
    }

    /** A query returns the chosen events among those effective and disclosed to the reader, and the pulse if asked for. */
    method QueryEvents(filters: seq<Query.Filter>, reader: Option<string>, pulse: Option<Event>) returns (r: seq<Event>)
      requires Valid() && (pulse.Some? ==> forall i | 0 <= i < |journal| :: journal[i].event.id != pulse.value.id)
      ensures Query.Sorted(r) && Query.UniqueIds(r)
      ensures forall e :: e in r <==>
                || Query.Chosen(filters, Query.SortEvents(Query.Readable(journal, reader)), e)
                || (Query.AsksForPulse(filters, pulse) && pulse == Some(e))
      ensures forall e | e in r && pulse != Some(e) ::
                Body(e) in Winners(delivered) && (reader.Some? ==> Query.VisibleTo(reader.value, e))
    {
      Query.ReadableIsUnique(journal, reader);
      var visible := Query.Readable(journal, reader);
      forall e | e in visible ensures pulse.Some? ==> e.id != pulse.value.id {
        Query.ReadableMeaning(journal, reader, e);
      }
      r := Query.QueryEffective(filters, visible, pulse);
      EffectiveIsWinners(verify, State(), delivered);
      forall e | e in r && pulse != Some(e)
        ensures Body(e) in Winners(delivered) && (reader.Some? ==> Query.VisibleTo(reader.value, e))
      {
        var i :| 0 <= i < |filters| && e in Query.Page(filters[i], Query.SortEvents(visible));
        Query.PageMeaning(filters[i], Query.SortEvents(visible), e);
        Query.SameElements(Query.SortEvents(visible), visible);
        Query.ReadableMeaning(journal, reader, e);
      }
    }
  }

  lemma HeadsNext(like: Event -> bool, accepted: map<string, Decision>, j: seq<Row>, i: nat)
    requires i < |j|
    ensures Heads(like, Tables(accepted, j[..i + 1])) ==
            Heads(like, Tables(accepted, j[..i])) +
            if j[i].effective && like(j[i].event) then {Body(j[i].event)} else {}
  {
    var a, b := j[..i], j[..i + 1];
    assert b[i] == j[i] && forall k | 0 <= k < i :: b[k] == a[k];
  }

  lemma BodiesSnoc(es: seq<Event>, e: Event)
    ensures Bodies(es + [e]) == Bodies(es) + {Body(e)}
  {
  }

  lemma ScanNext(j: seq<Row>, i: nat)
    requires i < |j|
    ensures ScanIndex(j[..i + 1]) == ScanIndex(j[..i]) + Entries(j[i].event.id, j[i].event.tags)
  {
    var a, b := j[..i], j[..i + 1];
    assert forall k | 0 <= k < i :: b[k] == a[k];
    forall x | x in ScanIndex(a) ensures x in ScanIndex(b) {
      var k, sha :| 0 <= k < |a| && sha in References(a[k].event.tags) && x == (sha, a[k].event.id);
      assert b[k] == a[k];
    }
    forall x | x in Entries(j[i].event.id, j[i].event.tags) ensures x in ScanIndex(b) {
      assert x.0 in References(b[i].event.tags);
    }
  }

  lemma EntriesNext(id: string, tags: seq<seq<string>>, i: nat)
    requires i < |tags|
    ensures Entries(id, tags[..i + 1]) ==
            Entries(id, tags[..i]) + (if Reference(tags[i]).Some? then {(Reference(tags[i]).value, id)} else {})
  {
    assert tags[..i + 1] == tags[..i] + [tags[i]];
    assert References(tags[..i + 1]) ==
           References(tags[..i]) + (if Reference(tags[i]).Some? then {Reference(tags[i]).value} else {});
  }

  lemma TakenNext(verify: Event -> bool, source: string, rs: seq<Record>, n: nat)
    requires n < |rs|
    ensures Taken(verify, source, rs[..n + 1]) == Taken(verify, source, rs[..n]) + Taken(verify, source, [rs[n]])
  {
    assert rs[..n + 1] == rs[..n] + [rs[n]];
  }
}
