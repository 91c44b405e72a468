# Verification of the portable relay node and the ACP harness control logic

This project models two independent parts of the repository in Dafny and proves
what each of them promises over all inputs, all runs and all reachable states.

**The portable relay node** (`cloudflare/portable-relay/src`) is a durable event
journal with replaceable heads. The model has the tables the node keeps: decided
ids, journal rows with their effective flags, the artifact index, checkpoints,
consumed proofs and the witnessed pulse chain. `Replacement.Winners` is the
reference: the winners of a *set* of events by the rule of NIP-01. `Journal` is
the step on tables, `RelayNode` the class that performs it in place, and the
other modules derive paging, replication between two nodes, trust, artifact
access, one-use proofs, queries and the pulse chain from it.

**The ACP harness** (`crates/buzz-acp/src`) holds five control structures: the
observer pipeline (`Elision`, `Frame`, `Coalescer`, `Pacer`), the circuit breaker
of a slot with the life around it (`Circuit`), the usage tracker (`Usage`), the
merge of subscription rules (`Rules`), and the read loop that interleaves steers
with a prompt (`Steer` as a state machine over all inputs, `ReadLoop` as the
class that updates its state in place).

`dafny verify dfyconfig.toml` checks everything.

## How it is built

A component that the source updates in place is a class. Each of its methods is
proved equal to a step function of the old state, and the theorems are about
every sequence of steps. Where the source promises something about a set, a
history or a meaning, that side is defined on its own and not through the steps:
winners of a set, rows of a journal that a selection picks, the earliest moment a
full publishing history allows, the text a key received, the configuration that a
set of heads denotes, the step at which an agent's answer confirms a steer.

## Assumptions

- Signature verification is any deterministic predicate under which two verified
  events with the same id agree on every hashed field. The signature is not
  hashed, so bodies are events without it.
- Storing an event as JSON text and reading it back is the identity. A
  transaction is atomic and a node handles one call at a time. A throw of the
  pulse emission comes after the commit, and only a malformed declaration makes
  it throw: the witness key is a valid one, and so is the environment
  configuration that decides who may see the pulse.
- Filter matching is any deterministic predicate with an inclusive `until`, and an
  `until` of zero is a bound like any other.
  `sortEvents` orders by time descending, then id ascending. The `LIKE`
  prefilters may only drop rows that the exact checks would drop.
- JSON objects are parsed values: names are unique and the order of members is
  the order of serialization.
- The peers, readers and streams are maps of what was configured. No source or
  stream has the name of a property that every JavaScript object inherits.
- The `created_at` of an event is an integer, which the event parser does not check.
- Sequence numbers stay below 2^53, where the cursor's number parsing is exact.
- Strings are sequences of Unicode scalar values with their UTF-8 widths. Byte
  lengths are below 2^64 where the source counts in machine words.
- The clocks of the pacer, the circuit and the read loop never go back, and a
  sleep never ends early. The proof clock is wall time and may go back.
- The event queue and the pool appear only as what the harness asks of them:
  accept or refuse a steer, remove or release its event, drop the read loop.

## Where the code says more or less than its comments

- `crates/buzz-acp/src/lib.rs:644-650` says that an elided leaf is never elided again and that
  the loop is bounded by the leaf count. A leaf can be elided twice
  (`SecondElision` says exactly when, `AsciiElisions` for ASCII) and never three
  times, so the bound is twice the leaf count (`PassesAtMostTwiceLeaves`), and it
  is reached (`TwoPassesForOneLeaf`).
- The same comment says that the stub trivially fits. It fits iff the envelope
  leaves room for it. The session id in the envelope comes from the agent, is not
  checked and is never trimmed (`StubCanOverflow`).
- `crates/buzz-acp/src/acp.rs:1208-1219` says that every return path answers an outstanding
  steer. The early returns of the permission and unknown-method replies, and a
  dropped future, drop its sender instead (`CountsIffHappened`, `LosingRunDrops`).
  The main loop treats that as neutral, so each steer still has exactly one outcome.
- A replication call overwrites the stored checkpoint, so a re-send from further
  back lowers it. What replication relies on is the accepted prefix, which only grows.
- The proof retention is enough for clock set-backs of 480 s if verification and
  consumption see the same time. The code reads the clock twice, for which the
  exact bound is 240 s.
- The backoff table reaches 30 s, but the threshold opens the circuit after the
  second delay.
- A refill of a closed circuit is not limited by the circuit. The bound on
  spawns comes from the life of the slot, and a slot that never came up may be
  refilled once beside it (`SparseIffStartedAlive`).
- `caught_up` is false after a page that happens to end at the last row, so a
  drain may read one more, empty page.
- The relay filter merged for a channel takes kinds from one rule and the waiver
  of the mention from another, so it may pass events that no rule admits
  (`PassesInVain` says exactly when).
- A rule may list a channel in any spelling that parses to its id. The resolver
  subscribes by parsed id and the matcher compares text, so other spellings
  never match.

## Model

| member | source | states |
|---|---|---|
| Events.WinsTotal | cloudflare/portable-relay/src/relay-node.ts:1669-1674 | of two events with different ids one replaces the other; with `WinsTransitive` and `WinsIrreflexive` the replacement rule is a strict total order on ids |
| Events.WinsTransitive | cloudflare/portable-relay/src/relay-node.ts:1669-1674 | replacement is transitive |
| Events.WinsIrreflexive | cloudflare/portable-relay/src/relay-node.ts:1669-1674 | no event replaces itself |
| Replacement.WinnersMeaning | cloudflare/portable-relay/src/relay-node.ts:1649-1674 | an event is a winner of a set iff it is in it and is not replaceable, or beats every other event of its replacement key (the "Kinds" section of NIP-01) |
| Replacement.WinnerIsUnique | cloudflare/portable-relay/src/relay-node.ts:1649-1674 | at most one winner per replacement key |
| Replacement.Champion | cloudflare/portable-relay/src/relay-node.ts:1649-1674 | every loser loses to some winner of the same key |
| Replacement.Absorb | cloudflare/portable-relay/src/relay-node.ts:406-453 | any part of a set that keeps its winners can stand for the whole set in every union: exports may omit superseded events |
| Journal.EffectiveReplacementMeaning | cloudflare/portable-relay/src/relay-node.ts:1329-1339 | the looked-up head is an effective row of the key, and there is none when it returns nothing |
| Journal.ApplyRepresents | cloudflare/portable-relay/src/relay-node.ts:1046-1156 | one delivery of any kind, accepted or refused, keeps every table in step with the set of delivered bodies: rows of one key strictly increase in win order, only the last is effective, every delivered body is a row or loses to one |
| Journal.RunRepresents | cloudflare/portable-relay/src/relay-node.ts:1046-1156 | the same after every finite sequence of deliveries |
| Journal.EffectiveIsWinners | cloudflare/portable-relay/src/relay-node.ts:1102-1146 | the effective rows are exactly the winners of everything delivered, and the journal lies between winners and delivered set |
| Journal.OrderIndependence | cloudflare/portable-relay/src/relay-node.ts:1046-1156 | for all delivery sequences, with repeats and any sources, the effective set is the winners of the delivered set, so equal sets give equal effective sets |
| Replay.ReplayRebuilds | cloudflare/portable-relay/src/relay-node.ts:1046-1156 | any reachable journal, delivered again row by row with its provenance to an empty node, answers stored for every row and rebuilds the same rows and flags |
| Replay.IngestRebuilds | cloudflare/portable-relay/src/relay-node.ts:333-374 | the mirror records of any reachable journal, ingested in order by an empty sink, all get the receipt stored and rebuild the same rows and flags, attributed to the stream |
| Replay.ReplayPrefix | cloudflare/portable-relay/src/relay-node.ts:1093-1146 | after each replayed row the journal is that prefix with the flags it had then |
| Replay.NoAuthInJournal | cloudflare/portable-relay/src/relay-node.ts:1046-1156 | no ephemeral, authentication or beacon event is ever journaled |
| Replay.SignatureKeptDependsOnOrder | cloudflare/portable-relay/src/relay-node.ts:1059-1071 | order independence does not extend to signatures: whenever a winner was delivered with two of them, delivering one or the other first leaves different effective events |
| Replay.RowsAreFirst | cloudflare/portable-relay/src/relay-node.ts:1059-1146 | what the journal keeps of an id, signature included, is the first verified durable delivery of that id |
| Replay.SignedOrderIndependence | cloudflare/portable-relay/src/relay-node.ts:1046-1156 | all sequences that deliver the same signed events leave the same ones effective, signatures included, iff no winner was delivered with two signatures |
| RelayNode.RelayNode.constructor | cloudflare/portable-relay/src/relay-node.ts:891-923 | opening a node keeps tables, checkpoints, proofs and chain, and leaves the artifact index equal to a scan of the journal, by a backfill iff none ran before |
| RelayNode.RelayNode.BackfillArtifactRefs | cloudflare/portable-relay/src/relay-node.ts:891-923 | the backfill loop over the prefiltered rows yields the scan of the whole journal |
| RelayNode.RelayNode.ApplyEvent | cloudflare/portable-relay/src/relay-node.ts:1046-1156 | tables move by the specified step, the delivered set grows by the body, the effective rows are the winners of the delivered set, and the index stays the scan; the answer is lost iff the event is stored, a witness key is set and a winner of the delivered set is a malformed declaration, which changes nothing in the tables |
| RelayNode.RelayNode.Decide | cloudflare/portable-relay/src/relay-node.ts:1051-1120 | the branch order of the pipeline: invalid, duplicate, beacon, ephemeral, superseded, stored, with the decision recorded for the last two |
| RelayNode.RelayNode.Store | cloudflare/portable-relay/src/relay-node.ts:1121-1146 | one transaction: decision, demoted flags, appended row and references |
| RelayNode.RelayNode.ClearEffective | cloudflare/portable-relay/src/relay-node.ts:1128-1135 | the in-place update clears exactly the flags of the key's rows |
| RelayNode.RelayNode.EmitPulse | cloudflare/portable-relay/src/relay-node.ts:519-632 | throws iff a witness key is set and some winner of the delivered set is a malformed declaration of this node; otherwise, with a key, the chain advances to a head it has not recorded yet |
| RelayNode.RelayNode.ApplyReplicationRecord | cloudflare/portable-relay/src/relay-node.ts:925-966 | receipt, tables and delivered set of one replicated record; the call dies iff the record is stored and the emission after it throws, after the commit |
| RelayNode.RelayNode.IngestReplication | cloudflare/portable-relay/src/relay-node.ts:333-374 | denied exactly without trust in the first record's source, with the code that tells why; dies iff some record gets stored while the winners of what was delivered up to it hold a malformed declaration and a witness key is set, leaving the records up to it committed and the checkpoint untouched; otherwise tables, receipts and checkpoint are the specified ones; the delivered set grows by the records handled |
| RelayNode.RelayNode.ReadReplication | cloudflare/portable-relay/src/relay-node.ts:387-454 | served exactly to a granted principal, and then with the specified page; each denial code iff its cause |
| RelayNode.RelayNode.OwnerDeclarations | cloudflare/portable-relay/src/relay-node.ts:463-488 | the evaluated configuration is what the winners of the delivered set denote |
| RelayNode.RelayNode.AuthorizeArtifactFetch | cloudflare/portable-relay/src/relay-node.ts:813-869 | granted iff the owner asks, or a granted stream selects a row that refers to the hash |
| RelayNode.RelayNode.ConsumeProof | cloudflare/portable-relay/src/relay-node.ts:1021-1044 | refused iff on record; otherwise recorded and the old records pruned |
| RelayNode.RelayNode.PresentProof | cloudflare/portable-relay/src/relay-node.ts:987-1019 | verification at one clock reading and consumption at the next are the specified attempt |
| RelayNode.RelayNode.QueryEvents | cloudflare/portable-relay/src/relay-node.ts:1158-1229 | results are sorted, without repeated ids, exactly the chosen events plus the pulse if a filter asks for it; all but the pulse are winners of the delivered set and disclosed to the reader |
| Export.CursorRoundTrip | cloudflare/portable-relay/src/replication.ts:130-131 | a formatted cursor is accepted and parses to its sequence number |
| Export.ParseRequest | cloudflare/portable-relay/src/replication.ts:134-163 | accepted iff a source is named, the cursor is absent or well-formed and the limit absent or at least one |
| Export.PageCoversSlice | cloudflare/portable-relay/src/relay-node.ts:406-453 | a page is the selection of exactly the next rows, its cursor names their end, and it is caught up iff fewer rows than the scan limit were left |
| Export.PagesAreLossless | cloudflare/portable-relay/src/relay-node.ts:406-453 | for every interleaving of deliveries and page reads of any limits, the pages joined are exactly the selected rows up to the cursor |
| Export.RecordsExact | cloudflare/portable-relay/src/relay-node.ts:425-446 | a record is exported iff some selected row is that record |
| Export.RecordsOrdered | cloudflare/portable-relay/src/relay-node.ts:425-446 | no row is exported twice or out of order |
| Export.Drain | crates/buzz-local-relay/src/bin/buzz-relay-pull.rs:144-217 | the pull loop over a quiet journal ends, with every selected row once |
| AntiEntropy.IngestSound | cloudflare/portable-relay/src/relay-node.ts:333-374 | a batch of verified durable records is accepted whole, adds exactly its bodies, and its checkpoint names the last record |
| AntiEntropy.TransferKeeps | cloudflare/portable-relay/src/relay-node.ts:333-454 | one attempt from any position that earlier attempts covered, however cut or killed midway, keeps both nodes in step with what they were given and other checkpoints unchanged |
| AntiEntropy.TakeKeeps | cloudflare/portable-relay/src/relay-node.ts:333-454 | every step of a two-node run keeps the invariant that ties tables, delivered sets, checkpoints and the accepted prefix |
| AntiEntropy.RunsAreConsistent | cloudflare/portable-relay/src/relay-node.ts:333-454 | hence every run does |
| AntiEntropy.DrainedMeansConverged | cloudflare/portable-relay/src/relay-node.ts:333-454 | in every run, with any pullers going on from cursors of their own, a node whose accepted prefix is the whole of the other's journal holds exactly the winners of everything delivered to either, although superseded events are never exported and re-sends may have lowered the checkpoint |
| AntiEntropy.CheckpointMeansConverged | cloudflare/portable-relay/src/relay-node.ts:365-373 | a checkpoint that names the last row implies the same |
| AntiEntropy.CheckpointMoves | cloudflare/portable-relay/src/relay-node.ts:365-373 | a completed batch puts the checkpoint at the end of its run, forward or back, and never past the accepted prefix |
| AntiEntropy.CursorsStayGood | crates/buzz-local-relay/src/bin/buzz-relay-pull.rs:139-203 | a position that an attempt got to stays inside the accepted prefix for ever, so its puller may resume there at any time |
| AntiEntropy.CheckpointNamesAccepted | cloudflare/portable-relay/src/relay-node.ts:355-373 | in every run each row up to the stored checkpoint was accepted by the sink |
| AntiEntropy.ConvergedIsStable | cloudflare/portable-relay/src/relay-node.ts:333-454 | further replication does not disturb a converged node |
| AntiEntropy.DrainBothWays | cloudflare/portable-relay/src/relay-node.ts:333-454 | draining one way and then back makes both effective sets equal to the winners of everything delivered |
| AntiEntropy.TransferAdvances | cloudflare/portable-relay/src/relay-node.ts:333-454 | an undisturbed attempt gets past where it resumed until the end is reached, and the accepted prefix follows the furthest attempt |
| AntiEntropy.EnoughAttemptsDrain | cloudflare/portable-relay/src/relay-node.ts:333-454 | as many undisturbed attempts as rows drain a node, for all page and batch sizes |
| Declarations.EvaluateDeclarations | cloudflare/portable-relay/src/declarations.ts:44-87 | fails iff some governing head is malformed; over heads with distinct tags its result is the one their set denotes, for every row order |
| Declarations.FoldFails | cloudflare/portable-relay/src/declarations.ts:89-169 | one head fails iff it governs and its content is malformed, whatever was read before |
| Declarations.DenotesUnique | cloudflare/portable-relay/src/declarations.ts:44-87 | a set of distinct heads denotes one configuration, or failure |
| TrustPolicy.WinnersAreDistinct | cloudflare/portable-relay/src/relay-node.ts:463-488 | effective owner heads have distinct tags |
| TrustPolicy.TrustIsFunctionOfDelivered | cloudflare/portable-relay/src/relay-node.ts:463-509 | two runs that delivered the same bodies evaluate to the same configuration, or both fail |
| TrustPolicy.RevocationSticks | cloudflare/portable-relay/src/relay-node.ts:463-509 | as long as nothing that beats a revoked head was delivered, no evaluation confers what it revoked, however often older heads return |
| TrustPolicy.ClaimedDomainIgnoresEnvironment | cloudflare/portable-relay/src/relay-node.ts:490-509 | a domain with any governing head never consults environment configuration |
| Artifacts.IndexIsScan | cloudflare/portable-relay/src/relay-node.ts:872-923 | in every life, restarts and the one-time backfill included, the index equals a scan of the journal |
| Artifacts.VisibleIffDrained | cloudflare/portable-relay/src/relay-node.ts:835-867 | a selection exposes a hash iff a record of its full drain refers to it |
| Artifacts.AccessFollowsReference | cloudflare/portable-relay/src/relay-node.ts:813-869 | a principal other than the owner may fetch a hash iff draining some stream granted to it yields an event with that `x` tag |
| Proofs.OneUse | cloudflare/portable-relay/src/relay-node.ts:987-1044 | each proof is accepted at most once when the clock never falls more than 480 s below an earlier reading (one reading per request) or 240 s (two readings, as coded) |
| Proofs.ExactSlack | cloudflare/portable-relay/src/identity.ts:84-141 | these bounds are exact: safety holds iff the slack is at most 480 s, respectively 240 s |
| Proofs.RecordKept | cloudflare/portable-relay/src/relay-node.ts:1021-1044 | an accepted proof stays on record, with its time, until a prune more than the retention later |
| Query.NextPasses | cloudflare/portable-relay/src/relay-node.ts:1177-1193 | the keyset position of an event selects exactly what the filter selects after it in sort order |
| Query.WalkIsExact | cloudflare/portable-relay/src/relay-node.ts:1158-1212 | following the last event of each page visits every matching visible event exactly once, in sort order |
| Query.Select | cloudflare/portable-relay/src/relay-node.ts:1168-1194 | one filter's scan adds exactly its page to what was selected, without repeats |
| Query.QueryEffective | cloudflare/portable-relay/src/relay-node.ts:1158-1212 | the sorted union of the filters' pages and of the pulse if a filter asks for it, each event once; one filter alone that does not ask for it gives exactly its page |
| Query.SelectAll | cloudflare/portable-relay/src/relay-node.ts:1166-1194 | the filters' scans one after the other select exactly the union of their pages |
| Query.QuerySizeIsCount | cloudflare/portable-relay/src/relay-node.ts:1214-1221 | a query never returns more than the count, and exactly the count when no limit bites and no keyset position is given |
| Query.OneFilterSize | cloudflare/portable-relay/src/relay-node.ts:1158-1221 | for one filter the size is the smaller of limit and count |
| Query.ReadableMeaning | cloudflare/portable-relay/src/identity.ts:186-200 | the readable events are the effective rows disclosed to the reader |
| Pulse.ChainIsWitnessed | cloudflare/portable-relay/src/relay-node.ts:519-632 | in every run, with emissions skipped or cut short, the recorded previous head precedes the recorded head and every pulse points strictly back or to nothing |
| Pulse.IdleReadsRepeat | cloudflare/portable-relay/src/relay-node.ts:519-632 | reads after any emission, the first included, repeat the emitted link instead of pointing at the head itself |
| Pacer.SlotIsEarliest | crates/buzz-acp/src/lib.rs:381-409 | the pruned queue imposes exactly the constraint the full history imposes |
| Pacer.PublishKeeps | crates/buzz-acp/src/lib.rs:381-409 | publishing at or after that moment keeps the limit over the whole history |
| Pacer.ObserverPublishPacer.NextSlot | crates/buzz-acp/src/lib.rs:383-397 | the computed time is the first the whole history allows, and it is only reached with room in the queue |
| Pacer.ObserverPublishPacer.Wait | crates/buzz-acp/src/lib.rs:381-409 | one sleep suffices and the slot taken is the earliest allowed plus the scheduler's delay |
| Pacer.Drive | crates/buzz-acp/src/lib.rs:364-409 | over every run, publish i+90 is at least 60 s after publish i and neighbours are at least 167 ms apart |
| Circuit.SlotCircuit.Record | crates/buzz-acp/src/lib.rs:1053-1096 | the in-place update is the specified verdict and state |
| Circuit.SlotCircuit.Retain | crates/buzz-acp/src/lib.rs:1075-1077 | pruning keeps exactly the crashes inside the window, in order |
| Circuit.SlotCircuit.SpawnFailed | crates/buzz-acp/src/lib.rs:1101-1103 | a failed spawn opens the circuit for the cooldown |
| Circuit.SlotCircuit.Refill | crates/buzz-acp/src/lib.rs:1113-1131 | a refill is refused iff the circuit is open, and half-opens one whose time has come |
| Circuit.GrantsAreSparse | crates/buzz-acp/src/lib.rs:1053-1131 | over every order of calls with a monotone clock any three grants span at least 60 s |
| Circuit.OpenStaysShut | crates/buzz-acp/src/lib.rs:1053-1131 | an open circuit grants nothing before its time and only opens longer |
| Circuit.TrippedIsSilent | crates/buzz-acp/src/lib.rs:1053-1131 | after the threshold trips nothing is granted for 300 s |
| Circuit.BackoffIsShort | crates/buzz-acp/src/lib.rs:1079-1095 | granted delays lie in 0.8 s to 2.4 s, so the 30 s cap is out of reach |
| Circuit.SpawnsAreSparse | crates/buzz-acp/src/lib.rs:1752-1809 | over the life of a slot, refills included, any three spawns span at least 60 s, except that a start-up refill may add one at the beginning |
| Circuit.StartUpException | crates/buzz-acp/src/lib.rs:1752-1771 | the exception is real: a slot that never came up spawns three times within 5 s, with both backoffs kept |
| Circuit.SparseIffStartedAlive | crates/buzz-acp/src/lib.rs:1752-1809 | all lives of a slot have sparse spawns iff it came up at start-up |
| Circuit.BackoffIsKept | crates/buzz-acp/src/lib.rs:3490-3498 | over every life of a slot no agent is up before its respawn task has slept through the granted backoff |
| Circuit.StartedAlive | crates/buzz-acp/src/lib.rs:3465-3485 | a slot that came up is never refilled past its circuit |
| Usage.UsageTracker.BeginTurn | crates/buzz-acp/src/usage.rs:182-185 | the in-place update is the specified one |
| Usage.UsageTracker.RecordUsage | crates/buzz-acp/src/usage.rs:211-295 | the in-place update is the specified one, for the in-flight session, other sessions, first sights and decreases |
| Usage.UsageTracker.TakeUsage | crates/buzz-acp/src/usage.rs:304-319 | the in-place update and the published record are the specified ones |
| Usage.Conservation | crates/buzz-acp/src/usage.rs:182-319 | for every interleaving over any sessions: published sequence numbers are 1, 2, 3, ..., and for input tokens, output tokens and cost the baseline is the first baseline plus published deltas plus moves outside turns or without a delta |
| Usage.ReportedIsSum | crates/buzz-acp/src/usage.rs:182-319 | the deltas accounted for are the published ones |
| Usage.NothingUnreported | crates/buzz-acp/src/usage.rs:211-295 | for a session whose reports never decrease and always carry the counter nothing moves without a delta inside a turn |
| Usage.GrowingCountersAddUp | crates/buzz-acp/src/usage.rs:182-319 | for such a session last minus first baseline is the published deltas plus the moves outside turns |
| Usage.OthersUndisturbed | crates/buzz-acp/src/usage.rs:211-295 | a notification of one session never touches another's baseline, nor anything while another is in flight |
| Coalescer.ObserverChunkCoalescer.IngestEvent | crates/buzz-acp/src/lib.rs:547-570 | the in-place update is the specified one |
| Coalescer.ObserverChunkCoalescer.FlushAll | crates/buzz-acp/src/lib.rs:572-580 | a flush empties the list and emits it in order |
| Coalescer.SetTextKeepsKey | crates/buzz-acp/src/lib.rs:583-626 | rewriting a chunk's text keeps its key and sets its text |
| Coalescer.StepsConserve | crates/buzz-acp/src/lib.rs:547-580 | at every moment emitted plus held text is the received text per key, plain events passed in order, pending keys are distinct and merged text stays under the soft limit |
| Coalescer.CoalescingConservesText | crates/buzz-acp/src/lib.rs:518-626 | for every sequence ended by a flush, per key the emitted text is the received text, and other events pass unchanged and in order |
| Coalescer.PlainEventIsBarrier | crates/buzz-acp/src/lib.rs:547-570 | when a non-chunk event is emitted all earlier text is out and nothing is held |
| Elision.FloorCharBoundary | crates/buzz-acp/src/lib.rs:776-781 | the byte loop stops at the end of the longest prefix that fits |
| Elision.CeilCharBoundary | crates/buzz-acp/src/lib.rs:783-788 | the byte loop stops at the end of the shortest prefix that reaches the offset |
| Elision.LeafShrinks | crates/buzz-acp/src/lib.rs:739-746 | the byte-offset test says exactly whether cutting removes more than the marker adds |
| Elision.ElideShortens | crates/buzz-acp/src/lib.rs:750-761 | an elision strictly shortens the string, raw and under JSON escaping (section 7 of RFC 8259) |
| Elision.AtMostTwice | crates/buzz-acp/src/lib.rs:739-788 | no string of machine size shrinks three times |
| Elision.SecondElision | crates/buzz-acp/src/lib.rs:739-788 | for every string that shrinks: it shrinks again iff the count in its marker has at least three digits, and three more for each kept end of exactly 2997 bytes, which swallows the ellipsis beside it |
| Elision.EndSizes | crates/buzz-acp/src/lib.rs:770-788 | each end that an elision keeps has 2997 to 3000 bytes |
| Elision.AsciiElisions | crates/buzz-acp/src/lib.rs:739-788 | so ASCII text shrinks iff it has 6024 bytes and shrinks again iff it has 6100 |
| Frame.SetLeafEffect | crates/buzz-acp/src/lib.rs:698-734 | replacing one leaf changes no other leaf and the serialized size by exactly the difference |
| Frame.LargestShrinkableLeaf | crates/buzz-acp/src/lib.rs:698-734 | found iff some leaf can shrink, and then a longest such leaf |
| Frame.NoLeafMoreThanTwice | crates/buzz-acp/src/lib.rs:659-687 | no leaf of a trimmed payload was elided more than twice |
| Frame.PassesAtMostTwiceLeaves | crates/buzz-acp/src/lib.rs:644-679 | the loop makes at most twice as many passes as there are leaves |
| Frame.TwoPassesForOneLeaf | crates/buzz-acp/src/lib.rs:644-679 | the bound is reached: a frame with one leaf that takes two passes |
| Frame.TrimmedAtLeast | crates/buzz-acp/src/lib.rs:659-687 | every trimmed form of a frame has at least the size it has with all leaves down to their floors, and exactly that size once no leaf can shrink |
| Frame.SizeOfShape | crates/buzz-acp/src/lib.rs:689-691 | the serialized size of a payload is that of its structure plus the escaped sizes of its string values |
| Frame.ObserverFrame.ShortenLeaf | crates/buzz-acp/src/lib.rs:674-678 | one pass elides a largest leaf, keeps keys, numbers, structure and other leaves, and strictly shrinks the serialized frame |
| Frame.ObserverFrame.ShortenLeaves | crates/buzz-acp/src/lib.rs:671-679 | the loop ends, and without fitting only when no leaf can shrink |
| Frame.ObserverFrame.FitToBudget | crates/buzz-acp/src/lib.rs:659-687 | a frame that fits is untouched; otherwise only leaves are elided, in at most twice as many passes as there are leaves; the stub is used iff the frame overflows with every leaf elided for as long as it shrinks, which depends on the given frame only; the result fits iff that is not so or the given envelope leaves room for the stub |
| Frame.StubCanOverflow | crates/buzz-acp/src/lib.rs:681-686 | a frame of an agent that named its session with 65,536 characters overflows with every payload, the stub included |
| Rules.MatchEvent | crates/buzz-acp/src/filter.rs:368-460 | a rule is returned iff it selects and all before it decline; each timeout counter afterwards is exactly that of a rule that was or was not reached and evaluated |
| Rules.MergeRules | crates/buzz-acp/src/config.rs:1187-1220 | the merge loop is the specified merge |
| Rules.ResolveDynamicChannelFilter | crates/buzz-acp/src/config.rs:1236-1314 | the filter of a channel that appears while running |
| Rules.ResolveChannelFilters | crates/buzz-acp/src/config.rs:1134-1224 | in every mode each discovered channel gets the filter it would get while running, and no other channel gets one |
| Rules.TargetChannels | crates/buzz-acp/src/config.rs:1143-1151 | exactly the discovered channels the operator did not exclude |
| Rules.MergeMeaning | crates/buzz-acp/src/config.rs:1187-1220 | wildcard iff an applicable rule has one, else exactly the union of kinds without repeats; a mention is required iff every applicable rule requires it |
| Rules.MergeCoversMatcher | crates/buzz-acp/src/config.rs:1236-1325 | an event that some rule admits passes its channel's merged filter |
| Rules.PassesIff | crates/buzz-acp/src/config.rs:1236-1325 | the merged filter passes an event iff some applicable rule allows its kind, and it mentions the agent or some applicable rule asks for no mention |
| Rules.PassesInVain | crates/buzz-acp/src/config.rs:1236-1325 | it passes an event that no rule admits iff, besides, every applicable rule that allows the kind is misspelled or misses a mention |
| Rules.PassesInVainWhenSpelled | crates/buzz-acp/src/config.rs:1236-1325 | without misspelled rules that happens iff the event mentions nobody, and the kind is allowed by one applicable rule and the mention waived by another, but never both by one |
| Rules.AppliesIff | crates/buzz-acp/src/filter.rs:62-73 | the resolver counts a rule as applicable iff the matcher has the channel in scope or the rule lists it only in another spelling |
| Rules.OtherSpellingIsDead | crates/buzz-acp/src/config.rs:1316-1325 | the converse fails: a channel listed only in another spelling is subscribed but never matched |
| Steer.AnswersMeaning | crates/buzz-acp/src/acp.rs:1425-1429 | a message answers a request iff it has no method and its id is the JSON form of the request id |
| Steer.StepPlaces | crates/buzz-acp/src/acp.rs:1198-1514 | a step only moves steers between channel, loop, reports and settlements; a steer is admitted, confirmed, falls short or is lost exactly at the steps where that happens |
| Steer.EverySteerOnce | crates/buzz-acp/src/acp.rs:1198-1514 | in every run an accepted steer is in exactly one of these places |
| Steer.CountsIffHappened | crates/buzz-acp/src/acp.rs:1198-1514 | in every run a steer is reported as success iff an error-free response to its own id came while it was outstanding and in time, as a fallback iff it fell short, and as dropped iff it was in the channel when that closed or outstanding when the loop ended by a failed request or a dropped future |
| Steer.PassDrops | crates/buzz-acp/src/acp.rs:1198-1514 | what one pass of the loop drops, told by its inputs |
| Steer.LosingRunDrops | crates/buzz-acp/src/acp.rs:1490-1492 | a run in which a written steer is never answered, because the agent sends a permission request that cannot be |
| Steer.EverySteerSettledOnce | crates/buzz-acp/src/lib.rs:2416-2524 | once quiet, the main loop has requested exactly one of remove and release per accepted steer, remove iff confirmed, has signalled the cancelling fallback iff the steer fell short, and found its sender dropped iff it was lost |
| Steer.RemoveOnlyConfirmed | crates/buzz-acp/src/lib.rs:2474-2516 | at any time at most one request per steer, and a removal only of a confirmed one |
| Steer.RunInv | crates/buzz-acp/src/acp.rs:1198-1514 | in every run prompt and steer ids stay apart and the outstanding steer is the one written under its id |
| Steer.AtMostOneOutstanding | crates/buzz-acp/src/acp.rs:1214-1336 | in every run each steer that got an id has exactly one outcome, except the single one the loop waits for |
| Steer.SteersAreWrittenOnce | crates/buzz-acp/src/acp.rs:1293-1334 | no steer is written under two ids |
| Steer.Routing | crates/buzz-acp/src/acp.rs:1416-1474 | a steer response never ends the turn and settles only that steer; the prompt response ends it and settles none by reply; responses to anything older only count as activity |
| Steer.AnswerOnlyFromOwnPrompt | crates/buzz-acp/src/acp.rs:1459-1472 | an answer is returned only for a response to the loop's own prompt that came in time |
| Steer.OneAnswerPerPrompt | crates/buzz-acp/src/acp.rs:676-740 | a prompt is answered at most once, its cleanup after a timeout or cancel included |
| Steer.HardDeadlineNeverMovesBack | crates/buzz-acp/src/acp.rs:1443-1454 | while a turn lasts its hard deadline is the latest of the initial one and the renewals by confirmed steers |
| Steer.StepDeadline | crates/buzz-acp/src/acp.rs:1229-1261 | a pass that starts at or after the hard deadline ends the loop |
| Steer.CleanupInherits | crates/buzz-acp/src/acp.rs:837-865 | a timed-out or abandoned prompt is cleaned up under its own id with at least its renewed budget |
| ReadLoop.AcpClient.ReadUntilResponse | crates/buzz-acp/src/acp.rs:1198-1514 | the loop consumes exactly the inputs up to its return and is the specified run |
| ReadLoop.AcpClient.LoopOnce | crates/buzz-acp/src/acp.rs:1228-1366 | deadline check and arms in the source's order |
| ReadLoop.AcpClient.TakeSteer | crates/buzz-acp/src/acp.rs:1281-1336 | no run id, failed write, landed write and a future dropped in mid-write |
| ReadLoop.AcpClient.OnMessage | crates/buzz-acp/src/acp.rs:1416-1511 | steer response before prompt response before dispatch |
| ReadLoop.AcpClient.AckSteer | crates/buzz-acp/src/acp.rs:1425-1457 | error code or success, with the deadline and its stored copy renewed together |
| ReadLoop.AcpClient.Return | crates/buzz-acp/src/acp.rs:1245-1261 | every way out drops the channel, and an outstanding steer gets one acknowledgement |
| ReadLoop.AcpClient.TrySteer | crates/buzz-acp/src/lib.rs:2803-2886 | accepted iff the channel is open and empty |
| ReadLoop.AcpClient.SessionPrompt | crates/buzz-acp/src/acp.rs:676-708 | a prompt takes a new id and a fresh deadline; a failed write forgets both, a future dropped in mid-write keeps both for a cleanup |
| ReadLoop.AcpClient.SendRequest | crates/buzz-acp/src/acp.rs:1074-1165 | any other request takes an id, and the session updates dispatched before its answer set the active run |
| ReadLoop.AcpClient.CancelWithCleanup | crates/buzz-acp/src/acp.rs:837-945 | cleanup reads on for the same prompt, with the inherited deadline, its floor or the grace window |
| ReadLoop.AcpClient.OnSteerAck | crates/buzz-acp/src/lib.rs:2416-2524 | exactly one of remove and release, fallback exactly for what never reached the agent or is not implemented there |

## Left out

- HTTP and WebSocket plumbing, request routing, body limits and blob storage: input and output only.
- Cryptography, URL parsing and SQL text: uninterpreted or assumed, as listed above.
- Live fan-out, subscription bookkeeping and presence: facts about one map each.
- Beacon response validation: its verdict is an input of a delivery.
- Parsing of peer and stream environment configuration: the resolved maps are inputs.
- The effect of remove and release inside the event queue, such as its per-channel cap: only the requests are modelled.
- Several channels and agents at once in the steer protocol: each agent process has its own read loop and channel, and one is modelled with any number of turns.
- The text of steer prompts, permission replies and log lines: a reply is either possible and written, or not.
- Process spawning, command line parsing, heartbeat and engram handling: environment and foreign calls.
- `pool_lifecycle.rs` and the benchmark under `perf`: they would add only easy members.
- Floating-point rounding of cost and jitter: cost is an exact number and jitter any real in its range.
- Elision.AtMostTwice: needs a byte length below 2^64, because the width of the marker grows with the number it prints.
- Query.WalkIsExact: a limit of zero is excluded, because then the first page is empty and nothing follows.
- Proofs.ExactSlack: quantifies over clocks by their largest set-back, not over particular clock traces.
