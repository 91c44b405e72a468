/** Cumulative usage counters turned into published per-turn deltas. */
module Usage {
  import opened Prelude

  datatype Payload = Payload(input: nat, output: nat, cost: Option<real>, model: Option<string>)

  datatype Session = Session(publishedSeq: nat, lastInput: nat, lastOutput: nat, lastCost: Option<real>)

  datatype Delta = Unknown | Known(input: nat, output: nat, cost: Option<real>)

  datatype TurnUsage = TurnUsage(session: string, turnSeq: nat, delta: Delta, total: Payload)

  datatype Tracker = Tracker(sessions: map<string, Session>, inFlight: Option<string>, pending: Option<TurnUsage>)

  const FRESH := Tracker(map[], None, None)

  // -------------------------------------------------------------- operations

  /** Some counter went down since the baseline. */
  predicate Decreased(base: Session, p: Payload) {
    || p.input < base.lastInput
    || p.output < base.lastOutput
    || (p.cost.Some? && base.lastCost.Some? && p.cost.value < base.lastCost.value)
  }

  function DeltaFrom(base: Session, p: Payload): Delta {
    if Decreased(base, p) then Unknown
    else Known(p.input - base.lastInput, p.output - base.lastOutput,
               if p.cost.Some? && base.lastCost.Some? then Some(p.cost.value - base.lastCost.value) else None)
  }

  function Begin(t: Tracker, session: string): Tracker {
    Tracker(t.sessions, Some(session), None)
  }

  function Record(t: Tracker, session: string, p: Payload): Tracker {
    var known := session in t.sessions;
    if t.inFlight == Some(session) then
      t.(pending := Some(
        if known
        then TurnUsage(session, t.sessions[session].publishedSeq + 1, DeltaFrom(t.sessions[session], p), p)
        else TurnUsage(session, 1, Unknown, p)))
    else if t.inFlight.None? then
      t.(sessions := t.sessions[session :=
        Session(if known then t.sessions[session].publishedSeq else 0, p.input, p.output, p.cost)])
    else t
  }

  function Take(t: Tracker): (Tracker, Option<TurnUsage>) {
    if t.pending.None? then (t.(inFlight := None), None)
    else
      var u := t.pending.value;
      (Tracker(t.sessions[u.session := Session(u.turnSeq, u.total.input, u.total.output, u.total.cost)], None, None),
       Some(u))
  }

  class UsageTracker {
    var sessions: map<string, Session>
    var inFlight: Option<string>
    var pending: Option<TurnUsage>

    ghost function State(): Tracker
      reads this
    {
      Tracker(sessions, inFlight, pending)
    }

    constructor ()
      ensures State() == FRESH
    {
      sessions, inFlight, pending := map[], None, None;
    }

    method BeginTurn(session: string)
      modifies this`inFlight, this`pending
      ensures State() == Begin(old(State()), session)
    {
      inFlight := Some(session);
      pending := None;
    }

    method RecordUsage(session: string, p: Payload)
      modifies this`sessions, this`pending
      ensures State() == Record(old(State()), session, p)
    {
      var delta, turnSeq := Unknown, 1;
      if session in sessions {
        var prev := sessions[session];
        turnSeq := prev.publishedSeq + 1;
        if p.input >= prev.lastInput && p.output >= prev.lastOutput {
          var cost, reliable := None, true;
          if p.cost.Some? && prev.lastCost.Some? {
            if p.cost.value >= prev.lastCost.value {
              cost := Some(p.cost.value - prev.lastCost.value);
            } else {
              reliable := false;
            }
          }
          if reliable {
            delta := Known(p.input - prev.lastInput, p.output - prev.lastOutput, cost);
          }
        }
      }
      if inFlight == Some(session) {
        pending := Some(TurnUsage(session, turnSeq, delta, p));
      } else if inFlight.None? {
        var published := if session in sessions then sessions[session].publishedSeq else 0;
        sessions := sessions[session := Session(published, p.input, p.output, p.cost)];
      }
    }

    method TakeUsage() returns (u: Option<TurnUsage>)
      modifies this
      ensures (State(), u) == Take(old(State()))
    {
      inFlight := None;
      u := pending;
      pending := None;
      if u.Some? {
        var r := u.value;
        sessions := sessions[r.session := Session(r.turnSeq, r.total.input, r.total.output, r.total.cost)];
      }
    }
  }

  // ----------------------------------------------------------- whole runs

  datatype Call = BeginTurn(session: string) | Notify(session: string, p: Payload) | TakeTurn

  /** The three counters are accounted for alike; an account follows one of them. A missing cost counts as none. */
  datatype Counter = InputTokens | OutputTokens | Cost

  function Pick(which: Counter, input: int, output: int, cost: Option<real>): real {
    match which
    case InputTokens => input as real
    case OutputTokens => output as real
    case Cost => if cost.Some? then cost.value else 0.0
  }

  function Baseline(which: Counter, b: Session): real {
    Pick(which, b.lastInput, b.lastOutput, b.lastCost)
  }

  function Size(which: Counter, d: Delta): real {
    if d.Known? then Pick(which, d.input, d.output, d.cost) else 0.0
  }

  /** A record that says nothing of the counter. */
  predicate Silent(which: Counter, d: Delta) {
    d.Unknown? || (which.Cost? && d.cost.None?)
  }

  /**
   The tracker and, for one observed session `s` and one counter: what was
   published for the session, the sum of those deltas, its first baseline, and
   how far its baseline moved outside turns and in turns published without a
   delta.
   */
  datatype Trace = Trace(
    tracker: Tracker,
    published: seq<TurnUsage>,
    reported: real,
    first: real,
    outside: real,
    unreported: real
  )

  const START := Trace(FRESH, [], 0.0, 0.0, 0.0, 0.0)

  function StepTake(which: Counter, r: Trace, s: string): Trace {
    var (t, u) := Take(r.tracker);
    if u.None? || u.value.session != s then r.(tracker := t)
    else
      var now := Baseline(which, t.sessions[s]);
      var known := s in r.tracker.sessions;
      Trace(t, r.published + [u.value],
            r.reported + Size(which, u.value.delta),
            if known then r.first else now,
            r.outside,
            if known && Silent(which, u.value.delta)
            then r.unreported + now - Baseline(which, r.tracker.sessions[s]) else r.unreported)
  }

  function StepNotify(which: Counter, r: Trace, s: string, session: string, p: Payload): Trace {
    var t := Record(r.tracker, session, p);
    if s !in t.sessions then r.(tracker := t)
    else if s !in r.tracker.sessions then r.(tracker := t, first := Baseline(which, t.sessions[s]))
    else r.(tracker := t,
            outside := r.outside + Baseline(which, t.sessions[s]) - Baseline(which, r.tracker.sessions[s]))
  }

  function Step(which: Counter, r: Trace, s: string, call: Call): Trace {
    match call
    case BeginTurn(session) => r.(tracker := Begin(r.tracker, session))
    case Notify(session, p) => StepNotify(which, r, s, session, p)
    case TakeTurn => StepTake(which, r, s)
  }

  function Steps(which: Counter, s: string, calls: seq<Call>): Trace {
    if calls == [] then START
    else Step(which, Steps(which, s, calls[..|calls| - 1]), s, calls[|calls| - 1])
  }

  function SumDeltas(which: Counter, us: seq<TurnUsage>): real {
    if us == [] then 0.0
    else SumDeltas(which, us[..|us| - 1]) + Size(which, us[|us| - 1].delta)
  }

  // ------------------------------------------------------------- invariant

  /** A pending record belongs to the turn in flight and is measured from the standing baseline. */
  ghost predicate PendingOk(t: Tracker) {
    t.pending.Some? ==>
      var u := t.pending.value;
      && t.inFlight == Some(u.session)
      && (if u.session in t.sessions
          then u.turnSeq == t.sessions[u.session].publishedSeq + 1 && u.delta == DeltaFrom(t.sessions[u.session], u.total)
          else u.turnSeq == 1 && u.delta == Unknown)
  }

  ghost predicate Numbered(us: seq<TurnUsage>) {
    forall i | 0 <= i < |us| :: us[i].turnSeq == i + 1
  }

  ghost predicate Balanced(which: Counter, r: Trace, s: string) {
    && Numbered(r.published)
    && (s in r.tracker.sessions ==>
          && r.tracker.sessions[s].publishedSeq == |r.published|
          && Baseline(which, r.tracker.sessions[s]) == r.first + r.reported + r.outside + r.unreported)
    && (s !in r.tracker.sessions ==>
          r.published == [] && r.reported == 0.0 && r.outside == 0.0 && r.unreported == 0.0)
  }

  lemma TakeBalanced(which: Counter, r: Trace, s: string)
    requires PendingOk(r.tracker) && Balanced(which, r, s)
    ensures Balanced(which, StepTake(which, r, s), s)
  {
  }

  lemma RecordPending(t: Tracker, session: string, p: Payload)
    requires PendingOk(t)
    ensures PendingOk(Record(t, session, p))
  {
  }

  lemma NotifyBalanced(which: Counter, r: Trace, s: string, session: string, p: Payload)
    requires Balanced(which, r, s)
    ensures Balanced(which, StepNotify(which, r, s, session, p), s)
  {
  }

  lemma SumSnoc(which: Counter, us: seq<TurnUsage>, u: TurnUsage)
    ensures SumDeltas(which, us + [u]) == SumDeltas(which, us) + Size(which, u.delta)
  {
    assert (us + [u])[..|us + [u]| - 1] == us;
  }

  lemma StepSums(which: Counter, r: Trace, s: string, call: Call)
    requires r.reported == SumDeltas(which, r.published)
    ensures Step(which, r, s, call).reported == SumDeltas(which, Step(which, r, s, call).published)
  {
    if call.TakeTurn? && r.tracker.pending.Some? {
      SumSnoc(which, r.published, r.tracker.pending.value);
    }
  }

  lemma {:induction false} ReportedIsSum(which: Counter, s: string, calls: seq<Call>)
    ensures Steps(which, s, calls).reported == SumDeltas(which, Steps(which, s, calls).published)
  {
    if calls != [] {
      ReportedIsSum(which, s, calls[..|calls| - 1]);
      StepSums(which, Steps(which, s, calls[..|calls| - 1]), s, calls[|calls| - 1]);
    }
  }

  /**
   For every interleaving of calls over any sessions: the published sequence
   numbers of a session are 1, 2, 3, ..., and its baseline is its first baseline
   plus the published deltas plus what moved outside turns or without a delta.
   */
  lemma {:induction false} Conservation(which: Counter, s: string, calls: seq<Call>)
    ensures PendingOk(Steps(which, s, calls).tracker) && Balanced(which, Steps(which, s, calls), s)
  {
    if calls != [] {
      Conservation(which, s, calls[..|calls| - 1]);
      var r := Steps(which, s, calls[..|calls| - 1]);
      match calls[|calls| - 1]
      case BeginTurn(session) =>
      case Notify(session, p) =>
        RecordPending(r.tracker, session, p);
        NotifyBalanced(which, r, s, session, p);
      case TakeTurn => TakeBalanced(which, r, s);
    }
  }

  // --------------------------------------------------- counters that only grow

  predicate AtLeast(p: Payload, q: Payload) {
    && p.input <= q.input && p.output <= q.output
    && (p.cost.Some? && q.cost.Some? ==> p.cost.value <= q.cost.value)
  }

  /** The session's reports never decrease, and always carry the counter. */
  ghost predicate NeverDecreases(which: Counter, s: string, calls: seq<Call>) {
    && (forall i, k | 0 <= i < k < |calls| && calls[i].Notify? && calls[k].Notify? && calls[i].session == calls[k].session == s ::
          AtLeast(calls[i].p, calls[k].p))
    && (which.Cost? ==> forall i | 0 <= i < |calls| && calls[i].Notify? && calls[i].session == s :: calls[i].p.cost.Some?)
  }

  /** `p` is one of the reports of `s`. */
  ghost predicate Reported(s: string, calls: seq<Call>, p: Payload) {
    exists i | 0 <= i < |calls| :: calls[i] == Notify(s, p)
  }

  ghost predicate BaselineReported(which: Counter, t: Tracker, s: string, calls: seq<Call>) {
    && (s in t.sessions ==> exists p :: Reported(s, calls, p) && p.input == t.sessions[s].lastInput &&
                                         p.output == t.sessions[s].lastOutput && p.cost == t.sessions[s].lastCost)
    && (t.pending.Some? && t.pending.value.session == s ==> Reported(s, calls, t.pending.value.total))
    && (t.pending.Some? && t.pending.value.session == s && s in t.sessions ==> !Silent(which, t.pending.value.delta))
  }

  lemma ReportedStays(s: string, front: seq<Call>, last: Call, p: Payload)
    ensures Reported(s, front, p) ==> Reported(s, front + [last], p)
    ensures last == Notify(s, p) ==> Reported(s, front + [last], p)
  {
    if Reported(s, front, p) {
      var i :| 0 <= i < |front| && front[i] == Notify(s, p);
      assert (front + [last])[i] == Notify(s, p);
    }
    if last == Notify(s, p) { assert (front + [last])[|front|] == last; }
  }

  lemma BaselineReportedStays(which: Counter, t: Tracker, s: string, front: seq<Call>, last: Call)
    requires BaselineReported(which, t, s, front)
    ensures BaselineReported(which, t, s, front + [last])
  {
    forall p ensures Reported(s, front, p) ==> Reported(s, front + [last], p) {
      ReportedStays(s, front, last, p);
    }
  }

  lemma NotifyReported(which: Counter, t: Tracker, s: string, front: seq<Call>, p: Payload)
    requires NeverDecreases(which, s, front + [Notify(s, p)]) && BaselineReported(which, t, s, front)
    ensures s in t.sessions ==> !Silent(which, DeltaFrom(t.sessions[s], p))
    ensures Reported(s, front + [Notify(s, p)], p)
  {
    var calls := front + [Notify(s, p)];
    ReportedStays(s, front, Notify(s, p), p);
    if s in t.sessions {
      var q :| Reported(s, front, q) && q.input == t.sessions[s].lastInput &&
               q.output == t.sessions[s].lastOutput && q.cost == t.sessions[s].lastCost;
      var i :| 0 <= i < |front| && front[i] == Notify(s, q);
      assert calls[i] == Notify(s, q) && calls[|front|] == Notify(s, p);
      assert AtLeast(q, p);
    }
  }

  lemma StepReported(which: Counter, r: Trace, s: string, front: seq<Call>, last: Call)
    requires NeverDecreases(which, s, front + [last])
    requires PendingOk(r.tracker) && BaselineReported(which, r.tracker, s, front)
    ensures BaselineReported(which, Step(which, r, s, last).tracker, s, front + [last])
  {
    BaselineReportedStays(which, r.tracker, s, front, last);
    if last.Notify? {
      if last.session == s {
        NotifyReported(which, r.tracker, s, front, last.p);
      } else {
        OthersUndisturbed(r.tracker, s, last.session, last.p);
      }
    }
  }

  lemma NeverDecreasesFront(which: Counter, s: string, front: seq<Call>, last: Call)
    requires NeverDecreases(which, s, front + [last])
    ensures NeverDecreases(which, s, front)
  {
    var calls := front + [last];
    forall i, k | 0 <= i < k < |front| && front[i].Notify? && front[k].Notify? && front[i].session == front[k].session == s
      ensures AtLeast(front[i].p, front[k].p)
    {
      assert calls[i] == front[i] && calls[k] == front[k];
    }
    forall i | which.Cost? && 0 <= i < |front| && front[i].Notify? && front[i].session == s ensures front[i].p.cost.Some? {
      assert calls[i] == front[i];
    }
  }

  lemma {:induction false} NothingUnreported(which: Counter, s: string, calls: seq<Call>)
    requires NeverDecreases(which, s, calls)
    ensures BaselineReported(which, Steps(which, s, calls).tracker, s, calls)
    ensures Steps(which, s, calls).unreported == 0.0
  {
    if calls != [] {
      var front, last := calls[..|calls| - 1], calls[|calls| - 1];
      assert calls == front + [last];
      NeverDecreasesFront(which, s, front, last);
      NothingUnreported(which, s, front);
      Conservation(which, s, front);
      StepReported(which, Steps(which, s, front), s, front, last);
    }
  }

  /**
   For a session whose counters never decrease, last baseline minus first
   baseline is the sum of the published deltas plus the moves outside turns.
   */
  lemma GrowingCountersAddUp(which: Counter, s: string, calls: seq<Call>)
    requires NeverDecreases(which, s, calls) && s in Steps(which, s, calls).tracker.sessions
    ensures var r := Steps(which, s, calls);
            Baseline(which, r.tracker.sessions[s]) - r.first == SumDeltas(which, r.published) + r.outside
  {
    Conservation(which, s, calls);
    ReportedIsSum(which, s, calls);
    NothingUnreported(which, s, calls);
  }

  /** Notifications of one session never touch another session's baseline or pending record. */
  lemma OthersUndisturbed(t: Tracker, s: string, other: string, p: Payload)
    requires s != other
    ensures var t' := Record(t, other, p);
            && (s in t'.sessions <==> s in t.sessions)
            && (s in t.sessions ==> t'.sessions[s] == t.sessions[s])
            && (t.inFlight == Some(s) ==> t' == t)
  {
  }
}
