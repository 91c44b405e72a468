/** The per-slot circuit breaker and the life of the slot it guards. */
module Circuit {
  import opened Prelude

  /** Times are nanoseconds of a clock that never goes back. */
  const THRESHOLD := 3
  const WINDOW := 60_000_000_000
  const COOLDOWN := 300_000_000_000

  datatype Circuit = Circuit(crashTimes: seq<int>, openUntil: Option<int>)

  const CLOSED := Circuit([], None)

  datatype Verdict = Respawn(delay: real) | CircuitOpen | HalfOpenProbe

  /** Crashes still inside the window. */
  function Recent(times: seq<int>, now: int): seq<int> {
    if times == [] then []
    else (if now - times[0] < WINDOW then [times[0]] else []) + Recent(times[1..], now)
  }

  /** One probe is allowed; the next crash within the window trips at once. */
  function HalfOpen(now: int): Circuit {
    Circuit([now, now], None)
  }

  /** Backoff in seconds: doubles per recent crash up to 30 s, then jitter in [0, 1) gives 80 to 120 %. */
  function Backoff(recent: nat, jitter: real): real
    requires 1 <= recent
  {
    var base := [1.0, 2.0, 4.0, 8.0, 16.0, 32.0][if recent - 1 < 5 then recent - 1 else 5];
    (if base < 30.0 then base else 30.0) * (0.8 + jitter * 0.4)
  }

  function RecordCrash(c: Circuit, now: int, jitter: real): (Circuit, Verdict) {
    if c.openUntil.Some? then
      if now >= c.openUntil.value then (HalfOpen(now), HalfOpenProbe) else (c, CircuitOpen)
    else
      var recent := Recent(c.crashTimes + [now], now);
      if |recent| >= THRESHOLD then (Circuit(recent, Some(now + COOLDOWN)), CircuitOpen)
      else
        RecentHasNow(c.crashTimes, now);
        (Circuit(recent, None), Respawn(Backoff(|recent|, jitter)))
  }

  function MarkSpawnFailed(c: Circuit, now: int): Circuit {
    c.(openUntil := Some(now + COOLDOWN))
  }

  function CanRefill(c: Circuit, now: int): (Circuit, bool) {
    if c.openUntil.Some? then
      if now >= c.openUntil.value then (HalfOpen(now), true) else (c, false)
    else (c, true)
  }

  lemma {:induction false} RecentConcat(a: seq<int>, b: seq<int>, now: int)
    ensures Recent(a + b, now) == Recent(a, now) + Recent(b, now)
  {
    if a == [] {
      assert a + b == b;
    } else {
      var first := if now - a[0] < WINDOW then [a[0]] else [];
      RecentConcat(a[1..], b, now);
      assert (a + b)[0] == a[0] && (a + b)[1..] == a[1..] + b;
      assert first + (Recent(a[1..], now) + Recent(b, now)) == (first + Recent(a[1..], now)) + Recent(b, now);
    }
  }

  lemma RecentHasNow(times: seq<int>, now: int)
    ensures Recent(times + [now], now) == Recent(times, now) + [now]
  {
    RecentConcat(times, [now], now);
  }

  /** The structure as it is kept, field by field. */
  class SlotCircuit {
    var crashTimes: seq<int>
    var openUntil: Option<int>

    ghost function State(): Circuit
      reads this
    {
      Circuit(crashTimes, openUntil)
    }

    constructor ()
      ensures State() == CLOSED
    {
      crashTimes, openUntil := [], None;
    }

    method Record(now: int, jitter: real) returns (v: Verdict)
      modifies this
      ensures (State(), v) == RecordCrash(old(State()), now, jitter)
    {
      if openUntil.Some? {
        if now >= openUntil.value {
          crashTimes := [];
          for i := 0 to THRESHOLD - 1
            invariant crashTimes == seq(i, _ => now) && openUntil == old(openUntil)
          {
            crashTimes := crashTimes + [now];
          }
          assert crashTimes == [now, now];
          openUntil := None;
          return HalfOpenProbe;
        }
        return CircuitOpen;
      }
      crashTimes := crashTimes + [now];
      Retain(now);
      RecentHasNow(old(crashTimes), now);
      if |crashTimes| >= THRESHOLD {
        openUntil := Some(now + COOLDOWN);
        return CircuitOpen;
      }
      return Respawn(Backoff(|crashTimes|, jitter));
    }

    /** Keeps the crashes inside the window, in order. */
    method Retain(now: int)
      modifies this`crashTimes
      ensures crashTimes == Recent(old(crashTimes), now)
    {
      var kept: seq<int> := [];
      for i := 0 to |crashTimes|
        invariant crashTimes == old(crashTimes)
        invariant kept == Recent(crashTimes[..i], now)
      {
        assert crashTimes[..i + 1] == crashTimes[..i] + [crashTimes[i]];
        RecentConcat(crashTimes[..i], [crashTimes[i]], now);
        if now - crashTimes[i] < WINDOW {
          kept := kept + [crashTimes[i]];
        }
      }
      assert crashTimes[..|crashTimes|] == crashTimes;
      crashTimes := kept;
    }

    method SpawnFailed(now: int)
      modifies this`openUntil
      ensures State() == MarkSpawnFailed(old(State()), now)
    {
      openUntil := Some(now + COOLDOWN);
    }

    method Refill(now: int) returns (allowed: bool)
      modifies this
      ensures (State(), allowed) == CanRefill(old(State()), now)
    {
      if openUntil.Some? {
        if now >= openUntil.value {
          crashTimes, openUntil := [now, now], None;
          return true;
        }
        return false;
      }
      return true;
    }
  }

  // ------------------------------------------------------------ all call orders

  datatype Call = Crash(now: int, jitter: real) | SpawnFailed(now: int) | Refill(now: int)

  /** The circuit, the times at which it granted a respawn or a probe, and the clock. */
  datatype Trace = Trace(circuit: Circuit, grants: seq<int>, clock: int)

  function Answer(t: Trace, call: Call): Trace {
    match call
    case Crash(now, jitter) =>
      var (c, v) := RecordCrash(t.circuit, now, jitter);
      Trace(c, if v.CircuitOpen? then t.grants else t.grants + [now], now)
    case SpawnFailed(now) => Trace(MarkSpawnFailed(t.circuit, now), t.grants, now)
    case Refill(now) =>
      var (c, allowed) := CanRefill(t.circuit, now);
      Trace(c, if allowed && t.circuit.openUntil.Some? then t.grants + [now] else t.grants, now)
  }

  function AnswerAll(start: int, calls: seq<Call>): Trace {
    if calls == [] then Trace(CLOSED, [], start)
    else Answer(AnswerAll(start, calls[..|calls| - 1]), calls[|calls| - 1])
  }

  ghost predicate Monotone(start: int, calls: seq<Call>) {
    && (forall i | 0 <= i < |calls| :: start <= calls[i].now)
    && (forall i, k | 0 <= i < k < |calls| :: calls[i].now <= calls[k].now)
  }

  predicate Ordered(times: seq<int>) {
    forall i, k | 0 <= i < k < |times| :: times[i] <= times[k]
  }

  /** Any three grants span at least the window. */
  predicate Sparse(g: seq<int>) {
    forall i | 0 <= i < |g| - 2 :: g[i + 2] >= g[i] + WINDOW
  }

  /** The latest two grants that could still count are matched by remembered crashes. */
  ghost predicate Backed(ct: seq<int>, g: seq<int>, clock: int) {
    && (|g| >= 1 && g[|g| - 1] > clock - WINDOW ==> |ct| >= 1 && ct[|ct| - 1] >= g[|g| - 1])
    && (|g| >= 2 && g[|g| - 2] > clock - WINDOW ==> |ct| >= 2 && ct[|ct| - 2] >= g[|g| - 2])
  }

  ghost predicate Sound(t: Trace) {
    && Past(t.circuit.crashTimes, t.clock) && Past(t.grants, t.clock) && Sparse(t.grants)
    && (t.circuit.openUntil.Some? ==>
          && t.circuit.openUntil.value <= t.clock + COOLDOWN
          && forall i | 0 <= i < |t.grants| :: t.grants[i] <= t.circuit.openUntil.value - COOLDOWN)
    && (t.circuit.openUntil.None? ==> Backed(t.circuit.crashTimes, t.grants, t.clock))
  }

  lemma {:induction false} AllRecent(ct: seq<int>, now: int)
    requires forall i | 0 <= i < |ct| :: now - ct[i] < WINDOW
    ensures Recent(ct, now) == ct
  {
    if ct != [] {
      AllRecent(ct[1..], now);
      assert ct == [ct[0]] + ct[1..];
    }
  }

  /** Pruning an ordered list keeps exactly its end. */
  lemma {:induction false} RecentIsEnd(ct: seq<int>, now: int) returns (k: nat)
    requires Ordered(ct)
    ensures k <= |ct| && Recent(ct, now) == ct[k..]
    ensures forall i | 0 <= i < k :: now - ct[i] >= WINDOW
  {
    k := 0;
    if ct != [] {
      if now - ct[0] < WINDOW {
        AllRecent(ct, now);
      } else {
        var m := RecentIsEnd(ct[1..], now);
        k := m + 1;
        assert ct[1..][m..] == ct[k..];
        forall i | 0 <= i < k ensures now - ct[i] >= WINDOW {
          if i > 0 { assert ct[i] == ct[1..][i - 1]; }
        }
      }
    }
  }

  lemma SparseNext(g: seq<int>, now: int)
    requires Sparse(g) && (|g| >= 2 ==> g[|g| - 2] + WINDOW <= now)
    ensures Sparse(g + [now])
  {
    forall i | 0 <= i < |g| - 1 ensures (g + [now])[i + 2] >= (g + [now])[i] + WINDOW {
      if i + 2 < |g| { assert g[i + 2] >= g[i] + WINDOW; }
    }
  }

  /** With at most one remembered crash left, the last grant but one left the window. */
  lemma BackedNext(ct: seq<int>, g: seq<int>, clock: int, now: int, k: nat)
    requires Backed(ct, g, clock) && clock <= now && Ordered(g) && k <= |ct|
    requires forall i | 0 <= i < k :: now - ct[i] >= WINDOW
    requires |ct| - k <= 1
    ensures |g| >= 2 ==> g[|g| - 2] + WINDOW <= now
    ensures Backed(ct[k..] + [now], g + [now], now)
  {
    if |g| >= 1 && g[|g| - 1] > now - WINDOW {
      assert k <= |ct| - 1;
    }
  }

  ghost predicate Past(times: seq<int>, clock: int) {
    Ordered(times) && forall i | 0 <= i < |times| :: times[i] <= clock
  }

  lemma PastNext(times: seq<int>, clock: int, now: int, k: nat)
    requires Past(times, clock) && clock <= now && k <= |times|
    ensures Past(times[k..] + [now], now)
  {
  }

  /** A crash while closed: either it trips, or the grant it gives is far from the last but one. */
  lemma CrashClosed(t: Trace, now: int, jitter: real)
    requires Sound(t) && now >= t.clock && t.circuit.openUntil.None?
    ensures Sound(Answer(t, Crash(now, jitter)))
  {
    var ct, g := t.circuit.crashTimes, t.grants;
    RecentHasNow(ct, now);
    var k := RecentIsEnd(ct, now);
    PastNext(ct, t.clock, now, k);
    if |ct| - k <= 1 {
      BackedNext(ct, g, t.clock, now, k);
      SparseNext(g, now);
      PastNext(g, t.clock, now, 0);
      assert g[0..] == g;
    }
  }

  /** A probe comes at least a cooldown after every earlier grant. */
  lemma ProbeIsFar(t: Trace, now: int)
    requires Sound(t) && now >= t.clock && t.circuit.openUntil.Some? && now >= t.circuit.openUntil.value
    ensures Sound(Trace(HalfOpen(now), t.grants + [now], now))
  {
    var g := t.grants + [now];
    forall i | 0 <= i < |g| - 2 ensures g[i + 2] >= g[i] + WINDOW {
      if i + 2 < |t.grants| { assert t.grants[i + 2] >= t.grants[i] + WINDOW; }
    }
  }

  lemma AnswerKeepsSound(t: Trace, call: Call)
    requires Sound(t) && call.now >= t.clock
    ensures Sound(Answer(t, call))
  {
    if call.SpawnFailed? {
      FailureOpens(t, call.now);
    } else if t.circuit.openUntil.None? {
      if call.Crash? { CrashClosed(t, call.now, call.jitter); } else { LaterSound(t, call.now); }
    } else if call.now >= t.circuit.openUntil.value {
      ProbeIsFar(t, call.now);
    } else {
      LaterSound(t, call.now);
    }
  }

  lemma FailureOpens(t: Trace, now: int)
    requires Sound(t) && now >= t.clock
    ensures Sound(Answer(t, SpawnFailed(now)))
  {
  }

  /**
   Over any order of calls with a monotone clock, any span shorter than 60 s
   holds at most two grants.
   */
  lemma {:induction false} GrantsAreSparse(start: int, calls: seq<Call>)
    requires Monotone(start, calls)
    ensures Sound(AnswerAll(start, calls)) && Sparse(AnswerAll(start, calls).grants)
    ensures calls != [] ==> AnswerAll(start, calls).clock == calls[|calls| - 1].now
    ensures AnswerAll(start, calls).clock >= start
  {
    if calls != [] {
      GrantsAreSparse(start, calls[..|calls| - 1]);
      AnswerKeepsSound(AnswerAll(start, calls[..|calls| - 1]), calls[|calls| - 1]);
    }
  }

  /** Whatever is called next, an open circuit grants nothing before its time and only opens longer. */
  lemma {:induction false} OpenStaysShut(t: Trace, calls: seq<Call>)
    requires Sound(t) && t.circuit.openUntil.Some?
    requires Monotone(t.clock, calls)
    requires forall i | 0 <= i < |calls| :: calls[i].now < t.circuit.openUntil.value
    ensures var e := Continue(t, calls);
            && e.grants == t.grants && Sound(e) && e.clock <= Later(t.clock, calls)
            && e.circuit.openUntil.Some? && e.circuit.openUntil.value >= t.circuit.openUntil.value
  {
    if calls != [] {
      OpenStaysShut(t, calls[..|calls| - 1]);
      AnswerKeepsSound(Continue(t, calls[..|calls| - 1]), calls[|calls| - 1]);
    }
  }

  function Later(clock: int, calls: seq<Call>): int {
    if calls == [] then clock else calls[|calls| - 1].now
  }

  function Continue(t: Trace, calls: seq<Call>): Trace {
    if calls == [] then t
    else Answer(Continue(t, calls[..|calls| - 1]), calls[|calls| - 1])
  }

  /** Once the threshold trips at `now`, nothing is granted for the next 300 s. */
  lemma TrippedIsSilent(start: int, before: seq<Call>, now: int, jitter: real, calls: seq<Call>)
    requires Monotone(start, before + [Crash(now, jitter)])
    requires AnswerAll(start, before).circuit.openUntil.None?
    requires RecordCrash(AnswerAll(start, before).circuit, now, jitter).1.CircuitOpen?
    requires Monotone(now, calls) && forall i | 0 <= i < |calls| :: calls[i].now < now + COOLDOWN
    ensures var t := Answer(AnswerAll(start, before), Crash(now, jitter));
            Continue(t, calls).grants == t.grants == AnswerAll(start, before).grants
  {
    var all := before + [Crash(now, jitter)];
    assert all[..|all| - 1] == before && all[|all| - 1].now == now;
    GrantsAreSparse(start, all);
    OpenStaysShut(AnswerAll(start, all), calls);
  }

  /** The 30 s cap on backoff is never reached: a slot is granted at most two delays, below 2.4 s. */
  lemma BackoffIsShort(c: Circuit, now: int, jitter: real)
    requires 0.0 <= jitter < 1.0
    ensures RecordCrash(c, now, jitter).1.Respawn? ==>
              0.8 <= RecordCrash(c, now, jitter).1.delay < 2.4
  {
    if c.openUntil.None? { RecentHasNow(c.crashTimes, now); }
  }

  // ------------------------------------------------------------ life of a slot

  /**
   The slot around its circuit: an agent is alive, being respawned, or neither.
   `spawns` lists every moment a respawn task was started, for any reason, and
   `readyAt` is when the latest of them has slept through its backoff.
   */
  datatype Slot = Slot(trace: Trace, alive: bool, inFlight: bool, spawns: seq<int>, readyAt: real)

  datatype Moment = Died(now: int, jitter: real) | Tick(now: int) | Finished(now: int, ok: bool)

  /** A granted respawn sleeps first; a probe does not. */
  function ReadyAt(v: Verdict, now: int): real {
    now as real + if v.Respawn? then v.delay * 1_000_000_000.0 else 0.0
  }

  /** A task can fail at any time, but it brings an agent up only after its sleep. */
  function Live(s: Slot, m: Moment): Slot {
    match m
    case Died(now, jitter) =>
      if !s.alive then s.(trace := s.trace.(clock := now))
      else
        var t := Answer(s.trace, Crash(now, jitter));
        var respawn := |t.grants| > |s.trace.grants|;
        var ready := ReadyAt(RecordCrash(s.trace.circuit, now, jitter).1, now);
        if respawn then Slot(t, false, true, s.spawns + [now], ready)
        else Slot(t, false, false, s.spawns, s.readyAt)
    case Tick(now) =>
      if s.alive || s.inFlight then s.(trace := s.trace.(clock := now))
      else
        var allowed := CanRefill(s.trace.circuit, now).1;
        var t := Answer(s.trace, Refill(now));
        if allowed then Slot(t, false, true, s.spawns + [now], now as real)
        else Slot(t, false, false, s.spawns, s.readyAt)
    case Finished(now, ok) =>
      if !s.inFlight || (ok && now as real < s.readyAt) then s.(trace := s.trace.(clock := now))
      else if ok then s.(trace := s.trace.(clock := now), alive := true, inFlight := false)
      else s.(trace := Answer(s.trace, SpawnFailed(now)), inFlight := false)
  }

  function LiveAll(start: int, alive: bool, ms: seq<Moment>): Slot {
    if ms == [] then Slot(Trace(CLOSED, [], start), alive, false, [], start as real)
    else Live(LiveAll(start, alive, ms[..|ms| - 1]), ms[|ms| - 1])
  }

  ghost predicate InOrder(start: int, ms: seq<Moment>) {
    && (forall i | 0 <= i < |ms| :: start <= ms[i].now)
    && (forall i, k | 0 <= i < k < |ms| :: ms[i].now <= ms[k].now)
  }

  /** Only the very first spawn can be one the circuit did not count: the start-up refill. */
  ghost predicate Counted(spawns: seq<int>, grants: seq<int>) {
    spawns == grants || (spawns != [] && spawns[1..] == grants)
  }

  ghost predicate Orderly(s: Slot) {
    && Counted(s.spawns, s.trace.grants)
    && !(s.alive && s.inFlight)
    && (!s.alive && !s.inFlight && s.trace.circuit.openUntil.None? ==> s.spawns == [])
  }

  lemma CountedNext(spawns: seq<int>, grants: seq<int>, now: int)
    requires Counted(spawns, grants)
    ensures Counted(spawns + [now], grants + [now])
  {
    if spawns != [] { assert (spawns + [now])[1..] == spawns[1..] + [now]; }
  }

  lemma LaterSound(t: Trace, now: int)
    requires Sound(t) && now >= t.clock
    ensures Sound(t.(clock := now))
  {
  }

  lemma LiveKeepsSound(s: Slot, m: Moment)
    requires Sound(s.trace) && m.now >= s.trace.clock
    ensures Sound(Live(s, m).trace)
  {
    LaterSound(s.trace, m.now);
    match m
    case Died(now, jitter) => AnswerKeepsSound(s.trace, Crash(now, jitter));
    case Tick(now) => AnswerKeepsSound(s.trace, Refill(now));
    case Finished(now, ok) => AnswerKeepsSound(s.trace, SpawnFailed(now));
  }

  lemma LiveKeepsOrderly(s: Slot, m: Moment)
    requires Orderly(s)
    ensures Orderly(Live(s, m))
  {
    CountedNext(s.spawns, s.trace.grants, m.now);
  }

  lemma LiveMovesClock(s: Slot, m: Moment)
    ensures Live(s, m).trace.clock == m.now
  {
  }

  lemma {:induction false} LivesAreOrderly(start: int, alive: bool, ms: seq<Moment>)
    requires InOrder(start, ms)
    ensures Orderly(LiveAll(start, alive, ms)) && Sound(LiveAll(start, alive, ms).trace)
    ensures LiveAll(start, alive, ms).trace.clock == if ms == [] then start else ms[|ms| - 1].now
  {
    if ms != [] {
      var front, last := ms[..|ms| - 1], ms[|ms| - 1];
      var s := LiveAll(start, alive, front);
      LivesAreOrderly(start, alive, front);
      assert s.trace.clock <= last.now;
      LiveKeepsSound(s, last);
      LiveKeepsOrderly(s, last);
      LiveMovesClock(s, last);
    }
  }

  /**
   Over the whole life of a slot, with refills counted, no span shorter than
   60 s starts more than two respawn tasks, except that the start-up refill of
   a slot that never came up may add one to the first span.
   */
  lemma SpawnsAreSparse(start: int, alive: bool, ms: seq<Moment>, i: nat)
    requires InOrder(start, ms)
    ensures var spawns := LiveAll(start, alive, ms).spawns;
            && (0 < i < |spawns| - 2 ==> spawns[i + 2] >= spawns[i] + WINDOW)
            && (alive && i < |spawns| - 2 ==> spawns[i + 2] >= spawns[i] + WINDOW)
  {
    LivesAreOrderly(start, alive, ms);
    var s := LiveAll(start, alive, ms);
    if s.spawns == s.trace.grants {
      assert i < |s.spawns| - 2 ==> s.trace.grants[i + 2] >= s.trace.grants[i] + WINDOW;
    } else {
      if 0 < i < |s.spawns| - 2 {
        assert s.trace.grants[i + 1] >= s.trace.grants[i - 1] + WINDOW;
      }
      if alive { StartedAlive(start, ms); }
    }
  }

  /** A slot that came up at start-up is never refilled past its circuit. */
  lemma {:induction false} StartedAlive(start: int, ms: seq<Moment>)
    requires InOrder(start, ms)
    ensures LiveAll(start, true, ms).spawns == LiveAll(start, true, ms).trace.grants
    ensures var s := LiveAll(start, true, ms);
            !s.alive && !s.inFlight ==> s.trace.circuit.openUntil.Some?
  {
    if ms != [] {
      StartedAlive(start, ms[..|ms| - 1]);
    }
  }

  /** An agent is up only once its task has slept, which starts when the task does. */
  ghost predicate Waited(s: Slot) {
    && (s.alive ==> s.readyAt <= s.trace.clock as real)
    && (s.spawns != [] ==> s.spawns[|s.spawns| - 1] as real <= s.readyAt)
  }

  lemma LiveKeepsWaited(s: Slot, m: Moment)
    requires Waited(s) && s.trace.clock <= m.now && (m.Died? ==> 0.0 <= m.jitter < 1.0)
    ensures Waited(Live(s, m))
  {
    if m.Died? { BackoffIsShort(s.trace.circuit, m.now, m.jitter); }
  }

  /** Over the whole life of a slot no agent is up before the backoff of its task is over. */
  lemma {:induction false} BackoffIsKept(start: int, alive: bool, ms: seq<Moment>)
    requires InOrder(start, ms)
    requires forall i | 0 <= i < |ms| && ms[i].Died? :: 0.0 <= ms[i].jitter < 1.0
    ensures Waited(LiveAll(start, alive, ms))
    ensures LiveAll(start, alive, ms).trace.clock == if ms == [] then start else ms[|ms| - 1].now
  {
    if ms != [] {
      var front, last := ms[..|ms| - 1], ms[|ms| - 1];
      BackoffIsKept(start, alive, front);
      LiveMovesClock(LiveAll(start, alive, front), last);
      LiveKeepsWaited(LiveAll(start, alive, front), last);
    }
  }

  // --------------------------------------------------- the start-up refill

  const SECOND := 1_000_000_000

  /** A slot that never came up is refilled beside its circuit, then dies twice, each time with the least backoff. */
  function StartUp(): seq<Moment> {
    [Tick(0), Finished(SECOND, true), Died(2 * SECOND, 0.0), Finished(4 * SECOND, true), Died(5 * SECOND, 0.0)]
  }

  lemma LiveFive(start: int, alive: bool, a: Moment, b: Moment, c: Moment, d: Moment, e: Moment)
    ensures LiveAll(start, alive, [a, b, c, d, e]) ==
            Live(Live(Live(Live(Live(LiveAll(start, alive, []), a), b), c), d), e)
  {
    assert [a][..0] == [] && [a, b][..1] == [a] && [a, b, c][..2] == [a, b];
    assert [a, b, c, d][..3] == [a, b, c] && [a, b, c, d, e][..4] == [a, b, c, d];
    assert LiveAll(start, alive, [a]) == Live(LiveAll(start, alive, []), a);
    assert LiveAll(start, alive, [a, b]) == Live(LiveAll(start, alive, [a]), b);
    assert LiveAll(start, alive, [a, b, c]) == Live(LiveAll(start, alive, [a, b]), c);
    assert LiveAll(start, alive, [a, b, c, d]) == Live(LiveAll(start, alive, [a, b, c]), d);
  }

  lemma FirstDeath()
    ensures Live(Slot(Trace(CLOSED, [], SECOND), true, false, [0], 0.0), Died(2 * SECOND, 0.0)) ==
            Slot(Trace(Circuit([2 * SECOND], None), [2 * SECOND], 2 * SECOND), false, true, [0, 2 * SECOND], 2_800_000_000.0)
  {
    RecentHasNow([], 2 * SECOND);
    assert [] + [2 * SECOND] == [2 * SECOND];
  }

  lemma SecondDeath(readyAt: real)
    ensures Live(Slot(Trace(Circuit([2 * SECOND], None), [2 * SECOND], 4 * SECOND), true, false, [0, 2 * SECOND], readyAt),
                 Died(5 * SECOND, 0.0)).spawns == [0, 2 * SECOND, 5 * SECOND]
  {
    AllRecent([2 * SECOND], 5 * SECOND);
    RecentHasNow([2 * SECOND], 5 * SECOND);
  }

  /** Three spawns within 5 s: one refill that no crash was counted for, and two respawns with their backoff kept. */
  lemma StartUpException()
    ensures InOrder(0, StartUp()) && LiveAll(0, false, StartUp()).spawns == [0, 2 * SECOND, 5 * SECOND]
  {
    var ms := StartUp();
    LiveFive(0, false, ms[0], ms[1], ms[2], ms[3], ms[4]);
    assert ms == [ms[0], ms[1], ms[2], ms[3], ms[4]];
    var s := Live(Live(LiveAll(0, false, []), ms[0]), ms[1]);
    assert s == Slot(Trace(CLOSED, [], SECOND), true, false, [0], 0.0);
    FirstDeath();
    SecondDeath(2_800_000_000.0);
  }

  /** All spawns of all lives of a slot are sparse exactly if it came up at start-up. */
  lemma SparseIffStartedAlive(alive: bool)
    ensures (forall start, ms | InOrder(start, ms) :: Sparse(LiveAll(start, alive, ms).spawns)) <==> alive
  {
    if alive {
      forall start, ms | InOrder(start, ms) ensures Sparse(LiveAll(start, alive, ms).spawns) {
        forall i | 0 <= i < |LiveAll(start, alive, ms).spawns| - 2
          ensures LiveAll(start, alive, ms).spawns[i + 2] >= LiveAll(start, alive, ms).spawns[i] + WINDOW
        {
          SpawnsAreSparse(start, alive, ms, i);
        }
      }
    } else {
      StartUpException();
      var spawns := LiveAll(0, false, StartUp()).spawns;
      assert spawns[0 + 2] < spawns[0] + WINDOW;
    }
  }
}
