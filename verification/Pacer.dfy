/** The observer publish pacer: a minimum spacing and a rolling one-minute cap. */
module Pacer {

  /** Times are nanoseconds of a clock that never goes back. */
  const INTERVAL := 167_000_000
  const WINDOW := 60_000_000_000
  const PER_MINUTE := 90

  function Max(a: int, b: int): int {
    if a >= b then a else b
  }

  /** The rate limit, over a whole publishing history. */
  ghost predicate RateLimited(h: seq<int>) {
    && (forall i | 0 <= i < |h| - 1 :: h[i + 1] >= h[i] + INTERVAL)
    && (forall i | 0 <= i < |h| - PER_MINUTE :: h[i + PER_MINUTE] >= h[i] + WINDOW)
  }

  /** The first moment from `now` on at which the full history allows another publish. */
  ghost function Earliest(created: int, h: seq<int>, now: int): int {
    var spaced := Max(now, (if h == [] then created else h[|h| - 1]) + INTERVAL);
    if |h| < PER_MINUTE then spaced else Max(spaced, h[|h| - PER_MINUTE] + WINDOW)
  }

  /** The queue is the recent end of the history; what was dropped left the window. */
  ghost predicate Window(h: seq<int>, queue: seq<int>, clock: int) {
    && |queue| <= |h| && queue == h[|h| - |queue|..]
    && forall i | 0 <= i < |h| - |queue| :: h[i] + WINDOW <= clock
  }

  ghost predicate Timed(created: int, h: seq<int>, clock: int) {
    forall i | 0 <= i < |h| :: created + INTERVAL <= h[i] <= clock
  }

  lemma DropOldest(h: seq<int>, queue: seq<int>, clock: int)
    requires Window(h, queue, clock) && queue != [] && queue[0] + WINDOW <= clock
    ensures Window(h, queue[1..], clock)
  {
    assert queue[0] == h[|h| - |queue|];
  }

  lemma LaterWindow(h: seq<int>, queue: seq<int>, clock: int, now: int)
    requires Window(h, queue, clock) && clock <= now
    ensures Window(h, queue, now)
  {
  }

  lemma LaterTimed(created: int, h: seq<int>, clock: int, now: int)
    requires Timed(created, h, clock) && clock <= now
    ensures Timed(created, h, now)
  {
  }

  /** What is left of a queue when the timestamps that left the window are popped off its front. */
  method DropStale(queue: seq<int>, now: int, ghost h: seq<int>) returns (kept: seq<int>)
    requires Window(h, queue, now)
    ensures Window(h, kept, now) && |kept| <= |queue|
    ensures kept != [] ==> kept[0] + WINDOW > now
  {
    kept := queue;
    while kept != [] && now - kept[0] >= WINDOW
      invariant Window(h, kept, now) && |kept| <= |queue|
      decreases |kept|
    {
      DropOldest(h, kept, now);
      kept := kept[1..];
    }
  }

  /** Publishing at or after the earliest slot keeps the limit, and the queue within its cap. */
  lemma PublishKeeps(created: int, h: seq<int>, queue: seq<int>, clock: int, at: int)
    requires RateLimited(h) && Timed(created, h, clock) && Window(h, queue, clock)
    requires at >= Earliest(created, h, clock)
    ensures RateLimited(h + [at]) && Timed(created, h + [at], at) && Window(h + [at], queue + [at], at)
  {
    var n := h + [at];
    forall i | 0 <= i < |n| - 1 ensures n[i + 1] >= n[i] + INTERVAL {
      if i == |h| - 1 { assert n[i + 1] == at; }
    }
    forall i | 0 <= i < |n| - PER_MINUTE ensures n[i + PER_MINUTE] >= n[i] + WINDOW {
      if i == |h| - PER_MINUTE { assert n[i + PER_MINUTE] == at; }
    }
  }

  /** The pruned queue imposes exactly the constraint that the full history imposes. */
  lemma SlotIsEarliest(created: int, h: seq<int>, queue: seq<int>, now: int, next: int)
    requires Window(h, queue, now) && |queue| <= PER_MINUTE
    requires next == (if h == [] then created else h[|h| - 1]) + INTERVAL
    requires queue != [] ==> queue[0] + WINDOW > now
    ensures Earliest(created, h, now) ==
            Max(now, if |queue| >= PER_MINUTE then Max(queue[0] + WINDOW, next) else next)
  {
    if |queue| >= PER_MINUTE {
      assert queue[0] == h[|h| - PER_MINUTE];
    } else if |h| >= PER_MINUTE {
      assert h[|h| - PER_MINUTE] + WINDOW <= now;
    }
  }

  /** After waiting for the earliest slot there is nothing left to wait for. */
  lemma EarliestIsSettled(created: int, h: seq<int>, start: int, now: int)
    requires now >= Earliest(created, h, start)
    ensures Earliest(created, h, now) == now
  {
  }

  class ObserverPublishPacer {
    var nextPublish: int
    var published: seq<int>

    ghost var created: int
    ghost var history: seq<int>
    ghost var clock: int

    ghost predicate Valid()
      reads this
    {
      && RateLimited(history)
      && Timed(created, history, clock)
      && Window(history, published, clock)
      && |published| <= PER_MINUTE
      && nextPublish == (if history == [] then created else history[|history| - 1]) + INTERVAL
    }

    constructor (now: int)
      ensures Valid() && history == [] && created == now == clock
    {
      nextPublish, published := now + INTERVAL, [];
      created, history, clock := now, [], now;
    }

    /** Drops timestamps that left the window. */
    method Prune(now: int)
      requires Valid() && now >= clock
      modifies this`published, this`clock
      ensures Valid() && clock == now
      ensures published != [] ==> published[0] + WINDOW > now
    {
      LaterWindow(history, published, clock, now);
      LaterTimed(created, history, clock, now);
      published := DropStale(published, now, history);
      clock := now;
    }

    /** Takes the slot at `at`. */
    method Publish(at: int)
      requires Valid() && |published| < PER_MINUTE && at >= Earliest(created, history, clock)
      modifies this
      ensures Valid() && created == old(created) && history == old(history) + [at] && clock == at
    {
      PublishKeeps(created, history, published, clock, at);
      published := published + [at];
      nextPublish := at + INTERVAL;
      history, clock := history + [at], at;
    }

    /** The time from which the pacer may publish, as seen at `now`. */
    method NextSlot(now: int) returns (publishAt: int)
      requires Valid() && now >= clock
      modifies this`published, this`clock
      ensures Valid() && clock == now
      ensures Earliest(created, history, now) == Max(now, publishAt)
      ensures publishAt <= now ==> |published| < PER_MINUTE
    {
      Prune(now);
      publishAt := nextPublish;
      if |published| >= PER_MINUTE {
        publishAt := Max(published[0] + WINDOW, nextPublish);
      }
      SlotIsEarliest(created, history, published, now, nextPublish);
    }

    /**
     Waits for a slot and takes it. The wake-up may come `late` and the publish
     may lag behind the last check, but a sleep never ends early. One sleep
     always suffices, and the slot taken is the earliest one plus that delay.
     */
    method Wait(start: int, late: nat, lag: nat) returns (at: int)
      requires Valid() && start >= clock
      modifies this
      ensures Valid() && created == old(created) && clock == at
      ensures history == old(history) + [at]
      ensures at == Earliest(old(created), old(history), start)
                    + (if Earliest(old(created), old(history), start) > start then late else 0) + lag
    {
      var now := start;
      var slept := false;
      ghost var due := Earliest(created, history, start);
      while true
        invariant Valid() && now >= clock && history == old(history) && created == old(created)
        invariant if slept then now == due + late && due > start else now == start
        decreases !slept
      {
        var publishAt := NextSlot(now);
        if slept { EarliestIsSettled(created, history, start, now); }
        if publishAt > now {
          now, slept := publishAt + late, true;
          continue;
        }
        at := now + lag;
        Publish(at);
        return;
      }
    }
  }

  /** Every run of the pacer keeps the limit: the result is all publishes ever made. */
  method Drive(starts: seq<int>, lates: seq<nat>, lags: seq<nat>, created: int) returns (times: seq<int>)
    requires |starts| == |lates| == |lags|
    ensures |times| == |starts| && RateLimited(times)
    ensures forall i | 0 <= i < |times| :: times[i] >= created + INTERVAL
  {
    var p := new ObserverPublishPacer(created);
    times := [];
    var i, clock := 0, created;
    while i < |starts|
      invariant 0 <= i <= |starts| && |times| == i
      invariant p.Valid() && p.history == times && p.created == created && p.clock == clock
      invariant fresh(p)
    {
      clock := p.Wait(Max(clock, starts[i]), lates[i], lags[i]);
      times := times + [clock];
      i := i + 1;
    }
  }
}
