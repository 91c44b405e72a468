/** Merging streamed text chunks of observer events. */
module Coalescer {
  import opened Prelude
  import opened Json
  import opened Text

  datatype ObserverEvent = ObserverEvent(
    seqNo: nat,
    timestamp: string,
    kind: string,
    agentIndex: Option<nat>,
    channelId: Option<string>,
    sessionId: Option<string>,
    turnId: Option<string>,
    startedAt: Option<string>,
    payload: Json
  )

  datatype ChunkKey = ChunkKey(
    updateType: string,
    messageId: Option<string>,
    channelId: Option<string>,
    sessionId: Option<string>,
    turnId: Option<string>,
    agentIndex: Option<nat>
  )

  datatype Pending = Pending(key: ChunkKey, event: ObserverEvent, text: string)

  const MAX_TEXT_BYTES := 60_000

  // ------------------------------------------------------------ chunk events

  function GetAt(v: Option<Json>, name: string): Option<Json> {
    if v.Some? then Get(v.value, name) else None
  }

  function AsStr(v: Option<Json>): Option<string> {
    if v.Some? && v.value.Str? then Some(v.value.s) else None
  }

  /** The key and text of a message or thought chunk. */
  function KeyAndText(e: ObserverEvent): Option<(ChunkKey, string)> {
    var update := GetAt(Get(e.payload, "params"), "update");
    var updateType := AsStr(GetAt(update, "sessionUpdate"));
    var text := AsStr(GetAt(GetAt(update, "content"), "text"));
    if updateType.None? || text.None? then None
    else if updateType.value !in ["agent_message_chunk", "user_message_chunk", "agent_thought_chunk"] then None
    else Some((ChunkKey(updateType.value, AsStr(GetAt(update, "messageId")), e.channelId, e.sessionId, e.turnId, e.agentIndex),
               text.value))
  }

  predicate IsChunk(e: ObserverEvent) {
    KeyAndText(e).Some?
  }

  /** Sets a member of an object: in place when present, else at its sorted position. */
  function Put(ms: seq<Member>, name: string, v: Json): seq<Member> {
    if ms == [] then [Member(name, v)]
    else if ms[0].name == name then [Member(name, v)] + ms[1..]
    else if Less(name, ms[0].name) && Find(ms, name).None? then [Member(name, v)] + ms
    else [ms[0]] + Put(ms[1..], name, v)
  }

  function PutIn(v: Json, name: string, w: Json): Json {
    if v.Obj? then Obj(Put(v.members, name, w)) else v
  }

  /** Writes the text of a chunk payload; leaves other shapes alone. */
  function SetText(payload: Json, text: string): Json {
    var params := Get(payload, "params");
    var update := GetAt(params, "update");
    var content := GetAt(update, "content");
    if content.None? then payload
    else
      PutIn(payload, "params", PutIn(params.value, "update",
        PutIn(update.value, "content", PutIn(content.value, "text", Str(text)))))
  }

  lemma {:induction false} FindPut(ms: seq<Member>, name: string, v: Json, other: string)
    ensures Find(Put(ms, name, v), other) == if other == name then Some(v) else Find(ms, other)
  {
    if ms != [] && ms[0].name != name && !(Less(name, ms[0].name) && Find(ms, name).None?) {
      FindPut(ms[1..], name, v, other);
    }
  }

  /** Rewriting the text of a chunk keeps its key. */
  lemma SetTextKeepsKey(e: ObserverEvent, text: string)
    requires IsChunk(e)
    ensures KeyAndText(e.(payload := SetText(e.payload, text))) == Some((KeyAndText(e).value.0, text))
  {
    var params := Get(e.payload, "params").value;
    var update := Get(params, "update").value;
    var content := Get(update, "content").value;
    var content' := PutIn(content, "text", Str(text));
    var update' := PutIn(update, "content", content');
    var params' := PutIn(params, "update", update');
    FindPut(content.members, "text", Str(text), "text");
    FindPut(update.members, "content", content', "content");
    FindPut(update.members, "content", content', "sessionUpdate");
    FindPut(update.members, "content", content', "messageId");
    FindPut(params.members, "update", update', "update");
    FindPut(e.payload.members, "params", params', "params");
  }

  // -------------------------------------------------------------- operations

  function Finish(p: Pending): ObserverEvent {
    p.event.(payload := SetText(p.event.payload, p.text))
  }

  /** Everything pending, finished, oldest first. */
  function Flush(ps: seq<Pending>): (es: seq<ObserverEvent>)
    ensures |es| == |ps|
  {
    seq(|ps|, i requires 0 <= i < |ps| => Finish(ps[i]))
  }

  /** Where a key is pending: its index, or the length when it is not. */
  function IndexOf(ps: seq<Pending>, key: ChunkKey): (i: nat)
    ensures i <= |ps|
    ensures i < |ps| ==> ps[i].key == key
    ensures forall k | 0 <= k < i :: ps[k].key != key
  {
    if ps == [] || ps[0].key == key then 0 else 1 + IndexOf(ps[1..], key)
  }

  function Merge(p: Pending, e: ObserverEvent, text: string): Pending {
    Pending(p.key, p.event.(seqNo := e.seqNo, timestamp := e.timestamp), p.text + text)
  }

  function Ingest(ps: seq<Pending>, e: ObserverEvent): (seq<Pending>, seq<ObserverEvent>) {
    var chunk := KeyAndText(e);
    if chunk.None? then ([], Flush(ps) + [e])
    else
      var (key, text) := chunk.value;
      var i := IndexOf(ps, key);
      if i == |ps| then (ps + [Pending(key, e, text)], [])
      else if ByteLen(ps[i].text) + ByteLen(text) >= MAX_TEXT_BYTES then ([Pending(key, e, text)], Flush(ps))
      else (ps[i := Merge(ps[i], e, text)], [])
  }

  class ObserverChunkCoalescer {
    var pending: seq<Pending>

    constructor ()
      ensures pending == []
    {
      pending := [];
    }

    method FlushAll() returns (events: seq<ObserverEvent>)
      modifies this
      ensures pending == [] && events == Flush(old(pending))
    {
      events := [];
      while pending != []
        invariant |pending| <= |old(pending)|
        invariant pending == old(pending)[|old(pending)| - |pending|..]
        invariant events == Flush(old(pending)[..|old(pending)| - |pending|])
        decreases |pending|
      {
        ghost var n := |old(pending)| - |pending|;
        assert old(pending)[..n + 1] == old(pending)[..n] + [pending[0]];
        events := events + [Finish(pending[0])];
        pending := pending[1..];
      }
      assert old(pending)[..|old(pending)|] == old(pending);
    }

    method IngestEvent(event: ObserverEvent) returns (events: seq<ObserverEvent>)
      modifies this
      ensures (pending, events) == Ingest(old(pending), event)
    {
      var chunk := KeyAndText(event);
      if chunk.None? {
        events := FlushAll();
        events := events + [event];
        return;
      }
      var (key, text) := chunk.value;
      var i := 0;
      while i < |pending| && pending[i].key != key
        invariant 0 <= i <= |pending| && pending == old(pending)
        invariant forall k | 0 <= k < i :: pending[k].key != key
      {
        i := i + 1;
      }
      if i < |pending| {
        if ByteLen(pending[i].text) + ByteLen(text) >= MAX_TEXT_BYTES {
          events := FlushAll();
          pending := [Pending(key, event, text)];
          return;
        }
        pending := pending[i := Merge(pending[i], event, text)];
        return [];
      }
      pending := pending + [Pending(key, event, text)];
      return [];
    }
  }

  // -------------------------------------------------------------- whole runs

  datatype Op = Event(e: ObserverEvent) | Tick

  datatype Trace = Trace(pending: seq<Pending>, out: seq<ObserverEvent>)

  function Step(t: Trace, op: Op): Trace {
    match op
    case Event(e) => var (ps, es) := Ingest(t.pending, e); Trace(ps, t.out + es)
    case Tick => Trace([], t.out + Flush(t.pending))
  }

  function Steps(ops: seq<Op>): Trace {
    if ops == [] then Trace([], []) else Step(Steps(ops[..|ops| - 1]), ops[|ops| - 1])
  }

  function TextOf(key: ChunkKey, e: ObserverEvent): string {
    var chunk := KeyAndText(e);
    if chunk.Some? && chunk.value.0 == key then chunk.value.1 else ""
  }

  /** All the text a list of events carries for a key. */
  function Texts(key: ChunkKey, es: seq<ObserverEvent>): string {
    if es == [] then "" else Texts(key, es[..|es| - 1]) + TextOf(key, es[|es| - 1])
  }

  /** The events that are not chunks. */
  function Plain(es: seq<ObserverEvent>): seq<ObserverEvent> {
    if es == [] then []
    else Plain(es[..|es| - 1]) + if IsChunk(es[|es| - 1]) then [] else [es[|es| - 1]]
  }

  function Inputs(ops: seq<Op>): seq<ObserverEvent> {
    if ops == [] then []
    else Inputs(ops[..|ops| - 1]) + if ops[|ops| - 1].Event? then [ops[|ops| - 1].e] else []
  }

  /** An entry is a chunk of its key, and merged text stays below the soft limit. */
  ghost predicate EntryOk(p: Pending) {
    && IsChunk(p.event) && KeyAndText(p.event).value.0 == p.key
    && (ByteLen(p.text) < MAX_TEXT_BYTES || p.text == KeyAndText(p.event).value.1)
  }

  ghost predicate PendingOk(ps: seq<Pending>) {
    && (forall i, k | 0 <= i < k < |ps| :: ps[i].key != ps[k].key)
    && (forall i | 0 <= i < |ps| :: EntryOk(ps[i]))
  }

  lemma Assoc<T>(a: seq<T>, b: seq<T>, c: seq<T>)
    ensures (a + b) + c == a + (b + c)
  {
  }

  lemma Unit(a: string)
    ensures a + "" == a && "" + a == a
  {
  }

  lemma TextsSnoc(key: ChunkKey, es: seq<ObserverEvent>, e: ObserverEvent)
    ensures Texts(key, es + [e]) == Texts(key, es) + TextOf(key, e)
  {
    assert (es + [e])[..|es|] == es;
  }

  lemma PlainSnoc(es: seq<ObserverEvent>, e: ObserverEvent)
    ensures Plain(es + [e]) == Plain(es) + if IsChunk(e) then [] else [e]
  {
    assert (es + [e])[..|es|] == es;
  }

  lemma {:induction false} TextsConcat(key: ChunkKey, a: seq<ObserverEvent>, b: seq<ObserverEvent>)
    ensures Texts(key, a + b) == Texts(key, a) + Texts(key, b)
  {
    if b == [] {
      assert a + b == a;
    } else {
      var front, last := b[..|b| - 1], b[|b| - 1];
      TextsConcat(key, a, front);
      assert (a + b)[..|a + b| - 1] == a + front && (a + b)[|a + b| - 1] == last;
      Assoc(Texts(key, a), Texts(key, front), TextOf(key, last));
    }
  }

  lemma {:induction false} PlainConcat(a: seq<ObserverEvent>, b: seq<ObserverEvent>)
    ensures Plain(a + b) == Plain(a) + Plain(b)
  {
    if b == [] {
      assert a + b == a;
    } else {
      var front, last := b[..|b| - 1], b[|b| - 1];
      PlainConcat(a, front);
      assert a + b == (a + front) + [last];
      PlainSnoc(a + front, last);
      Assoc(Plain(a), Plain(front), if IsChunk(last) then [] else [last]);
    }
  }

  /** What is pending for a key. */
  function Held(ps: seq<Pending>, key: ChunkKey): string {
    var i := IndexOf(ps, key);
    if i < |ps| then ps[i].text else ""
  }

  lemma FinishedText(p: Pending, key: ChunkKey)
    requires EntryOk(p)
    ensures IsChunk(Finish(p)) && TextOf(key, Finish(p)) == if p.key == key then p.text else ""
  {
    SetTextKeepsKey(p.event, p.text);
  }

  lemma FlushSnoc(ps: seq<Pending>, p: Pending)
    ensures Flush(ps + [p]) == Flush(ps) + [Finish(p)]
  {
  }

  /** One more entry flushes its own text after the others'. */
  lemma FlushTexts(ps: seq<Pending>, p: Pending, key: ChunkKey)
    requires EntryOk(p)
    ensures Texts(key, Flush(ps + [p])) == Texts(key, Flush(ps)) + if p.key == key then p.text else ""
    ensures Plain(Flush(ps + [p])) == Plain(Flush(ps))
  {
    FlushSnoc(ps, p);
    FinishedText(p, key);
    TextsSnoc(key, Flush(ps), Finish(p));
    PlainSnoc(Flush(ps), Finish(p));
  }

  lemma FlushStep(ps: seq<Pending>, p: Pending, key: ChunkKey)
    requires Texts(key, Flush(ps)) == Held(ps, key) && Plain(Flush(ps)) == []
    requires EntryOk(p) && forall i | 0 <= i < |ps| :: ps[i].key != p.key
    ensures Texts(key, Flush(ps + [p])) == Held(ps + [p], key) && Plain(Flush(ps + [p])) == []
  {
    FlushTexts(ps, p, key);
    HeldSnoc(ps, p, key);
    Unit(Held(ps, key));
    Unit(p.text);
  }

  lemma PendingSplit(ps: seq<Pending>)
    requires PendingOk(ps) && ps != []
    ensures var front, last := ps[..|ps| - 1], ps[|ps| - 1];
      ps == front + [last] && PendingOk(front) && EntryOk(last)
      && forall i | 0 <= i < |front| :: front[i].key != last.key
  {
  }

  /** A flush emits exactly the held text of every key, and chunks only. */
  lemma {:induction false} FlushEmitsHeld(ps: seq<Pending>, key: ChunkKey)
    requires PendingOk(ps)
    ensures Texts(key, Flush(ps)) == Held(ps, key) && Plain(Flush(ps)) == []
  {
    if ps != [] {
      PendingSplit(ps);
      FlushEmitsHeld(ps[..|ps| - 1], key);
      FlushStep(ps[..|ps| - 1], ps[|ps| - 1], key);
    }
  }

  lemma HeldSnoc(ps: seq<Pending>, p: Pending, key: ChunkKey)
    requires forall i | 0 <= i < |ps| :: ps[i].key != p.key
    ensures p.key == key ==> Held(ps, key) == ""
    ensures Held(ps + [p], key) == if p.key == key then p.text else Held(ps, key)
  {
    var i, k := IndexOf(ps, key), IndexOf(ps + [p], key);
    var qs := ps + [p];
    assert qs[|ps|] == p && forall j | 0 <= j < |ps| :: qs[j] == ps[j];
    if i < |ps| {
      assert qs[i].key == key;
      assert k == i;
    } else {
      assert k >= |ps|;
    }
  }

  lemma HeldUpdate(ps: seq<Pending>, i: nat, p: Pending, key: ChunkKey)
    requires i < |ps| && p.key == ps[i].key && forall k | 0 <= k < i :: ps[k].key != p.key
    ensures Held(ps[i := p], key) == if p.key == key then p.text else Held(ps, key)
  {
    var qs := ps[i := p];
    var a, b := IndexOf(ps, key), IndexOf(qs, key);
    assert forall k | 0 <= k < |ps| :: qs[k].key == ps[k].key;
    assert a == b;
  }

  /** Emitted plus held text is the text received, per key; plain events pass in order. */
  ghost predicate Conserved(t: Trace, input: seq<ObserverEvent>, key: ChunkKey) {
    && PendingOk(t.pending)
    && Texts(key, t.out) + Held(t.pending, key) == Texts(key, input)
    && Plain(t.out) == Plain(input)
  }

  lemma TickConserves(t: Trace, input: seq<ObserverEvent>, key: ChunkKey)
    requires Conserved(t, input, key)
    ensures Conserved(Step(t, Tick), input, key)
  {
    FlushEmitsHeld(t.pending, key);
    TextsConcat(key, t.out, Flush(t.pending));
    PlainConcat(t.out, Flush(t.pending));
  }

  lemma EventConserves(t: Trace, input: seq<ObserverEvent>, key: ChunkKey, e: ObserverEvent)
    requires Conserved(t, input, key)
    ensures Conserved(Step(t, Event(e)), input + [e], key)
  {
    TextsSnoc(key, input, e);
    PlainSnoc(input, e);
    TickConserves(t, input, key);
    if !IsChunk(e) {
      PlainArrives(t, input, key, e);
    } else {
      ChunkArrives(t, input, key, e);
    }
  }

  lemma PlainStep(t: Trace, e: ObserverEvent)
    requires !IsChunk(e)
    ensures Step(t, Event(e)) == Trace([], Step(t, Tick).out + [e])
  {
    Assoc(t.out, Flush(t.pending), [e]);
  }

  lemma PlainArrives(t: Trace, input: seq<ObserverEvent>, key: ChunkKey, e: ObserverEvent)
    requires Conserved(Step(t, Tick), input, key) && !IsChunk(e)
    ensures Conserved(Step(t, Event(e)), input + [e], key)
  {
    var flushed := Step(t, Tick).out;
    PlainStep(t, e);
    Unit(Texts(key, flushed));
    PlainEmitted(flushed, input, key, e);
    Unit(Texts(key, flushed + [e]));
  }

  lemma PlainEmitted(out: seq<ObserverEvent>, input: seq<ObserverEvent>, key: ChunkKey, e: ObserverEvent)
    requires Texts(key, out) == Texts(key, input) && Plain(out) == Plain(input) && !IsChunk(e)
    ensures Texts(key, out + [e]) == Texts(key, input + [e]) && Plain(out + [e]) == Plain(input + [e])
  {
    TextsSnoc(key, out, e);
    PlainSnoc(out, e);
    TextsSnoc(key, input, e);
    PlainSnoc(input, e);
  }

  lemma PendingSnoc(ps: seq<Pending>, p: Pending)
    requires PendingOk(ps) && EntryOk(p) && forall i | 0 <= i < |ps| :: ps[i].key != p.key
    ensures PendingOk(ps + [p])
  {
    var qs := ps + [p];
    assert forall i | 0 <= i < |qs| :: qs[i] == if i < |ps| then ps[i] else p;
  }

  lemma NewKeyArrives(ps: seq<Pending>, p: Pending, key: ChunkKey)
    requires PendingOk(ps) && EntryOk(p) && IndexOf(ps, p.key) == |ps|
    ensures PendingOk(ps + [p])
    ensures Held(ps + [p], key) == Held(ps, key) + if p.key == key then p.text else ""
  {
    PendingSnoc(ps, p);
    HeldSnoc(ps, p, key);
    Unit(p.text);
    Unit(Held(ps, key));
  }

  lemma MergeArrives(ps: seq<Pending>, i: nat, e: ObserverEvent, key: ChunkKey)
    requires PendingOk(ps) && IsChunk(e)
    requires var (k, text) := KeyAndText(e).value;
             i == IndexOf(ps, k) < |ps| && ByteLen(ps[i].text) + ByteLen(text) < MAX_TEXT_BYTES
    ensures var (k, text) := KeyAndText(e).value;
            var qs := ps[i := Merge(ps[i], e, text)];
            PendingOk(qs) && Held(qs, key) == Held(ps, key) + if k == key then text else ""
  {
    var (k, text) := KeyAndText(e).value;
    ByteLenConcat(ps[i].text, text);
    HeldUpdate(ps, i, Merge(ps[i], e, text), key);
    assert KeyAndText(Merge(ps[i], e, text).event) == KeyAndText(ps[i].event);
  }

  /** The three ways a chunk is taken in, on the pending list and the output. */
  lemma ChunkTaken(ps: seq<Pending>, e: ObserverEvent, key: ChunkKey)
    requires PendingOk(ps) && IsChunk(e)
    ensures var (qs, es) := Ingest(ps, e);
            && PendingOk(qs)
            && (es == [] || es == Flush(ps))
            && (es == [] ==> Held(qs, key) == Held(ps, key) + TextOf(key, e))
            && (es != [] ==> Held(qs, key) == TextOf(key, e))
  {
    var (k, text) := KeyAndText(e).value;
    var i := IndexOf(ps, k);
    var started := Pending(k, e, text);
    if i == |ps| {
      NewKeyArrives(ps, started, key);
    } else if ByteLen(ps[i].text) + ByteLen(text) >= MAX_TEXT_BYTES {
      NewKeyArrives([], started, key);
      assert [] + [started] == [started];
    } else {
      MergeArrives(ps, i, e, key);
    }
  }

  lemma ChunkArrives(t: Trace, input: seq<ObserverEvent>, key: ChunkKey, e: ObserverEvent)
    requires Conserved(t, input, key) && Conserved(Step(t, Tick), input, key) && IsChunk(e)
    ensures var t' := Step(t, Event(e));
            && PendingOk(t'.pending)
            && Texts(key, t'.out) + Held(t'.pending, key) == Texts(key, input) + TextOf(key, e)
            && Plain(t'.out) == Plain(input)
  {
    ChunkTaken(t.pending, e, key);
    var (qs, es) := Ingest(t.pending, e);
    if es == [] {
      assert t.out + es == t.out;
      Assoc(Texts(key, t.out), Held(t.pending, key), TextOf(key, e));
    }
  }

  lemma {:induction false} StepsConserve(ops: seq<Op>, key: ChunkKey)
    ensures Conserved(Steps(ops), Inputs(ops), key)
  {
    if ops != [] {
      var front, last := ops[..|ops| - 1], ops[|ops| - 1];
      StepsConserve(front, key);
      if last.Event? {
        EventConserves(Steps(front), Inputs(front), key, last.e);
      } else {
        TickConserves(Steps(front), Inputs(front), key);
        assert Inputs(front) + [] == Inputs(front);
      }
    }
  }

  /**
   For every sequence of events and periodic flushes that ends with a flush:
   per key the emitted text is the received text, and events that are not
   chunks come out unchanged and in order.
   */
  lemma CoalescingConservesText(ops: seq<Op>, key: ChunkKey)
    ensures var out := Steps(ops + [Tick]).out;
            Texts(key, out) == Texts(key, Inputs(ops)) && Plain(out) == Plain(Inputs(ops))
  {
    StepsConserve(ops, key);
    TickConserves(Steps(ops), Inputs(ops), key);
    assert (ops + [Tick])[..|ops|] == ops;
  }

  /**
   A plain event is a barrier: when it is emitted, all text received before it
   has been emitted before it, and nothing is held back.
   */
  lemma PlainEventIsBarrier(ops: seq<Op>, e: ObserverEvent, key: ChunkKey)
    requires !IsChunk(e)
    ensures var t := Steps(ops + [Event(e)]);
            && t.pending == [] && t.out != [] && t.out[|t.out| - 1] == e
            && Texts(key, t.out[..|t.out| - 1]) == Texts(key, Inputs(ops))
  {
    StepsConserve(ops, key);
    TickConserves(Steps(ops), Inputs(ops), key);
    assert (ops + [Event(e)])[..|ops|] == ops;
    var flushed := Step(Steps(ops), Tick).out;
    PlainStep(Steps(ops), e);
    assert (flushed + [e])[..|flushed|] == flushed;
    Unit(Texts(key, flushed));
  }
}
