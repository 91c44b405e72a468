/**
 Steering a running turn: the read loop of one agent process, which interleaves
 non-cancelling steers with one prompt, and the main loop that hands it steers
 and settles their outcomes. A run is any sequence of inputs: requests, prompts,
 steers, lines from the agent, deadlines, failed writes, a dropped future.
 */
module Steer {
  import opened Prelude
  import opened Json

  const METHOD_NOT_FOUND := -32601
  const CLEANUP_FLOOR := 30_000_000_000

  /** An accepted steer is known by its ticket: its position among all accepted steers. */
  type Ticket = nat

  datatype SteerError = AgentError(code: int) | Transport | ExpectedRunIdMissing

  /** What the watcher of a steer receives. `Dropped`: the sender was dropped unsent. */
  datatype Ack = Success | Failed(error: SteerError) | PromptCompletedNeutral | Dropped

  datatype Notice = Notice(ticket: Ticket, ack: Ack)

  /** What the main loop asks of the queue for the withheld event. */
  datatype QueueOp = Remove | Release

  datatype Settled = Settled(ticket: Ticket, ack: Ack, op: QueueOp, fallback: bool)

  /** What a request id was allocated for. */
  datatype Purpose = Prompt | Steer(ticket: Ticket) | Other

  datatype Outstanding = Outstanding(id: nat, ticket: Ticket)

  /** The receiving end of the per-turn steer channel, which holds one request at most. */
  datatype Channel = Closed | Open(slot: Option<Ticket>)

  /** The local state of one read loop. Times are nanoseconds. */
  datatype Turn = Turn(
    expectedId: nat,
    idleTimeout: nat,
    maxDuration: nat,
    idleDeadline: nat,
    hardDeadline: nat,
    pending: Option<Outstanding>
  )

  datatype Outcome =
    | Answer(result: Json)
    | AgentFailure
    | IdleTimeout
    | HardTimeout
    | AgentExited
    | LineTooLong
    | ReadError
    | ReplyFailed
    | Abandoned

  datatype Returned = Returned(promptId: nat, outcome: Outcome)

  /** One agent process and its part of the main loop. The last four fields are histories. */
  datatype System = System(
    lastPromptId: Option<nat>,
    storedDeadline: Option<nat>,
    activeRun: Option<string>,
    channel: Channel,
    turn: Option<Turn>,
    notices: seq<Notice>,
    accepted: seq<string>,
    settled: seq<Settled>,
    issued: seq<Purpose>,
    results: seq<Returned>
  ) {
    /** Request ids count up from zero, so the next one is the number allocated so far. */
    function NextId(): nat { |issued| }
  }

  const START := System(None, None, None, Closed, None, [], [], [], [], [])

  /** How the write of a prompt or steer ends; `Cancelled` drops the whole future in the middle of it. */
  datatype Write = Landed | Broke | Cancelled

  datatype Line =
    | Eof
    | TooLong
    | Broken
    | Skipped
    | Message(msg: Json, at: nat, later: nat, replied: bool)

  datatype Arm = Read(line: Line) | TakeSteer(write: Write) | Sleep

  datatype Input =
    | Dispatch
    | OtherRequest(heard: seq<Json>)
    | StartPrompt(now: nat, start: nat, idleTimeout: nat, maxDuration: nat, write: Write)
    | Cleanup(now: nat, start: nat, grace: Option<nat>, written: bool)
    | Iterate(now: nat, arm: Arm)
    | Abandon
    | Finish
    | Offer(event: string)
    | Settle(index: nat)

  // ---------------------------------------------------------------- messages

  /** Indexing a JSON value: absent is null. */
  function At(v: Json, name: string): Json {
    var found := Get(v, name);
    if found.Some? then found.value else Null
  }

  /** A number as a signed 64-bit integer, if it is one. */
  function AsI64(text: string): Option<int> {
    if text != [] && AllDigits(text) && ParseDecimal(text) < 0x8000_0000_0000_0000 then
      Some(ParseDecimal(text) as int)
    else if |text| > 1 && text[0] == '-' && AllDigits(text[1..])
            && 0 < ParseDecimal(text[1..]) <= 0x8000_0000_0000_0000 then
      var n: int := ParseDecimal(text[1..]);
      Some(0 - n)
    else None
  }

  function ErrorCode(error: Json): int {
    var code := At(error, "code");
    var n := if code.Num? then AsI64(code.text) else None;
    if n.Some? then n.value else -1
  }

  function UpdateKind(m: Json): string {
    var kind := At(At(At(m, "params"), "update"), "sessionUpdate");
    if kind.Str? then kind.s else "unknown"
  }

  /** What a session update says about the active run, if anything. */
  function RunChange(m: Json): Option<Option<string>> {
    var meta := At(At(At(m, "params"), "update"), "_meta");
    var id := Get(At(meta, "goose"), "activeRunId");
    if UpdateKind(m) != "session_info_update" || id.None? then None
    else if id.value.Str? then Some(Some(id.value.s))
    else if id.value.Null? then Some(None)
    else None
  }

  predicate IsKind(option: Json, kind: string) {
    At(option, "kind") == Str(kind)
  }

  /** The first option of a kind. */
  function FindKind(options: seq<Json>, kind: string): Option<Json> {
    if options == [] then None
    else if IsKind(options[0], kind) then Some(options[0])
    else FindKind(options[1..], kind)
  }

  /** Whether a permission request can be answered at all. */
  predicate Answerable(m: Json) {
    var options := At(At(m, "params"), "options");
    && Get(m, "id").Some? && options.Arr?
    && var allow := FindKind(options.items, "allow_once");
    if allow.Some? then At(allow.value, "optionId").Str?
    else FindKind(options.items, "reject_once").Some?
  }

  /** What a message asks for besides answering a request. */
  datatype Call = Nothing | Update(run: Option<Option<string>>, toolCall: bool) | Permission(answerable: bool) | Unknown(wantsReply: bool)

  function CallOf(m: Json): Call {
    match At(m, "method")
    case Str(name) =>
      if name == "session/update" then Update(RunChange(m), UpdateKind(m) == "tool_call")
      else if name == "session/request_permission" then Permission(Answerable(m))
      else if name == "_goose/unstable/session/update" then Nothing
      else Unknown(Get(m, "id").Some?)
    case _ => Nothing
  }

  /** The active run once the messages that came before the answer of some other request were dispatched. */
  function RunAfter(run: Option<string>, heard: seq<Json>): Option<string> {
    if heard == [] then run
    else
      var call := CallOf(heard[|heard| - 1]);
      if call.Update? && call.run.Some? then call.run.value else RunAfter(run, heard[..|heard| - 1])
  }

  /** A message as the loop reads it: the request it responds to, its error code or result, its call. */
  datatype Incoming = Incoming(respondsTo: Option<nat>, error: Option<int>, result: Json, call: Call)

  /** The number whose JSON form a value is, if there is one. */
  function AsId(v: Json): Option<nat> {
    if v.Num? && AllDigits(v.text) && v.text == Decimal(ParseDecimal(v.text)) then Some(ParseDecimal(v.text)) else None
  }

  function Parse(m: Json): Incoming {
    Incoming(
      if Get(m, "method").None? then AsId(At(m, "id")) else None,
      if Get(m, "error").Some? then Some(ErrorCode(At(m, "error"))) else None,
      At(m, "result"),
      CallOf(m))
  }

  predicate Answers(m: Incoming, id: nat) {
    m.respondsTo == Some(id)
  }

  /** A message answers a request exactly if it has no method and its id equals the JSON form of the request's. */
  lemma AnswersMeaning(m: Json, id: nat)
    ensures Answers(Parse(m), id) <==> Get(m, "method").None? && Get(m, "id") == Some(Num(Decimal(id)))
  {
    DecimalRoundTrip(id);
  }

  // ------------------------------------------------------------ the read loop

  predicate KeepsPrompt(outcome: Outcome) {
    outcome.IdleTimeout? || outcome.HardTimeout? || outcome.Abandoned?
  }

  function PendingNotice(pending: Option<Outstanding>, ack: Ack): seq<Notice> {
    if pending.Some? then [Notice(pending.value.ticket, ack)] else []
  }

  /** A request still in a dropped channel loses its sender. */
  function SlotNotice(channel: Channel): seq<Notice> {
    if channel.Open? && channel.slot.Some? then [Notice(channel.slot.value, Dropped)] else []
  }

  /** The loop is over: `ack` goes to an outstanding steer, and the channel is dropped. */
  function Leave(s: System, t: Turn, outcome: Outcome, ack: Ack): System {
    s.(turn := None,
       channel := Closed,
       notices := s.notices + PendingNotice(t.pending, ack) + SlotNotice(s.channel),
       results := s.results + [Returned(t.expectedId, outcome)],
       lastPromptId := if KeepsPrompt(outcome) then s.lastPromptId else None,
       storedDeadline := if KeepsPrompt(outcome) then s.storedDeadline else None)
  }

  function NextDeadline(t: Turn): nat {
    if t.idleDeadline < t.hardDeadline then t.idleDeadline else t.hardDeadline
  }

  function Timeout(t: Turn): Outcome {
    if t.idleDeadline < t.hardDeadline then IdleTimeout else HardTimeout
  }

  /** The steer arm, with the request `ticket` in hand. */
  function WriteSteer(s: System, t: Turn, ticket: Ticket, write: Write): System {
    if s.activeRun.None? then
      s.(channel := Open(None), notices := s.notices + [Notice(ticket, Failed(ExpectedRunIdMissing))])
    else
      var s' := s.(channel := Open(None), issued := s.issued + [Steer(ticket)]);
      match write
      case Landed => s'.(turn := Some(t.(pending := Some(Outstanding(s.NextId(), ticket)))))
      case Broke => s'.(notices := s'.notices + [Notice(ticket, Failed(Transport))])
      case Cancelled => Leave(s'.(notices := s'.notices + [Notice(ticket, Dropped)]), t, Abandoned, Dropped)
  }

  function Renewed(t: Turn, later: nat): nat {
    if later + t.maxDuration > t.hardDeadline then later + t.maxDuration else t.hardDeadline
  }

  /** The response to the outstanding steer `p`. */
  function Resolve(s: System, t: Turn, p: Outstanding, error: Option<int>, later: nat): System {
    if error.Some? then
      s.(turn := Some(t.(pending := None)),
         notices := s.notices + [Notice(p.ticket, Failed(AgentError(error.value)))])
    else
      s.(turn := Some(t.(pending := None, hardDeadline := Renewed(t, later))),
         storedDeadline := if Renewed(t, later) > t.hardDeadline then Some(Renewed(t, later)) else s.storedDeadline,
         notices := s.notices + [Notice(p.ticket, Success)])
  }

  /** A request of the agent that cannot be answered, or whose answer is not written. */
  predicate RequestFails(call: Call, replied: bool) {
    match call
    case Permission(answerable) => !(answerable && replied)
    case Unknown(wantsReply) => wantsReply && !replied
    case _ => false
  }

  /** A notification or a request of the agent; anything else only counts as activity. */
  function Serve(s: System, t: Turn, call: Call, later: nat, replied: bool): System {
    if RequestFails(call, replied) then Leave(s, t, ReplyFailed, Dropped)
    else if call.Update? then
      s.(turn := Some(if call.toolCall then t.(idleDeadline := later + t.idleTimeout) else t),
         activeRun := if call.run.Some? then call.run.value else s.activeRun)
    else s.(turn := Some(t))
  }

  /** What a response makes of the prompt. */
  function OutcomeOf(m: Incoming): Outcome {
    if m.error.Some? then AgentFailure else Answer(m.result)
  }

  /** A parsed message: steer response first, then prompt response, then the rest. */
  function Receive(s: System, t: Turn, m: Incoming, at: nat, later: nat, replied: bool): System {
    var t' := t.(idleDeadline := at + t.idleTimeout);
    if t.pending.Some? && Answers(m, t.pending.value.id) then Resolve(s, t', t.pending.value, m.error, later)
    else if Answers(m, t.expectedId) then
      Leave(s, t', OutcomeOf(m), PromptCompletedNeutral)
    else Serve(s, t', m.call, later, replied)
  }

  function ReadLine(s: System, t: Turn, line: Line): System {
    match line
    case Eof => Leave(s, t, AgentExited, PromptCompletedNeutral)
    case TooLong => Leave(s, t, LineTooLong, PromptCompletedNeutral)
    case Broken => Leave(s, t, ReadError, PromptCompletedNeutral)
    case Skipped => s
    case Message(m, at, later, replied) => Receive(s, t, Parse(m), at, later, replied)
  }

  /** One turn of the loop: the deadline check, then the arm that was ready. */
  function Pass(s: System, t: Turn, now: nat, arm: Arm): System {
    if now >= NextDeadline(t) || arm.Sleep? then Leave(s, t, Timeout(t), PromptCompletedNeutral)
    else if arm.Read? then ReadLine(s, t, arm.line)
    else if t.pending.None? && s.channel.Open? && s.channel.slot.Some? then
      WriteSteer(s, t, s.channel.slot.value, arm.write)
    else s
  }

  // ------------------------------------------------------- around the loop

  /** A new prompt. Dropped in mid-write it stays known, for a cleanup, and the channel stays installed. */
  function Begin(s: System, now: nat, start: nat, idleTimeout: nat, maxDuration: nat, write: Write): System {
    var s' := s.(issued := s.issued + [Prompt], lastPromptId := Some(s.NextId()), storedDeadline := Some(now + maxDuration));
    match write
    case Landed =>
      s'.(turn := Some(Turn(s.NextId(), idleTimeout, maxDuration, start + idleTimeout, now + maxDuration, None)))
    case Broke => s'.(lastPromptId := None, storedDeadline := None)
    case Cancelled => s'
  }

  /** The deadline a cleanup inherits, with a floor; a grace window replaces it. */
  function CleanupDeadline(stored: Option<nat>, now: nat, grace: Option<nat>): nat {
    if grace.Some? then now + grace.value
    else if stored.Some? && stored.value > now + CLEANUP_FLOOR then stored.value
    else now + CLEANUP_FLOOR
  }

  /** Cancelling reads on for the response of the same prompt. */
  function BeginCleanup(s: System, now: nat, start: nat, grace: Option<nat>, written: bool): System {
    var hard := CleanupDeadline(s.storedDeadline, now, grace);
    var s' := s.(lastPromptId := None, storedDeadline := None);
    if s.lastPromptId.Some? && written then
      var remaining := if hard > start then hard - start else 0;
      s'.(turn := Some(Turn(s.lastPromptId.value, CLEANUP_FLOOR, remaining, start + CLEANUP_FLOOR, hard, None)))
    else s'
  }

  /** What the main loop does with an outcome. */
  function Verdict(n: Notice): Settled {
    match n.ack
    case Success => Settled(n.ticket, n.ack, Remove, false)
    case Failed(AgentError(code)) => Settled(n.ticket, n.ack, Release, code == METHOD_NOT_FOUND)
    case Failed(_) => Settled(n.ticket, n.ack, Release, true)
    case PromptCompletedNeutral => Settled(n.ticket, n.ack, Release, false)
    case Dropped => Settled(n.ticket, n.ack, Release, false)
  }

  function Step(s: System, i: Input): System {
    match i
    case Iterate(now, arm) => if s.turn.Some? then Pass(s, s.turn.value, now, arm) else s
    case Abandon => if s.turn.Some? then Leave(s, s.turn.value, Abandoned, Dropped) else s
    case Offer(event) =>
      if s.channel == Open(None) then
        s.(accepted := s.accepted + [event], channel := Open(Some(|s.accepted|)))
      else s
    case Settle(k) =>
      if k < |s.notices| then
        s.(notices := s.notices[..k] + s.notices[k + 1..], settled := s.settled + [Verdict(s.notices[k])])
      else s
    case _ => if s.turn.None? then Outside(s, i) else s
  }

  /** Inputs that only happen between read loops. */
  function Outside(s: System, i: Input): System {
    match i
    case Dispatch => if s.channel.Closed? then s.(channel := Open(None)) else s
    case OtherRequest(heard) => s.(issued := s.issued + [Other], activeRun := RunAfter(s.activeRun, heard))
    case StartPrompt(now, start, idle, max, write) => Begin(s, now, start, idle, max, write)
    case Cleanup(now, start, grace, written) => BeginCleanup(s, now, start, grace, written)
    case Finish => s.(channel := Closed, notices := s.notices + SlotNotice(s.channel))
    case _ => s
  }

  function Run(s: System, inputs: seq<Input>): System {
    if inputs == [] then s else Step(Run(s, inputs[..|inputs| - 1]), inputs[|inputs| - 1])
  }

  // ---------------------------------------------------------- conservation

  /** What is counted: all steers, the delivered ones, those that call for the cancelling fallback, those left unanswered. */
  datatype Tally = All | Successes | Fallbacks | Drops

  predicate Fits(a: Ack, y: Tally) {
    match y
    case All => true
    case Successes => a.Success?
    case Fallbacks =>
      a.Failed? && (a.error.Transport? || a.error.ExpectedRunIdMissing? || a.error == AgentError(METHOD_NOT_FOUND))
    case Drops => a.Dropped?
  }

  predicate Shows(x: Settled, y: Tally) {
    match y
    case All => true
    case Successes => x.op.Remove?
    case Fallbacks => x.fallback
    case Drops => x.ack.Dropped?
  }

  /** Notices of a ticket that fit. */
  function Noticed(ns: seq<Notice>, t: Ticket, y: Tally): nat {
    if ns == [] then 0
    else
      var n := ns[|ns| - 1];
      Noticed(ns[..|ns| - 1], t, y) + (if n.ticket == t && Fits(n.ack, y) then 1 else 0)
  }

  /** Settlements of a ticket that show it. */
  function Decided(xs: seq<Settled>, t: Ticket, y: Tally): nat {
    if xs == [] then 0
    else
      var x := xs[|xs| - 1];
      Decided(xs[..|xs| - 1], t, y) + (if x.ticket == t && Shows(x, y) then 1 else 0)
  }

  lemma {:induction false} NoticedConcat(a: seq<Notice>, b: seq<Notice>, t: Ticket, y: Tally)
    ensures Noticed(a + b, t, y) == Noticed(a, t, y) + Noticed(b, t, y)
  {
    if b == [] {
      assert a + b == a;
    } else {
      NoticedConcat(a, b[..|b| - 1], t, y);
      assert (a + b)[..|a + b| - 1] == a + b[..|b| - 1];
    }
  }

  lemma NoticedSnoc(ns: seq<Notice>, n: Notice, t: Ticket, y: Tally)
    ensures Noticed(ns + [n], t, y)
         == Noticed(ns, t, y) + (if n.ticket == t && Fits(n.ack, y) then 1 else 0)
  {
    assert (ns + [n])[..|ns|] == ns;
  }

  lemma DecidedSnoc(xs: seq<Settled>, x: Settled, t: Ticket, y: Tally)
    ensures Decided(xs + [x], t, y)
         == Decided(xs, t, y) + (if x.ticket == t && Shows(x, y) then 1 else 0)
  {
    assert (xs + [x])[..|xs|] == xs;
  }

  lemma NoticedRemove(ns: seq<Notice>, k: nat, t: Ticket, y: Tally)
    requires k < |ns|
    ensures Noticed(ns, t, y) == Noticed(ns[..k] + ns[k + 1..], t, y)
         + (if ns[k].ticket == t && Fits(ns[k].ack, y) then 1 else 0)
  {
    assert ns == (ns[..k] + [ns[k]]) + ns[k + 1..];
    NoticedConcat(ns[..k] + [ns[k]], ns[k + 1..], t, y);
    NoticedSnoc(ns[..k], ns[k], t, y);
    NoticedConcat(ns[..k], ns[k + 1..], t, y);
  }

  function InSlot(channel: Channel, t: Ticket): nat {
    if channel == Open(Some(t)) then 1 else 0
  }

  function InHand(turn: Option<Turn>, t: Ticket): nat {
    if turn.Some? && turn.value.pending.Some? && turn.value.pending.value.ticket == t then 1 else 0
  }

  /** Where a steer can be: in the channel, outstanding, reported, settled. For the other tallies: reported or settled so. */
  function Places(s: System, t: Ticket, y: Tally): nat {
    (if y.All? then InSlot(s.channel, t) + InHand(s.turn, t) else 0)
    + Noticed(s.notices, t, y) + Decided(s.settled, t, y)
  }

  /** The same for a loop whose local state is `u`. */
  function PlacesWith(s: System, u: Turn, t: Ticket, y: Tally): nat {
    (if y.All? then InSlot(s.channel, t) + InHand(Some(u), t) else 0)
    + Noticed(s.notices, t, y) + Decided(s.settled, t, y)
  }

  /** In time for both deadlines. */
  predicate InTime(s: System, i: Input) {
    s.turn.Some? && i.Iterate? && i.now < s.turn.value.idleDeadline && i.now < s.turn.value.hardDeadline
  }

  /** The agent's response to the outstanding steer `t` reaches the loop. */
  predicate AnswersSteer(s: System, i: Input, t: Ticket) {
    && InTime(s, i) && i.arm.Read? && i.arm.line.Message?
    && s.turn.value.pending.Some? && s.turn.value.pending.value.ticket == t
    && Answers(Parse(i.arm.line.msg), s.turn.value.pending.value.id)
  }

  /** It confirms the steer: no error. */
  predicate Confirms(s: System, i: Input, t: Ticket) {
    AnswersSteer(s, i, t) && Parse(i.arm.line.msg).error.None?
  }

  /** The steer does not reach an agent that understands it: no known run, no write, or no such method. */
  predicate FallsShort(s: System, i: Input, t: Ticket) {
    || (&& InTime(s, i) && i.arm.TakeSteer? && s.turn.value.pending.None? && s.channel == Open(Some(t))
        && (s.activeRun.None? || i.arm.write.Broke?))
    || (AnswersSteer(s, i, t) && Parse(i.arm.line.msg).error == Some(METHOD_NOT_FOUND))
  }

  predicate Accepts(s: System, i: Input, t: Ticket) {
    i.Offer? && s.channel == Open(None) && t == |s.accepted|
  }

  /** The receiver of the channel goes away: the loop ends, or the turn does without one. */
  predicate Closes(s: System, i: Input) {
    if s.turn.Some? then Step(s, i).turn.None? else i.Finish?
  }

  /** The loop ends without a word to an outstanding steer: its future is dropped, or a request of the agent fails. */
  predicate EndsAbruptly(s: System, i: Input) {
    && s.turn.Some?
    && (i.Abandon?
        || (InTime(s, i) && i.arm.Read? && i.arm.line.Message?
            && RequestFails(Parse(i.arm.line.msg).call, i.arm.line.replied)))
  }

  /** The steer is still in the channel when that goes away, or outstanding when the loop ends abruptly. */
  predicate IsLost(s: System, i: Input, t: Ticket) {
    (s.channel == Open(Some(t)) && Closes(s, i)) || (InHand(s.turn, t) == 1 && EndsAbruptly(s, i))
  }

  /** The step at which a steer starts to count. */
  predicate Happens(s: System, i: Input, t: Ticket, y: Tally) {
    match y
    case All => Accepts(s, i, t)
    case Successes => Confirms(s, i, t)
    case Fallbacks => FallsShort(s, i, t)
    case Drops => IsLost(s, i, t)
  }

  function Gain(s: System, i: Input, t: Ticket, y: Tally): nat {
    if y.Drops? then
      (if Closes(s, i) then InSlot(s.channel, t) else 0) + (if EndsAbruptly(s, i) then InHand(s.turn, t) else 0)
    else if Happens(s, i, t, y) then 1
    else 0
  }

  /** The tally a response counts for. */
  predicate ReplyFits(error: Option<int>, y: Tally) {
    (y.Successes? && error.None?) || (y.Fallbacks? && error == Some(METHOD_NOT_FOUND))
  }

  /** What a loop that ends drops. */
  function LeaveGain(channel: Channel, u: Turn, ack: Ack, t: Ticket, y: Tally): nat {
    if y.Drops? then InSlot(channel, t) + (if ack.Dropped? then InHand(Some(u), t) else 0) else 0
  }

  lemma PendingNoticed(u: Turn, ack: Ack, t: Ticket, y: Tally)
    requires ack.PromptCompletedNeutral? || ack.Dropped?
    ensures Noticed(PendingNotice(u.pending, ack), t, y) ==
            if y.All? || (y.Drops? && ack.Dropped?) then InHand(Some(u), t) else 0
  {
    if u.pending.Some? { NoticedSnoc([], Notice(u.pending.value.ticket, ack), t, y); }
  }

  lemma SlotNoticed(channel: Channel, t: Ticket, y: Tally)
    ensures Noticed(SlotNotice(channel), t, y) == if y.All? || y.Drops? then InSlot(channel, t) else 0
  {
    if channel.Open? && channel.slot.Some? { NoticedSnoc([], Notice(channel.slot.value, Dropped), t, y); }
  }

  lemma LeavePlaces(s: System, u: Turn, outcome: Outcome, ack: Ack, t: Ticket, y: Tally)
    requires ack.PromptCompletedNeutral? || ack.Dropped?
    ensures Places(Leave(s, u, outcome, ack), t, y) == PlacesWith(s, u, t, y) + LeaveGain(s.channel, u, ack, t, y)
  {
    var a, b := PendingNotice(u.pending, ack), SlotNotice(s.channel);
    NoticedConcat(s.notices + a, b, t, y);
    NoticedConcat(s.notices, a, t, y);
    PendingNoticed(u, ack, t, y);
    SlotNoticed(s.channel, t, y);
  }

  lemma SettlePlaces(s: System, k: nat, t: Ticket, y: Tally)
    requires k < |s.notices|
    ensures Noticed(s.notices[..k] + s.notices[k + 1..], t, y)
              + Decided(s.settled + [Verdict(s.notices[k])], t, y)
         == Noticed(s.notices, t, y) + Decided(s.settled, t, y)
  {
    NoticedRemove(s.notices, k, t, y);
    DecidedSnoc(s.settled, Verdict(s.notices[k]), t, y);
  }

  function SteerGain(run: Option<string>, ticket: Ticket, write: Write, t: Ticket, y: Tally): nat {
    if ticket == t && ((y.Fallbacks? && (run.None? || write.Broke?)) || (y.Drops? && run.Some? && write.Cancelled?))
    then 1 else 0
  }

  lemma CancelledPlaces(s: System, u: Turn, ticket: Ticket, t: Ticket, y: Tally)
    requires s.turn == Some(u) && u.pending.None? && s.channel == Open(Some(ticket)) && s.activeRun.Some?
    ensures Places(WriteSteer(s, u, ticket, Cancelled), t, y) ==
            Places(s, t, y) + SteerGain(s.activeRun, ticket, Cancelled, t, y)
  {
    NoticedSnoc(s.notices, Notice(ticket, Dropped), t, y);
    var s' := s.(channel := Open(None), issued := s.issued + [Steer(ticket)],
                 notices := s.notices + [Notice(ticket, Dropped)]);
    LeavePlaces(s', u, Abandoned, Dropped, t, y);
  }

  lemma WrittenPlaces(s: System, u: Turn, ticket: Ticket, write: Write, t: Ticket, y: Tally)
    requires s.turn == Some(u) && u.pending.None? && s.channel == Open(Some(ticket)) && s.activeRun.Some?
    requires !write.Cancelled?
    ensures Places(WriteSteer(s, u, ticket, write), t, y) == Places(s, t, y) + SteerGain(s.activeRun, ticket, write, t, y)
  {
    if write.Broke? { NoticedSnoc(s.notices, Notice(ticket, Failed(Transport)), t, y); }
  }

  lemma SteerPlaces(s: System, u: Turn, ticket: Ticket, write: Write, t: Ticket, y: Tally)
    requires s.turn == Some(u) && u.pending.None? && s.channel == Open(Some(ticket))
    ensures Places(WriteSteer(s, u, ticket, write), t, y) == Places(s, t, y) + SteerGain(s.activeRun, ticket, write, t, y)
  {
    if s.activeRun.None? {
      NoticedSnoc(s.notices, Notice(ticket, Failed(ExpectedRunIdMissing)), t, y);
    } else if write.Cancelled? {
      CancelledPlaces(s, u, ticket, t, y);
    } else {
      WrittenPlaces(s, u, ticket, write, t, y);
    }
  }

  lemma ResolvePlaces(s: System, u: Turn, p: Outstanding, error: Option<int>, later: nat, t: Ticket, y: Tally)
    requires u.pending == Some(p)
    ensures Places(Resolve(s, u, p, error, later), t, y) == PlacesWith(s, u, t, y)
         + (if p.ticket == t && ReplyFits(error, y) then 1 else 0)
  {
    NoticedSnoc(s.notices, Notice(p.ticket, Success), t, y);
    if error.Some? {
      NoticedSnoc(s.notices, Notice(p.ticket, Failed(AgentError(error.value))), t, y);
    }
  }

  lemma ServePlaces(s: System, u: Turn, call: Call, later: nat, replied: bool, t: Ticket, y: Tally)
    ensures Places(Serve(s, u, call, later, replied), t, y) == PlacesWith(s, u, t, y)
         + (if RequestFails(call, replied) then LeaveGain(s.channel, u, Dropped, t, y) else 0)
  {
    LeavePlaces(s, u, ReplyFailed, Dropped, t, y);
  }

  lemma ReceiveSteerPlaces(s: System, u: Turn, m: Incoming, at: nat, later: nat, replied: bool, t: Ticket, y: Tally)
    requires u.pending.Some? && Answers(m, u.pending.value.id)
    ensures Places(Receive(s, u, m, at, later, replied), t, y) == PlacesWith(s, u, t, y)
         + (if u.pending.value.ticket == t && ReplyFits(m.error, y) then 1 else 0)
  {
    ResolvePlaces(s, u.(idleDeadline := at + u.idleTimeout), u.pending.value, m.error, later, t, y);
  }

  lemma ReceivePromptPlaces(s: System, u: Turn, m: Incoming, at: nat, later: nat, replied: bool, t: Ticket, y: Tally)
    requires !(u.pending.Some? && Answers(m, u.pending.value.id)) && Answers(m, u.expectedId)
    ensures Places(Receive(s, u, m, at, later, replied), t, y) ==
            PlacesWith(s, u, t, y) + LeaveGain(s.channel, u, PromptCompletedNeutral, t, y)
  {
    var u' := u.(idleDeadline := at + u.idleTimeout);
    LeavePlaces(s, u', OutcomeOf(m), PromptCompletedNeutral, t, y);
  }

  lemma ReceiveCallPlaces(s: System, u: Turn, m: Incoming, at: nat, later: nat, replied: bool, t: Ticket, y: Tally)
    requires !(u.pending.Some? && Answers(m, u.pending.value.id)) && !Answers(m, u.expectedId)
    ensures Places(Receive(s, u, m, at, later, replied), t, y) == PlacesWith(s, u, t, y)
         + (if RequestFails(m.call, replied) then LeaveGain(s.channel, u, Dropped, t, y) else 0)
  {
    ServePlaces(s, u.(idleDeadline := at + u.idleTimeout), m.call, later, replied, t, y);
  }

  function ReceiveGain(channel: Channel, u: Turn, m: Incoming, replied: bool, t: Ticket, y: Tally): nat {
    if u.pending.Some? && Answers(m, u.pending.value.id) then
      if u.pending.value.ticket == t && ReplyFits(m.error, y) then 1 else 0
    else if Answers(m, u.expectedId) then LeaveGain(channel, u, PromptCompletedNeutral, t, y)
    else if RequestFails(m.call, replied) then LeaveGain(channel, u, Dropped, t, y)
    else 0
  }

  lemma ReceivePlaces(s: System, u: Turn, m: Incoming, at: nat, later: nat, replied: bool, t: Ticket, y: Tally)
    ensures Places(Receive(s, u, m, at, later, replied), t, y) ==
            PlacesWith(s, u, t, y) + ReceiveGain(s.channel, u, m, replied, t, y)
  {
    if u.pending.Some? && Answers(m, u.pending.value.id) {
      ReceiveSteerPlaces(s, u, m, at, later, replied, t, y);
    } else if Answers(m, u.expectedId) {
      ReceivePromptPlaces(s, u, m, at, later, replied, t, y);
    } else {
      ReceiveCallPlaces(s, u, m, at, later, replied, t, y);
    }
  }

  function ReadGain(channel: Channel, u: Turn, line: Line, t: Ticket, y: Tally): nat {
    match line
    case Skipped => 0
    case Message(m, _, _, replied) => ReceiveGain(channel, u, Parse(m), replied, t, y)
    case _ => LeaveGain(channel, u, PromptCompletedNeutral, t, y)
  }

  lemma ReadPlaces(s: System, u: Turn, line: Line, t: Ticket, y: Tally)
    requires s.turn == Some(u)
    ensures Places(ReadLine(s, u, line), t, y) == Places(s, t, y) + ReadGain(s.channel, u, line, t, y)
  {
    match line {
      case Eof => LeavePlaces(s, u, AgentExited, PromptCompletedNeutral, t, y);
      case TooLong => LeavePlaces(s, u, LineTooLong, PromptCompletedNeutral, t, y);
      case Broken => LeavePlaces(s, u, ReadError, PromptCompletedNeutral, t, y);
      case Skipped =>
      case Message(m, at, later, replied) => ReceivePlaces(s, u, Parse(m), at, later, replied, t, y);
    }
  }

  predicate TakesSteer(s: System, u: Turn) {
    u.pending.None? && s.channel.Open? && s.channel.slot.Some?
  }

  function PassGain(s: System, u: Turn, now: nat, arm: Arm, t: Ticket, y: Tally): nat {
    if now >= NextDeadline(u) || arm.Sleep? then LeaveGain(s.channel, u, PromptCompletedNeutral, t, y)
    else if arm.Read? then ReadGain(s.channel, u, arm.line, t, y)
    else if TakesSteer(s, u) then SteerGain(s.activeRun, s.channel.slot.value, arm.write, t, y)
    else 0
  }

  lemma PassPlaces(s: System, u: Turn, i: Input, t: Ticket, y: Tally)
    requires s.turn == Some(u) && i.Iterate?
    ensures Places(Pass(s, u, i.now, i.arm), t, y) == Places(s, t, y) + PassGain(s, u, i.now, i.arm, t, y)
  {
    if i.now >= NextDeadline(u) || i.arm.Sleep? {
      LeavePlaces(s, u, Timeout(u), PromptCompletedNeutral, t, y);
    } else if i.arm.Read? {
      ReadPlaces(s, u, i.arm.line, t, y);
    } else if TakesSteer(s, u) {
      SteerPlaces(s, u, s.channel.slot.value, i.arm.write, t, y);
    }
  }

  /** A request of the agent is no response. */
  lemma CallsDoNotAnswer(m: Json, id: nat)
    requires Parse(m).call != Nothing
    ensures !Answers(Parse(m), id)
  {
  }

  /** When a message ends the loop. */
  lemma ReceiveEnds(s: System, u: Turn, m: Incoming, at: nat, later: nat, replied: bool)
    ensures Receive(s, u, m, at, later, replied).turn.None? <==>
      !(u.pending.Some? && Answers(m, u.pending.value.id)) && (Answers(m, u.expectedId) || RequestFails(m.call, replied))
  {
  }

  /** What a pass drops, told without its branches. */
  lemma PassDrops(s: System, u: Turn, i: Input, t: Ticket)
    requires s.turn == Some(u) && i.Iterate?
    ensures PassGain(s, u, i.now, i.arm, t, Drops) == Gain(s, i, t, Drops)
  {
    if i.now < NextDeadline(u) && i.arm.Read? && i.arm.line.Message? {
      var l := i.arm.line;
      ReceiveEnds(s, u, Parse(l.msg), l.at, l.later, l.replied);
      if RequestFails(Parse(l.msg).call, l.replied) {
        CallsDoNotAnswer(l.msg, u.expectedId);
        if u.pending.Some? { CallsDoNotAnswer(l.msg, u.pending.value.id); }
      }
    }
  }

  lemma PassCounts(s: System, u: Turn, i: Input, t: Ticket, y: Tally)
    requires s.turn == Some(u) && i.Iterate? && !y.Drops?
    ensures PassGain(s, u, i.now, i.arm, t, y) == Gain(s, i, t, y)
  {
  }

  lemma OutsidePlaces(s: System, i: Input, t: Ticket, y: Tally)
    requires s.turn.None?
    ensures Places(Outside(s, i), t, y) == Places(s, t, y) + (if i.Finish? && y.Drops? then InSlot(s.channel, t) else 0)
  {
    match i {
      case Finish =>
        NoticedConcat(s.notices, SlotNotice(s.channel), t, y);
        SlotNoticed(s.channel, t, y);
      case _ =>
        var s' := Outside(s, i);
        assert s'.notices == s.notices && s'.settled == s.settled && InHand(s'.turn, t) == 0;
    }
  }

  lemma OfferPlaces(s: System, i: Input, t: Ticket, y: Tally)
    requires i.Offer?
    ensures Places(Step(s, i), t, y) == Places(s, t, y) + Gain(s, i, t, y)
  {
  }

  lemma SettleGainsNothing(s: System, i: Input, t: Ticket, y: Tally)
    requires i.Settle?
    ensures Gain(s, i, t, y) == 0 && Step(s, i).channel == s.channel && Step(s, i).turn == s.turn
  {
  }

  lemma SettleStep(s: System, i: Input, t: Ticket, y: Tally)
    requires i.Settle?
    ensures Places(Step(s, i), t, y) == Places(s, t, y)
  {
    SettleGainsNothing(s, i, t, y);
    if i.index < |s.notices| { SettlePlaces(s, i.index, t, y); }
  }

  lemma AbandonStep(s: System, i: Input, t: Ticket, y: Tally)
    requires i.Abandon?
    ensures Places(Step(s, i), t, y) == Places(s, t, y) + Gain(s, i, t, y)
  {
    if s.turn.Some? { LeavePlaces(s, s.turn.value, Abandoned, Dropped, t, y); }
  }

  lemma OutsideStep(s: System, i: Input, t: Ticket, y: Tally)
    requires !i.Offer? && !i.Settle? && !i.Abandon? && !(i.Iterate? && s.turn.Some?)
    ensures Places(Step(s, i), t, y) == Places(s, t, y) + Gain(s, i, t, y)
  {
    if s.turn.None? { OutsidePlaces(s, i, t, y); }
  }

  /** A step only moves steers about; a steer starts to count exactly where it happens. */
  lemma StepPlaces(s: System, i: Input, t: Ticket, y: Tally)
    ensures Places(Step(s, i), t, y) == Places(s, t, y) + Gain(s, i, t, y)
  {
    if i.Offer? {
      OfferPlaces(s, i, t, y);
    } else if i.Settle? {
      SettleStep(s, i, t, y);
      SettleGainsNothing(s, i, t, y);
    } else if i.Abandon? {
      AbandonStep(s, i, t, y);
    } else if i.Iterate? && s.turn.Some? {
      PassPlaces(s, s.turn.value, i, t, y);
      if y.Drops? { PassDrops(s, s.turn.value, i, t); } else { PassCounts(s, s.turn.value, i, t, y); }
    } else {
      OutsideStep(s, i, t, y);
    }
  }

  lemma GainIffHappens(s: System, i: Input, t: Ticket, y: Tally)
    ensures Gain(s, i, t, y) > 0 <==> Happens(s, i, t, y)
  {
  }

  lemma StepAccepts(s: System, i: Input)
    ensures |Step(s, i).accepted| == |s.accepted| + if Accepts(s, i, |s.accepted|) then 1 else 0
  {
  }

  /** In every run, an accepted steer is in exactly one place, and no other steer is anywhere. */
  lemma {:induction false} EverySteerOnce(inputs: seq<Input>, t: Ticket)
    ensures Places(Run(START, inputs), t, All) == if t < |Run(START, inputs).accepted| then 1 else 0
  {
    if inputs != [] {
      var s, i := Run(START, inputs[..|inputs| - 1]), inputs[|inputs| - 1];
      EverySteerOnce(inputs[..|inputs| - 1], t);
      StepPlaces(s, i, t, All);
      StepAccepts(s, i);
    }
  }

  predicate HappensAt(inputs: seq<Input>, k: nat, t: Ticket, y: Tally)
    requires k < |inputs|
  {
    Happens(Run(START, inputs[..k]), inputs[k], t, y)
  }

  /** Some step of the run is where it happens. */
  ghost predicate Happened(inputs: seq<Input>, t: Ticket, y: Tally) {
    exists k :: 0 <= k < |inputs| && HappensAt(inputs, k, t, y)
  }

  lemma HappensEarlier(inputs: seq<Input>, n: nat, k: nat, t: Ticket, y: Tally)
    requires k < n <= |inputs|
    ensures HappensAt(inputs[..n], k, t, y) == HappensAt(inputs, k, t, y)
  {
    assert inputs[..n][..k] == inputs[..k];
  }

  lemma HappenedNext(inputs: seq<Input>, t: Ticket, y: Tally)
    requires inputs != []
    ensures Happened(inputs, t, y) <==>
      Happened(inputs[..|inputs| - 1], t, y) || HappensAt(inputs, |inputs| - 1, t, y)
  {
    var n := |inputs| - 1;
    if Happened(inputs, t, y) {
      var k :| 0 <= k < |inputs| && HappensAt(inputs, k, t, y);
      if k < n { HappensEarlier(inputs, n, k, t, y); }
    }
    if Happened(inputs[..n], t, y) {
      var k :| 0 <= k < n && HappensAt(inputs[..n], k, t, y);
      HappensEarlier(inputs, n, k, t, y);
    }
  }

  /**
   A steer is anywhere exactly if it was accepted, reported or settled as a success
   exactly if the agent confirmed it, as a fallback exactly if it fell short, and as
   dropped exactly if it was lost.
   */
  lemma {:induction false} CountsIffHappened(inputs: seq<Input>, t: Ticket, y: Tally)
    ensures Places(Run(START, inputs), t, y) > 0 <==> Happened(inputs, t, y)
  {
    if inputs != [] {
      CountsIffHappened(inputs[..|inputs| - 1], t, y);
      HappenedNext(inputs, t, y);
      StepPlaces(Run(START, inputs[..|inputs| - 1]), inputs[|inputs| - 1], t, y);
      GainIffHappens(Run(START, inputs[..|inputs| - 1]), inputs[|inputs| - 1], t, y);
    }
  }

  lemma {:induction false} ShownAmongDecided(xs: seq<Settled>, t: Ticket, y: Tally)
    ensures Decided(xs, t, y) <= Decided(xs, t, All)
  {
    if xs != [] { ShownAmongDecided(xs[..|xs| - 1], t, y); }
  }

  /** No turn, no channel, every outcome handled. */
  predicate Quiet(s: System) {
    s.turn.None? && s.channel.Closed? && s.notices == []
  }

  /**
   The law of the protocol: once things are quiet, the main loop has asked the queue
   for exactly one thing per accepted steer. It was to remove the event exactly if
   the agent confirmed the steer, and to release it otherwise; the turn was
   cancelled for it exactly if the steer fell short; and its sender had been dropped
   without a word exactly if it was lost.
   */
  lemma EverySteerSettledOnce(inputs: seq<Input>, t: Ticket)
    requires Quiet(Run(START, inputs)) && t < |Run(START, inputs).accepted|
    ensures var settled := Run(START, inputs).settled;
      && Decided(settled, t, All) == 1
      && Decided(settled, t, Successes) == (if Happened(inputs, t, Successes) then 1 else 0)
      && Decided(settled, t, Fallbacks) == (if Happened(inputs, t, Fallbacks) then 1 else 0)
      && Decided(settled, t, Drops) == (if Happened(inputs, t, Drops) then 1 else 0)
  {
    EverySteerOnce(inputs, t);
    CountsIffHappened(inputs, t, Drops);
    ShownAmongDecided(Run(START, inputs).settled, t, Drops);
    CountsIffHappened(inputs, t, Successes);
    CountsIffHappened(inputs, t, Fallbacks);
    ShownAmongDecided(Run(START, inputs).settled, t, Successes);
    ShownAmongDecided(Run(START, inputs).settled, t, Fallbacks);
  }

  /** Before that: at most one request per steer, and a removal only of a confirmed one. */
  lemma RemoveOnlyConfirmed(inputs: seq<Input>, t: Ticket)
    ensures Decided(Run(START, inputs).settled, t, All) <= 1
    ensures Decided(Run(START, inputs).settled, t, Successes) > 0 ==> Happened(inputs, t, Successes)
  {
    EverySteerOnce(inputs, t);
    CountsIffHappened(inputs, t, Successes);
  }

  // ------------------------------------------------- an unanswered steer

  function RunUpdate(run: string): Json {
    Obj([Member("method", Str("session/update")), Member("params", Obj([Member("update", Obj([
      Member("sessionUpdate", Str("session_info_update")),
      Member("_meta", Obj([Member("goose", Obj([Member("activeRunId", Str(run))]))]))]))]))])
  }

  /** A permission request without an id or options. */
  const BARE_REQUEST: Json := Obj([Member("method", Str("session/request_permission"))])

  lemma OneMember(a: Member)
    ensures Get(Obj([a]), a.name) == Some(a.value)
  {
  }

  lemma TwoMembers(a: Member, b: Member)
    requires a.name != b.name
    ensures Get(Obj([a, b]), a.name) == Some(a.value) && Get(Obj([a, b]), b.name) == Some(b.value)
  {
    assert [a, b][1..] == [b];
    assert Find([a, b], b.name) == Find([b], b.name);
  }

  lemma RunUpdateParses(run: string)
    ensures Parse(RunUpdate(run)).call == Update(Some(Some(run)), false) && Parse(RunUpdate(run)).respondsTo.None?
  {
    var goose := Obj([Member("activeRunId", Str(run))]);
    var meta := Obj([Member("goose", goose)]);
    var kind, extra := Member("sessionUpdate", Str("session_info_update")), Member("_meta", meta);
    var params := Obj([Member("update", Obj([kind, extra]))]);
    OneMember(Member("activeRunId", Str(run)));
    OneMember(Member("goose", goose));
    TwoMembers(kind, extra);
    OneMember(Member("update", Obj([kind, extra])));
    TwoMembers(Member("method", Str("session/update")), Member("params", params));
    assert UpdateKind(RunUpdate(run)) == "session_info_update";
    assert RunChange(RunUpdate(run)) == Some(Some(run));
  }

  lemma BareRequestParses()
    ensures Parse(BARE_REQUEST).call == Permission(false) && Parse(BARE_REQUEST).respondsTo.None?
  {
    assert At(BARE_REQUEST, "method") == Str("session/request_permission");
    assert Get(BARE_REQUEST, "id").None?;
  }

  const SECOND := 1_000_000_000

  /** A turn in which a steer is written and the agent then sends a request that cannot be answered. */
  function LosingRun(): seq<Input> {
    [Dispatch, StartPrompt(0, 0, SECOND, SECOND, Landed),
     Iterate(1, Read(Message(RunUpdate("run"), 1, 1, true))),
     Offer("event"), Iterate(2, TakeSteer(Landed)),
     Iterate(3, Read(Message(BARE_REQUEST, 3, 3, true)))]
  }

  lemma RunSix(s: System, a: Input, b: Input, c: Input, d: Input, e: Input, f: Input)
    ensures Run(s, [a, b, c, d, e, f]) == Step(Step(Step(Step(Step(Step(s, a), b), c), d), e), f)
  {
    var x := [a, b, c, d, e, f];
    assert x[..5] == [a, b, c, d, e] && x[..5][..4] == [a, b, c, d] && x[..4][..3] == [a, b, c];
    assert x[..3][..2] == [a, b] && x[..2][..1] == [a] && x[..1][..0] == [];
    assert [a, b, c, d, e][..4] == [a, b, c, d] && [a, b, c, d][..3] == [a, b, c];
    assert [a, b, c][..2] == [a, b] && [a, b][..1] == [a] && [a][..0] == [];
    assert Run(s, [a]) == Step(s, a) && Run(s, [a, b]) == Step(Run(s, [a]), b);
    assert Run(s, [a, b, c]) == Step(Run(s, [a, b]), c) && Run(s, [a, b, c, d]) == Step(Run(s, [a, b, c]), d);
    assert Run(s, [a, b, c, d, e]) == Step(Run(s, [a, b, c, d]), e);
  }

  const PROMPTED := START.(channel := Open(None), issued := [Prompt], lastPromptId := Some(0),
                           storedDeadline := Some(SECOND), turn := Some(Turn(0, SECOND, SECOND, SECOND, SECOND, None)))

  const STEERING := PROMPTED.(activeRun := Some("run"), accepted := ["event"], issued := [Prompt, Steer(0)],
                              turn := Some(Turn(0, SECOND, SECOND, SECOND + 1, SECOND, Some(Outstanding(1, 0)))))

  lemma LosingStart()
    ensures Step(Step(START, LosingRun()[0]), LosingRun()[1]) == PROMPTED
  {
  }

  lemma LosingMiddle()
    ensures Step(Step(Step(PROMPTED, LosingRun()[2]), LosingRun()[3]), LosingRun()[4]) == STEERING
  {
    RunUpdateParses("run");
    var s := Step(PROMPTED, LosingRun()[2]);
    assert s == PROMPTED.(turn := Some(Turn(0, SECOND, SECOND, SECOND + 1, SECOND, None)), activeRun := Some("run"));
    var offered := Step(s, LosingRun()[3]);
    assert offered == s.(accepted := ["event"], channel := Open(Some(0)));
  }

  lemma LosingEnd()
    ensures var s := Step(STEERING, LosingRun()[5]);
      s.results == [Returned(0, ReplyFailed)] && s.issued == [Prompt, Steer(0)] && s.notices == [Notice(0, Dropped)]
  {
    BareRequestParses();
  }

  /** Not every way out of the loop answers an outstanding steer: here its sender is dropped. */
  lemma LosingRunDrops()
    ensures var s := Run(START, LosingRun());
      s.results == [Returned(0, ReplyFailed)] && s.issued == [Prompt, Steer(0)] && s.notices == [Notice(0, Dropped)]
  {
    var x := LosingRun();
    RunSix(START, x[0], x[1], x[2], x[3], x[4], x[5]);
    assert x == [x[0], x[1], x[2], x[3], x[4], x[5]];
    LosingStart();
    LosingMiddle();
    LosingEnd();
  }

  // ------------------------------------------------------------- request ids

  predicate PromptAt(s: System, id: nat) {
    id < |s.issued| && s.issued[id].Prompt?
  }

  predicate SteerAt(s: System, id: nat, t: Ticket) {
    id < |s.issued| && s.issued[id] == Steer(t)
  }

  predicate TurnOk(s: System, u: Turn) {
    && PromptAt(s, u.expectedId)
    && (u.pending.Some? ==> SteerAt(s, u.pending.value.id, u.pending.value.ticket))
    && (s.lastPromptId.Some? ==> s.lastPromptId.value == u.expectedId && s.storedDeadline == Some(u.hardDeadline))
  }

  /** The steer written under `id` has left the channel, and is outstanding under no other id. */
  predicate Sent(s: System, id: nat)
    requires id < |s.issued|
  {
    s.issued[id].Steer? ==>
      var t := s.issued[id].ticket;
      && t < |s.accepted| && s.channel != Open(Some(t))
      && (s.turn.Some? && s.turn.value.pending.Some? && s.turn.value.pending.value.ticket == t ==>
            s.turn.value.pending.value.id == id)
  }

  predicate Inv(s: System) {
    && (s.lastPromptId.Some? ==> PromptAt(s, s.lastPromptId.value))
    && (s.turn.Some? ==> TurnOk(s, s.turn.value))
    && (s.channel.Open? && s.channel.slot.Some? ==> s.channel.slot.value < |s.accepted|)
    && forall id | 0 <= id < |s.issued| :: Sent(s, id)
  }

  lemma SteerInv(s: System, u: Turn, write: Write)
    requires Inv(s) && s.turn == Some(u) && u.pending.None? && s.channel.Open? && s.channel.slot.Some?
    ensures Inv(WriteSteer(s, u, s.channel.slot.value, write))
  {
    var s' := WriteSteer(s, u, s.channel.slot.value, write);
    forall id | 0 <= id < |s'.issued| ensures Sent(s', id) {
      if id < |s.issued| { assert Sent(s, id); }
    }
  }

  lemma LeaveInv(s: System, u: Turn, outcome: Outcome, ack: Ack)
    requires Inv(s)
    ensures Inv(Leave(s, u, outcome, ack))
  {
    var s' := Leave(s, u, outcome, ack);
    forall id | 0 <= id < |s'.issued| ensures Sent(s', id) {
      assert Sent(s, id);
    }
  }

  lemma ResolveInv(s: System, u: Turn, u': Turn, error: Option<int>, later: nat)
    requires Inv(s) && s.turn == Some(u) && u.pending.Some? && u' == u.(idleDeadline := u'.idleDeadline)
    ensures Inv(Resolve(s, u', u.pending.value, error, later))
  {
    var s' := Resolve(s, u', u.pending.value, error, later);
    forall id | 0 <= id < |s'.issued| ensures Sent(s', id) {
      assert Sent(s, id);
    }
  }

  lemma ServeInv(s: System, u: Turn, u': Turn, call: Call, later: nat, replied: bool)
    requires Inv(s) && s.turn == Some(u) && u' == u.(idleDeadline := u'.idleDeadline)
    ensures Inv(Serve(s, u', call, later, replied))
  {
    var s' := Serve(s, u', call, later, replied);
    if s'.turn.None? {
      LeaveInv(s, u', ReplyFailed, Dropped);
    } else {
      forall id | 0 <= id < |s'.issued| ensures Sent(s', id) {
        assert Sent(s, id);
      }
    }
  }

  lemma ReceiveInv(s: System, u: Turn, m: Incoming, at: nat, later: nat, replied: bool)
    requires Inv(s) && s.turn == Some(u)
    ensures Inv(Receive(s, u, m, at, later, replied))
  {
    var u' := u.(idleDeadline := at + u.idleTimeout);
    if u.pending.Some? && Answers(m, u.pending.value.id) {
      ResolveInv(s, u, u', m.error, later);
    } else if Answers(m, u.expectedId) {
      LeaveInv(s, u', OutcomeOf(m), PromptCompletedNeutral);
    } else {
      ServeInv(s, u, u', m.call, later, replied);
    }
  }

  lemma OutsideInv(s: System, i: Input)
    requires Inv(s) && s.turn.None?
    ensures Inv(Outside(s, i))
  {
    var s' := Outside(s, i);
    forall id | 0 <= id < |s'.issued| ensures Sent(s', id) {
      if id < |s.issued| { assert Sent(s, id); }
    }
  }

  lemma PassInv(s: System, u: Turn, now: nat, arm: Arm)
    requires Inv(s) && s.turn == Some(u)
    ensures Inv(Pass(s, u, now, arm))
  {
    if now >= NextDeadline(u) || arm.Sleep? {
      LeaveInv(s, u, Timeout(u), PromptCompletedNeutral);
    } else if arm.Read? {
      match arm.line {
        case Message(m, at, later, replied) => ReceiveInv(s, u, Parse(m), at, later, replied);
        case Skipped =>
        case Eof => LeaveInv(s, u, AgentExited, PromptCompletedNeutral);
        case TooLong => LeaveInv(s, u, LineTooLong, PromptCompletedNeutral);
        case Broken => LeaveInv(s, u, ReadError, PromptCompletedNeutral);
      }
    } else if u.pending.None? && s.channel.Open? && s.channel.slot.Some? {
      SteerInv(s, u, arm.write);
    }
  }

  lemma StepInv(s: System, i: Input)
    requires Inv(s)
    ensures Inv(Step(s, i))
  {
    if i.Offer? || i.Settle? {
      var s' := Step(s, i);
      forall id | 0 <= id < |s'.issued| ensures Sent(s', id) {
        assert Sent(s, id);
      }
    } else if s.turn.None? {
      OutsideInv(s, i);
    } else if i.Iterate? {
      PassInv(s, s.turn.value, i.now, i.arm);
    } else if i.Abandon? {
      LeaveInv(s, s.turn.value, Abandoned, Dropped);
    }
  }

  lemma {:induction false} RunInv(inputs: seq<Input>)
    ensures Inv(Run(START, inputs))
  {
    if inputs != [] {
      RunInv(inputs[..|inputs| - 1]);
      StepInv(Run(START, inputs[..|inputs| - 1]), inputs[|inputs| - 1]);
    }
  }

  /** In every run, at most one steer that got a request id still lacks an outcome: the one the loop waits for. */
  lemma AtMostOneOutstanding(inputs: seq<Input>, id: nat, t: Ticket)
    requires SteerAt(Run(START, inputs), id, t)
    ensures var s := Run(START, inputs);
      Noticed(s.notices, t, All) + Decided(s.settled, t, All)
        == if s.turn.Some? && s.turn.value.pending == Some(Outstanding(id, t)) then 0 else 1
  {
    var s := Run(START, inputs);
    RunInv(inputs);
    assert Sent(s, id);
    EverySteerOnce(inputs, t);
  }

  predicate WrittenOnce(s: System) {
    forall a, b | 0 <= a < b < |s.issued| && s.issued[a].Steer? && s.issued[b].Steer? ::
      s.issued[a].ticket != s.issued[b].ticket
  }

  /** A step allocates at most one id, and one for a steer only to the steer it takes from the channel. */
  predicate Allocates(s: System, s': System) {
    s'.issued == s.issued
    || (|s'.issued| == |s.issued| + 1 && s'.issued[..|s.issued|] == s.issued
        && (s'.issued[|s.issued|].Steer? ==> s.channel == Open(Some(s'.issued[|s.issued|].ticket))))
  }

  lemma ReceiveAllocates(s: System, u: Turn, m: Incoming, at: nat, later: nat, replied: bool)
    ensures Receive(s, u, m, at, later, replied).issued == s.issued
  {
  }

  lemma StepAllocates(s: System, i: Input)
    ensures Allocates(s, Step(s, i))
  {
    if i.Iterate? && s.turn.Some? && i.arm.Read? && i.arm.line.Message? {
      var l := i.arm.line;
      ReceiveAllocates(s, s.turn.value, Parse(l.msg), l.at, l.later, l.replied);
    }
  }

  lemma AllocatesOnce(s: System, s': System)
    requires Inv(s) && WrittenOnce(s) && Allocates(s, s')
    ensures WrittenOnce(s')
  {
    var n := |s.issued|;
    forall a, b | 0 <= a < b < |s'.issued| && s'.issued[a].Steer? && s'.issued[b].Steer?
      ensures s'.issued[a].ticket != s'.issued[b].ticket
    {
      assert a < n && s'.issued[a] == s.issued[a] && Sent(s, a);
      assert b < n ==> s'.issued[b] == s.issued[b];
    }
  }

  /** No steer is written twice. */
  lemma {:induction false} SteersAreWrittenOnce(inputs: seq<Input>)
    ensures WrittenOnce(Run(START, inputs))
  {
    if inputs != [] {
      RunInv(inputs[..|inputs| - 1]);
      SteersAreWrittenOnce(inputs[..|inputs| - 1]);
      StepAllocates(Run(START, inputs[..|inputs| - 1]), inputs[|inputs| - 1]);
      AllocatesOnce(Run(START, inputs[..|inputs| - 1]), Run(START, inputs));
    }
  }

  // ----------------------------------------------------------------- routing

  lemma ResponseCallsNothing(m: Json, id: nat)
    requires Answers(Parse(m), id)
    ensures Parse(m).call == Nothing
  {
    assert Get(m, "method").None?;
    assert At(m, "method") == Null;
  }

  predicate IsAnswer(o: Outcome) {
    o.Answer? || o.AgentFailure?
  }

  /** How many times a prompt was answered. */
  function AnswerCount(rs: seq<Returned>, id: nat): nat {
    if rs == [] then 0
    else
      var r := rs[|rs| - 1];
      AnswerCount(rs[..|rs| - 1], id) + (if r.promptId == id && IsAnswer(r.outcome) then 1 else 0)
  }

  /** The acknowledgements that come from a response of the agent. */
  predicate IsReply(a: Ack) {
    a.Success? || (a.Failed? && a.error.AgentError?)
  }

  function Replies(ns: seq<Notice>): nat {
    if ns == [] then 0
    else Replies(ns[..|ns| - 1]) + (if IsReply(ns[|ns| - 1].ack) then 1 else 0)
  }

  lemma RepliesSnoc(ns: seq<Notice>, n: Notice)
    ensures Replies(ns + [n]) == Replies(ns) + (if IsReply(n.ack) then 1 else 0)
  {
    assert (ns + [n])[..|ns|] == ns;
  }

  lemma LeaveReplies(s: System, u: Turn, outcome: Outcome, ack: Ack)
    requires !IsReply(ack)
    ensures Replies(Leave(s, u, outcome, ack).notices) == Replies(s.notices)
  {
    var a := s.notices + PendingNotice(u.pending, ack);
    assert u.pending.None? ==> a == s.notices;
    assert SlotNotice(s.channel) == [] ==> a + SlotNotice(s.channel) == a;
    if u.pending.Some? { RepliesSnoc(s.notices, Notice(u.pending.value.ticket, ack)); }
    if s.channel.Open? && s.channel.slot.Some? { RepliesSnoc(a, Notice(s.channel.slot.value, Dropped)); }
  }

  /** A response in time, as the loop sees it. */
  predicate Responds(s: System, i: Input, id: nat) {
    && s.turn.Some? && i.Iterate? && i.now < NextDeadline(s.turn.value)
    && i.arm.Read? && i.arm.line.Message? && Answers(Parse(i.arm.line.msg), id)
  }

  function SteerReply(u: Turn, m: Incoming, id: nat, t: Ticket): seq<Notice> {
    if u.pending != Some(Outstanding(id, t)) then []
    else if m.error.Some? then [Notice(t, Failed(AgentError(m.error.value)))]
    else [Notice(t, Success)]
  }

  function PromptReply(u: Turn, m: Incoming, id: nat): seq<Returned> {
    if u.expectedId != id then []
    else [Returned(id, OutcomeOf(m))]
  }

  /** What the response to request `id` may do. */
  predicate Routed(s: System, u: Turn, m: Incoming, id: nat, s': System)
    requires id < |s.issued|
  {
    match s.issued[id]
    case Steer(t) =>
      s'.turn.Some? && s'.results == s.results && s'.notices == s.notices + SteerReply(u, m, id, t)
    case Prompt =>
      Replies(s'.notices) == Replies(s.notices) && s'.results == s.results + PromptReply(u, m, id)
    case Other =>
      s'.turn.Some? && s'.results == s.results && s'.notices == s.notices
  }

  predicate Awaited(u: Turn, id: nat) {
    id == u.expectedId || (u.pending.Some? && id == u.pending.value.id)
  }

  lemma ReceiveRoutes(s: System, u: Turn, m: Incoming, id: nat, at: nat, later: nat, replied: bool)
    requires Inv(s) && s.turn == Some(u) && id < |s.issued| && Answers(m, id) && m.call == Nothing
    ensures Routed(s, u, m, id, Receive(s, u, m, at, later, replied))
    ensures !Awaited(u, id) ==>
      Receive(s, u, m, at, later, replied) == s.(turn := Some(u.(idleDeadline := at + u.idleTimeout)))
  {
    if id == u.expectedId {
      var u' := u.(idleDeadline := at + u.idleTimeout);
      LeaveReplies(s, u', OutcomeOf(m), PromptCompletedNeutral);
    }
  }

  lemma RoutingAt(s: System, i: Input, id: nat)
    requires Inv(s) && id < s.NextId() && Responds(s, i, id)
    ensures Routed(s, s.turn.value, Parse(i.arm.line.msg), id, Step(s, i))
    ensures var u := s.turn.value;
      !Awaited(u, id) ==> Step(s, i) == s.(turn := Some(u.(idleDeadline := i.arm.line.at + u.idleTimeout)))
  {
    ResponseCallsNothing(i.arm.line.msg, id);
    var u, l := s.turn.value, i.arm.line;
    assert Step(s, i) == Receive(s, u, Parse(l.msg), l.at, l.later, l.replied);
    ReceiveRoutes(s, u, Parse(l.msg), id, l.at, l.later, l.replied);
  }

  /**
   A response is told apart by its request id. The response to a steer never ends
   the turn and only settles that steer; the response to the turn's prompt ends it
   and settles no steer by reply; a response to anything else, such as a prompt or
   steer of an earlier turn, only counts as activity.
   */
  lemma Routing(inputs: seq<Input>, s: System, i: Input, id: nat)
    requires s == Run(START, inputs) && id < s.NextId() && Responds(s, i, id)
    ensures Routed(s, s.turn.value, Parse(i.arm.line.msg), id, Step(s, i))
    ensures !Awaited(s.turn.value, id) ==>
      Step(s, i) == s.(turn := Some(s.turn.value.(idleDeadline := i.arm.line.at + s.turn.value.idleTimeout)))
  {
    RunInv(inputs);
    RoutingAt(s, i, id);
  }

  lemma ReceiveAnswers(s: System, u: Turn, m: Incoming, at: nat, later: nat, replied: bool)
    ensures var s' := Receive(s, u, m, at, later, replied);
      s'.results == s.results
      || (s'.results == s.results + PromptReply(u, m, u.expectedId) && Answers(m, u.expectedId))
      || s'.results == s.results + [Returned(u.expectedId, ReplyFailed)]
  {
  }

  lemma ReadAnswers(s: System, u: Turn, line: Line, id: nat, outcome: Outcome)
    requires ReadLine(s, u, line).results == s.results + [Returned(id, outcome)] && IsAnswer(outcome)
    ensures id == u.expectedId && line.Message? && Answers(Parse(line.msg), id) && outcome == OutcomeOf(Parse(line.msg))
  {
    var all := s.results + [Returned(id, outcome)];
    assert all[|s.results|] == Returned(id, outcome);
    if line.Message? {
      ReceiveAnswers(s, u, Parse(line.msg), line.at, line.later, line.replied);
    }
  }

  /** The converse: the loop returns an answer only on a response to its own prompt that came in time. */
  lemma AnswerOnlyFromOwnPrompt(s: System, i: Input, id: nat, outcome: Outcome)
    requires Step(s, i).results == s.results + [Returned(id, outcome)] && IsAnswer(outcome)
    ensures s.turn.Some? && id == s.turn.value.expectedId
    ensures Responds(s, i, id) && outcome == OutcomeOf(Parse(i.arm.line.msg))
  {
    assert (s.results + [Returned(id, outcome)])[|s.results|] == Returned(id, outcome);
    if s.turn.Some? && i.Iterate? && i.now < NextDeadline(s.turn.value) && i.arm.Read? {
      ReadAnswers(s, s.turn.value, i.arm.line, id, outcome);
    }
  }

  // ------------------------------------------------------ answers, deadlines

  predicate AnswerOk(s: System, id: nat) {
    && AnswerCount(s.results, id) <= 1
    && (AnswerCount(s.results, id) == 1 ==>
          && id < |s.issued| && s.lastPromptId != Some(id)
          && (s.turn.Some? ==> s.turn.value.expectedId != id))
  }

  /** Nothing was returned, or the loop of `u` returned and is over. */
  predicate ReturnsOnce(s: System, u: Turn, s': System) {
    s'.results == s.results
    || (s'.turn.None? && |s'.results| == |s.results| + 1 && s'.results[..|s.results|] == s.results
        && s'.results[|s.results|].promptId == u.expectedId
        && (IsAnswer(s'.results[|s.results|].outcome) ==> s'.lastPromptId.None?))
  }

  /** The loop of `u` starts no prompt. */
  predicate KeepsPrompts(s: System, u: Turn, s': System) {
    && |s'.issued| >= |s.issued|
    && (s'.lastPromptId == s.lastPromptId || s'.lastPromptId.None?)
    && (s'.turn.Some? ==> s'.turn.value.expectedId == u.expectedId)
  }

  lemma LeaveReturns(s: System, u: Turn, outcome: Outcome, ack: Ack)
    ensures ReturnsOnce(s, u, Leave(s, u, outcome, ack)) && KeepsPrompts(s, u, Leave(s, u, outcome, ack))
  {
  }

  lemma ReceiveReturns(s: System, u: Turn, m: Incoming, at: nat, later: nat, replied: bool)
    ensures ReturnsOnce(s, u, Receive(s, u, m, at, later, replied))
    ensures KeepsPrompts(s, u, Receive(s, u, m, at, later, replied))
  {
    var u' := u.(idleDeadline := at + u.idleTimeout);
    LeaveReturns(s, u', OutcomeOf(m), PromptCompletedNeutral);
    LeaveReturns(s, u', ReplyFailed, Dropped);
  }

  lemma PassReturns(s: System, u: Turn, now: nat, arm: Arm)
    requires s.turn == Some(u)
    ensures ReturnsOnce(s, u, Pass(s, u, now, arm)) && KeepsPrompts(s, u, Pass(s, u, now, arm))
  {
    if now >= NextDeadline(u) || arm.Sleep? {
      LeaveReturns(s, u, Timeout(u), PromptCompletedNeutral);
    } else if arm.Read? && arm.line.Message? {
      ReceiveReturns(s, u, Parse(arm.line.msg), arm.line.at, arm.line.later, arm.line.replied);
    }
  }

  lemma StepReturns(s: System, i: Input)
    ensures s.turn.None? ==> Step(s, i).results == s.results
    ensures s.turn.Some? ==> ReturnsOnce(s, s.turn.value, Step(s, i)) && KeepsPrompts(s, s.turn.value, Step(s, i))
  {
    if s.turn.Some? && i.Iterate? { PassReturns(s, s.turn.value, i.now, i.arm); }
  }

  lemma OutsideIds(s: System, i: Input)
    requires s.turn.None?
    ensures var s' := Step(s, i);
      && |s'.issued| >= |s.issued|
      && (s'.lastPromptId == s.lastPromptId || s'.lastPromptId.None? || s'.lastPromptId == Some(|s.issued|))
      && (s'.turn.Some? ==>
            s.lastPromptId == Some(s'.turn.value.expectedId)
            || (s'.turn.value.expectedId == |s.issued| && |s'.issued| > |s.issued|))
  {
  }

  lemma StepAnswers(s: System, i: Input, id: nat)
    requires Inv(s) && AnswerOk(s, id)
    ensures AnswerOk(Step(s, i), id)
  {
    StepReturns(s, i);
    if s.turn.None? { OutsideIds(s, i); }
  }

  /** In every run a prompt is answered at most once, its cleanup included. */
  lemma {:induction false} OneAnswerPerPrompt(inputs: seq<Input>, id: nat)
    ensures AnswerOk(Run(START, inputs), id)
  {
    if inputs != [] {
      RunInv(inputs[..|inputs| - 1]);
      OneAnswerPerPrompt(inputs[..|inputs| - 1], id);
      StepAnswers(Run(START, inputs[..|inputs| - 1]), inputs[|inputs| - 1], id);
    }
  }

  /** The turn goes on through the whole run. */
  ghost predicate Continues(s: System, inputs: seq<Input>) {
    forall k | 0 <= k <= |inputs| :: Run(s, inputs[..k]).turn.Some?
  }

  predicate Confirming(s: System, i: Input) {
    s.turn.Some? && s.turn.value.pending.Some? && Confirms(s, i, s.turn.value.pending.value.ticket)
  }

  function Max(a: nat, b: nat): nat {
    if a < b then b else a
  }

  lemma ReceiveDeadline(s: System, u: Turn, m: Incoming, at: nat, later: nat, replied: bool)
    ensures var next := Receive(s, u, m, at, later, replied).turn;
      next.Some? ==>
        && next.value.expectedId == u.expectedId && next.value.maxDuration == u.maxDuration
        && next.value.hardDeadline ==
             if u.pending.Some? && Answers(m, u.pending.value.id) && m.error.None?
             then Max(u.hardDeadline, later + u.maxDuration) else u.hardDeadline
  {
  }

  lemma StepDeadline(s: System, i: Input)
    requires s.turn.Some?
    ensures var next, u := Step(s, i).turn, s.turn.value;
      next.Some? ==>
        && next.value.expectedId == u.expectedId && next.value.maxDuration == u.maxDuration
        && next.value.hardDeadline ==
             if Confirming(s, i) then Max(u.hardDeadline, i.arm.line.later + u.maxDuration) else u.hardDeadline
    ensures i.Iterate? && i.now >= s.turn.value.hardDeadline ==> Step(s, i).turn.None?
  {
    if i.Iterate? && i.arm.Read? && i.arm.line.Message? {
      var l := i.arm.line;
      ReceiveDeadline(s, s.turn.value, Parse(l.msg), l.at, l.later, l.replied);
    }
  }

  /** The initial deadline or the latest renewal: the full duration, counted from a confirmed steer. */
  function LatestRenewal(s: System, inputs: seq<Input>): nat
    requires s.turn.Some?
  {
    if inputs == [] then s.turn.value.hardDeadline
    else
      var before, i := inputs[..|inputs| - 1], inputs[|inputs| - 1];
      if Confirming(Run(s, before), i) then
        Max(LatestRenewal(s, before), i.arm.line.later + s.turn.value.maxDuration)
      else LatestRenewal(s, before)
  }

  /** While a turn runs, its hard deadline never moves back, and moves only by confirmed steers. */
  lemma {:induction false} HardDeadlineNeverMovesBack(s: System, inputs: seq<Input>)
    requires Continues(s, inputs)
    ensures s.turn.Some? && Run(s, inputs).turn.Some?
    ensures var u, u' := s.turn.value, Run(s, inputs).turn.value;
      && u'.expectedId == u.expectedId && u'.maxDuration == u.maxDuration
      && u'.hardDeadline == LatestRenewal(s, inputs) >= u.hardDeadline
  {
    assert inputs[..0] == [] && inputs[..|inputs|] == inputs;
    if inputs != [] {
      var before := inputs[..|inputs| - 1];
      assert forall k | 0 <= k <= |before| :: before[..k] == inputs[..k];
      HardDeadlineNeverMovesBack(s, before);
      StepDeadline(Run(s, before), inputs[|inputs| - 1]);
    }
  }

  /** A prompt that timed out or was abandoned is cleaned up under its own id, with at least its renewed budget. */
  lemma CleanupInherits(inputs: seq<Input>, i: Input, now: nat, start: nat)
    requires var s, s' := Run(START, inputs), Step(Run(START, inputs), i);
      s.turn.Some? && s'.turn.None? && s'.lastPromptId.Some?
    ensures var u := Run(START, inputs).turn.value;
      var next := Step(Step(Run(START, inputs), i), Cleanup(now, start, None, true)).turn;
      next.Some? && next.value.expectedId == u.expectedId
      && next.value.hardDeadline == Max(u.hardDeadline, now + CLEANUP_FLOOR)
  {
    RunInv(inputs);
    LeaveKeeps(Run(START, inputs), i);
  }

  /** A loop that ends keeps the prompt and its deadline, or forgets both. */
  predicate EndKeeps(s: System, s': System) {
    s'.turn.None? && s'.lastPromptId.Some? ==>
      s'.lastPromptId == s.lastPromptId && s'.storedDeadline == s.storedDeadline
  }

  lemma PassKeeps(s: System, u: Turn, now: nat, arm: Arm)
    requires s.turn == Some(u)
    ensures EndKeeps(s, Pass(s, u, now, arm))
  {
    if now < NextDeadline(u) && arm.Read? && arm.line.Message? {
      ReceiveKeeps(s, u, Parse(arm.line.msg), arm.line.at, arm.line.later, arm.line.replied);
    }
  }

  lemma ReceiveKeeps(s: System, u: Turn, m: Incoming, at: nat, later: nat, replied: bool)
    requires s.turn == Some(u)
    ensures EndKeeps(s, Receive(s, u, m, at, later, replied))
  {
  }

  lemma LeaveKeeps(s: System, i: Input)
    requires Inv(s) && s.turn.Some? && Step(s, i).turn.None? && Step(s, i).lastPromptId.Some?
    ensures Step(s, i).lastPromptId == Some(s.turn.value.expectedId)
    ensures Step(s, i).storedDeadline == Some(s.turn.value.hardDeadline)
  {
    if i.Iterate? { PassKeeps(s, s.turn.value, i.now, i.arm); }
  }
}
