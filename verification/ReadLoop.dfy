/** The read loop and the steer arms of the main loop, updating their state in place. */
module ReadLoop {
  import opened Prelude
  import opened Json
  import opened Steer

  /** What can happen while the loop waits. */
  predicate InLoop(i: Input) {
    i.Iterate? || i.Offer?
  }

  /** The turn is still on before each of the first `n` inputs. */
  ghost predicate OngoingUntil(s: System, inputs: seq<Input>, n: nat)
    requires n <= |inputs|
  {
    n > 0 ==> OngoingUntil(s, inputs, n - 1) && Run(s, inputs[..n - 1]).turn.Some?
  }

  class AcpClient {
    var nextId: nat
    var lastPromptId: Option<nat>
    var storedDeadline: Option<nat>
    var activeRun: Option<string>
    var channel: Channel
    var notices: seq<Notice>
    var accepted: seq<string>

    // The locals of the read loop, meaningful while it runs.
    var reading: bool
    var expectedId: nat
    var idleTimeout: nat
    var maxDuration: nat
    var idleDeadline: nat
    var hardDeadline: nat
    var pendingSteer: Option<Outstanding>

    ghost var settled: seq<Settled>
    ghost var issued: seq<Purpose>
    ghost var results: seq<Returned>

    ghost predicate Valid()
      reads this
    {
      nextId == |issued|
    }

    ghost function Turn(): Turn
      reads this
    {
      Steer.Turn(expectedId, idleTimeout, maxDuration, idleDeadline, hardDeadline, pendingSteer)
    }

    ghost function State(): System
      reads this
    {
      System(lastPromptId, storedDeadline, activeRun, channel, if reading then Some(Turn()) else None,
             notices, accepted, settled, issued, results)
    }

    constructor ()
      ensures Valid() && State() == START
    {
      nextId, lastPromptId, storedDeadline, activeRun := 0, None, None, None;
      channel, notices, accepted, reading := Closed, [], [], false;
      settled, issued, results := [], [], [];
      expectedId, idleTimeout, maxDuration, idleDeadline, hardDeadline, pendingSteer := 0, 0, 0, 0, 0, None;
    }

    /** Leaves the loop: an outstanding steer gets `ack`, the receiver is dropped with what it holds. */
    method Return(outcome: Outcome, ack: Ack)
      requires Valid() && reading
      modifies this
      ensures Valid() && State() == Leave(old(State()), old(Turn()), outcome, ack)
    {
      notices := notices + PendingNotice(pendingSteer, ack) + SlotNotice(channel);
      pendingSteer, channel, reading := None, Closed, false;
      results := results + [Returned(expectedId, outcome)];
      if !KeepsPrompt(outcome) {
        lastPromptId, storedDeadline := None, None;
      }
    }

    method TakeSteer(write: Write)
      requires Valid() && reading && pendingSteer.None? && channel.Open? && channel.slot.Some?
      modifies this
      ensures Valid() && State() == WriteSteer(old(State()), old(Turn()), old(channel).slot.value, write)
    {
      var ticket := channel.slot.value;
      channel := Open(None);
      if activeRun.None? {
        notices := notices + [Notice(ticket, Failed(ExpectedRunIdMissing))];
        return;
      }
      var id := nextId;
      nextId := nextId + 1;
      issued := issued + [Purpose.Steer(ticket)];
      match write {
        case Landed =>
          pendingSteer := Some(Outstanding(id, ticket));
        case Broke =>
          notices := notices + [Notice(ticket, Failed(Transport))];
        case Cancelled =>
          notices := notices + [Notice(ticket, Dropped)];
          Return(Abandoned, Dropped);
      }
    }

    /** The response to the outstanding steer. */
    method AckSteer(error: Option<int>, later: nat)
      requires Valid() && reading && pendingSteer.Some?
      modifies this
      ensures Valid() && State() == Resolve(old(State()), old(Turn()), old(pendingSteer).value, error, later)
    {
      var ticket := pendingSteer.value.ticket;
      pendingSteer := None;
      if error.Some? {
        notices := notices + [Notice(ticket, Failed(AgentError(error.value)))];
        return;
      }
      var deadline := later + maxDuration;
      if deadline > hardDeadline {
        hardDeadline := deadline;
        storedDeadline := Some(deadline);
      }
      notices := notices + [Notice(ticket, Success)];
    }

    method Dispatch(call: Call, later: nat, replied: bool)
      requires Valid() && reading
      modifies this
      ensures Valid() && State() == Serve(old(State()), old(Turn()), call, later, replied)
    {
      if RequestFails(call, replied) {
        Return(ReplyFailed, Dropped);
      } else if call.Update? {
        if call.run.Some? {
          activeRun := call.run.value;
        }
        if call.toolCall {
          idleDeadline := later + idleTimeout;
        }
      }
    }

    method OnMessage(m: Incoming, at: nat, later: nat, replied: bool)
      requires Valid() && reading
      modifies this
      ensures Valid() && State() == Receive(old(State()), old(Turn()), m, at, later, replied)
    {
      idleDeadline := at + idleTimeout;
      if pendingSteer.Some? && Answers(m, pendingSteer.value.id) {
        AckSteer(m.error, later);
      } else if Answers(m, expectedId) {
        if m.error.Some? {
          Return(AgentFailure, PromptCompletedNeutral);
        } else {
          Return(Answer(m.result), PromptCompletedNeutral);
        }
      } else {
        Dispatch(m.call, later, replied);
      }
    }

    method OnLine(line: Line)
      requires Valid() && reading
      modifies this
      ensures Valid() && State() == ReadLine(old(State()), old(Turn()), line)
    {
      match line {
        case Eof => Return(AgentExited, PromptCompletedNeutral);
        case TooLong => Return(LineTooLong, PromptCompletedNeutral);
        case Broken => Return(ReadError, PromptCompletedNeutral);
        case Skipped =>
        case Message(msg, at, later, replied) => OnMessage(Parse(msg), at, later, replied);
      }
    }

    method LoopOnce(now: nat, arm: Arm)
      requires Valid() && reading
      modifies this
      ensures Valid() && State() == Pass(old(State()), old(Turn()), now, arm)
    {
      var idleFiresFirst := idleDeadline < hardDeadline;
      var nextDeadline := if idleFiresFirst then idleDeadline else hardDeadline;
      if now >= nextDeadline || arm.Sleep? {
        Return(if idleFiresFirst then IdleTimeout else HardTimeout, PromptCompletedNeutral);
        return;
      }
      if arm.Read? {
        OnLine(arm.line);
      } else if pendingSteer.None? && channel.Open? && channel.slot.Some? {
        TakeSteer(arm.write);
      }
    }

    /** The main loop hands over a steer; the channel has room for one. */
    method TrySteer(event: string) returns (taken: bool)
      requires Valid()
      modifies this
      ensures Valid() && State() == Step(old(State()), Offer(event))
      ensures taken <==> old(channel) == Open(None)
    {
      taken := channel == Open(None);
      if taken {
        channel := Open(Some(|accepted|));
        accepted := accepted + [event];
      }
    }

    method OnInput(input: Input)
      requires Valid() && reading && InLoop(input)
      modifies this
      ensures Valid() && State() == Step(old(State()), input)
    {
      if input.Iterate? {
        LoopOnce(input.now, input.arm);
      } else {
        var _ := TrySteer(input.event);
      }
    }

    /**
     Reads until the loop returns or the inputs run out, steers being offered in
     between. It consumes exactly the inputs up to its return.
     */
    method ReadUntilResponse(inputs: seq<Input>) returns (n: nat)
      requires Valid() && reading
      requires forall k | 0 <= k < |inputs| :: InLoop(inputs[k])
      modifies this
      ensures Valid() && n <= |inputs| && State() == Run(old(State()), inputs[..n])
      ensures OngoingUntil(old(State()), inputs, n)
      ensures reading ==> n == |inputs|
    {
      n := 0;
      assert inputs[..0] == [];
      while n < |inputs| && reading
        invariant n <= |inputs| && Valid()
        invariant State() == Run(old(State()), inputs[..n])
        invariant OngoingUntil(old(State()), inputs, n)
        decreases |inputs| - n
      {
        RunNext(old(State()), inputs, n);
        OnInput(inputs[n]);
        n := n + 1;
      }
    }

    /** Any other request, which dispatches what the agent says before it answers. */
    method SendRequest(heard: seq<Json>)
      requires Valid() && !reading
      modifies this
      ensures Valid() && State() == Step(old(State()), OtherRequest(heard))
    {
      nextId := nextId + 1;
      issued := issued + [Other];
      for i := 0 to |heard|
        invariant State() == old(State()).(issued := issued, activeRun := RunAfter(old(activeRun), heard[..i]))
        invariant issued == old(issued) + [Other] && nextId == old(nextId) + 1 && reading == old(reading)
      {
        assert heard[..i + 1][..i] == heard[..i];
        var call := CallOf(heard[i]);
        if call.Update? && call.run.Some? {
          activeRun := call.run.value;
        }
      }
      assert heard[..|heard|] == heard;
    }

    method InstallSteerRx()
      requires Valid() && !reading && channel.Closed?
      modifies this
      ensures Valid() && State() == Step(old(State()), Input.Dispatch)
    {
      channel := Open(None);
    }

    method ClearSteerRx()
      requires Valid() && !reading
      modifies this
      ensures Valid() && State() == Step(old(State()), Finish)
    {
      if channel.Open? && channel.slot.Some? {
        notices := notices + [Notice(channel.slot.value, Dropped)];
      }
      channel := Closed;
    }

    /** Sets up the locals of the loop. */
    method EnterLoop(id: nat, idle: nat, max: nat, start: nat, hard: nat)
      requires Valid() && !reading
      modifies this`reading, this`expectedId, this`idleTimeout, this`maxDuration,
               this`idleDeadline, this`hardDeadline, this`pendingSteer
      ensures reading && Turn() == Steer.Turn(id, idle, max, start + idle, hard, None)
    {
      expectedId, idleTimeout, maxDuration := id, idle, max;
      idleDeadline, hardDeadline, pendingSteer, reading := start + idle, hard, None, true;
    }

    method SessionPrompt(now: nat, start: nat, idle: nat, max: nat, write: Write)
      requires Valid() && !reading
      modifies this
      ensures Valid() && State() == Begin(old(State()), now, start, idle, max, write)
    {
      var id := nextId;
      lastPromptId, storedDeadline := Some(id), Some(now + max);
      nextId := nextId + 1;
      issued := issued + [Purpose.Prompt];
      match write {
        case Landed => EnterLoop(id, idle, max, start, now + max);
        case Broke => lastPromptId, storedDeadline := None, None;
        case Cancelled =>
      }
    }

    method CancelWithCleanup(now: nat, start: nat, grace: Option<nat>, written: bool)
      requires Valid() && !reading
      modifies this
      ensures Valid() && State() == BeginCleanup(old(State()), now, start, grace, written)
    {
      var deadline := CleanupDeadline(storedDeadline, now, grace);
      var prompt := lastPromptId;
      storedDeadline, lastPromptId := None, None;
      if prompt.Some? && written {
        EnterLoop(prompt.value, CLEANUP_FLOOR, if deadline > start then deadline - start else 0, start, deadline);
      }
    }

    /** The main loop's acknowledgement arm, for any one of the outcomes in flight. */
    method OnSteerAck(index: nat) returns (release: bool, remove: bool, fallback: bool)
      requires Valid() && index < |notices|
      modifies this
      ensures Valid() && State() == Step(old(State()), Settle(index))
      ensures Settled(old(notices)[index].ticket, old(notices)[index].ack, if remove then Remove else Release, fallback) == Verdict(old(notices)[index])
      ensures release <==> !remove
    {
      var notice := notices[index];
      match notice.ack {
        case Success => release, remove, fallback := false, true, false;
        case Failed(AgentError(code)) => release, remove, fallback := true, false, code == METHOD_NOT_FOUND;
        case Failed(Transport) => release, remove, fallback := true, false, true;
        case Failed(ExpectedRunIdMissing) => release, remove, fallback := true, false, true;
        case PromptCompletedNeutral => release, remove, fallback := true, false, false;
        case Dropped => release, remove, fallback := true, false, false;
      }
      notices := notices[..index] + notices[index + 1..];
      settled := settled + [Settled(notice.ticket, notice.ack, if remove then Remove else Release, fallback)];
    }
  }

  lemma RunNext(s: System, inputs: seq<Input>, n: nat)
    requires n < |inputs|
    ensures Run(s, inputs[..n + 1]) == Step(Run(s, inputs[..n]), inputs[n])
  {
    assert inputs[..n + 1][..n] == inputs[..n];
  }
}
