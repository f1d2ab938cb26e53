/** The ACP client object: the fields it updates in place, and its calls, proved against the state machine. */
module AcpClientObject {
  import opened Options
  import opened Json
  import opened AcpWire
  import opened AcpRules
  import opened AcpTurn
  import opened AcpRefinement
  import opened AcpFrames

  class AcpClient {
    var nextId: nat
    var lastPromptId: Option<nat>
    var currentHardDeadline: Option<nat>
    var pendingPermissionId: Option<Value>
    var permissionResponded: bool
    var activeRunId: Option<string>
    var steeringSupported: bool
    var steerRx: bool
    const connectionProbe: bool
    var probing: bool
    var clock: nat
    ghost var log: History

    ghost function View(): Client
      reads this
    {
      Client(nextId, lastPromptId, currentHardDeadline, pendingPermissionId, permissionResponded, activeRunId,
             steeringSupported, steerRx, probing, clock, log)
    }

    /** Between calls: the fields are what the history leaves to remember, and no steer is unsettled. */
    ghost predicate Valid()
      reads this
    {
      Resting(View())
    }

    constructor (probing: bool, clock: nat)
      ensures View() == Fresh(probing, clock) && Valid()
    {
      connectionProbe, this.probing, this.clock := probing, probing, clock;
      nextId, lastPromptId, currentHardDeadline := 0, None, None;
      pendingPermissionId, permissionResponded := None, false;
      activeRunId, steeringSupported, steerRx := None, false, false;
      log := Start;
    }

    method WriteNdjson(msg: Outgoing, ok: bool)
      modifies this`log
      ensures View() == Write(old(View()), msg, ok)
    {
      log := Then(log, if ok then Wrote(msg) else WriteFailed(msg));
    }

    method HandlePermissionRequest(id: Option<Value>, options: Option<seq<PermissionOption>>, env: Env)
      returns (verdict: Verdict)
      modifies this
      ensures (View(), verdict) == HandlePermission(old(View()), id, options, env)
    {
      if id.None? { return Fail(BadPermissionRequest); }
      pendingPermissionId := id;
      permissionResponded := false;
      if options.None? { return Fail(BadPermissionRequest); }
      if !probing && env.decision.None? { return Abandoned; }
      var choice := ChoiceFor(probing, DecisionOf(env), options.value);
      if choice.None? { return Fail(BadPermissionRequest); }
      WriteNdjson(PermissionAnswer(id.value, choice.value), env.writeOk);
      if !env.writeOk { return Fail(BrokenPipe); }
      permissionResponded := true;
      pendingPermissionId := None;
      return Done(false);
    }

    method HandleFrame(msg: Msg, env: Env) returns (verdict: Verdict)
      modifies this
      ensures (View(), verdict) == Dispatch(old(View()), msg, env)
    {
      verdict := Done(false);
      match msg.verb
      case SessionUpdate(update) =>
        match update {
          case RunIs(run) => activeRunId := Some(run);
          case RunCleared => activeRunId := None;
          case _ =>
        }
        verdict := Done(update.ToolCall?);
      case RequestPermission(options) =>
        verdict := HandlePermissionRequest(msg.id, options, env);
      case Unknown(_) =>
        if msg.id.Some? {
          WriteNdjson(MethodNotFound(msg.id.value), env.writeOk);
          if !env.writeOk { verdict := Fail(BrokenPipe); }
        }
      case _ =>
    }

    // ----- The read loop; its local variables are grouped in a `Turn` -----

    method DrainSteer(t: Turn) returns (u: Turn)
      modifies this`log
      ensures forall exit :: Config(View(), u, exit) == Drain(Config(old(View()), t, exit))
    {
      u := t;
      if t.pending.Some? {
        log := Then(log, Acked(t.pending.value.ticket, PromptCompletedNeutral));
        u := t.(pending := None);
      }
    }

    method ReturnOnDeadline(t: Turn, more: nat) returns (u: Turn, exit: Exit)
      modifies this`log, this`clock
      ensures Config(View(), u, Some(exit)) == TimeOut(Config(old(View()), t, None), more)
    {
      if t.idleDeadline < t.hardDeadline {
        exit := Drained(IdleTimeout(t.idleTimeout));
      } else {
        clock := clock + more;
        exit := Drained(HardTimeout(Remaining(clock, t.lastActivity)));
      }
      u := DrainSteer(t);
    }

    method WriteSteer(t: Turn, ticket: nat, ok: bool) returns (u: Turn)
      modifies this`log, this`nextId
      ensures Config(View(), u, None) == SendSteer(Config(old(View()), t, None), ticket, ok)
    {
      u := t;
      var id := nextId;
      nextId := nextId + 1;
      var goose := activeRunId.Some?;
      WriteNdjson(if goose then GooseSteer(id, activeRunId.value, ticket) else ExtensionSteer(id, ticket), ok);
      if ok {
        u := t.(pending := Some(Steer(id, if goose then Goose else Extension, ticket)));
      } else {
        log := Then(log, Acked(ticket, Rejected(TransportFailed)));
      }
    }

    method HandleSteer(t: Turn, ticket: nat, env: Env) returns (u: Turn)
      modifies this`log, this`nextId
      ensures Config(View(), u, None) == SteerArm(Config(old(View()), t, None), ticket, env)
    {
      log := Then(log, Took(ticket));
      if activeRunId.None? && !steeringSupported {
        log := Then(log, Acked(ticket, Rejected(ExpectedRunIdMissing)));
        return t;
      }
      u := WriteSteer(t, ticket, env.writeOk);
    }

    method HandleSteerReply(t: Turn, reply: Msg, more: nat) returns (u: Turn)
      requires t.pending.Some?
      modifies this`log, this`clock, this`currentHardDeadline
      ensures Config(View(), u, None) == RouteSteer(Config(old(View()), t, None), reply, more)
    {
      var steer := t.pending.value;
      u := t.(pending := None);
      if Injected(steer.transport, reply) {
        clock := clock + more;
        if clock + t.maxDuration > t.hardDeadline {
          u := u.(hardDeadline := clock + t.maxDuration);
          currentHardDeadline := Some(clock + t.maxDuration);
        }
      }
      log := Then(log, Acked(steer.ticket, SteerVerdict(steer.transport, reply)));
    }

    method DispatchFrame(t: Turn, msg: Msg, env: Env) returns (u: Turn, exit: Option<Exit>)
      modifies this
      ensures Config(View(), u, exit) == DispatchArm(Config(old(View()), t, None), msg, env)
    {
      u, exit := t, None;
      var verdict := HandleFrame(msg, env);
      match verdict
      case Done(tool) =>
        if tool {
          clock := clock + env.more;
          u := t.(idleDeadline := clock + t.idleTimeout, lastActivity := clock);
        }
      case Fail(e) => exit := Some(Propagated(e));
      case Abandoned => exit := Some(DroppedInHandler);
    }

    method NoteFrame(t: Turn, msg: Msg, work: nat) returns (u: Turn)
      modifies this`log, this`clock
      ensures Config(View(), u, None) == TakeIn(Config(old(View()), t, None), msg, work)
    {
      clock := clock + work;
      u := t.(idleDeadline := clock + t.idleTimeout, lastActivity := clock);
      log := Then(log, Read(msg, clock));
    }

    method ReceiveFrame(t: Turn, msg: Msg, env: Env) returns (u: Turn, exit: Option<Exit>)
      modifies this
      ensures Config(View(), u, exit) == Receive(Config(old(View()), t, None), msg, env)
    {
      exit := None;
      u := NoteFrame(t, msg, env.work);
      if u.pending.Some? && IsReplyTo(msg, u.pending.value.id) {
        u := HandleSteerReply(u, msg, env.more);
      } else if IsReplyTo(msg, u.promptId) {
        u := DrainSteer(u);
        exit := Some(AnswerExit(msg));
      } else {
        u, exit := DispatchFrame(u, msg, env);
      }
    }

    method SelectOnce(t: Turn, i: Input) returns (u: Turn, exit: Option<Exit>)
      modifies this
      ensures Config(View(), u, exit) == Select(Config(old(View()), t, None), i)
    {
      u, exit := t, None;
      match i.arm
      case ReaderEof => u := DrainSteer(t); exit := Some(Drained(AgentExited));
      case ReaderTooLong => u := DrainSteer(t); exit := Some(Drained(LineTooLong));
      case ReaderIo => u := DrainSteer(t); exit := Some(Drained(Io));
      case BlankLine =>
      case NotJson =>
      case Frame(msg) => u, exit := ReceiveFrame(t, msg, i.env);
      case SteerRequest(ticket) =>
        if t.pending.None? && t.steerRx { u := HandleSteer(t, ticket, i.env); }
      case DeadlineFires =>
        clock := if clock + i.env.work < NextDeadline(t) then NextDeadline(t) else clock + i.env.work;
        var e;
        u, e := ReturnOnDeadline(t, i.env.more);
        exit := Some(e);
    }

    /** One iteration of the loop: the pre-select deadline check, then the select. */
    method Iterate(t: Turn, i: Input) returns (u: Turn, exit: Option<Exit>)
      modifies this
      ensures Config(View(), u, exit) == Step(Config(old(View()), t, None), i)
    {
      ghost var g := Config(View(), t, None);
      clock := clock + i.env.wait;
      assert Config(View(), t, None) == Later(g, i.env.wait);
      if clock >= NextDeadline(t) {
        var e;
        u, e := ReturnOnDeadline(t, i.env.more);
        exit := Some(e);
      } else {
        u, exit := SelectOnce(t, i);
      }
    }

    method ReadUntilResponseWithIdleTimeout(promptId: nat, idle: nat, hard: nat, maxDuration: nat, script: seq<Input>)
      returns (t: Turn, exit: Option<Exit>)
      modifies this
      ensures Config(View(), t, exit) == Run(Enter(old(View()), promptId, idle, hard, maxDuration), script)
    {
      ghost var start := Enter(View(), promptId, idle, hard, maxDuration);
      t := Turn(promptId, idle, maxDuration, steerRx, clock + idle, hard, clock, None);
      steerRx := false;
      log := Then(log, Entered(promptId, clock));
      exit := None;
      for k := 0 to |script|
        invariant Config(View(), t, exit) == Run(start, script[..k])
      {
        assert script[..k + 1][..k] == script[..k] && script[..k + 1][k] == script[k];
        if exit.None? { t, exit := Iterate(t, script[k]); }
      }
      assert script[..|script|] == script;
    }

    // ----- The loop of a plain request -----

    method ReadUntilResponse(id: nat, script: seq<Input>) returns (exit: Option<Exit>)
      modifies this
      ensures PlainConfig(View(), exit) == PlainRun(PlainConfig(old(View()), None), id, script)
    {
      ghost var start := PlainConfig(View(), None);
      exit := None;
      for k := 0 to |script|
        invariant PlainConfig(View(), exit) == PlainRun(start, id, script[..k])
      {
        assert script[..k + 1][..k] == script[..k] && script[..k + 1][k] == script[k];
        if exit.None? { exit := PlainIterate(id, script[k]); }
      }
      assert script[..|script|] == script;
    }

    method PlainIterate(id: nat, i: Input) returns (exit: Option<Exit>)
      modifies this
      ensures PlainConfig(View(), exit) == PlainStep(PlainConfig(old(View()), None), id, i)
    {
      exit := None;
      match i.arm
      case ReaderEof => exit := Some(Drained(AgentExited));
      case ReaderTooLong => exit := Some(Drained(LineTooLong));
      case ReaderIo => exit := Some(Drained(Io));
      case Frame(msg) =>
        clock := clock + i.env.work;
        log := Then(log, Read(msg, clock));
        if IsReplyTo(msg, id) {
          exit := Some(AnswerExit(msg));
        } else {
          var verdict := HandleFrame(msg, i.env);
          match verdict
          case Done(_) =>
          case Fail(e) => exit := Some(Propagated(e));
          case Abandoned => exit := Some(DroppedInHandler);
        }
      case _ =>
    }

    // ----- Calls; each takes the lines the agent will produce and the other inputs of its loop -----

    method SendRequest(writeOk: bool, script: seq<Input>) returns (exit: Option<Exit>)
      requires Valid()
      modifies this
      ensures PlainConfig(View(), exit) == CallOp(old(View()), writeOk, script) && Valid()
    {
      CallRests(View(), writeOk, script);
      var id := nextId;
      nextId := nextId + 1;
      WriteNdjson(Call(id), writeOk);
      if !writeOk { return Some(Propagated(BrokenPipe)); }
      exit := ReadUntilResponse(id, script);
    }

    method Initialize(writeOk: bool, raw: seq<RawInput>) returns (exit: Option<Exit>)
      requires Valid()
      modifies this
      ensures View() == Exec(old(View()), DoInitialize(writeOk, DecodeAll(raw))) && Valid()
      ensures exit == CallOp(old(View()), writeOk, DecodeAll(raw)).exit
    {
      ExecRests(View(), DoInitialize(writeOk, DecodeAll(raw)));
      exit := SendRequest(writeOk, DecodeAll(raw));
      if exit.Some? && exit.value.Completed? {
        steeringSupported := At(At(At(exit.value.result, "_meta"), "steering"), "supported") == Bool(true);
        log := Then(log, Initialized(steeringSupported));
      }
    }

    method BeginSessionPrompt(wait: nat, maxDuration: nat, writeOk: bool)
      modifies this
      ensures View() == BeginPrompt(old(View()), wait, maxDuration, writeOk)
    {
      clock := clock + wait;
      currentHardDeadline := Some(clock + maxDuration);
      lastPromptId := Some(nextId);
      nextId := nextId + 1;
      WriteNdjson(Prompt(nextId - 1), writeOk);
      if !writeOk { lastPromptId, currentHardDeadline := None, None; }
    }

    method EndSessionPrompt(t: Turn, exit: Option<Exit>)
      modifies this
      ensures View() == EndPrompt(Config(old(View()), t, exit))
    {
      log := Then(log, Left);
      if exit.None? || exit.value.DroppedInHandler? || IsTimeout(exit) { return; }
      log := Then(log, if IsAnswer(exit) then Returned(t.promptId) else GaveUp(t.promptId));
      lastPromptId, currentHardDeadline := None, None;
    }

    /** The read loop of a prompt that was written, and the end of its call. */
    method AwaitPrompt(promptId: nat, idle: nat, hard: nat, maxDuration: nat, script: seq<Input>)
      returns (exit: Option<Exit>)
      modifies this
      ensures var g := Run(Enter(old(View()), promptId, idle, hard, maxDuration), script);
              View() == EndPrompt(g) && exit == g.exit
    {
      var t;
      t, exit := ReadUntilResponseWithIdleTimeout(promptId, idle, hard, maxDuration, script);
      EndSessionPrompt(t, exit);
    }

    /** A prompt call on the inputs of its loop. */
    method SendPrompt(wait: nat, writing: nat, idle: nat, maxDuration: nat, writeOk: bool, script: seq<Input>)
      returns (exit: Option<Exit>)
      modifies this
      ensures View() == PromptOp(old(View()), wait, writing, idle, maxDuration, writeOk, script)
      ensures exit == PromptExit(old(View()), wait, writing, idle, maxDuration, writeOk, script)
    {
      var id := nextId;
      BeginSessionPrompt(wait, maxDuration, writeOk);
      if !writeOk { return Some(Propagated(BrokenPipe)); }
      var hard := clock + maxDuration;
      clock := clock + writing;
      exit := AwaitPrompt(id, idle, hard, maxDuration, script);
    }

    method SessionPrompt(wait: nat, writing: nat, idle: nat, maxDuration: nat, writeOk: bool, raw: seq<RawInput>)
      returns (exit: Option<Exit>)
      requires Valid()
      modifies this
      ensures View() == Exec(old(View()), DoPrompt(wait, writing, idle, maxDuration, writeOk, DecodeAll(raw)))
      ensures Valid()
      ensures exit == PromptExit(old(View()), wait, writing, idle, maxDuration, writeOk, DecodeAll(raw))
    {
      ExecRests(View(), DoPrompt(wait, writing, idle, maxDuration, writeOk, DecodeAll(raw)));
      exit := SendPrompt(wait, writing, idle, maxDuration, writeOk, DecodeAll(raw));
    }

    /** Step 1 of a cancel: no permission request stays open. */
    method CancelPermission(ok: bool) returns (done: bool)
      modifies this
      ensures (View(), done) == SettlePermission(old(View()), ok)
    {
      if pendingPermissionId.Some? {
        if !permissionResponded {
          WriteNdjson(PermissionAnswer(pendingPermissionId.value, Cancelled), ok);
          if !ok { return false; }
        }
        pendingPermissionId, permissionResponded := None, false;
      }
      return true;
    }

    /** The first steps of a cancel, up to the drain loop. */
    method BeginCancelling(wait: nat, answerOk: bool, cancelOk: bool) returns (failed: Option<AcpError>)
      modifies this
      ensures (View(), failed) == BeginCancel(old(View()), wait, answerOk, cancelOk)
    {
      clock := clock + wait;
      currentHardDeadline := None;
      if lastPromptId.None? { return Some(NoPromptInFlight); }
      var promptId := lastPromptId.value;
      lastPromptId := None;
      log := Then(log, Cancelling(promptId));
      var settled := CancelPermission(answerOk);
      if !settled { return Some(BrokenPipe); }
      WriteNdjson(Cancel(promptId), cancelOk);
      failed := if cancelOk then None else Some(BrokenPipe);
    }

    method EndCancelling(t: Turn, exit: Option<Exit>)
      modifies this`log
      ensures View() == EndCancel(Config(old(View()), t, exit))
    {
      log := Then(log, Left);
      if IsAnswer(exit) { log := Then(log, Returned(t.promptId)); }
    }

    /** The drain loop of a cancel, and the end of its call. */
    method DrainPrompt(promptId: nat, hard: nat, script: seq<Input>) returns (exit: Option<Exit>)
      modifies this
      ensures var c := old(View());
              var g := Run(Enter(c, promptId, CLEANUP_MS, hard, Remaining(hard, c.clock)), script);
              View() == EndCancel(g) && exit == g.exit
    {
      var t;
      t, exit := ReadUntilResponseWithIdleTimeout(promptId, CLEANUP_MS, hard, Remaining(hard, clock), script);
      EndCancelling(t, exit);
    }

    method CancelWithCleanupUntil(wait: nat, writing: nat, grace: Option<nat>, answerOk: bool, cancelOk: bool,
                                  script: seq<Input>)
      returns (exit: Option<Exit>)
      modifies this
      ensures View() == CancelOp(old(View()), wait, writing, grace, answerOk, cancelOk, script)
      ensures exit == CancelExit(old(View()), wait, writing, grace, answerOk, cancelOk, script)
    {
      var promptId := lastPromptId;
      var hard := DrainDeadline(currentHardDeadline, clock + wait, grace);
      ghost var c := View();
      var failed := BeginCancelling(wait, answerOk, cancelOk);
      if failed.Some? { return Some(Propagated(failed.value)); }
      ghost var b := View();
      clock := clock + writing;
      assert View() == Wait(b, writing);
      exit := DrainPrompt(promptId.value, hard, script);
      assert CancelLoop(c, wait, writing, grace, answerOk, cancelOk, script) ==
             Run(Enter(Wait(b, writing), promptId.value, CLEANUP_MS, hard, Remaining(hard, b.clock + writing)), script);
    }

    /** Both cancel calls: `grace` is given by `cancel_with_cleanup_grace` only. */
    method CancelWithCleanup(wait: nat, writing: nat, grace: Option<nat>, answerOk: bool, cancelOk: bool,
                             raw: seq<RawInput>)
      returns (exit: Option<Exit>)
      requires Valid()
      modifies this
      ensures View() == Exec(old(View()), DoCancel(wait, writing, grace, answerOk, cancelOk, DecodeAll(raw)))
      ensures Valid()
      ensures exit ==
              Graced(CancelExit(old(View()), wait, writing, grace, answerOk, cancelOk, DecodeAll(raw)), grace)
    {
      ExecRests(View(), DoCancel(wait, writing, grace, answerOk, cancelOk, DecodeAll(raw)));
      exit := CancelWithCleanupUntil(wait, writing, grace, answerOk, cancelOk, DecodeAll(raw));
      if grace.Some? && exit.Some? && exit.value.Drained? && exit.value.error.HardTimeout? {
        exit := Some(Drained(CancelDrainTimeout(grace.value)));
      }
    }

    method InstallSteerRx()
      requires Valid() && !steerRx
      modifies this`steerRx
      ensures View() == Exec(old(View()), InstallSteer) && Valid()
    {
      steerRx := true;
    }

    method ClearSteerRx()
      requires Valid()
      modifies this`steerRx
      ensures View() == Exec(old(View()), ClearSteer) && Valid()
    {
      steerRx := false;
    }

    /** From here on the client is in a connection test, which authorizes no tool. */
    method CaptureConnectionReply()
      requires Valid()
      modifies this`probing
      ensures View() == Exec(old(View()), SetProbing(true)) && Valid()
    {
      probing := true;
    }

    /** The test ends, except for a client that was spawned as a probe. */
    method TakeConnectionReply()
      requires Valid()
      modifies this`probing
      ensures View() == Exec(old(View()), SetProbing(connectionProbe)) && Valid()
    {
      probing := connectionProbe;
    }
  }
}
