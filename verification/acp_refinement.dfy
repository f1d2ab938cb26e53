/** Every run of the client, whatever the environment does, is a legal history that it remembers correctly. */
module AcpRefinement {
  import opened Options
  import opened Json
  import opened AcpWire
  import opened AcpRules
  import opened AcpTurn

  /** The client's fields are what its own history leaves to remember. */
  predicate Remembers(c: Client) {
    && Legal(c.log) && !AckDue(c.log)
    && c.nextId == NextId(c.log)
    && c.lastPromptId == PromptOf(c.log)
    && c.pendingPermissionId == Asked(c.log)
    && (c.pendingPermissionId.Some? ==> !c.permissionResponded)
    && c.activeRunId == RunIdFold(c.log)
    && c.steeringSupported == Advertised(c.log)
  }

  /** The loop returned after settling the pending steer. */
  predicate Settled(exit: Option<Exit>) {
    exit.Some? && (exit.value.Completed? || exit.value.Drained?)
  }

  /** `prompting` tells the loop of a prompt call from the drain loop of a cancel call. */
  predicate LoopRemembers(g: Config, prompting: bool) {
    && Remembers(g.client)
    && g.turn.promptId < g.client.nextId
    && g.client.lastPromptId == (if prompting then Some(g.turn.promptId) else None)
    && SteeringOf(g.client.log).owed.None?
    && SteeringOf(g.client.log).pending == g.turn.pending
    && (g.turn.pending.Some? ==> g.turn.promptId < g.turn.pending.value.id)
    && !SteeringOf(g.client.log).phase.Outside?
    && (if Settled(g.exit) then g.turn.pending.None? else SteeringOf(g.client.log).phase.Reading?)
  }

  lemma DrainRemembers(g: Config, exit: Exit, prompting: bool)
    requires LoopRemembers(g, prompting) && Settled(Some(exit))
    ensures LoopRemembers(Drain(g).(exit := Some(exit)), prompting)
  { }

  // ----- One event at a time -----

  /** `k` is `h`, or `h` and one answer to the agent after it. */
  predicate AnswersAtMost(h: History, k: History) {
    k == h || (k.Then? && k.prior == h && IsAnswering(k.last))
  }

  predicate IsAnswering(e: Event) {
    || (e.Wrote? && (e.msg.PermissionAnswer? || e.msg.MethodNotFound?))
    || (e.WriteFailed? && (e.msg.PermissionAnswer? || e.msg.MethodNotFound?))
  }

  predicate OnlyAnswers(c: Client, d: Client) {
    AnswersAtMost(c.log, d.log) && d.clock == c.clock && d.currentHardDeadline == c.currentHardDeadline
  }

  lemma PermissionAnswers(c: Client, id: Option<Value>, options: Option<seq<PermissionOption>>, env: Env)
    ensures OnlyAnswers(c, HandlePermission(c, id, options, env).0)
  { }

  /** Handling a frame writes at most one answer, and leaves the clock and the deadline alone. */
  lemma DispatchAnswers(c: Client, msg: Msg, env: Env)
    ensures OnlyAnswers(c, Dispatch(c, msg, env).0)
  {
    if msg.verb.RequestPermission? { PermissionAnswers(c, msg.id, msg.verb.options, env); }
  }

  /** The client just after it took in a frame that is not a reply to the pending steer. */
  function Absorb(c: Client, msg: Msg, at: nat): Client {
    var asks := msg.verb.RequestPermission? && msg.id.Some?;
    Record(c, Read(msg, at)).(
      activeRunId := ApplyUpdate(c.activeRunId, msg.verb),
      pendingPermissionId := if asks then msg.id else c.pendingPermissionId,
      permissionResponded := if asks then false else c.permissionResponded)
  }

  /** The client keeps its memory straight and leaves the steer alone. */
  predicate Follows(c: Client, d: Client) {
    && Remembers(d) && SteeringOf(d.log) == SteeringOf(c.log)
    && d.nextId == c.nextId && d.lastPromptId == c.lastPromptId
  }

  lemma AbsorbRemembers(c: Client, msg: Msg, at: nat)
    requires Remembers(c)
    requires SteeringOf(c.log).pending.Some? ==> !IsReplyTo(msg, SteeringOf(c.log).pending.value.id)
    ensures Follows(c, Absorb(c, msg, at))
  { }

  lemma {:induction false} FindsFirst(options: seq<PermissionOption>, kind: OptionKind)
    ensures match FindKind(options, kind)
            case None => forall k :: 0 <= k < |options| ==> options[k].kind != kind
            case Some(o) =>
              exists k :: 0 <= k < |options| && options[k] == o && o.kind == kind
                          && forall j :: 0 <= j < k ==> options[j].kind != kind
  {
    if options != [] && options[0].kind != kind {
      FindsFirst(options[1..], kind);
      assert forall k :: 0 < k < |options| ==> options[k] == options[1..][k - 1];
      if FindKind(options[1..], kind).Some? {
        var k :| 0 <= k < |options[1..]| && options[1..][k] == FindKind(options, kind).value
          && forall j :: 0 <= j < k ==> options[1..][j].kind != kind;
        assert options[k + 1] == FindKind(options, kind).value;
      }
    }
  }

  /** Whatever the decision, a selected option is one of the request's own. */
  lemma ChoiceOffered(probing: bool, decision: Decision, options: seq<PermissionOption>)
    ensures var choice := ChoiceFor(probing, decision, options);
            choice.Some? && choice.value.Selected? ==> Offered(options, choice.value.optionId)
  {
    FindsFirst(options, AllowOnce);
    FindsFirst(options, RejectOnce);
    forall k | 0 <= k < |options| && options[k].kind.RejectOnce? && options[k].optionId.None?
      ensures GoesBy(options[k], "reject")
    { }
  }

  lemma AnswerRemembers(c: Client, choice: Choice, ok: bool, responded: bool)
    requires Remembers(c) && c.pendingPermissionId.Some?
    requires MaySelect(c.log, PermissionAnswer(c.pendingPermissionId.value, choice))
    ensures var w := Write(c, PermissionAnswer(c.pendingPermissionId.value, choice), ok);
            Follows(c, if ok then w.(pendingPermissionId := None, permissionResponded := responded) else w)
  { }

  lemma NotFoundRemembers(c: Client, id: Value, ok: bool)
    requires Remembers(c)
    ensures Follows(c, Write(c, MethodNotFound(id), ok))
  { }

  lemma HandleRemembers(c: Client, msg: Msg, at: nat, env: Env)
    requires Remembers(c) && msg.verb.RequestPermission?
    ensures Follows(c, HandlePermission(Record(c, Read(msg, at)), msg.id, msg.verb.options, env).0)
  {
    AbsorbRemembers(c, msg, at);
    if msg.id.Some? && msg.verb.options.Some? && (c.probing || env.decision.Some?) {
      var choice := ChoiceFor(c.probing, DecisionOf(env), msg.verb.options.value);
      ChoiceOffered(c.probing, DecisionOf(env), msg.verb.options.value);
      if choice.Some? { AnswerRemembers(Absorb(c, msg, at), choice.value, env.writeOk, true); }
    }
  }

  lemma DispatchRemembers(c: Client, msg: Msg, at: nat, env: Env)
    requires Remembers(c)
    requires SteeringOf(c.log).pending.Some? ==> !IsReplyTo(msg, SteeringOf(c.log).pending.value.id)
    ensures Follows(c, Dispatch(Record(c, Read(msg, at)), msg, env).0)
  {
    AbsorbRemembers(c, msg, at);
    match msg.verb
    case RequestPermission(_) => HandleRemembers(c, msg, at, env);
    case Unknown(_) => if msg.id.Some? { NotFoundRemembers(Absorb(c, msg, at), msg.id.value, env.writeOk); }
    case _ =>
  }

  lemma TookRemembers(c: Client, ticket: nat)
    requires Remembers(c) && SteeringOf(c.log) == Steering(None, None, Reading)
    ensures Remembers(Record(c, Took(ticket)))
    ensures SteeringOf(Record(c, Took(ticket)).log) == Steering(Some(ticket), None, Reading)
  { }

  lemma RejectRemembers(c: Client, ticket: nat, error: SteerError)
    requires Remembers(c) && SteeringOf(c.log) == Steering(Some(ticket), None, Reading)
    ensures var d := Record(c, Acked(ticket, Rejected(error)));
            Remembers(d) && SteeringOf(d.log) == Steering(None, None, Reading)
  { }

  lemma SendSteerRemembers(c: Client, ticket: nat, ok: bool)
    requires Remembers(c) && SteeringOf(c.log) == Steering(Some(ticket), None, Reading)
    requires c.activeRunId.Some? || c.steeringSupported
    ensures var d := Write(c.(nextId := c.nextId + 1), SteerMessage(c, ticket), ok);
            && Remembers(d)
            && SteeringOf(d.log) ==
                 if ok then Steering(None, Some(Steer(c.nextId, TransportOf(c), ticket)), Reading)
                 else SteeringOf(c.log)
  { }

  /** A loop whose client has just taken a steer request. */
  predicate Owing(g: Config, ticket: nat, prompting: bool) {
    && Remembers(g.client) && SteeringOf(g.client.log) == Steering(Some(ticket), None, Reading)
    && g.exit.None? && g.turn.pending.None? && g.turn.promptId < g.client.nextId
    && g.client.lastPromptId == (if prompting then Some(g.turn.promptId) else None)
  }

  lemma TakeRemembers(g: Config, ticket: nat, prompting: bool)
    requires LoopRemembers(g, prompting) && g.exit.None? && g.turn.pending.None?
    ensures Owing(g.(client := Record(g.client, Took(ticket))), ticket, prompting)
  {
    TookRemembers(g.client, ticket);
  }

  lemma RefuseRemembers(g: Config, ticket: nat, error: SteerError, prompting: bool)
    requires Owing(g, ticket, prompting)
    ensures LoopRemembers(g.(client := Record(g.client, Acked(ticket, Rejected(error)))), prompting)
  {
    RejectRemembers(g.client, ticket, error);
  }

  lemma SendRemembers(g: Config, ticket: nat, ok: bool, prompting: bool)
    requires Owing(g, ticket, prompting) && (g.client.activeRunId.Some? || g.client.steeringSupported)
    ensures LoopRemembers(SendSteer(g, ticket, ok), prompting)
  {
    SendSteerRemembers(g.client, ticket, ok);
    if !ok {
      var c := Write(g.client.(nextId := g.client.nextId + 1), SteerMessage(g.client, ticket), false);
      RefuseRemembers(g.(client := c), ticket, TransportFailed, prompting);
    }
  }

  lemma SteerArmRemembers(g: Config, ticket: nat, env: Env, prompting: bool)
    requires LoopRemembers(g, prompting) && g.exit.None? && g.turn.pending.None?
    ensures LoopRemembers(SteerArm(g, ticket, env), prompting)
  {
    TakeRemembers(g, ticket, prompting);
    var h := g.(client := Record(g.client, Took(ticket)));
    if h.client.activeRunId.None? && !h.client.steeringSupported {
      RefuseRemembers(h, ticket, ExpectedRunIdMissing, prompting);
    } else {
      SendRemembers(h, ticket, env.writeOk, prompting);
    }
  }

  lemma AckReplyRemembers(c: Client, reply: Msg, at: nat)
    requires Remembers(c) && SteeringOf(c.log).owed.None? && SteeringOf(c.log).pending.Some?
        && SteeringOf(c.log).phase.Reading?
    requires IsReplyTo(reply, SteeringOf(c.log).pending.value.id)
    ensures var s := SteeringOf(c.log).pending.value;
            var d := Record(Record(c, Read(reply, at)), Acked(s.ticket, SteerVerdict(s.transport, reply)));
            Remembers(d) && SteeringOf(d.log) == Steering(None, None, Reading)
  {
    var read := Then(c.log, Read(reply, at));
    assert Legal(read) && AckDue(read) && SteeringOf(read) == SteeringOf(c.log);
  }

  // ----- One iteration at a time -----

  lemma RenewRemembers(g: Config, more: nat, prompting: bool)
    requires LoopRemembers(g, prompting)
    ensures LoopRemembers(Renew(g, more), prompting)
  { }

  lemma RouteSteerRemembers(g: Config, reply: Msg, at: nat, more: nat, prompting: bool)
    requires LoopRemembers(g, prompting) && g.exit.None? && g.turn.pending.Some?
    requires IsReplyTo(reply, g.turn.pending.value.id)
    ensures LoopRemembers(RouteSteer(g.(client := Record(g.client, Read(reply, at))), reply, more), prompting)
  {
    AckReplyRemembers(g.client, reply, at);
    var s := g.turn.pending.value;
    var d := Record(Record(g.client, Read(reply, at)), Acked(s.ticket, SteerVerdict(s.transport, reply)));
    RenewRemembers(Config(d, g.turn.(pending := None), None), more, prompting);
  }

  lemma RouteRemembers(g: Config, reply: Msg, env: Env, prompting: bool)
    requires LoopRemembers(g, prompting) && g.exit.None? && g.turn.pending.Some?
    requires IsReplyTo(reply, g.turn.pending.value.id)
    ensures LoopRemembers(Receive(g, reply, env), prompting)
  {
    var t := Touch(g, env.work);
    RouteSteerRemembers(t, reply, t.client.clock, env.more, prompting);
  }

  lemma FinishRemembers(g: Config, reply: Msg, env: Env, prompting: bool)
    requires LoopRemembers(g, prompting) && g.exit.None? && IsReplyTo(reply, g.turn.promptId)
    ensures LoopRemembers(Receive(g, reply, env), prompting)
  {
    var t := Touch(g, env.work);
    var h := t.(client := Record(t.client, Read(reply, t.client.clock)));
    AbsorbRemembers(t.client, reply, t.client.clock);
    DrainRemembers(h, FinishPrompt(h, reply).exit.value, prompting);
  }

  lemma SwapRemembers(g: Config, c: Client, prompting: bool)
    requires LoopRemembers(g, prompting) && g.exit.None? && Follows(g.client, c)
    ensures LoopRemembers(g.(client := c), prompting)
  { }

  lemma ConcludeRemembers(g: Config, verdict: Verdict, more: nat, prompting: bool)
    requires LoopRemembers(g, prompting) && g.exit.None?
    ensures LoopRemembers(Conclude(g, verdict, more), prompting)
  { }

  lemma DispatchArmRemembers(g: Config, msg: Msg, at: nat, env: Env, prompting: bool)
    requires LoopRemembers(g, prompting) && g.exit.None?
    requires g.turn.pending.Some? ==> !IsReplyTo(msg, g.turn.pending.value.id)
    ensures LoopRemembers(DispatchArm(g.(client := Record(g.client, Read(msg, at))), msg, env), prompting)
  {
    DispatchRemembers(g.client, msg, at, env);
    var (c, verdict) := Dispatch(Record(g.client, Read(msg, at)), msg, env);
    SwapRemembers(g, c, prompting);
    ConcludeRemembers(g.(client := c), verdict, env.more, prompting);
  }

  lemma OtherFrameRemembers(g: Config, msg: Msg, env: Env, prompting: bool)
    requires LoopRemembers(g, prompting) && g.exit.None? && !IsReplyTo(msg, g.turn.promptId)
    requires g.turn.pending.Some? ==> !IsReplyTo(msg, g.turn.pending.value.id)
    ensures LoopRemembers(Receive(g, msg, env), prompting)
  {
    var t := Touch(g, env.work);
    DispatchArmRemembers(t, msg, t.client.clock, env, prompting);
  }

  lemma ReceiveRemembers(g: Config, msg: Msg, env: Env, prompting: bool)
    requires LoopRemembers(g, prompting) && g.exit.None?
    ensures LoopRemembers(Receive(g, msg, env), prompting)
  {
    if g.turn.pending.Some? && IsReplyTo(msg, g.turn.pending.value.id) {
      RouteRemembers(g, msg, env, prompting);
    } else if IsReplyTo(msg, g.turn.promptId) {
      FinishRemembers(g, msg, env, prompting);
    } else {
      OtherFrameRemembers(g, msg, env, prompting);
    }
  }

  lemma TimeOutRemembers(g: Config, more: nat, prompting: bool)
    requires LoopRemembers(g, prompting) && g.exit.None?
    ensures LoopRemembers(TimeOut(g, more), prompting)
  {
    DrainRemembers(g, Drained(IdleTimeout(g.turn.idleTimeout)), prompting);
    DrainRemembers(Later(g, more), TimeOut(g, more).exit.value, prompting);
  }

  lemma DeadlineRemembers(g: Config, i: Input, prompting: bool)
    requires LoopRemembers(g, prompting) && g.exit.None? && i.arm.DeadlineFires?
    ensures LoopRemembers(Select(g, i), prompting)
  {
    TimeOutRemembers(Later(g, SleepTime(g, i.env.work)), i.env.more, prompting);
  }

  lemma QuietRemembers(g: Config, i: Input, prompting: bool)
    requires LoopRemembers(g, prompting) && g.exit.None? && !i.arm.DeadlineFires? && !i.arm.Frame?
        && !i.arm.SteerRequest?
    ensures LoopRemembers(Select(g, i), prompting)
  {
    DrainRemembers(g, Drained(AgentExited), prompting);
    DrainRemembers(g, Drained(LineTooLong), prompting);
    DrainRemembers(g, Drained(Io), prompting);
  }

  lemma SelectRemembers(g: Config, i: Input, prompting: bool)
    requires LoopRemembers(g, prompting) && g.exit.None?
    ensures LoopRemembers(Select(g, i), prompting)
  {
    match i.arm
    case Frame(msg) => ReceiveRemembers(g, msg, i.env, prompting);
    case SteerRequest(ticket) => if g.turn.pending.None? { SteerArmRemembers(g, ticket, i.env, prompting); }
    case DeadlineFires => DeadlineRemembers(g, i, prompting);
    case _ => QuietRemembers(g, i, prompting);
  }

  lemma StepRemembers(g: Config, i: Input, prompting: bool)
    requires LoopRemembers(g, prompting)
    ensures LoopRemembers(Step(g, i), prompting)
  {
    if g.exit.None? {
      var h := Later(g, i.env.wait);
      if h.client.clock >= NextDeadline(h.turn) {
        TimeOutRemembers(h, i.env.more, prompting);
      } else {
        SelectRemembers(h, i, prompting);
      }
    }
  }

  lemma {:induction false} RunRemembers(g: Config, script: seq<Input>, prompting: bool)
    requires LoopRemembers(g, prompting)
    ensures LoopRemembers(Run(g, script), prompting)
    decreases |script|
  {
    if script != [] {
      RunRemembers(g, script[..|script| - 1], prompting);
      StepRemembers(Run(g, script[..|script| - 1]), script[|script| - 1], prompting);
    }
  }

  // ----- Whole calls -----

  /** Between calls no steer is taken, written or owed. */
  predicate Resting(c: Client) {
    Remembers(c) && SteeringOf(c.log) == Steering(None, None, Outside)
  }

  lemma PlainStepRests(p: PlainConfig, id: nat, i: Input)
    requires Resting(p.client)
    ensures Resting(PlainStep(p, id, i).client)
  {
    if p.exit.None? && i.arm.Frame? {
      var c := Wait(p.client, i.env.work);
      if IsReplyTo(i.arm.msg, id) {
        AbsorbRemembers(c, i.arm.msg, c.clock);
      } else {
        DispatchRemembers(c, i.arm.msg, c.clock, i.env);
      }
    }
  }

  lemma {:induction false} PlainRunRests(p: PlainConfig, id: nat, script: seq<Input>)
    requires Resting(p.client)
    ensures Resting(PlainRun(p, id, script).client)
    decreases |script|
  {
    if script != [] {
      PlainRunRests(p, id, script[..|script| - 1]);
      PlainStepRests(PlainRun(p, id, script[..|script| - 1]), id, script[|script| - 1]);
    }
  }

  lemma CallRests(c: Client, writeOk: bool, script: seq<Input>)
    requires Resting(c)
    ensures Resting(CallOp(c, writeOk, script).client)
  {
    var wrote := Write(c.(nextId := c.nextId + 1), Call(c.nextId), writeOk);
    assert Resting(wrote);
    if writeOk { PlainRunRests(PlainConfig(wrote, None), c.nextId, script); }
  }

  lemma InitializeRests(c: Client, writeOk: bool, script: seq<Input>)
    requires Resting(c)
    ensures Resting(InitializeOp(c, writeOk, script))
  {
    CallRests(c, writeOk, script);
  }

  lemma EnterRemembers(c: Client, promptId: nat, idle: nat, hard: nat, max: nat, prompting: bool)
    requires Resting(c) && promptId < c.nextId
    requires c.lastPromptId == (if prompting then Some(promptId) else None)
    ensures LoopRemembers(Enter(c, promptId, idle, hard, max), prompting)
  { }

  lemma BeginPromptRests(c: Client, wait: nat, max: nat, writeOk: bool)
    requires Resting(c)
    ensures var b := BeginPrompt(c, wait, max, writeOk);
            Resting(b) && b.nextId == c.nextId + 1 && b.lastPromptId == if writeOk then Some(c.nextId) else None
  { }

  lemma LeaveRests(g: Config, prompting: bool)
    requires LoopRemembers(g, prompting)
    ensures Resting(Record(g.client, Left))
  { }

  lemma EndPromptRests(g: Config)
    requires LoopRemembers(g, true)
    ensures Resting(EndPrompt(g))
  {
    LeaveRests(g, true);
  }

  lemma EndCancelRests(g: Config)
    requires LoopRemembers(g, false)
    ensures Resting(EndCancel(g))
  {
    LeaveRests(g, false);
  }

  lemma CancelRests(c: Client, promptId: nat, ok: bool)
    requires Resting(c) && TakenOver(c.log) == Some(promptId)
    ensures Resting(Write(c, Cancel(promptId), ok))
  { }

  lemma SettleRests(c: Client, promptId: nat, ok: bool)
    requires Resting(c) && TakenOver(c.log) == Some(promptId)
    ensures var (d, done) := SettlePermission(c, ok); Resting(d) && (done ==> TakenOver(d.log) == Some(promptId))
  {
    if c.pendingPermissionId.Some? { AnswerRemembers(c, Cancelled, ok, false); }
  }

  lemma BeginCancelRests(c: Client, wait: nat, answerOk: bool, cancelOk: bool)
    requires Resting(c)
    ensures Resting(BeginCancel(c, wait, answerOk, cancelOk).0)
    ensures BeginCancel(c, wait, answerOk, cancelOk).0.nextId == c.nextId
    ensures BeginCancel(c, wait, answerOk, cancelOk).0.lastPromptId.None?
  {
    if c.lastPromptId.Some? {
      var cleared := Wait(c, wait).(currentHardDeadline := None, lastPromptId := None);
      var taken := Record(cleared, Cancelling(c.lastPromptId.value));
      assert Resting(taken);
      SettleRests(taken, c.lastPromptId.value, answerOk);
      var (settled, ok) := SettlePermission(taken, answerOk);
      if ok { CancelRests(settled, c.lastPromptId.value, cancelOk); }
    }
  }

  lemma PromptStartRemembers(c: Client, wait: nat, writing: nat, idle: nat, max: nat)
    requires Resting(c)
    ensures LoopRemembers(PromptStart(c, wait, writing, idle, max), true)
  {
    BeginPromptRests(c, wait, max, true);
    var b := BeginPrompt(c, wait, max, true);
    EnterRemembers(Wait(b, writing), c.nextId, idle, b.clock + max, max, true);
  }

  lemma PromptLoopRemembers(c: Client, wait: nat, writing: nat, idle: nat, max: nat, script: seq<Input>)
    requires Resting(c)
    ensures LoopRemembers(PromptLoop(c, wait, writing, idle, max, script), true)
  {
    PromptStartRemembers(c, wait, writing, idle, max);
    RunRemembers(PromptStart(c, wait, writing, idle, max), script, true);
  }

  lemma PromptIdSpent(c: Client)
    requires Resting(c) && c.lastPromptId.Some?
    ensures c.lastPromptId.value < c.nextId
  {
    LegalCancels(c.log);
  }

  lemma CancelStartRemembers(c: Client, wait: nat, writing: nat, grace: Option<nat>, answerOk: bool, cancelOk: bool)
    requires Resting(c) && c.lastPromptId.Some? && BeginCancel(c, wait, answerOk, cancelOk).1.None?
    ensures LoopRemembers(CancelStart(c, wait, writing, grace, answerOk, cancelOk), false)
  {
    BeginCancelRests(c, wait, answerOk, cancelOk);
    PromptIdSpent(c);
    var hard := DrainDeadline(c.currentHardDeadline, c.clock + wait, grace);
    LaterEnterRemembers(BeginCancel(c, wait, answerOk, cancelOk).0, writing, c.lastPromptId.value, hard);
  }

  lemma LaterEnterRemembers(c: Client, writing: nat, promptId: nat, hard: nat)
    requires Resting(c) && promptId < c.nextId && c.lastPromptId.None?
    ensures var b := Wait(c, writing);
            LoopRemembers(Enter(b, promptId, CLEANUP_MS, hard, Remaining(hard, b.clock)), false)
  {
    var b := Wait(c, writing);
    EnterRemembers(b, promptId, CLEANUP_MS, hard, Remaining(hard, b.clock), false);
  }

  lemma CancelLoopRemembers(c: Client, wait: nat, writing: nat, grace: Option<nat>, answerOk: bool, cancelOk: bool,
                            script: seq<Input>)
    requires Resting(c) && c.lastPromptId.Some? && BeginCancel(c, wait, answerOk, cancelOk).1.None?
    ensures LoopRemembers(CancelLoop(c, wait, writing, grace, answerOk, cancelOk, script), false)
  {
    CancelStartRemembers(c, wait, writing, grace, answerOk, cancelOk);
    RunRemembers(CancelStart(c, wait, writing, grace, answerOk, cancelOk), script, false);
  }

  lemma ExecRests(c: Client, op: Op)
    requires Resting(c)
    ensures Resting(Exec(c, op))
  {
    match op
    case DoCall(ok, script) => CallRests(c, ok, script);
    case DoInitialize(ok, script) => InitializeRests(c, ok, script);
    case DoPrompt(wait, writing, idle, max, ok, script) =>
      if ok {
        PromptLoopRemembers(c, wait, writing, idle, max, script);
        EndPromptRests(PromptLoop(c, wait, writing, idle, max, script));
      } else {
        BeginPromptRests(c, wait, max, ok);
      }
    case DoCancel(wait, writing, grace, answerOk, cancelOk, script) =>
      if BeginCancel(c, wait, answerOk, cancelOk).1.None? {
        CancelLoopRemembers(c, wait, writing, grace, answerOk, cancelOk, script);
        EndCancelRests(CancelLoop(c, wait, writing, grace, answerOk, cancelOk, script));
      } else {
        BeginCancelRests(c, wait, answerOk, cancelOk);
      }
    case _ =>
  }

  lemma {:induction false} ExecAllRests(c: Client, ops: seq<Op>)
    requires Resting(c)
    ensures Resting(ExecAll(c, ops))
    decreases |ops|
  {
    if ops != [] {
      ExecAllRests(c, ops[..|ops| - 1]);
      ExecRests(ExecAll(c, ops[..|ops| - 1]), ops[|ops| - 1]);
    }
  }
}
