/** Deadlines of a prompt turn. */
module AcpTiming {
  import opened Options
  import opened AcpWire
  import opened AcpTurn
  import opened AcpRefinement

  /** The idle deadline follows the last activity, which is no older than the last valid frame. */
  predicate Timely(g: Config) {
    && g.turn.idleDeadline == g.turn.lastActivity + g.turn.idleTimeout
    && LastFrameAt(g.client.log) <= g.turn.lastActivity <= g.client.clock
  }

  /** What the agent's reply must be for the hard deadline to move. */
  predicate Renews(g: Config, i: Input) {
    && i.arm.Frame? && g.turn.pending.Some?
    && IsReplyTo(i.arm.msg, g.turn.pending.value.id)
    && Injected(g.turn.pending.value.transport, i.arm.msg)
  }

  /** The hard deadline stands still, or moves up to `maxDuration` from now and takes the stored copy along. */
  predicate HardDeadlineStep(g: Config, i: Input, h: Config) {
    || (h.turn.hardDeadline == g.turn.hardDeadline && h.client.currentHardDeadline == g.client.currentHardDeadline)
    || (&& Renews(g, i)
        && g.turn.hardDeadline < h.turn.hardDeadline == h.client.clock + g.turn.maxDuration
        && h.client.currentHardDeadline == Some(h.turn.hardDeadline))
  }

  predicate SameTurn(g: Config, h: Config) {
    && h.turn.promptId == g.turn.promptId
    && h.turn.idleTimeout == g.turn.idleTimeout
    && h.turn.maxDuration == g.turn.maxDuration
    && g.client.clock <= h.client.clock
  }

  /** A time-out is reported for the deadline that passed, with the silence it ended. */
  predicate ExitTimely(h: Config) {
    IsTimeout(h.exit) ==>
      match h.exit.value.error
      case IdleTimeout(d) =>
        && d == h.turn.idleTimeout
        && LastFrameAt(h.client.log) + d <= h.client.clock
        && h.turn.idleDeadline < h.turn.hardDeadline
      case HardTimeout(silence) =>
        && h.turn.hardDeadline <= h.client.clock
        && h.turn.lastActivity + silence == h.client.clock
        && h.turn.hardDeadline <= h.turn.idleDeadline
      case _ => true
  }

  predicate TimeStep(g: Config, i: Input, h: Config) {
    Timely(h) && SameTurn(g, h) && HardDeadlineStep(g, i, h) && ExitTimely(h)
  }

  lemma DispatchKeepsTime(c: Client, msg: Msg, env: Env)
    ensures var d := Dispatch(c, msg, env).0;
            d.clock == c.clock && d.currentHardDeadline == c.currentHardDeadline
                && LastFrameAt(d.log) == LastFrameAt(c.log)
  {
    DispatchAnswers(c, msg, env);
    AnswerKeepsFrames(c.log, Dispatch(c, msg, env).0.log);
  }

  lemma AnswerKeepsFrames(h: History, k: History)
    requires AnswersAtMost(h, k)
    ensures LastFrameAt(k) == LastFrameAt(h)
  { }

  lemma TimeOutTiming(g: Config, more: nat, i: Input)
    requires Timely(g) && g.exit.None? && g.client.clock >= NextDeadline(g.turn)
    ensures TimeStep(g, i, TimeOut(g, more))
  { }

  lemma SteerArmTiming(g: Config, ticket: nat, i: Input)
    requires Timely(g) && g.exit.None?
    ensures TimeStep(g, i, SteerArm(g, ticket, i.env))
  {
    var took := Then(g.client.log, Took(ticket));
    assert LastFrameAt(took) == LastFrameAt(g.client.log);
  }

  lemma RouteTiming(g: Config, i: Input)
    requires Timely(g) && g.exit.None? && i.arm.Frame?
    requires g.turn.pending.Some? && IsReplyTo(i.arm.msg, g.turn.pending.value.id)
    ensures TimeStep(g, i, Receive(g, i.arm.msg, i.env))
  { }

  lemma FinishTiming(g: Config, i: Input)
    requires Timely(g) && g.exit.None? && i.arm.Frame? && IsReplyTo(i.arm.msg, g.turn.promptId)
    requires g.turn.pending.Some? ==> !IsReplyTo(i.arm.msg, g.turn.pending.value.id)
    ensures TimeStep(g, i, Receive(g, i.arm.msg, i.env))
  { }

  lemma OtherTiming(g: Config, i: Input)
    requires Timely(g) && g.exit.None? && i.arm.Frame? && !IsReplyTo(i.arm.msg, g.turn.promptId)
    requires g.turn.pending.Some? ==> !IsReplyTo(i.arm.msg, g.turn.pending.value.id)
    ensures TimeStep(g, i, Receive(g, i.arm.msg, i.env))
  {
    var c := Wait(g.client, i.env.work);
    DispatchKeepsTime(Record(c, Read(i.arm.msg, c.clock)), i.arm.msg, i.env);
  }

  lemma SelectTiming(g: Config, i: Input)
    requires Timely(g) && g.exit.None?
    ensures TimeStep(g, i, Select(g, i))
  {
    match i.arm
    case Frame(msg) =>
      if g.turn.pending.Some? && IsReplyTo(i.arm.msg, g.turn.pending.value.id) { RouteTiming(g, i); }
      else if IsReplyTo(i.arm.msg, g.turn.promptId) { FinishTiming(g, i); }
      else { OtherTiming(g, i); }
    case SteerRequest(ticket) => SteerArmTiming(g, ticket, i);
    case DeadlineFires => TimeOutTiming(Later(g, SleepTime(g, i.env.work)), i.env.more, i);
    case _ =>
  }

  lemma StepTiming(g: Config, i: Input)
    requires Timely(g) && g.exit.None?
    ensures TimeStep(g, i, Step(g, i))
  {
    var h := Later(g, i.env.wait);
    if h.client.clock >= NextDeadline(h.turn) { TimeOutTiming(h, i.env.more, i); } else { SelectTiming(h, i); }
  }

  /** Exactly the valid frames count as activity, when they are read; a tool call counts again once it was handled. */
  lemma FramesAreActivity(g: Config, i: Input)
    requires g.exit.None?
    ensures Step(g, i).turn.lastActivity ==
              if i.arm.Frame? && g.client.clock + i.env.wait < NextDeadline(g.turn) then
                g.client.clock + i.env.wait + i.env.work
                + (if i.arm.msg.verb == SessionUpdate(ToolCall) then i.env.more else 0)
              else g.turn.lastActivity
  {
    if i.arm.Frame? && g.client.clock + i.env.wait < NextDeadline(g.turn) {
      var c := Wait(Wait(g.client, i.env.wait), i.env.work);
      DispatchKeepsTime(Record(c, Read(i.arm.msg, c.clock)), i.arm.msg, i.env);
    }
  }
}
