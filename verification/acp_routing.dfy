/** Which frame ends a prompt turn. */
module AcpRouting {
  import opened Options
  import opened AcpWire
  import opened AcpTurn
  import opened AcpRefinement

  /** The loop has returned an answer exactly when it has read a reply to its prompt, and returned that one. */
  predicate Routed(g: Config) {
    match AnswerIn(g.client.log, g.turn.promptId)
    case None => !IsAnswer(g.exit)
    case Some(reply) => g.exit == Some(AnswerExit(reply))
  }

  /** The same for a plain request, over what was read since it was written. */
  predicate PlainRouted(p: PlainConfig, id: nat) {
    match AnswerToCall(p.client.log, id)
    case None => !IsAnswer(p.exit)
    case Some(reply) => p.exit == Some(AnswerExit(reply))
  }

  lemma DispatchKeepsCallAnswer(c: Client, msg: Msg, env: Env, id: nat)
    ensures AnswerToCall(Dispatch(c, msg, env).0.log, id) == AnswerToCall(c.log, id)
  {
    DispatchAnswers(c, msg, env);
    AnswerKeepsCall(c.log, Dispatch(c, msg, env).0.log, id);
  }

  lemma AnswerKeepsCall(h: History, k: History, id: nat)
    requires AnswersAtMost(h, k)
    ensures AnswerToCall(k, id) == AnswerToCall(h, id)
  { }

  lemma PlainStepRouted(p: PlainConfig, id: nat, i: Input)
    requires PlainRouted(p, id)
    ensures PlainRouted(PlainStep(p, id, i), id)
  {
    if p.exit.None? && i.arm.Frame? {
      var c := Wait(p.client, i.env.work);
      var read := Record(c, Read(i.arm.msg, c.clock));
      assert AnswerToCall(read.log, id) ==
             if IsReplyTo(i.arm.msg, id) then Some(i.arm.msg) else AnswerToCall(c.log, id);
      DispatchKeepsCallAnswer(read, i.arm.msg, i.env, id);
    }
  }

  lemma DispatchKeepsAnswer(c: Client, msg: Msg, env: Env, promptId: nat)
    ensures AnswerIn(Dispatch(c, msg, env).0.log, promptId) == AnswerIn(c.log, promptId)
  {
    DispatchAnswers(c, msg, env);
    AnswerKeepsPrompt(c.log, Dispatch(c, msg, env).0.log, promptId);
  }

  lemma AnswerKeepsPrompt(h: History, k: History, promptId: nat)
    requires AnswersAtMost(h, k)
    ensures AnswerIn(k, promptId) == AnswerIn(h, promptId)
  { }

  lemma RouteRouted(g: Config, msg: Msg, env: Env)
    requires Routed(g) && g.exit.None? && g.turn.pending.Some? && IsReplyTo(msg, g.turn.pending.value.id)
    requires !IsReplyTo(msg, g.turn.promptId)
    ensures Routed(Receive(g, msg, env))
  { }

  lemma FinishRouted(g: Config, msg: Msg, env: Env)
    requires Routed(g) && g.exit.None? && IsReplyTo(msg, g.turn.promptId)
    requires g.turn.pending.Some? ==> !IsReplyTo(msg, g.turn.pending.value.id)
    ensures Routed(Receive(g, msg, env))
  {
    var c := Wait(g.client, env.work);
    assert AnswerIn(Then(c.log, Read(msg, c.clock)), g.turn.promptId) == Some(msg);
  }

  lemma OtherRouted(g: Config, msg: Msg, env: Env)
    requires Routed(g) && g.exit.None? && !IsReplyTo(msg, g.turn.promptId)
    requires g.turn.pending.Some? ==> !IsReplyTo(msg, g.turn.pending.value.id)
    ensures Routed(Receive(g, msg, env))
  {
    var c := Wait(g.client, env.work);
    DispatchKeepsAnswer(Record(c, Read(msg, c.clock)), msg, env, g.turn.promptId);
  }

  lemma SteerArmRouted(g: Config, ticket: nat, env: Env)
    requires Routed(g) && g.exit.None?
    ensures Routed(SteerArm(g, ticket, env))
  {
    var took := Then(g.client.log, Took(ticket));
    assert AnswerIn(took, g.turn.promptId) == AnswerIn(g.client.log, g.turn.promptId);
  }

  lemma SelectRouted(g: Config, i: Input)
    requires Routed(g) && g.exit.None?
    requires g.turn.pending.Some? ==> g.turn.promptId < g.turn.pending.value.id
    ensures Routed(Select(g, i))
  {
    match i.arm
    case Frame(msg) =>
      if g.turn.pending.Some? && IsReplyTo(msg, g.turn.pending.value.id) { RouteRouted(g, msg, i.env); }
      else if IsReplyTo(msg, g.turn.promptId) { FinishRouted(g, msg, i.env); }
      else { OtherRouted(g, msg, i.env); }
    case SteerRequest(ticket) => SteerArmRouted(g, ticket, i.env);
    case _ =>
  }

  lemma OpenStepRouted(g: Config, i: Input)
    requires Routed(g) && g.exit.None?
    requires g.turn.pending.Some? ==> g.turn.promptId < g.turn.pending.value.id
    ensures Routed(Step(g, i))
  {
    if Later(g, i.env.wait).client.clock < NextDeadline(g.turn) { SelectRouted(Later(g, i.env.wait), i); }
  }

  lemma PendingAbovePrompt(g: Config, prompting: bool)
    requires LoopRemembers(g, prompting) && g.exit.None?
    ensures g.turn.pending.Some? ==> g.turn.promptId < g.turn.pending.value.id
  { }

  lemma StepRouted(g: Config, i: Input, prompting: bool)
    requires Routed(g) && LoopRemembers(g, prompting)
    ensures Routed(Step(g, i))
  {
    if g.exit.None? {
      PendingAbovePrompt(g, prompting);
      OpenStepRouted(g, i);
    }
  }
}
