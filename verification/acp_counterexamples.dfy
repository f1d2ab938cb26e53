/** Runs of the client that break two promises one might read into it. */
module AcpCounterexamples {
  import opened Options
  import opened Json
  import opened AcpWire
  import opened AcpRules
  import opened AcpTurn
  import opened AcpTheorems

  // A turn in which a steer is lost: the agent dies on an unknown request while the steer is pending.

  function LossyEnv(ok: bool): Env { Env(0, 0, 0, None, ok) }
  function RunFrame(): Msg { Msg(None, SessionUpdate(RunIs("r")), None, Null, OtherOutcome(None)) }
  function OddRequest(): Msg { Msg(Some(Int(99)), Unknown("x"), None, Null, OtherOutcome(None)) }

  function LossyScript(): seq<Input> {
    [Input(Frame(RunFrame()), LossyEnv(true)), Input(SteerRequest(7), LossyEnv(true)),
        Input(Frame(OddRequest()), LossyEnv(false))]
  }

  function LossyStart(clock: nat): Config {
    Config(
      Client(1, Some(0), Some(clock + 100), None, false, None, false, false, false, clock,
             Then(Then(Start, Wrote(Prompt(0))), Entered(0, clock))),
      AcpTurn.Turn(0, 10, 100, true, clock + 10, clock + 100, clock, None), None)
  }

  lemma LossyStarts(clock: nat)
    ensures var c := After(false, clock, [InstallSteer]);
            Enter(BeginPrompt(c, 0, 100, true), c.nextId, 10, clock + 100, 100) == LossyStart(clock)
  {
    assert [InstallSteer][..0] == [];
    assert ExecAll(Fresh(false, clock), []) == Fresh(false, clock);
  }

  function AfterRunFrame(clock: nat): Config {
    var g := LossyStart(clock);
    g.(client := g.client.(activeRunId := Some("r"), log := Then(g.client.log, Read(RunFrame(), clock))))
  }

  function AfterSteer(clock: nat): Config {
    var g := AfterRunFrame(clock);
    g.(client := g.client.(nextId := 2, log := Then(Then(g.client.log, Took(7)), Wrote(GooseSteer(1, "r", 7)))),
       turn := g.turn.(pending := Some(Steer(1, Goose, 7))))
  }

  lemma LossySteps(clock: nat)
    ensures Step(LossyStart(clock), LossyScript()[0]) == AfterRunFrame(clock)
    ensures Step(AfterRunFrame(clock), LossyScript()[1]) == AfterSteer(clock)
  { }

  /** The loop entered at `h` took the request with ticket 7 and did not ack it. */
  predicate TakenUnacked(h: History) { TakesInLoop(h, 7) == 1 && AcksInLoop(h, 7) == 0 }

  lemma TakenStays(h: History, e: Event)
    requires TakenUnacked(h) && !e.Entered? && !e.Took? && !e.Acked?
    ensures TakenUnacked(Then(h, e))
  { }

  lemma TakenAfter(h: History, promptId: nat, clock: nat, frame: Msg)
    ensures TakenUnacked(Then(Then(Then(h, Entered(promptId, clock)), Read(frame, clock)), Took(7)))
  {
    var entered := Then(h, Entered(promptId, clock));
    assert TakesInLoop(entered, 7) == 0 && AcksInLoop(entered, 7) == 0;
    var read := Then(entered, Read(frame, clock));
    assert TakesInLoop(read, 7) == 0 && AcksInLoop(read, 7) == 0;
  }

  lemma LossyLastStep(clock: nat)
    ensures var g, h := Step(AfterSteer(clock), LossyScript()[2]), AfterSteer(clock).client.log;
            && g.exit == Some(Propagated(BrokenPipe))
            && g.client.log == Then(Then(h, Read(OddRequest(), clock)), WriteFailed(MethodNotFound(Int(99))))
  { }

  lemma LossyEnds(clock: nat)
    ensures var g := Step(AfterSteer(clock), LossyScript()[2]);
            g.exit == Some(Propagated(BrokenPipe)) && TakenUnacked(g.client.log)
  {
    var h := AfterSteer(clock).client.log;
    LossyLastStep(clock);
    TakenAfter(Then(Start, Wrote(Prompt(0))), 0, clock, RunFrame());
    TakenStays(h.prior, h.last);
    TakenStays(h, Read(OddRequest(), clock));
    TakenStays(Then(h, Read(OddRequest(), clock)), WriteFailed(MethodNotFound(Int(99))));
  }

  lemma RunThree(g: Config, s: seq<Input>)
    requires |s| == 3
    ensures Run(g, s) == Step(Step(Step(g, s[0]), s[1]), s[2])
  {
    assert s[..2][..1][..0] == [] && s[..2][..1] == [s[0]] && s[..2] == [s[0], s[1]];
    assert Run(g, s[..2][..1]) == Step(Run(g, []), s[0]);
    assert Run(g, s[..2]) == Step(Run(g, s[..2][..1]), s[1]);
  }

  lemma LossyRun(clock: nat)
    ensures var g := Run(LossyStart(clock), LossyScript());
            g.exit == Some(Propagated(BrokenPipe)) && TakenUnacked(g.client.log)
  {
    RunThree(LossyStart(clock), LossyScript());
    LossySteps(clock);
    LossyEnds(clock);
  }

  /** The promise to ack before every return is broken by the code: this steer request is taken and never acked. */
  lemma SteerLostOnQuestionMark(clock: nat)
    ensures var g := PromptLoop(After(false, clock, [InstallSteer]), 0, 0, 10, 100, LossyScript());
            g.exit == Some(Propagated(BrokenPipe)) && TakenUnacked(g.client.log)
  {
    LossyStarts(clock);
    LossyRun(clock);
  }

  // Two turns: the first is answered while its steer is not, and the second steers again.

  function PromptReply(): Msg { Msg(Some(Int(0)), NoMethod, None, Null, OtherOutcome(None)) }

  function AnsweredScript(): seq<Input> {
    [Input(Frame(RunFrame()), LossyEnv(true)), Input(SteerRequest(7), LossyEnv(true)),
        Input(Frame(PromptReply()), LossyEnv(true))]
  }

  function AfterReply(clock: nat): Config {
    var g := AfterSteer(clock);
    Config(g.client.(log := Then(Then(g.client.log, Read(PromptReply(), clock)), Acked(7, PromptCompletedNeutral))),
           g.turn.(pending := None), Some(Completed(Null)))
  }

  lemma AnsweredRun(clock: nat)
    ensures Run(LossyStart(clock), AnsweredScript()) == AfterReply(clock)
  {
    RunThree(LossyStart(clock), AnsweredScript());
    LossySteps(clock);
    assert AnsweredScript()[0] == LossyScript()[0] && AnsweredScript()[1] == LossyScript()[1];
    assert Step(AfterSteer(clock), AnsweredScript()[2]) == AfterReply(clock);
  }

  lemma ExecAllMore(c: Client, ops: seq<Op>, op: Op)
    ensures ExecAll(c, ops + [op]) == Exec(ExecAll(c, ops), op)
  {
    assert (ops + [op])[..|ops|] == ops;
  }

  function FirstTurn(): Op { DoPrompt(0, 0, 10, 100, true, AnsweredScript()) }

  function AfterFirstTurn(clock: nat): Client {
    var c := AfterReply(clock).client;
    c.(lastPromptId := None, currentHardDeadline := None, steerRx := true, log := Then(Then(c.log, Left), Returned(0)))
  }

  lemma FirstTurnEnds(clock: nat)
    ensures After(false, clock, [InstallSteer] + [FirstTurn()] + [InstallSteer]) == AfterFirstTurn(clock)
  {
    var spawned := Fresh(false, clock);
    ExecAllMore(spawned, [InstallSteer] + [FirstTurn()], InstallSteer);
    ExecAllMore(spawned, [InstallSteer], FirstTurn());
    LossyStarts(clock);
    AnsweredRun(clock);
    assert PromptLoop(After(false, clock, [InstallSteer]), 0, 0, 10, 100, AnsweredScript()) == AfterReply(clock);
  }

  lemma UnansweredStays(h: History, e: Event, id: nat)
    requires id in Unanswered(h) && (e.Read? ==> !IsReplyTo(e.frame, id))
    ensures id in Unanswered(Then(h, e))
  { }

  lemma FirstSteerUnanswered(clock: nat)
    ensures 1 in Unanswered(AfterFirstTurn(clock).log)
  {
    var h := AfterSteer(clock).client.log;
    assert 1 in Unanswered(h);
    UnansweredStays(h, Read(PromptReply(), clock), 1);
    var answered := Then(h, Read(PromptReply(), clock));
    UnansweredStays(answered, Acked(7, PromptCompletedNeutral), 1);
    UnansweredStays(Then(answered, Acked(7, PromptCompletedNeutral)), Left, 1);
    UnansweredStays(Then(Then(answered, Acked(7, PromptCompletedNeutral)), Left), Returned(0), 1);
  }

  lemma SecondTurnSteers(clock: nat)
    ensures var c, i := AfterFirstTurn(clock), Input(SteerRequest(8), LossyEnv(true));
            Step(PromptStart(c, 0, 0, 10, 100), i).client.log ==
              Then(Then(Then(Then(c.log, Wrote(Prompt(2))), Entered(2, clock)), Took(8)), Wrote(GooseSteer(3, "r", 8)))
  { }

  /** Across turns a steer can be written while an older one has no reply: here steer 3 while steer 1 has none. */
  lemma SteersOverlapAcrossTurns(clock: nat)
    ensures var ops, i := [InstallSteer] + [FirstTurn()] + [InstallSteer], Input(SteerRequest(8), LossyEnv(true));
            var h := PromptLoop(After(false, clock, ops), 0, 0, 10, 100, [i]).client.log;
            h.Then? && h.last == Wrote(GooseSteer(3, "r", 8)) && 1 in Unanswered(h.prior)
  {
    FirstTurnEnds(clock);
    FirstSteerUnanswered(clock);
    SecondTurnSteers(clock);
    var c, i := AfterFirstTurn(clock), Input(SteerRequest(8), LossyEnv(true));
    assert [i][..0] == [];
    assert Run(PromptStart(c, 0, 0, 10, 100), [i]) == Step(PromptStart(c, 0, 0, 10, 100), i);
    UnansweredStays(c.log, Wrote(Prompt(2)), 1);
    UnansweredStays(Then(c.log, Wrote(Prompt(2))), Entered(2, clock), 1);
    UnansweredStays(Then(Then(c.log, Wrote(Prompt(2))), Entered(2, clock)), Took(8), 1);
  }
}
