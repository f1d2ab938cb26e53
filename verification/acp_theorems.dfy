/** The guarantees of the ACP client over every sequence of calls and every environment. */
module AcpTheorems {
  import opened Options
  import opened Json
  import opened AcpWire
  import opened AcpRules
  import opened AcpTurn
  import opened AcpRefinement
  import opened AcpTiming
  import opened AcpRouting

  /** The client after any calls since it was spawned. */
  function After(probing: bool, clock: nat, ops: seq<Op>): Client {
    ExecAll(Fresh(probing, clock), ops)
  }

  // ----- Over any sequence of calls -----

  /**
   * Request ids strictly increase; every steer obeys the run ids and the capability the agent
   * sent; a steer is written only while no other steer of its read loop is unanswered, and overlaps
   * just those that earlier loops left behind; every success ack answers a delivery;
   * every prompt is cancelled at most once, and never after its response was returned; a permission
   * response selects only an option that its own request, just read, offers.
   */
  lemma ClientSafety(probing: bool, clock: nat, ops: seq<Op>)
    ensures var h := After(probing, clock, ops).log;
            && IdsIncrease(h) && SteersWellChosen(h) && NeverStacked(h) && OverlapsOnlyPast(h)
            && SuccessesEarned(h) && CancelsInTime(h) && SelectsOffered(h)
  {
    ExecAllRests(Fresh(probing, clock), ops);
    var h := After(probing, clock, ops).log;
    LegalIds(h);
    LegalTransports(h);
    LegalFlight(h);
    LegalOverlaps(h);
    LegalSuccesses(h);
    LegalCancels(h);
    LegalSelections(h);
  }

  /** The run id used for steering is the left fold of all run id updates read so far. */
  lemma RunIdIsFold(probing: bool, clock: nat, ops: seq<Op>)
    ensures var c := After(probing, clock, ops);
            c.activeRunId == RunIdFold(c.log) && c.steeringSupported == Advertised(c.log)
  {
    ExecAllRests(Fresh(probing, clock), ops);
  }

  /**
   * Responses to a permission id never outnumber its requests, so a request with an id of its own
   * gets at most one; and the double-response guard never has anything to guard against.
   */
  lemma PermissionsAnsweredOnce(probing: bool, clock: nat, ops: seq<Op>, id: Value)
    ensures var c := After(probing, clock, ops);
            && Answers(c.log, id) + Bit(c.pendingPermissionId == Some(id)) <= Asks(c.log, id)
            && (Asks(c.log, id) <= 1 ==> Answers(c.log, id) <= 1)
            && !(c.pendingPermissionId.Some? && c.permissionResponded)
  {
    ExecAllRests(Fresh(probing, clock), ops);
    LegalPermissions(After(probing, clock, ops).log, id);
  }

  /** Between calls, every steer request ever taken was acked exactly once or lost with its loop. */
  lemma SteersConserved(probing: bool, clock: nat, ops: seq<Op>, ticket: nat)
    ensures var h := After(probing, clock, ops).log; Takes(h, ticket) == Acks(h, ticket) + Lost(h, ticket)
  {
    ExecAllRests(Fresh(probing, clock), ops);
    LegalAcks(After(probing, clock, ops).log, ticket);
  }

  // ----- Within one prompt turn -----

  /** The read loop of a prompt sent after any calls. */
  function Turn(probing: bool, clock: nat, ops: seq<Op>, wait: nat, writing: nat, idle: nat, max: nat,
                script: seq<Input>): Config {
    PromptLoop(After(probing, clock, ops), wait, writing, idle, max, script)
  }

  lemma TurnRemembers(probing: bool, clock: nat, ops: seq<Op>, wait: nat, writing: nat, idle: nat, max: nat,
                      script: seq<Input>)
    ensures LoopRemembers(Turn(probing, clock, ops, wait, writing, idle, max, script), true)
  {
    ExecAllRests(Fresh(probing, clock), ops);
    PromptLoopRemembers(After(probing, clock, ops), wait, writing, idle, max, script);
  }

  // ----- Acks, in the loop of a prompt and in the drain loop of a cancel -----

  /** Every steer request taken in the current read loop got its ack. */
  ghost predicate AllAcked(h: History) {
    forall ticket :: TakesInLoop(h, ticket) == AcksInLoop(h, ticket)
  }

  /**
   * Each steer request taken in the loop has been acked, except the one that is pending; and the
   * pending one is what the wire shows unanswered.
   */
  predicate AcksSound(g: Config, ticket: nat) {
    && TakesInLoop(g.client.log, ticket) ==
         AcksInLoop(g.client.log, ticket) + Bit(g.turn.pending.Some? && g.turn.pending.value.ticket == ticket)
    && (if Settled(g.exit) then g.turn.pending.None?
        else InFlight(g.client.log) == if g.turn.pending.Some? then {g.turn.pending.value.id} else {})
  }

  lemma LoopAcks(g: Config, ticket: nat, prompting: bool)
    requires LoopRemembers(g, prompting)
    ensures AcksSound(g, ticket)
  {
    LegalLoopAcks(g.client.log, ticket);
    LegalFlight(g.client.log);
  }

  /** All steer requests of the loop are acked exactly when none is pending. */
  lemma LoopAcksIff(g: Config, prompting: bool)
    requires LoopRemembers(g, prompting)
    ensures AllAcked(g.client.log) <==> g.turn.pending.None?
    ensures AllAcked(g.client.log) <==> Settled(g.exit) || InFlight(g.client.log) == {}
  {
    forall ticket ensures AcksSound(g, ticket) { LoopAcks(g, ticket, prompting); }
    assert AcksSound(g, 0);
    if g.turn.pending.None? {
      forall ticket ensures TakesInLoop(g.client.log, ticket) == AcksInLoop(g.client.log, ticket) {
        assert AcksSound(g, ticket);
      }
    } else {
      assert AcksSound(g, g.turn.pending.value.ticket);
    }
  }

  /** A frame whose handling fails: an unusable permission request, or an answer that cannot be written. */
  predicate Unanswerable(c: Client, msg: Msg, env: Env) {
    match msg.verb
    case RequestPermission(options) =>
      || msg.id.None? || options.None?
      || (&& (c.probing || env.decision.Some?)
          && (|| !env.writeOk
              || ChoiceFor(c.probing, DecisionOf(env), options.value).None?))
    case Unknown(_) => msg.id.Some? && !env.writeOk
    case _ => false
  }

  /** The `?` exit is taken exactly for such frames, when they are not caught by the deadline check. */
  lemma PropagatesIff(g: Config, i: Input)
    requires g.exit.None?
    ensures (exists e :: Step(g, i).exit == Some(Propagated(e))) <==>
            && g.client.clock + i.env.wait < NextDeadline(g.turn)
            && i.arm.Frame? && Unanswerable(g.client, i.arm.msg, i.env)
  {
    var h := Later(g, i.env.wait);
    if h.client.clock < NextDeadline(h.turn) && i.arm.Frame? {
      var c := Wait(h.client, i.env.work);
      DispatchFailsIff(Record(c, Read(i.arm.msg, c.clock)), i.arm.msg, i.env);
    }
  }

  lemma DispatchFailsIff(c: Client, msg: Msg, env: Env)
    ensures Dispatch(c, msg, env).1.Fail? <==> Unanswerable(c, msg, env)
    ensures IsReply(msg) ==> !Unanswerable(c, msg, env)
  { }

  /** The input makes the iteration leave through `?` with a steer request unsettled. */
  predicate Loses(g: Config, i: Input) {
    && g.turn.pending.Some?
    && g.client.clock + i.env.wait < NextDeadline(g.turn)
    && i.arm.Frame? && Unanswerable(g.client, i.arm.msg, i.env)
  }

  predicate LeftThrough(g: Config) { g.exit.Some? && g.exit.value.Propagated? }

  /** A step loses a steer request through `?` exactly on such an input, in a prompt loop and in a drain. */
  lemma StepLosesIff(g: Config, i: Input, prompting: bool)
    requires LoopRemembers(g, prompting) && g.exit.None?
    ensures LeftThrough(Step(g, i)) && !AllAcked(Step(g, i).client.log) <==> Loses(g, i)
  {
    StepRemembers(g, i, prompting);
    LoopAcksIff(Step(g, i), prompting);
    PropagatesIff(g, i);
    if Loses(g, i) { assert LeftThrough(Step(g, i)); }
    if LeftThrough(Step(g, i)) {
      assert Step(g, i).exit == Some(Propagated(Step(g, i).exit.value.error));
      assert Step(g, i).turn.pending == g.turn.pending;
    }
  }

  /** The loop is still open after `k` inputs and loses its steer request on the next one. */
  predicate LosesAt(g: Config, script: seq<Input>, k: nat) {
    k < |script| && Run(g, script[..k]).exit.None? && Loses(Run(g, script[..k]), script[k])
  }

  ghost predicate LosesSomewhere(g: Config, script: seq<Input>) { exists k: nat :: LosesAt(g, script, k) }

  lemma PrefixLoses(g: Config, script: seq<Input>, n: nat, k: nat)
    requires k < n <= |script|
    ensures LosesAt(g, script[..n], k) <==> LosesAt(g, script, k)
  {
    assert script[..n][..k] == script[..k];
  }

  /** One more input: the loop loses its steer earlier, or on that input. */
  lemma LosesOneMore(g: Config, script: seq<Input>)
    requires script != []
    ensures var n := |script| - 1;
            LosesSomewhere(g, script) <==> LosesSomewhere(g, script[..n]) || LosesAt(g, script, n)
  {
    var n := |script| - 1;
    if k: nat :| LosesAt(g, script, k) {
      if k < n { PrefixLoses(g, script, n, k); }
    }
    if k: nat :| LosesAt(g, script[..n], k) { PrefixLoses(g, script, n, k); }
  }

  /** A whole loop loses a steer request through `?` exactly when one of its inputs does that to it. */
  lemma {:induction false} RunLosesIff(g: Config, script: seq<Input>, prompting: bool)
    requires LoopRemembers(g, prompting) && g.exit.None?
    ensures LeftThrough(Run(g, script)) && !AllAcked(Run(g, script).client.log) <==> LosesSomewhere(g, script)
    decreases |script|
  {
    if script != [] {
      var most, last := script[..|script| - 1], script[|script| - 1];
      RunLosesIff(g, most, prompting);
      LosesOneMore(g, script);
      RunRemembers(g, most, prompting);
      if Run(g, most).exit.None? { StepLosesIff(Run(g, most), last, prompting); }
    }
  }

  /** The same at every point of every turn, whatever came before it. */
  lemma TurnAcks(probing: bool, clock: nat, ops: seq<Op>, wait: nat, writing: nat, idle: nat, max: nat,
                 script: seq<Input>, ticket: nat)
    ensures AcksSound(Turn(probing, clock, ops, wait, writing, idle, max, script), ticket)
  {
    TurnRemembers(probing, clock, ops, wait, writing, idle, max, script);
    LoopAcks(Turn(probing, clock, ops, wait, writing, idle, max, script), ticket, true);
  }

  /**
   * When a turn keeps the promise to ack every steer request: always, except when an error leaves
   * through `?`, or the future is dropped, while a steer is unanswered. It loses one through `?`
   * exactly when an unanswerable frame arrives in time while a steer is pending.
   */
  lemma TurnAcksIff(probing: bool, clock: nat, ops: seq<Op>, wait: nat, writing: nat, idle: nat, max: nat,
                    script: seq<Input>)
    ensures var g := Turn(probing, clock, ops, wait, writing, idle, max, script);
            var start := PromptStart(After(probing, clock, ops), wait, writing, idle, max);
            && (AllAcked(g.client.log) <==> Settled(g.exit) || InFlight(g.client.log) == {})
            && (LeftThrough(g) && !AllAcked(g.client.log) <==> LosesSomewhere(start, script))
  {
    var c := After(probing, clock, ops);
    ExecAllRests(Fresh(probing, clock), ops);
    PromptStartRemembers(c, wait, writing, idle, max);
    PromptLoopRemembers(c, wait, writing, idle, max, script);
    LoopAcksIff(PromptLoop(c, wait, writing, idle, max, script), true);
    RunLosesIff(PromptStart(c, wait, writing, idle, max), script, true);
  }

  // ----- Deadlines -----

  lemma {:induction false} RunTiming(g: Config, script: seq<Input>)
    requires Timely(g) && g.exit.None?
    ensures var h := Run(g, script);
            && Timely(h) && SameTurn(g, h) && ExitTimely(h)
            && g.turn.hardDeadline <= h.turn.hardDeadline
            && (g.client.currentHardDeadline == Some(g.turn.hardDeadline) ==>
                  h.client.currentHardDeadline == Some(h.turn.hardDeadline))
    decreases |script|
  {
    if script != [] {
      var most, last := script[..|script| - 1], script[|script| - 1];
      RunTiming(g, most);
      if Run(g, most).exit.None? { StepTiming(Run(g, most), last); }
    }
  }

  /**
   * In every turn the idle deadline equals last activity plus idle timeout; an idle time-out means
   * that no valid frame came for that long, a hard time-out that the hard deadline passed; and
   * the client's stored copy of the hard deadline is the turn's, renewals included.
   */
  lemma TurnTiming(probing: bool, clock: nat, ops: seq<Op>, wait: nat, writing: nat, idle: nat, max: nat,
                   script: seq<Input>)
    ensures var g := Turn(probing, clock, ops, wait, writing, idle, max, script);
            && Timely(g) && ExitTimely(g)
            && g.client.currentHardDeadline == Some(g.turn.hardDeadline)
            && g.turn.hardDeadline >= After(probing, clock, ops).clock + wait + max
  {
    var c := After(probing, clock, ops);
    RunTiming(PromptStart(c, wait, writing, idle, max), script);
  }

  /** Once a deadline has passed when an iteration begins, nothing more is read: the next iteration returns. */
  lemma OverdueReturns(g: Config, i: Input)
    requires g.exit.None? && g.client.clock >= NextDeadline(g.turn)
    ensures IsTimeout(Step(g, i).exit)
    ensures Step(g, i).client.log == Drain(g).client.log
  { }

  /** So after the hard deadline at most one outcome is handled, unless that outcome renews the deadline. */
  lemma HardDeadlineBounds(g: Config, i: Input, j: Input)
    requires Timely(g) && g.exit.None? && !Renews(g, i) && Step(g, i).client.clock >= g.turn.hardDeadline
    ensures var h := Step(g, i);
            h.exit.Some? || (IsTimeout(Step(h, j).exit) && Step(h, j).client.log == Drain(h).client.log)
  {
    StepTiming(g, i);
    if Step(g, i).exit.None? { OverdueReturns(Step(g, i), j); }
  }

  /** A cancel after a time-out drains until the turn's own hard deadline, or 30 seconds if that is later. */
  lemma CancelInheritsDeadline(probing: bool, clock: nat, ops: seq<Op>, wait: nat, writing: nat, idle: nat, max: nat,
                               script: seq<Input>, later: nat)
    ensures var g := Turn(probing, clock, ops, wait, writing, idle, max, script);
            IsTimeout(g.exit) ==>
              var c := EndPrompt(g);
              && c.lastPromptId == Some(g.turn.promptId)
              && DrainDeadline(c.currentHardDeadline, c.clock + later, None) ==
                   if g.turn.hardDeadline > c.clock + later + CLEANUP_MS then g.turn.hardDeadline
                   else c.clock + later + CLEANUP_MS
  {
    TurnTiming(probing, clock, ops, wait, writing, idle, max, script);
    TurnRemembers(probing, clock, ops, wait, writing, idle, max, script);
  }

  // ----- Routing -----

  lemma {:induction false} RunRouted(g: Config, script: seq<Input>, prompting: bool)
    requires Routed(g) && LoopRemembers(g, prompting)
    ensures Routed(Run(g, script))
    decreases |script|
  {
    if script != [] {
      var most, last := script[..|script| - 1], script[|script| - 1];
      RunRouted(g, most, prompting);
      RunRemembers(g, most, prompting);
      StepRouted(Run(g, most), last, prompting);
    }
  }

  /**
   * The turn returns a response exactly when it has read a frame that bears the prompt's id and
   * no method, and then it returns that frame's error or result. Steer replies, late replies and
   * agent requests with the same id never end it.
   */
  lemma TurnRouting(probing: bool, clock: nat, ops: seq<Op>, wait: nat, writing: nat, idle: nat, max: nat,
                    script: seq<Input>)
    ensures Routed(Turn(probing, clock, ops, wait, writing, idle, max, script))
  {
    ExecAllRests(Fresh(probing, clock), ops);
    var c := After(probing, clock, ops);
    PromptStartRemembers(c, wait, writing, idle, max);
    RunRouted(PromptStart(c, wait, writing, idle, max), script, true);
  }

  // ----- The drain loop of a cancel -----

  /** A cancel call, made after any calls, that gets as far as its drain loop. */
  predicate Drains(c: Client, wait: nat, answerOk: bool, cancelOk: bool) {
    c.lastPromptId.Some? && BeginCancel(c, wait, answerOk, cancelOk).1.None?
  }

  lemma DrainStarts(c: Client, wait: nat, writing: nat, grace: Option<nat>, answerOk: bool, cancelOk: bool)
    requires Resting(c) && Drains(c, wait, answerOk, cancelOk)
    ensures var g := CancelStart(c, wait, writing, grace, answerOk, cancelOk);
            LoopRemembers(g, false) && Routed(g) && Timely(g) && g.exit.None? && g.turn.promptId == c.lastPromptId.value
  {
    CancelStartRemembers(c, wait, writing, grace, answerOk, cancelOk);
  }

  lemma DrainRuns(g: Config, script: seq<Input>)
    requires LoopRemembers(g, false) && Routed(g) && Timely(g) && g.exit.None?
    ensures var h := Run(g, script);
            LoopRemembers(h, false) && Routed(h) && Timely(h) && ExitTimely(h) && h.turn.promptId == g.turn.promptId
  {
    RunRemembers(g, script, false);
    RunRouted(g, script, false);
    RunTiming(g, script);
  }

  /**
   * The drain is held to the same rules as a turn: it returns a response exactly when it has read
   * the cancelled prompt's own, and then that one; it times out only when a deadline is due.
   */
  lemma DrainKeepsRules(probing: bool, clock: nat, ops: seq<Op>, wait: nat, writing: nat, grace: Option<nat>,
                        answerOk: bool, cancelOk: bool, script: seq<Input>)
    requires Drains(After(probing, clock, ops), wait, answerOk, cancelOk)
    ensures var g := CancelLoop(After(probing, clock, ops), wait, writing, grace, answerOk, cancelOk, script);
            && g.turn.promptId == After(probing, clock, ops).lastPromptId.value
            && Routed(g) && Timely(g) && ExitTimely(g)
  {
    ExecAllRests(Fresh(probing, clock), ops);
    DrainStarts(After(probing, clock, ops), wait, writing, grace, answerOk, cancelOk);
    DrainRuns(CancelStart(After(probing, clock, ops), wait, writing, grace, answerOk, cancelOk), script);
  }

  /** At every point of every drain, each steer request taken is acked or is the pending one. */
  lemma DrainAcks(probing: bool, clock: nat, ops: seq<Op>, wait: nat, writing: nat, grace: Option<nat>, answerOk: bool,
                  cancelOk: bool, script: seq<Input>, ticket: nat)
    requires Drains(After(probing, clock, ops), wait, answerOk, cancelOk)
    ensures AcksSound(CancelLoop(After(probing, clock, ops), wait, writing, grace, answerOk, cancelOk, script), ticket)
  {
    ExecAllRests(Fresh(probing, clock), ops);
    CancelLoopRemembers(After(probing, clock, ops), wait, writing, grace, answerOk, cancelOk, script);
    LoopAcks(CancelLoop(After(probing, clock, ops), wait, writing, grace, answerOk, cancelOk, script), ticket, false);
  }

  /** When a drain acks every steer request, and when it loses one through `?`. */
  lemma DrainAcksIff(probing: bool, clock: nat, ops: seq<Op>, wait: nat, writing: nat, grace: Option<nat>,
                     answerOk: bool, cancelOk: bool, script: seq<Input>)
    requires Drains(After(probing, clock, ops), wait, answerOk, cancelOk)
    ensures var start := CancelStart(After(probing, clock, ops), wait, writing, grace, answerOk, cancelOk);
            var g := CancelLoop(After(probing, clock, ops), wait, writing, grace, answerOk, cancelOk, script);
            && (AllAcked(g.client.log) <==> Settled(g.exit) || InFlight(g.client.log) == {})
            && (LeftThrough(g) && !AllAcked(g.client.log) <==> LosesSomewhere(start, script))
  {
    var c := After(probing, clock, ops);
    ExecAllRests(Fresh(probing, clock), ops);
    CancelStartRemembers(c, wait, writing, grace, answerOk, cancelOk);
    CancelLoopRemembers(c, wait, writing, grace, answerOk, cancelOk, script);
    LoopAcksIff(CancelLoop(c, wait, writing, grace, answerOk, cancelOk, script), false);
    RunLosesIff(CancelStart(c, wait, writing, grace, answerOk, cancelOk), script, false);
  }

  // ----- Plain requests -----

  lemma {:induction false} PlainRunRouted(p: PlainConfig, id: nat, script: seq<Input>)
    requires PlainRouted(p, id)
    ensures PlainRouted(PlainRun(p, id, script), id)
    decreases |script|
  {
    if script != [] {
      PlainRunRouted(p, id, script[..|script| - 1]);
      PlainStepRouted(PlainRun(p, id, script[..|script| - 1]), id, script[|script| - 1]);
    }
  }

  /** A plain request returns exactly the first reply that bears its id and was read after it was written. */
  lemma CallRouting(c: Client, script: seq<Input>)
    ensures PlainRouted(CallOp(c, true, script), c.nextId)
  {
    PlainRunRouted(PlainConfig(Write(c.(nextId := c.nextId + 1), Call(c.nextId), true), None), c.nextId, script);
  }

  // ----- Permission choices -----

  /**
   * A refused tool, and any tool in a connection test, is never answered with an allow option: the
   * answer cancels, selects a reject option of the request, or uses the id "reject" for a reject
   * option that carries none. Otherwise an allow option wins whenever the request has one.
   */
  lemma ChoiceRespectsDecision(probing: bool, decision: Decision, options: seq<PermissionOption>)
    ensures probing || decision.Refused? ==>
              match ChoiceFor(probing, decision, options)
              case None => false
              case Some(Cancelled) => true
              case Some(Selected(id)) =>
                exists k :: 0 <= k < |options| && options[k].kind.RejectOnce?
                            && (options[k].optionId == Some(id) || (options[k].optionId.None? && id == "reject"))
    ensures !probing && !decision.Refused? && (exists k :: 0 <= k < |options| && options[k].kind.AllowOnce?) ==>
              match ChoiceFor(probing, decision, options)
              case Some(Selected(id)) => PermissionOption(AllowOnce, Some(id)) in options
              case Some(Cancelled) => false
              case None => true
  {
    FindsFirst(options, AllowOnce);
    FindsFirst(options, RejectOnce);
  }
}
