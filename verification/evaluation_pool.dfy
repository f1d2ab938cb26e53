/** The evaluation pool behind filters: a permit stays with its blocking task even when the caller has given up. */
module EvaluationPool {
  import opened RuleMatching

  const PERMITS := 4

  /** A caller waits for a permit, then for its task; a task outlives a caller that gave up on it. */
  datatype Phase = Waiting | Running | Abandoned | Over

  datatype Delivery = Delivery(caller: nat, answer: Answer)

  datatype Pool = Pool(free: nat, callers: map<nat, Phase>, delivered: seq<Delivery>)

  datatype Move =
    | Enter(caller: nat, length: nat)
    | Acquire(caller: nat)
    | TimeOut(caller: nat)
    | Cancel(caller: nat)
    | Finish(caller: nat, answer: Answer)

  const START := Pool(PERMITS, map[], [])

  predicate InPhase(p: Pool, caller: nat, phase: Phase) { caller in p.callers && p.callers[caller] == phase }

  function To(p: Pool, caller: nat, phase: Phase): Pool { p.(callers := p.callers[caller := phase]) }

  function Deliver(p: Pool, caller: nat, answer: Answer): Pool {
    p.(delivered := p.delivered + [Delivery(caller, answer)])
  }

  /** One step of the pool; a move that is not possible in this state changes nothing. */
  function Step(p: Pool, m: Move): Pool {
    var c := m.caller;
    match m
    case Enter(_, length) =>
      if c in p.callers then p
      else if length > MAX_EXPR_LEN then Deliver(To(p, c, Over), c, Error)
      else To(p, c, Waiting)
    case Acquire(_) =>
      if InPhase(p, c, Waiting) && p.free > 0 then To(p, c, Running).(free := p.free - 1) else p
    case TimeOut(_) =>
      if InPhase(p, c, Waiting) then Deliver(To(p, c, Over), c, Timeout)
      else if InPhase(p, c, Running) then Deliver(To(p, c, Abandoned), c, Timeout)
      else p
    case Cancel(_) =>
      if InPhase(p, c, Waiting) then To(p, c, Over) else if InPhase(p, c, Running) then To(p, c, Abandoned) else p
    case Finish(_, answer) =>
      if InPhase(p, c, Running) then Deliver(To(p, c, Over), c, answer).(free := p.free + 1)
      else if InPhase(p, c, Abandoned) then To(p, c, Over).(free := p.free + 1)
      else p
  }

  function Run(p: Pool, moves: seq<Move>): Pool {
    if moves == [] then p else Step(Run(p, moves[..|moves| - 1]), moves[|moves| - 1])
  }

  /** The callers whose blocking task exists. */
  function Live(p: Pool): set<nat> { set c | c in p.callers && (p.callers[c] == Running || p.callers[c] == Abandoned) }

  /** Every permit is free or with a live task. */
  predicate Conserves(p: Pool) { |Live(p)| + p.free == PERMITS }

  /** An answered caller waits no more, and nobody is answered twice. */
  ghost predicate AnsweredOnce(p: Pool) {
    && (forall k :: 0 <= k < |p.delivered| ==> IsAnswered(p, p.delivered[k].caller))
    && (forall i, j :: 0 <= i < j < |p.delivered| ==> p.delivered[i].caller != p.delivered[j].caller)
  }

  predicate IsAnswered(p: Pool, caller: nat) { InPhase(p, caller, Abandoned) || InPhase(p, caller, Over) }

  lemma StepLive(p: Pool, m: Move)
    ensures Step(p, m).free == p.free ==> Live(Step(p, m)) == Live(p)
    ensures Step(p, m).free == p.free - 1 ==> m.caller !in Live(p) && Live(Step(p, m)) == Live(p) + {m.caller}
    ensures Step(p, m).free == p.free + 1 ==> m.caller in Live(p) && Live(Step(p, m)) == Live(p) - {m.caller}
    ensures p.free - 1 <= Step(p, m).free <= p.free + 1
  {
  }

  lemma StepConserves(p: Pool, m: Move)
    requires Conserves(p)
    ensures Conserves(Step(p, m))
  {
    StepLive(p, m);
  }

  lemma StepDelivers(p: Pool, m: Move)
    ensures var q := Step(p, m);
            || q.delivered == p.delivered
            || (!IsAnswered(p, m.caller) && IsAnswered(q, m.caller)
                && exists a :: q.delivered == p.delivered + [Delivery(m.caller, a)])
    ensures forall c :: IsAnswered(p, c) ==> IsAnswered(Step(p, m), c)
  {
  }

  lemma StepAnswersOnce(p: Pool, m: Move)
    requires AnsweredOnce(p)
    ensures AnsweredOnce(Step(p, m))
  {
    StepDelivers(p, m);
  }

  lemma {:induction false} RunSound(p: Pool, moves: seq<Move>)
    requires Conserves(p) && AnsweredOnce(p)
    ensures Conserves(Run(p, moves)) && AnsweredOnce(Run(p, moves))
  {
    if moves != [] {
      var before, m := Run(p, moves[..|moves| - 1]), moves[|moves| - 1];
      RunSound(p, moves[..|moves| - 1]);
      StepConserves(before, m);
      StepAnswersOnce(before, m);
    }
  }

  /**
   * In every interleaving at most four tasks are alive, with none alive all permits are back, and no
   * caller is answered twice.
   */
  lemma AtMostFourLive(moves: seq<Move>)
    ensures var p := Run(START, moves); |Live(p)| <= PERMITS && Conserves(p) && AnsweredOnce(p)
    ensures var p := Run(START, moves); Live(p) == {} ==> p.free == PERMITS
  {
    assert Live(START) == {};
    RunSound(START, moves);
  }

  /** A caller that times out or is dropped frees no permit: while four tasks live, nobody else can start. */
  lemma GivingUpFreesNothing(moves: seq<Move>, m: Move, other: nat)
    requires m.TimeOut? || m.Cancel?
    ensures var p := Run(START, moves);
            && Live(Step(p, m)) == Live(p) && Step(p, m).free == p.free
            && (|Live(p)| == PERMITS ==> Step(Step(p, m), Acquire(other)) == Step(p, m))
  {
    AtMostFourLive(moves);
    StepLive(Run(START, moves), m);
  }
}
