/**
 * The rules of the protocol, stated on histories alone.
 *
 * Five folds compute from a history what the client has to remember; `Legal` says which event may
 * come next. The lemmas show what every legal history guarantees. That the client only ever
 * produces legal histories is the subject of `AcpRefinement`.
 */
module AcpRules {
  import opened Options
  import opened Json
  import opened AcpWire

  // ----- What a history leaves to remember -----

  function NextId(h: History): nat {
    if h.Start? then 0 else NextId(h.prior) + Bit(IdSpent(h.last).Some?)
  }

  /** The prompt whose outcome the client still waits for. */
  function PromptOf(h: History): Option<nat> {
    match h
    case Start => None
    case Then(_, Wrote(Prompt(id))) => Some(id)
    case Then(_, WriteFailed(Prompt(_))) => None
    case Then(_, Cancelling(_)) => None
    case Then(p, Returned(id)) => if PromptOf(p) == Some(id) then None else PromptOf(p)
    case Then(_, GaveUp(_)) => None
    case Then(p, _) => PromptOf(p)
  }

  /** The prompt that a cancel call took over and has not cancelled yet. */
  function TakenOver(h: History): Option<nat> {
    match h
    case Start => None
    case Then(_, Cancelling(id)) => Some(id)
    case Then(_, Wrote(Cancel(_))) => None
    case Then(_, WriteFailed(Cancel(_))) => None
    case Then(p, Returned(id)) => if TakenOver(p) == Some(id) then None else TakenOver(p)
    case Then(p, _) => TakenOver(p)
  }

  /** The permission request that was received last, while it has no response. */
  function Asked(h: History): Option<Value> {
    match h
    case Start => None
    case Then(p, Read(f, _)) => if f.verb.RequestPermission? && f.id.Some? then f.id else Asked(p)
    case Then(_, Wrote(PermissionAnswer(_, _))) => None
    case Then(p, _) => Asked(p)
  }

  datatype Steer = Steer(id: nat, transport: Transport, ticket: nat)

  /**
   * `owed` is a steer request that was taken and neither written nor acked yet, `pending` one that
   * was written and not acked. A loop that released its pending steer is `Returning`.
   */
  datatype Steering = Steering(owed: Option<nat>, pending: Option<Steer>, phase: Phase)

  datatype Phase = Outside | Reading | Returning

  function SteeringOf(h: History): Steering {
    match h
    case Start => Steering(None, None, Outside)
    case Then(_, Entered(_, _)) => Steering(None, None, Reading)
    case Then(_, Left) => Steering(None, None, Outside)
    case Then(p, Took(t)) => SteeringOf(p).(owed := Some(t))
    case Then(p, Wrote(GooseSteer(id, _, t))) => SteeringOf(p).(owed := None, pending := Some(Steer(id, Goose, t)))
    case Then(p, Wrote(ExtensionSteer(id, t))) => SteeringOf(p).(owed := None, pending := Some(Steer(id, Extension, t)))
    case Then(p, Acked(t, ack)) =>
      if SteeringOf(p).owed.Some? then SteeringOf(p).(owed := None)
      else Steering(None, None, if ack.PromptCompletedNeutral? then Returning else SteeringOf(p).phase)
    case Then(p, _) => SteeringOf(p)
  }

  /** The last event is the reply to the pending steer, which must be acked at once. */
  predicate AckDue(h: History) {
    && h.Then? && h.last.Read? && SteeringOf(h).pending.Some?
    && IsReplyTo(h.last.frame, SteeringOf(h).pending.value.id)
  }

  // ----- Which event may come next -----

  predicate MayFollow(h: History, e: Event) {
    && (AckDue(h) ==> e.Acked?)
    && match e
       case Entered(p, _) => p < NextId(h) && SteeringOf(h) == Steering(None, None, Outside)
       case Wrote(msg) => MayWrite(h, msg)
       case WriteFailed(msg) => MayWrite(h, msg)
       case Took(_) => SteeringOf(h) == Steering(None, None, Reading)
       case Acked(t, ack) => MayAck(h, t, ack)
       case Returned(p) => p < NextId(h)
       case GaveUp(p) => PromptOf(h) == Some(p)
       case Cancelling(p) => PromptOf(h) == Some(p)
       case _ => true
  }

  predicate MayWrite(h: History, msg: Outgoing) {
    match msg
    case Call(id) => id == NextId(h)
    case Prompt(id) => id == NextId(h)
    case GooseSteer(id, run, t) =>
      id == NextId(h) && SteeringOf(h) == Steering(Some(t), None, Reading) && RunIdFold(h) == Some(run)
    case ExtensionSteer(id, t) =>
      id == NextId(h) && SteeringOf(h) == Steering(Some(t), None, Reading) && RunIdFold(h) == None && Advertised(h)
    case PermissionAnswer(id, _) => Asked(h) == Some(id) && MaySelect(h, msg)
    case MethodNotFound(_) => true
    case Cancel(p) => TakenOver(h) == Some(p)
  }

  predicate MayAck(h: History, ticket: nat, ack: SteerAck) {
    var s := SteeringOf(h);
    if s.owed.Some? then s.owed == Some(ticket) && ack.Rejected?
    else
      && s.pending.Some? && s.pending.value.ticket == ticket
      && (if AckDue(h) then if Delivered(s.pending.value.transport, h.last.frame) then ack.Success? else ack.Rejected?
          else ack.PromptCompletedNeutral?)
  }

  predicate Legal(h: History) {
    h.Then? ==> Legal(h.prior) && MayFollow(h.prior, h.last)
  }

  // ----- What legal histories guarantee -----

  lemma {:induction false} IdsBelowWeaken(h: History, a: nat, b: nat)
    requires a <= b && IdsBelow(h, a)
    ensures IdsBelow(h, b)
  {
    if h.Then? { IdsBelowWeaken(h.prior, a, b); }
  }

  /** Request ids are strictly increasing across plain requests, prompts and steers. */
  lemma {:induction false} LegalIds(h: History)
    requires Legal(h)
    ensures IdsIncrease(h) && IdsBelow(h, NextId(h))
  {
    if h.Then? {
      LegalIds(h.prior);
      IdsBelowWeaken(h.prior, NextId(h.prior), NextId(h));
    }
  }

  /** Steers obey the run ids the agent sent and the capability it advertised. */
  lemma {:induction false} LegalTransports(h: History)
    requires Legal(h)
    ensures SteersWellChosen(h)
  {
    if h.Then? { LegalTransports(h.prior); }
  }

  /** Responses bearing a permission id never outnumber the requests bearing it. */
  lemma {:induction false} LegalPermissions(h: History, id: Value)
    requires Legal(h)
    ensures Answers(h, id) + Bit(Asked(h) == Some(id)) <= Asks(h, id)
  {
    if h.Then? { LegalPermissions(h.prior, id); }
  }

  /** A response selects only what its own request offers. */
  lemma {:induction false} LegalSelections(h: History)
    requires Legal(h)
    ensures SelectsOffered(h)
  {
    if h.Then? { LegalSelections(h.prior); }
  }

  /** The unsettled steer request, if any, is the one with this ticket. */
  predicate Owes(s: Steering, ticket: nat) {
    s.owed == Some(ticket) || (s.pending.Some? && s.pending.value.ticket == ticket)
  }

  /** How often a read loop was left with the steer request unsettled. */
  function Lost(h: History, ticket: nat): nat {
    if h.Start? then 0 else Lost(h.prior, ticket) + Bit(h.last.Left? && Owes(SteeringOf(h.prior), ticket))
  }

  /** Conservation of steer requests: each one taken is acked once, still owed, or was lost. */
  lemma {:induction false} LegalAcks(h: History, ticket: nat)
    requires Legal(h)
    ensures Takes(h, ticket) == Acks(h, ticket) + Bit(Owes(SteeringOf(h), ticket)) + Lost(h, ticket)
    ensures SteeringOf(h).owed.None? || SteeringOf(h).pending.None?
    ensures SteeringOf(h).phase.Outside? ==> SteeringOf(h) == Steering(None, None, Outside)
  {
    if h.Then? { LegalAcks(h.prior, ticket); }
  }

  /** The same within one read loop: only the pending steer is still to be acked. */
  lemma {:induction false} LegalLoopAcks(h: History, ticket: nat)
    requires Legal(h) && !SteeringOf(h).phase.Outside?
    ensures TakesInLoop(h, ticket) == AcksInLoop(h, ticket) + Bit(Owes(SteeringOf(h), ticket))
  {
    LegalAcks(h.prior, ticket);
    if !SteeringOf(h.prior).phase.Outside? { LegalLoopAcks(h.prior, ticket); }
  }

  function Awaited(h: History): set<nat> {
    if SteeringOf(h).pending.None? || AckDue(h) then {} else {SteeringOf(h).pending.value.id}
  }

  /** A read loop has one steer out at a time: its pending one is exactly what the wire shows unanswered in it. */
  lemma {:induction false} LegalFlight(h: History)
    requires Legal(h)
    ensures NeverStacked(h)
    ensures SteeringOf(h).phase.Reading? ==> InFlight(h) == Awaited(h)
  {
    if h.Then? {
      LegalFlight(h.prior);
      LegalAcks(h.prior, 0);
      assert SteeringOf(h).phase.Reading? && h.last.Read? ==> InFlight(h) == Awaited(h);
    }
  }

  /** An unanswered steer was left behind by an earlier read loop, or is in flight in this one. */
  lemma {:induction false} UnansweredSplits(h: History)
    ensures Unanswered(h) == LeftBehind(h) + InFlight(h)
  {
    if h.Then? { UnansweredSplits(h.prior); }
  }

  /** Across read loops, a steer overlaps exactly the steers that earlier loops left behind. */
  lemma {:induction false} LegalOverlaps(h: History)
    requires Legal(h)
    ensures OverlapsOnlyPast(h)
  {
    if h.Then? {
      LegalOverlaps(h.prior);
      LegalFlight(h);
      UnansweredSplits(h.prior);
    }
  }

  lemma {:induction false} LegalPending(h: History)
    requires Legal(h) && SteeringOf(h).pending.Some?
    ensures var s := SteeringOf(h).pending.value; SteerWritten(h, s.id, s.transport, s.ticket)
  {
    if SteeringOf(h.prior).pending.Some? { LegalPending(h.prior); }
  }

  /** Every success ack answers the agent's own delivery of the steer it acknowledges. */
  lemma {:induction false} LegalSuccesses(h: History)
    requires Legal(h)
    ensures SuccessesEarned(h)
  {
    if h.Then? {
      LegalSuccesses(h.prior);
      if h.last.Acked? && h.last.ack.Success? { LegalPending(h.prior.prior); }
    }
  }

  /** A prompt the client could still cancel was neither cancelled nor answered. */
  predicate Open(h: History, p: Option<nat>) {
    p.Some? ==>
      && p.value < NextId(h)
      && !Happened(h, Wrote(Cancel(p.value)))
      && !Happened(h, Returned(p.value))
  }

  /** Prompts that were cancelled or answered have ids that were spent. */
  lemma {:induction false} NotYet(h: History, p: nat)
    requires Legal(h) && p >= NextId(h)
    ensures !Happened(h, Wrote(Cancel(p))) && !Happened(h, Returned(p))
  {
    if h.Then? {
      LegalCancels(h.prior);
      NotYet(h.prior, p);
    }
  }

  /** Each prompt gets at most one cancel, and none after its response was returned. */
  lemma {:induction false} LegalCancels(h: History)
    requires Legal(h)
    ensures CancelsInTime(h)
    ensures Open(h, PromptOf(h)) && Open(h, TakenOver(h))
    ensures PromptOf(h).Some? ==> PromptOf(h) != TakenOver(h)
  {
    if h.Then? {
      LegalCancels(h.prior);
      NotYet(h.prior, NextId(h.prior));
    }
  }
}
