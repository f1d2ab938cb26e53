/**
 * What crosses the agent's stdio pipes, and the record kept of it.
 *
 * A `History` lists every observable event of one client, oldest first. It is a snoc list, so a
 * property of a history is a fold that looks at the last event and recurs on the ones before.
 */
module AcpWire {
  import opened Options
  import opened Json

  // ----- Frames from the agent -----

  /** What `session/update` says that the client acts on. */
  datatype Update =
    | ToolCall
    | RunIs(runId: string)      // `activeRunId` holds a string
    | RunCleared                // `activeRunId` is null
    | OtherUpdate

  datatype PermissionOption = PermissionOption(kind: OptionKind, optionId: Option<string>)

  datatype OptionKind = AllowOnce | RejectOnce | OtherKind

  datatype Method =
    | NoMethod
    | NotAString
    | SessionUpdate(update: Update)
    | GooseUsage
    | RequestPermission(options: Option<seq<PermissionOption>>)
    | Unknown(name: string)

  datatype Outcome = OutcomeInjected | OutcomeStartedNewTurn | OtherOutcome(raw: Option<Value>)

  /** A valid JSON line, decoded into the fields the client looks at. */
  datatype Msg = Msg(id: Option<Value>, verb: Method, error: Option<Value>, result: Value, outcome: Outcome)

  datatype Transport = Goose | Extension

  datatype SteerError =
    | ExpectedRunIdMissing
    | TransportFailed
    | AgentRefused(code: int, body: Value)
    | OutcomeRejected(outcome: Option<Value>)

  datatype SteerAck = Success | PromptCompletedNeutral | Rejected(error: SteerError)

  datatype Choice =
    | Selected(optionId: string)
    | Cancelled

  /**
   * A message written to the agent. Steer messages also name the steer request they carry, and
   * `Cancel` the prompt it is meant to stop; neither annotation is part of the wire format.
   */
  datatype Outgoing =
    | Call(id: nat)
    | Prompt(id: nat)
    | GooseSteer(id: nat, runId: string, ticket: nat)
    | ExtensionSteer(id: nat, ticket: nat)
    | PermissionAnswer(requestId: Value, choice: Choice)
    | MethodNotFound(requestId: Value)
    | Cancel(promptId: nat)

  datatype Event =
    | Entered(promptId: nat, at: nat)        // a prompt read loop starts
    | Left                                   // it returned or was dropped, and its locals with it
    | Wrote(msg: Outgoing)                   // the write completed
    | WriteFailed(msg: Outgoing)             // nothing reached the agent
    | Read(frame: Msg, at: nat)              // a valid JSON line was taken from stdout
    | Took(ticket: nat)                      // a steer request left its channel
    | Acked(ticket: nat, ack: SteerAck)      // the ack sender of a steer request was used
    | Returned(promptId: nat)                // the agent's response to a prompt went to the caller
    | GaveUp(promptId: nat)                  // the prompt call failed and the prompt was forgotten
    | Cancelling(promptId: nat)              // a cancel call took over the prompt
    | Initialized(steering: bool)            // the agent's capabilities were recorded

  datatype History = Start | Then(prior: History, last: Event)

  /** A JSON-RPC response: an `id` and no `method`. */
  predicate IsReply(frame: Msg) {
    frame.id.Some? && frame.verb.NoMethod?
  }

  predicate IsReplyTo(frame: Msg, id: nat) {
    IsReply(frame) && frame.id.value == Int(id)
  }

  /** Whether a reply to a steer says that the message was delivered. */
  predicate Delivered(transport: Transport, reply: Msg) {
    reply.error.None? && (transport.Goose? || !reply.outcome.OtherOutcome?)
  }

  /** Whether a reply to a steer says that the awaited turn keeps running with the message. */
  predicate Injected(transport: Transport, reply: Msg) {
    reply.error.None? && (transport.Goose? || reply.outcome.OutcomeInjected?)
  }

  function ApplyUpdate(run: Option<string>, verb: Method): Option<string> {
    if !verb.SessionUpdate? then run
    else
      match verb.update
      case RunIs(id) => Some(id)
      case RunCleared => None
      case _ => run
  }

  /** The run id that all frames read so far leave behind, oldest first. */
  function RunIdFold(h: History): Option<string> {
    match h
    case Start => None
    case Then(p, Read(frame, _)) => ApplyUpdate(RunIdFold(p), frame.verb)
    case Then(p, _) => RunIdFold(p)
  }

  /** The request id an event spends, whether or not its write completed. */
  function IdSpent(e: Event): Option<nat> {
    match e
    case Wrote(m) => RequestId(m)
    case WriteFailed(m) => RequestId(m)
    case _ => None
  }

  function RequestId(m: Outgoing): Option<nat> {
    match m
    case Call(id) => Some(id)
    case Prompt(id) => Some(id)
    case GooseSteer(id, _, _) => Some(id)
    case ExtensionSteer(id, _) => Some(id)
    case _ => None
  }

  predicate IdsBelow(h: History, bound: nat) {
    h.Then? ==> IdsBelow(h.prior, bound) && (IdSpent(h.last).Some? ==> IdSpent(h.last).value < bound)
  }

  /** Every request id is larger than all request ids spent before it. */
  predicate IdsIncrease(h: History) {
    h.Then? ==> IdsIncrease(h.prior) && (IdSpent(h.last).Some? ==> IdsBelow(h.prior, IdSpent(h.last).value))
  }

  predicate Happened(h: History, e: Event) {
    h.Then? && (h.last == e || Happened(h.prior, e))
  }

  /** A prompt is cancelled at most once, and never after its response went to the caller. */
  predicate CancelsInTime(h: History) {
    h.Then? ==>
      && CancelsInTime(h.prior)
      && (h.last.Wrote? && h.last.msg.Cancel? ==>
            && !Happened(h.prior, h.last)
            && !Happened(h.prior, Returned(h.last.msg.promptId)))
  }

  function Bit(b: bool): nat { if b then 1 else 0 }

  predicate AsksPermission(e: Event, id: Value) {
    e.Read? && e.frame.verb.RequestPermission? && e.frame.id == Some(id)
  }

  /** Permission requests bearing `id` that the agent sent. */
  function Asks(h: History, id: Value): nat {
    if h.Start? then 0 else Asks(h.prior, id) + Bit(AsksPermission(h.last, id))
  }

  /** Completed permission responses bearing `id`. */
  function Answers(h: History, id: Value): nat {
    if h.Start? then 0
    else Answers(h.prior, id) + Bit(h.last.Wrote? && h.last.msg.PermissionAnswer? && h.last.msg.requestId == id)
  }

  /** The option a response may select by this id; a reject option without an id goes by "reject". */
  predicate GoesBy(option: PermissionOption, optionId: string) {
    || (option.optionId == Some(optionId) && !option.kind.OtherKind?)
    || (option.optionId.None? && option.kind.RejectOnce? && optionId == "reject")
  }

  predicate Offered(options: seq<PermissionOption>, optionId: string) {
    exists k :: 0 <= k < |options| && GoesBy(options[k], optionId)
  }

  /** `h` ends with a permission request that bears `id` and offers this option. */
  predicate EndsWithOffer(h: History, id: Value, optionId: string) {
    && h.Then? && AsksPermission(h.last, id)
    && h.last.frame.verb.options.Some? && Offered(h.last.frame.verb.options.value, optionId)
  }

  predicate MaySelect(h: History, m: Outgoing) {
    m.PermissionAnswer? && m.choice.Selected? ==> EndsWithOffer(h, m.requestId, m.choice.optionId)
  }

  /** Every response that selects an option directly follows its own request, and that request offers the option. */
  predicate SelectsOffered(h: History) {
    h.Then? ==> SelectsOffered(h.prior) && (h.last.Wrote? ==> MaySelect(h.prior, h.last.msg))
  }

  function Takes(h: History, ticket: nat): nat {
    if h.Start? then 0 else Takes(h.prior, ticket) + Bit(h.last == Took(ticket))
  }

  function Acks(h: History, ticket: nat): nat {
    if h.Start? then 0 else Acks(h.prior, ticket) + Bit(h.last.Acked? && h.last.ticket == ticket)
  }

  function SteerId(e: Event): Option<nat> {
    match e
    case Wrote(GooseSteer(id, _, _)) => Some(id)
    case Wrote(ExtensionSteer(id, _)) => Some(id)
    case _ => None
  }

  /** Steers written in the current read loop that the agent has not replied to. */
  function InFlight(h: History): set<nat> {
    if h.Start? || h.last.Entered? then {}
    else if SteerId(h.last).Some? then InFlight(h.prior) + {SteerId(h.last).value}
    else if h.last.Read? then set n | n in InFlight(h.prior) && !IsReplyTo(h.last.frame, n)
    else InFlight(h.prior)
  }

  /** No steer was ever written while another one of the same read loop was unanswered. */
  predicate NeverStacked(h: History) {
    h.Then? ==> NeverStacked(h.prior) && (SteerId(h.last).Some? ==> InFlight(h.prior) == {})
  }

  /** Steers written in any read loop that the agent has not replied to. */
  function Unanswered(h: History): set<nat> {
    if h.Start? then {}
    else if SteerId(h.last).Some? then Unanswered(h.prior) + {SteerId(h.last).value}
    else if h.last.Read? then set n | n in Unanswered(h.prior) && !IsReplyTo(h.last.frame, n)
    else Unanswered(h.prior)
  }

  /** Those of them whose read loop was over before the current one began. */
  function LeftBehind(h: History): set<nat> {
    if h.Start? then {}
    else if h.last.Entered? then Unanswered(h.prior)
    else if h.last.Read? then set n | n in LeftBehind(h.prior) && !IsReplyTo(h.last.frame, n)
    else LeftBehind(h.prior)
  }

  /** When a steer goes out, the steers still unanswered are those that earlier read loops left behind. */
  predicate OverlapsOnlyPast(h: History) {
    h.Then? ==> OverlapsOnlyPast(h.prior) && (SteerId(h.last).Some? ==> Unanswered(h.prior) == LeftBehind(h.prior))
  }

  /** Whether the agent's last `initialize` answer advertised the steering extension. */
  predicate Advertised(h: History) {
    h.Then? && (if h.last.Initialized? then h.last.steering else Advertised(h.prior))
  }

  /** Steers go out by the transport that the run ids read and the advertised capability call for. */
  predicate SteersWellChosen(h: History) {
    h.Then? ==>
      && SteersWellChosen(h.prior)
      && (h.last.Wrote? && h.last.msg.GooseSteer? ==> RunIdFold(h.prior) == Some(h.last.msg.runId))
      && (h.last.Wrote? && h.last.msg.ExtensionSteer? ==> Advertised(h.prior) && RunIdFold(h.prior) == None)
  }

  /** A steer for `ticket` went out as request `id` by `transport`. */
  predicate SteerWritten(h: History, id: nat, transport: Transport, ticket: nat) {
    h.Then? &&
      (|| SteerWritten(h.prior, id, transport, ticket)
       || (transport.Goose? && h.last.Wrote? && h.last.msg.GooseSteer? && h.last.msg.id == id
           && h.last.msg.ticket == ticket)
       || (transport.Extension? && h.last == Wrote(ExtensionSteer(id, ticket))))
  }

  /** `h` ends with the agent's delivery of the steer for `ticket`. */
  ghost predicate EndsWithDelivery(h: History, ticket: nat) {
    && h.Then? && h.last.Read? && IsReply(h.last.frame)
    && exists id: nat, transport: Transport ::
         && SteerWritten(h.prior, id, transport, ticket)
         && IsReplyTo(h.last.frame, id)
         && Delivered(transport, h.last.frame)
  }

  /** Every success ack directly follows the agent's own delivery of that very steer. */
  ghost predicate SuccessesEarned(h: History) {
    h.Then? ==>
      && SuccessesEarned(h.prior)
      && (h.last.Acked? && h.last.ack.Success? ==> EndsWithDelivery(h.prior, h.last.ticket))
  }

  /** Time of the latest valid frame, or of the start of the read loop. */
  function LastFrameAt(h: History): nat {
    match h
    case Start => 0
    case Then(_, Read(_, at)) => at
    case Then(_, Entered(_, at)) => at
    case Then(p, _) => LastFrameAt(p)
  }

  /** The reply to its own prompt that the current read loop has read, if any. */
  function AnswerIn(h: History, promptId: nat): Option<Msg> {
    if h.Start? || h.last.Entered? then None
    else if h.last.Read? && IsReplyTo(h.last.frame, promptId) then Some(h.last.frame)
    else AnswerIn(h.prior, promptId)
  }

  /** The reply to a plain request that was read since the request was written, if any. */
  function AnswerToCall(h: History, id: nat): Option<Msg> {
    if h.Start? || h.last == Wrote(Call(id)) then None
    else if h.last.Read? && IsReplyTo(h.last.frame, id) then Some(h.last.frame)
    else AnswerToCall(h.prior, id)
  }

  /** Steer requests with this ticket taken in the current read loop. */
  function TakesInLoop(h: History, ticket: nat): nat {
    if h.Start? || h.last.Entered? then 0 else TakesInLoop(h.prior, ticket) + Bit(h.last == Took(ticket))
  }

  /** Acks for this ticket sent in the current read loop. */
  function AcksInLoop(h: History, ticket: nat): nat {
    if h.Start? || h.last.Entered? then 0
    else AcksInLoop(h.prior, ticket) + Bit(h.last.Acked? && h.last.ticket == ticket)
  }
}
