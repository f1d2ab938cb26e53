/**
 * The ACP client as a state machine: the read loop of a prompt turn, the plain request loop, and
 * the prompt and cancel calls around them.
 *
 * Everything the client does not control arrives as input: which select arm wins, the frames, how
 * much time passes before each clock reading, the tool authorization decision, and whether each
 * write completes. A write is one atomic step. A script that ends while a loop still runs stands
 * for a future that was dropped while it waited.
 */
module AcpTurn {
  import opened Options
  import opened Json
  import opened AcpWire
  import opened AcpRules

  /** Floor for the drain after a cancellation, and its idle timeout, in milliseconds. */
  const CLEANUP_MS: nat := 30_000

  datatype Text = Plain(s: string) | Raw(v: Value)

  datatype AcpError =
    | Io
    | AgentExited
    | IdleTimeout(after: nat)
    | HardTimeout(silence: nat)
    | CancelDrainTimeout(grace: nat)
    | LineTooLong
    | BrokenPipe
    | BadPermissionRequest
    | NoPromptInFlight
    | AgentError(code: int, message: Text)

  function AgentErrorOf(error: Value): AcpError {
    AgentError(
      (var c := AsI64(Get(error, "code")); if c.Some? then c.value else -32000),
      (var m := AsStr(Get(error, "message")); if m.Some? then Plain(m.value) else Raw(error)))
  }

  datatype Client = Client(
    nextId: nat,
    lastPromptId: Option<nat>,
    currentHardDeadline: Option<nat>,
    pendingPermissionId: Option<Value>,
    permissionResponded: bool,
    activeRunId: Option<string>,
    steeringSupported: bool,
    steerRx: bool,
    probing: bool,    // a connection is being tested: the client is a probe, or captures a test reply
    clock: nat,
    log: History)

  function Fresh(probing: bool, clock: nat): Client {
    Client(0, None, None, None, false, None, false, false, probing, clock, Start)
  }

  function Record(c: Client, e: Event): Client { c.(log := Then(c.log, e)) }

  function Write(c: Client, m: Outgoing, ok: bool): Client {
    Record(c, if ok then Wrote(m) else WriteFailed(m))
  }

  function Wait(c: Client, d: nat): Client { c.(clock := c.clock + d) }

  // ----- Environment -----

  datatype Decision = Unclassified | Allowed | Refused

  /**
   * `wait`, `work` and `more` are the times that pass before successive clock readings of one loop
   * iteration. `decision` is the authorization verdict; `None` means that the future was dropped
   * while it waited for one.
   */
  datatype Env = Env(wait: nat, work: nat, more: nat, decision: Option<Decision>, writeOk: bool)

  datatype Arm =
    | ReaderEof
    | ReaderTooLong
    | ReaderIo
    | BlankLine
    | NotJson
    | Frame(msg: Msg)
    | SteerRequest(ticket: nat)
    | DeadlineFires

  datatype Input = Input(arm: Arm, env: Env)

  // ----- Frames that are not replies -----

  /** How handling of one agent message ends. `Abandoned`: the future was dropped inside it. */
  datatype Verdict = Done(toolStarted: bool) | Fail(error: AcpError) | Abandoned

  function FindKind(options: seq<PermissionOption>, kind: OptionKind): Option<PermissionOption> {
    if options == [] then None
    else if options[0].kind == kind then Some(options[0])
    else FindKind(options[1..], kind)
  }

  function RejectChoice(option: PermissionOption): Choice {
    Selected(if option.optionId.Some? then option.optionId.value else "reject")
  }

  /** The response to a permission request, or `None` for a request with no usable option. */
  function ChoiceFor(probing: bool, decision: Decision, options: seq<PermissionOption>): Option<Choice> {
    var allow, reject := FindKind(options, AllowOnce), FindKind(options, RejectOnce);
    if probing then
      Some(if reject.Some? && reject.value.optionId.Some? then Selected(reject.value.optionId.value) else Cancelled)
    else if decision.Refused? then
      Some(if reject.Some? then RejectChoice(reject.value) else Cancelled)
    else if allow.Some? then
      (if allow.value.optionId.Some? then Some(Selected(allow.value.optionId.value)) else None)
    else if reject.Some? then Some(RejectChoice(reject.value))
    else None
  }

  function DecisionOf(env: Env): Decision { if env.decision.Some? then env.decision.value else Unclassified }

  function HandlePermission(c: Client, id: Option<Value>, options: Option<seq<PermissionOption>>, env: Env)
    : (Client, Verdict)
  {
    if id.None? then (c, Fail(BadPermissionRequest)) else
    var asked := c.(pendingPermissionId := id, permissionResponded := false);
    if options.None? then (asked, Fail(BadPermissionRequest))
    else if !c.probing && env.decision.None? then (asked, Abandoned) else
    var choice := ChoiceFor(c.probing, DecisionOf(env), options.value);
    if choice.None? then (asked, Fail(BadPermissionRequest)) else
    var wrote := Write(asked, PermissionAnswer(id.value, choice.value), env.writeOk);
    if !env.writeOk then (wrote, Fail(BrokenPipe))
    else (wrote.(permissionResponded := true, pendingPermissionId := None), Done(false))
  }

  /** What both read loops do with a frame that is no reply of theirs. */
  function Dispatch(c: Client, msg: Msg, env: Env): (Client, Verdict) {
    match msg.verb
    case SessionUpdate(update) =>
      (c.(activeRunId := ApplyUpdate(c.activeRunId, msg.verb)), Done(update.ToolCall?))
    case RequestPermission(options) => HandlePermission(c, msg.id, options, env)
    case Unknown(_) =>
      if msg.id.None? then (c, Done(false))
      else
        (Write(c, MethodNotFound(msg.id.value), env.writeOk),
         if env.writeOk then Done(false) else Fail(BrokenPipe))
    case _ => (c, Done(false))
  }

  // ----- The read loop of a prompt turn -----

  datatype Turn = Turn(
    promptId: nat,
    idleTimeout: nat,
    maxDuration: nat,
    steerRx: bool,
    idleDeadline: nat,
    hardDeadline: nat,
    lastActivity: nat,
    pending: Option<Steer>)

  /**
   * How a read loop ends. `Drained` errors are returned after the pending steer was acked;
   * `Propagated` errors leave through `?`.
   */
  datatype Exit =
    | Completed(result: Value)
    | Drained(error: AcpError)
    | Propagated(error: AcpError)
    | DroppedInHandler

  datatype Config = Config(client: Client, turn: Turn, exit: Option<Exit>)

  function Enter(c: Client, promptId: nat, idle: nat, hard: nat, maxDuration: nat): Config {
    Config(
      Record(c.(steerRx := false), Entered(promptId, c.clock)),
      Turn(promptId, idle, maxDuration, c.steerRx, c.clock + idle, hard, c.clock, None),
      None)
  }

  function NextDeadline(t: Turn): nat {
    if t.idleDeadline < t.hardDeadline then t.idleDeadline else t.hardDeadline
  }

  /** The time from `from` to `to`, zero when it has passed. */
  function Remaining(to: nat, from: nat): nat { if to < from then 0 else to - from }

  function Later(g: Config, d: nat): Config { g.(client := Wait(g.client, d)) }

  /** Release a pending steer before the loop returns. */
  function Drain(g: Config): Config {
    if g.turn.pending.None? then g
    else g.(client := Record(g.client, Acked(g.turn.pending.value.ticket, PromptCompletedNeutral)),
            turn := g.turn.(pending := None))
  }

  function Close(g: Config, error: AcpError): Config {
    Drain(g).(exit := Some(Drained(error)))
  }

  /** Return on the deadline that was classified to fire first; `more` is a later clock reading. */
  function TimeOut(g: Config, more: nat): Config {
    if g.turn.idleDeadline < g.turn.hardDeadline then Close(g, IdleTimeout(g.turn.idleTimeout))
    else
      var late := Later(g, more);
      Close(late, HardTimeout(Remaining(late.client.clock, g.turn.lastActivity)))
  }

  /** The steer message that the freshest run id calls for. */
  function SteerMessage(c: Client, ticket: nat): Outgoing {
    if c.activeRunId.Some? then GooseSteer(c.nextId, c.activeRunId.value, ticket) else ExtensionSteer(c.nextId, ticket)
  }

  function TransportOf(c: Client): Transport { if c.activeRunId.Some? then Goose else Extension }

  /** Write the steer of a request that was just taken; one that cannot be written is rejected at once. */
  function SendSteer(g: Config, ticket: nat, ok: bool): Config {
    var c := g.client;
    var wrote := Write(c.(nextId := c.nextId + 1), SteerMessage(c, ticket), ok);
    if ok then g.(client := wrote, turn := g.turn.(pending := Some(Steer(c.nextId, TransportOf(c), ticket))))
    else g.(client := Record(wrote, Acked(ticket, Rejected(TransportFailed))))
  }

  /** The steer arm: take the request, and write it unless neither transport can carry it. */
  function SteerArm(g: Config, ticket: nat, env: Env): Config {
    var h := g.(client := Record(g.client, Took(ticket)));
    if h.client.activeRunId.None? && !h.client.steeringSupported then
      h.(client := Record(h.client, Acked(ticket, Rejected(ExpectedRunIdMissing))))
    else SendSteer(h, ticket, env.writeOk)
  }

  function SteerVerdict(transport: Transport, reply: Msg): SteerAck {
    if reply.error.Some? then
      var code := AsI64(Get(reply.error.value, "code"));
      Rejected(AgentRefused(if code.Some? then code.value else -1, reply.error.value))
    else if Delivered(transport, reply) then Success
    else Rejected(OutcomeRejected(reply.outcome.raw))
  }

  /** Move the hard deadline to `maxDuration` from now, if that is later. */
  function Renew(g: Config, more: nat): Config {
    var late := Later(g, more);
    var renewed := late.client.clock + g.turn.maxDuration;
    if renewed <= g.turn.hardDeadline then late
    else Config(late.client.(currentHardDeadline := Some(renewed)), g.turn.(hardDeadline := renewed), g.exit)
  }

  /** Route the reply of the pending steer to its ack; a steer that was injected renews the hard deadline. */
  function RouteSteer(g: Config, reply: Msg, more: nat): Config
    requires g.turn.pending.Some?
  {
    var steer := g.turn.pending.value;
    var acked := Config(
      Record(g.client, Acked(steer.ticket, SteerVerdict(steer.transport, reply))),
      g.turn.(pending := None),
      g.exit);
    if Injected(steer.transport, reply) then Renew(acked, more) else acked
  }

  /** What a loop returns for the agent's response. */
  function AnswerExit(reply: Msg): Exit {
    if reply.error.Some? then Drained(AgentErrorOf(reply.error.value)) else Completed(reply.result)
  }

  /** Return the agent's response to the prompt. */
  function FinishPrompt(g: Config, reply: Msg): Config {
    Drain(g).(exit := Some(AnswerExit(reply)))
  }

  function Touch(g: Config, d: nat): Config {
    var c := Wait(g.client, d);
    g.(client := c, turn := g.turn.(idleDeadline := c.clock + g.turn.idleTimeout, lastActivity := c.clock))
  }

  /** What the loop does with the outcome of a handled frame. */
  function Conclude(g: Config, verdict: Verdict, more: nat): Config {
    match verdict
    case Done(tool) => if tool then Touch(g, more) else g
    case Fail(e) => g.(exit := Some(Propagated(e)))
    case Abandoned => g.(exit := Some(DroppedInHandler))
  }

  function DispatchArm(g: Config, msg: Msg, env: Env): Config {
    var (c, verdict) := Dispatch(g.client, msg, env);
    Conclude(g.(client := c), verdict, env.more)
  }

  /** Take in a valid JSON line: it is activity, and part of the history. */
  function TakeIn(g: Config, msg: Msg, work: nat): Config {
    var t := Touch(g, work);
    t.(client := Record(t.client, Read(msg, t.client.clock)))
  }

  /** One valid JSON line from the agent. */
  function Receive(g: Config, msg: Msg, env: Env): Config {
    var h := TakeIn(g, msg, env.work);
    if h.turn.pending.Some? && IsReplyTo(msg, h.turn.pending.value.id) then RouteSteer(h, msg, env.more)
    else if IsReplyTo(msg, h.turn.promptId) then FinishPrompt(h, msg)
    else DispatchArm(h, msg, env)
  }

  /** A sleep lasts at least until the deadline it waits for. */
  function SleepTime(g: Config, work: nat): nat {
    if g.client.clock + work < NextDeadline(g.turn) then NextDeadline(g.turn) - g.client.clock else work
  }

  /** The select statement. An arm that its guard disables cannot win and changes nothing. */
  function Select(g: Config, i: Input): Config {
    match i.arm
    case ReaderEof => Close(g, AgentExited)
    case ReaderTooLong => Close(g, LineTooLong)
    case ReaderIo => Close(g, Io)
    case BlankLine => g
    case NotJson => g
    case Frame(msg) => Receive(g, msg, i.env)
    case SteerRequest(ticket) =>
      if g.turn.pending.None? && g.turn.steerRx then SteerArm(g, ticket, i.env) else g
    case DeadlineFires =>
      TimeOut(Later(g, SleepTime(g, i.env.work)), i.env.more)
  }

  /** One iteration: the pre-select deadline check, then one select outcome. */
  function Step(g: Config, i: Input): Config {
    if g.exit.Some? then g
    else
      var h := Later(g, i.env.wait);
      if h.client.clock >= NextDeadline(h.turn) then TimeOut(h, i.env.more) else Select(h, i)
  }

  /** The loop after a whole script of inputs. */
  function Run(g: Config, script: seq<Input>): Config
    decreases |script|
  {
    if script == [] then g else Step(Run(g, script[..|script| - 1]), script[|script| - 1])
  }

  // ----- The loop of a plain request -----

  datatype PlainConfig = PlainConfig(client: Client, exit: Option<Exit>)

  function PlainStep(p: PlainConfig, id: nat, i: Input): PlainConfig {
    if p.exit.Some? then p else
    match i.arm
    case ReaderEof => p.(exit := Some(Drained(AgentExited)))
    case ReaderTooLong => p.(exit := Some(Drained(LineTooLong)))
    case ReaderIo => p.(exit := Some(Drained(Io)))
    case Frame(msg) =>
      var waited := Wait(p.client, i.env.work);
      var c := Record(waited, Read(msg, waited.clock));
      if IsReplyTo(msg, id) then
        PlainConfig(c, Some(AnswerExit(msg)))
      else
        var (d, verdict) := Dispatch(c, msg, i.env);
        PlainConfig(d, match verdict
                       case Done(_) => None
                       case Fail(e) => Some(Propagated(e))
                       case Abandoned => Some(DroppedInHandler))
    case _ => p
  }

  function PlainRun(p: PlainConfig, id: nat, script: seq<Input>): PlainConfig
    decreases |script|
  {
    if script == [] then p else PlainStep(PlainRun(p, id, script[..|script| - 1]), id, script[|script| - 1])
  }

  // ----- Calls on the client -----

  /**
   * `wait` is the time before a call reads the clock for its deadline, `writing` the time that its
   * writes take before the loop reads the clock again.
   */
  datatype Op =
    | DoCall(writeOk: bool, script: seq<Input>)
    | DoInitialize(writeOk: bool, script: seq<Input>)
    | DoPrompt(wait: nat, writing: nat, idle: nat, maxDuration: nat, writeOk: bool, script: seq<Input>)
    | DoCancel(wait: nat, writing: nat, grace: Option<nat>, answerOk: bool, cancelOk: bool, script: seq<Input>)
    | InstallSteer
    | ClearSteer
    | SetProbing(on: bool)

  /** `send_request`. */
  function CallOp(c: Client, writeOk: bool, script: seq<Input>): PlainConfig {
    var wrote := Write(c.(nextId := c.nextId + 1), Call(c.nextId), writeOk);
    if !writeOk then PlainConfig(wrote, Some(Propagated(BrokenPipe)))
    else PlainRun(PlainConfig(wrote, None), c.nextId, script)
  }

  /** `initialize`: a call whose result says whether the steering extension is supported. */
  function InitializeOp(c: Client, writeOk: bool, script: seq<Input>): Client {
    var p := CallOp(c, writeOk, script);
    if p.exit.Some? && p.exit.value.Completed? then
      var steering := At(At(At(p.exit.value.result, "_meta"), "steering"), "supported") == Bool(true);
      Record(p.client.(steeringSupported := steering), Initialized(steering))
    else p.client
  }

  /** `session_prompt_blocks_with_idle_timeout`, up to the read loop. */
  function BeginPrompt(c: Client, wait: nat, maxDuration: nat, writeOk: bool): Client {
    var w := Wait(c, wait);
    var wrote := Write(
      w.(currentHardDeadline := Some(w.clock + maxDuration), lastPromptId := Some(c.nextId), nextId := c.nextId + 1),
      Prompt(c.nextId), writeOk);
    if writeOk then wrote else wrote.(lastPromptId := None, currentHardDeadline := None)
  }

  predicate IsTimeout(exit: Option<Exit>) {
    exit.Some? && exit.value.Drained? && (exit.value.error.IdleTimeout? || exit.value.error.HardTimeout?)
  }

  /** The loop returned the agent's response, as a result or as an error. */
  predicate IsAnswer(exit: Option<Exit>) {
    exit.Some? && (exit.value.Completed? || (exit.value.Drained? && exit.value.error.AgentError?))
  }

  /**
   * The end of a prompt call. A time-out leaves the prompt to `cancel_with_cleanup`; a dropped
   * future never gets here.
   */
  function EndPrompt(g: Config): Client {
    var c := Record(g.client, Left);
    if g.exit.None? || g.exit.value.DroppedInHandler? || IsTimeout(g.exit) then c
    else
      Record(c, if IsAnswer(g.exit) then Returned(g.turn.promptId) else GaveUp(g.turn.promptId))
        .(lastPromptId := None, currentHardDeadline := None)
  }

  /** The end of a cancel call. */
  function EndCancel(g: Config): Client {
    var c := Record(g.client, Left);
    if IsAnswer(g.exit) then Record(c, Returned(g.turn.promptId)) else c
  }

  function PromptStart(c: Client, wait: nat, writing: nat, idle: nat, maxDuration: nat): Config {
    var b := BeginPrompt(c, wait, maxDuration, true);
    Enter(Wait(b, writing), c.nextId, idle, b.clock + maxDuration, maxDuration)
  }

  function PromptLoop(c: Client, wait: nat, writing: nat, idle: nat, maxDuration: nat, script: seq<Input>): Config {
    Run(PromptStart(c, wait, writing, idle, maxDuration), script)
  }

  /** How long the drain after a cancel may last, from the stored deadline of the turn. */
  function DrainDeadline(stored: Option<nat>, now: nat, grace: Option<nat>): nat {
    if grace.Some? then now + grace.value
    else if stored.Some? && stored.value > now + CLEANUP_MS then stored.value
    else now + CLEANUP_MS
  }

  /** Answer the open permission request with a cancellation; the second component says whether to go on. */
  function SettlePermission(c: Client, ok: bool): (Client, bool) {
    if c.pendingPermissionId.None? then (c, true)
    else if c.permissionResponded then (c.(pendingPermissionId := None, permissionResponded := false), true)
    else
      var answered := Write(c, PermissionAnswer(c.pendingPermissionId.value, Cancelled), ok);
      (if ok then answered.(pendingPermissionId := None, permissionResponded := false) else answered, ok)
  }

  /**
   * `cancel_with_cleanup` (no grace) or `cancel_with_cleanup_grace`, up to the drain loop. The
   * second component is the error that ends the call before the loop, if any.
   */
  function BeginCancel(c: Client, wait: nat, answerOk: bool, cancelOk: bool): (Client, Option<AcpError>) {
    var w := Wait(c, wait).(currentHardDeadline := None);
    if w.lastPromptId.None? then (w, Some(NoPromptInFlight)) else
    var taken := Record(w.(lastPromptId := None), Cancelling(w.lastPromptId.value));
    var (settled, ok) := SettlePermission(taken, answerOk);
    if !ok then (settled, Some(BrokenPipe))
    else (Write(settled, Cancel(w.lastPromptId.value), cancelOk), if cancelOk then None else Some(BrokenPipe))
  }

  function CancelStart(c: Client, wait: nat, writing: nat, grace: Option<nat>, answerOk: bool, cancelOk: bool): Config
    requires BeginCancel(c, wait, answerOk, cancelOk).1.None?
    requires c.lastPromptId.Some?
  {
    var hard := DrainDeadline(c.currentHardDeadline, c.clock + wait, grace);
    var b := Wait(BeginCancel(c, wait, answerOk, cancelOk).0, writing);
    Enter(b, c.lastPromptId.value, CLEANUP_MS, hard, Remaining(hard, b.clock))
  }

  function CancelLoop(c: Client, wait: nat, writing: nat, grace: Option<nat>, answerOk: bool, cancelOk: bool,
                      script: seq<Input>): Config
    requires BeginCancel(c, wait, answerOk, cancelOk).1.None?
    requires c.lastPromptId.Some?
  {
    Run(CancelStart(c, wait, writing, grace, answerOk, cancelOk), script)
  }

  /** `session_prompt_blocks_with_idle_timeout`. */
  function PromptOp(c: Client, wait: nat, writing: nat, idle: nat, maxDuration: nat, ok: bool, script: seq<Input>)
    : Client
  {
    if ok then EndPrompt(PromptLoop(c, wait, writing, idle, maxDuration, script))
    else BeginPrompt(c, wait, maxDuration, false)
  }

  /** `cancel_with_cleanup_until`, with the deadline its callers compute. */
  function CancelOp(c: Client, wait: nat, writing: nat, grace: Option<nat>, answerOk: bool, cancelOk: bool,
                    script: seq<Input>): Client
  {
    var (b, failed) := BeginCancel(c, wait, answerOk, cancelOk);
    if failed.Some? then b else EndCancel(CancelLoop(c, wait, writing, grace, answerOk, cancelOk, script))
  }

  /** What a prompt call returns. */
  function PromptExit(c: Client, wait: nat, writing: nat, idle: nat, maxDuration: nat, ok: bool, script: seq<Input>)
    : Option<Exit>
  {
    if ok then PromptLoop(c, wait, writing, idle, maxDuration, script).exit else Some(Propagated(BrokenPipe))
  }

  /** What a cancel to a deadline returns. */
  function CancelExit(c: Client, wait: nat, writing: nat, grace: Option<nat>, answerOk: bool, cancelOk: bool,
                      script: seq<Input>): Option<Exit>
  {
    var failed := BeginCancel(c, wait, answerOk, cancelOk).1;
    if failed.Some? then Some(Propagated(failed.value))
    else CancelLoop(c, wait, writing, grace, answerOk, cancelOk, script).exit
  }

  /** A drain with a grace that runs out is not a breach of the turn's own hard deadline. */
  function Graced(exit: Option<Exit>, grace: Option<nat>): Option<Exit> {
    if grace.Some? && exit.Some? && exit.value.Drained? && exit.value.error.HardTimeout?
    then Some(Drained(CancelDrainTimeout(grace.value))) else exit
  }

  function Exec(c: Client, op: Op): Client {
    match op
    case DoCall(ok, script) => CallOp(c, ok, script).client
    case DoInitialize(ok, script) => InitializeOp(c, ok, script)
    case DoPrompt(wait, writing, idle, max, ok, script) => PromptOp(c, wait, writing, idle, max, ok, script)
    case DoCancel(wait, writing, grace, answerOk, cancelOk, script) =>
      CancelOp(c, wait, writing, grace, answerOk, cancelOk, script)
    case InstallSteer => c.(steerRx := true)
    case ClearSteer => c.(steerRx := false)
    case SetProbing(on) => c.(probing := on)
  }

  /** The client after any sequence of calls. */
  function ExecAll(c: Client, ops: seq<Op>): Client
    decreases |ops|
  {
    if ops == [] then c else Exec(ExecAll(c, ops[..|ops| - 1]), ops[|ops| - 1])
  }
}
