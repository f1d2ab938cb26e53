/** How the client reads one JSON line: every field it looks up, by its path in the message. */
module AcpFrames {
  import opened Options
  import opened Json
  import opened AcpWire
  import opened AcpTurn

  function Decode(v: Value): Msg {
    Msg(Get(v, "id"), DecodeMethod(v), Get(v, "error"), At(v, "result"), DecodeOutcome(Get(At(v, "result"), "outcome")))
  }

  function DecodeMethod(v: Value): Method {
    var verb := Get(v, "method");
    if verb.None? then NoMethod
    else if !verb.value.Str? then NotAString
    else if verb.value.s == "session/update" then SessionUpdate(DecodeUpdate(At(At(v, "params"), "update")))
    else if verb.value.s == "_goose/unstable/session/update" then GooseUsage
    else if verb.value.s == "session/request_permission" then
      var options := At(At(v, "params"), "options");
      RequestPermission(if options.Arr? then Some(DecodeOptions(options.items)) else None)
    else Unknown(verb.value.s)
  }

  function DecodeUpdate(update: Value): Update {
    var kind := AsStr(Get(update, "sessionUpdate"));
    if kind == Some("tool_call") then ToolCall
    else if kind != Some("session_info_update") then OtherUpdate
    else
      match Get(At(At(update, "_meta"), "goose"), "activeRunId")
      case Some(Str(run)) => RunIs(run)
      case Some(Null) => RunCleared
      case _ => OtherUpdate
  }

  function DecodeOption(option: Value): PermissionOption {
    var kind := AsStr(Get(option, "kind"));
    PermissionOption(
      if kind == Some("allow_once") then AllowOnce else if kind == Some("reject_once") then RejectOnce else OtherKind,
      AsStr(Get(option, "optionId")))
  }

  function DecodeOptions(items: seq<Value>): seq<PermissionOption> {
    seq(|items|, i requires 0 <= i < |items| => DecodeOption(items[i]))
  }

  function DecodeOutcome(outcome: Option<Value>): Outcome {
    if outcome == Some(Str("injected")) then OutcomeInjected
    else if outcome == Some(Str("startedNewTurn")) then OutcomeStartedNewTurn
    else OtherOutcome(outcome)
  }

  // ----- Lines -----

  /** A line as it leaves the reader: blank, not JSON, or a JSON value. */
  datatype Line = Blank | Garbage | Json(v: Value)

  datatype RawArm = Eof | TooLong | IoFailure | Text(line: Line) | SteerReady(ticket: nat) | SleepEnds

  datatype RawInput = RawInput(arm: RawArm, env: Env)

  function DecodeInput(raw: RawInput): Input {
    Input(
      match raw.arm
      case Eof => ReaderEof
      case TooLong => ReaderTooLong
      case IoFailure => ReaderIo
      case Text(Blank) => BlankLine
      case Text(Garbage) => NotJson
      case Text(Json(v)) => Frame(Decode(v))
      case SteerReady(ticket) => SteerRequest(ticket)
      case SleepEnds => DeadlineFires,
      raw.env)
  }

  function DecodeAll(raw: seq<RawInput>): seq<Input> {
    seq(|raw|, k requires 0 <= k < |raw| => DecodeInput(raw[k]))
  }
}
