/** Control and data connection as one state machine: what src/FtpContext.ts and src/transfer.ts do
    in each step, as functions on the state of a client.

    The last seven fields of `Ctx` record a history and drive nothing in the source: the handler each
    task was launched with, the promises' outcomes, what each task experienced until it settled, the
    stream pipelines whose callback is outstanding, and the calls made on the progress tracker; `sent`
    are the commands written and `next` counts the tasks. */
module Connection {
  import opened ReplyParser
  import opened ReplyStream

  datatype FtpResponse = FtpResponse(code: nat, message: string)

  datatype Error =
    | FtpError(response: FtpResponse)
    | UserClosed(duringTask: bool)
    | SecondTask
    | ResponseTooLarge
    | UnexpectedRequest(message: string)
    | NoDataConnection
    | InvalidCommand(command: string)
    | ClientIsClosed(reason: Error)
    | External(text: string) // socket errors, timeouts, FIN packets, failing streams

  /** The response handlers of the library. */
  datatype Handler =
    | Request
    | IgnoringErrors
    | Greeting
    | Login(password: string)
    | Upload
    | Download(path: string)
  {
    predicate IsTransfer() { Upload? || Download? }
  }

  datatype Task = Task(id: nat, handler: Handler)

  /** State of a TransferResolver. */
  datatype Transfer = Transfer(response: Option<FtpResponse>, dataTransferDone: bool)

  datatype Control = Control(listening: bool, timer: nat)

  /** A data socket; `waiting` are the transfers subscribed to its 'secureConnect' event. */
  datatype Data = Data(tls: bool, secure: bool, timer: nat, listening: bool, waiting: seq<nat>)

  datatype Outcome = Resolved(response: FtpResponse) | Rejected(error: Error)

  /** What a task experiences: a reply or an error passed to its handler (and whether the context was
      open then), the start of its pipeline, the callback of its pipeline. */
  datatype Note =
    | Heard(response: FtpResponse, hasData: bool, open: bool)
    | Failed(error: Error, open: bool)
    | Started
    | Piped(failure: Option<Error>)

  datatype ProgressCall = Start | UpdateAndStop | Stop

  datatype Ctx = Ctx(
    timeout: nat,
    task: Option<Task>,
    partialResponse: string,
    closingError: Option<Error>,
    control: Control,
    data: Option<Data>,
    transfers: map<nat, Transfer>,
    sent: seq<string>,
    next: nat,
    handlers: map<nat, Handler>,
    outcomes: map<nat, Outcome>,
    traces: map<nat, seq<Note>>,
    pipes: multiset<nat>,
    progress: seq<ProgressCall>)

  function Init(timeout: nat): Ctx {
    Ctx(timeout, None, "", None, Control(true, 0), None, map[], [], 0, map[], map[], map[], multiset{}, [])
  }

  // ---------------------------------------------------------------- small steps

  predicate PositiveCompletion(code: nat) { 200 <= code < 300 }
  predicate PositiveIntermediate(code: nat) { 300 <= code < 400 }
  predicate Announces(code: nat) { code == 150 || code == 125 }

  predicate Clean(command: string) {
    forall i | 0 <= i < |command| :: command[i] != '\r' && command[i] != '\n' && command[i] != '\0'
  }

  function Digit(c: char): nat { if IsDigit(c) then (c as int) - ('0' as int) else 0 }

  /** `parseInt(message.substr(0, 3), 10)` for messages that start with three digits. */
  function Code(message: string): nat {
    if HasCode(message) then 100 * Digit(message[0]) + 10 * Digit(message[1]) + Digit(message[2]) else 0
  }

  predicate Pending(c: Ctx, id: nat) {
    c.task.Some? && c.task.value.id == id
  }

  function Send(c: Ctx, command: string): Ctx {
    c.(sent := if Clean(command) then c.sent + [command] else c.sent)
  }

  function SetControlTimer(c: Ctx, t: nat): Ctx {
    c.(control := c.control.(timer := t))
  }

  function SetDataTimer(c: Ctx, t: nat): Ctx {
    c.(data := if c.data.Some? then Some(c.data.value.(timer := t)) else None)
  }

  function Record(c: Ctx, id: nat, note: Note): Ctx {
    c.(traces := if id in c.traces && id !in c.outcomes then c.traces[id := c.traces[id] + [note]] else c.traces)
  }

  function CallProgress(c: Ctx, call: ProgressCall): Ctx {
    c.(progress := c.progress + [call])
  }

  function StopTrackingTask(c: Ctx): Ctx {
    SetControlTimer(c, 0).(task := None)
  }

  /** A promise keeps its first outcome. */
  function Settle(c: Ctx, id: nat, outcome: Outcome): Ctx {
    c.(outcomes := if id in c.outcomes then c.outcomes else c.outcomes[id := outcome])
  }

  function ResolveTask(c: Ctx, id: nat, response: FtpResponse): Ctx {
    Settle(StopTrackingTask(c), id, Resolved(response))
  }

  function RejectTask(c: Ctx, id: nat, error: Error): Ctx {
    Settle(StopTrackingTask(c), id, Rejected(error))
  }

  /** `dataSocket = undefined` */
  function DropData(c: Ctx): Ctx {
    c.(data := None)
  }

  /** `_closeSocket(this._dataSocket)`: the reference stays, the listeners go. */
  function CloseData(c: Ctx): Ctx {
    c.(data := if c.data.Some? then Some(c.data.value.(listening := false, waiting := [])) else None)
  }

  function CloseControl(c: Ctx): Ctx {
    Send(c.(control := c.control.(listening := false)), "QUIT")
  }

  // ---------------------------------------------------------------- TransferResolver

  function OnDataStart(c: Ctx): Ctx
    requires c.data.Some?
  {
    CallProgress(SetDataTimer(SetControlTimer(c, 0), c.timeout), Start)
  }

  function TransferOf(c: Ctx, id: nat): Transfer {
    if id in c.transfers then c.transfers[id] else Transfer(None, false)
  }

  function TryResolve(c: Ctx, id: nat): Ctx {
    var t := TransferOf(c, id);
    if t.dataTransferDone && t.response.Some? then ResolveTask(DropData(c), id, t.response.value) else c
  }

  function OnDataDone(c: Ctx, id: nat): Ctx {
    var c1 := SetDataTimer(SetControlTimer(CallProgress(c, UpdateAndStop), c.timeout), 0);
    TryResolve(c1.(transfers := c1.transfers[id := TransferOf(c1, id).(dataTransferDone := true)]), id)
  }

  function OnControlDone(c: Ctx, id: nat, response: FtpResponse): Ctx {
    TryResolve(c.(transfers := c.transfers[id := TransferOf(c, id).(response := Some(response))]), id)
  }

  function OnError(c: Ctx, id: nat, error: Error): Ctx {
    RejectTask(DropData(SetControlTimer(CallProgress(c, UpdateAndStop), c.timeout)), id, error)
  }

  // ---------------------------------------------------------------- handlers

  function HandleFailure(c: Ctx, task: Task, error: Error): Ctx {
    match task.handler
    case Upload | Download(_) => OnError(c, task.id, error)
    case IgnoringErrors =>
      if error.FtpError? then ResolveTask(c, task.id, error.response) else RejectTask(c, task.id, error)
    case _ => RejectTask(c, task.id, error)
  }

  function PassFailure(c: Ctx, error: Error): Ctx {
    if c.task == None then c
    else HandleFailure(Record(c, c.task.value.id, Failed(error, c.closingError == None)), c.task.value, error)
  }

  function CloseWithError(c: Ctx, error: Error): Ctx {
    if c.closingError.Some? then c
    else StopTrackingTask(PassFailure(CloseData(CloseControl(c.(closingError := Some(error)))), error))
  }

  /** The pipeline between stream and data socket starts. */
  function StartPipeline(c: Ctx, id: nat): Ctx {
    if c.data.Some?
    then var c1 := Record(OnDataStart(c), id, Started); c1.(pipes := c1.pipes + multiset{id})
    else c
  }

  function AwaitSecure(c: Ctx, id: nat): Ctx
    requires c.data.Some?
  {
    c.(data := Some(c.data.value.(waiting := c.data.value.waiting + [id])))
  }

  function HandleTransferReply(c: Ctx, task: Task, r: FtpResponse): Ctx {
    if Announces(r.code) then
      if c.data == None then OnError(c, task.id, NoDataConnection)
      else if task.handler.Upload? && c.data.value.tls && !c.data.value.secure then AwaitSecure(c, task.id)
      else StartPipeline(c, task.id)
    else if task.handler.Download? && r.code == 350 then Send(c, "RETR " + task.handler.path)
    else if PositiveCompletion(r.code) then OnControlDone(c, task.id, r)
    else if PositiveIntermediate(r.code) then CloseWithError(c, UnexpectedRequest(r.message))
    else c
  }

  function HandleReply(c: Ctx, task: Task, r: FtpResponse): Ctx {
    match task.handler
    case Upload | Download(_) => HandleTransferReply(c, task, r)
    case Request | IgnoringErrors => ResolveTask(c, task.id, r)
    case Greeting =>
      if PositiveCompletion(r.code) then ResolveTask(c, task.id, r) else RejectTask(c, task.id, FtpError(r))
    case Login(password) =>
      if PositiveCompletion(r.code) then ResolveTask(c, task.id, r)
      else if r.code == 331 then Send(c, "PASS " + password)
      else RejectTask(c, task.id, FtpError(r))
  }

  function PassReply(c: Ctx, r: FtpResponse): Ctx {
    if c.task == None then c
    else
      var id := c.task.value.id;
      HandleReply(Record(c, id, Heard(r, c.data.Some?, c.closingError == None)), c.task.value, r)
  }

  function DeliverMessage(c: Ctx, message: string): Ctx {
    var r := FtpResponse(Code(message), message);
    if r.code >= 400 then PassFailure(c, FtpError(r)) else PassReply(c, r)
  }

  function DeliverAll(c: Ctx, messages: seq<string>): Ctx
    decreases |messages|
  {
    if messages == [] then c else DeliverAll(DeliverMessage(c, messages[0]), messages[1..])
  }

  // ---------------------------------------------------------------- events

  function OnControlData(c: Ctx, chunk: string): Ctx {
    match Receive(c.partialResponse, chunk)
    case None => CloseWithError(c, ResponseTooLarge)
    case Some(p) => DeliverAll(c.(partialResponse := p.rest), p.messages)
  }

  function Track(c: Ctx, handler: Handler): Ctx {
    var id := c.next;
    c.(task := Some(Task(id, handler)), next := id + 1,
       handlers := c.handlers[id := handler], traces := c.traces[id := []],
       transfers := if handler.IsTransfer() then c.transfers[id := Transfer(None, false)] else c.transfers)
  }

  /** `handle(command, responseHandler)`; the empty command stands for `undefined`.  A command with
      control characters makes `send` throw in the promise's executor. */
  function Handle(c: Ctx, handler: Handler, command: string): Ctx {
    var c1 := if c.task.Some? then CloseWithError(c, SecondTask) else c;
    var c2 := Track(c1, handler);
    if c2.closingError.Some? then PassFailure(c2, ClientIsClosed(c2.closingError.value))
    else
      var c3 := SetControlTimer(c2, c2.timeout);
      if command == "" then c3
      else if Clean(command) then Send(c3, command)
      else Settle(c3, c1.next, Rejected(InvalidCommand(command)))
  }

  /** A passive data connection was opened: `ftp.dataSocket = socket`. */
  function ConnectData(c: Ctx, tls: bool): Ctx {
    DropData(c).(data := Some(Data(tls, false, 0, true, [])))
  }

  /** A client call: the data connection, if one was prepared, and at once the task using it.
      A download without data connection throws before any task is launched. */
  function Call(c: Ctx, handler: Handler, command: string, connection: Option<bool>): Ctx {
    var c1 := if connection.Some? then ConnectData(c, connection.value) else c;
    if handler.Download? && c1.data == None then c1 else Handle(c1, handler, command)
  }

  function StartPipelines(c: Ctx, ids: seq<nat>): Ctx
    decreases |ids|
  {
    if ids == [] then c else StartPipelines(StartPipeline(c, ids[0]), ids[1..])
  }

  /** 'secureConnect' on the data socket: one-time listeners run in the order of subscription. */
  function OnSecureConnect(c: Ctx): Ctx {
    if c.data.Some? && c.data.value.listening && c.data.value.tls && !c.data.value.secure then
      StartPipelines(c.(data := Some(c.data.value.(secure := true, waiting := []))), c.data.value.waiting)
    else c
  }

  /** The callback of a pipeline, at any time after its start. */
  function OnPipeline(c: Ctx, id: nat, failure: Option<Error>): Ctx {
    if id !in c.pipes then c
    else
      var c1 := Record(c.(pipes := c.pipes - multiset{id}), id, Piped(failure));
      match failure case Some(e) => OnError(c1, id, e) case None => OnDataDone(c1, id)
  }

  /** The `socket` setter with a new or an upgraded control socket.  The source takes the new one for an
      upgrade if both have the same local port - also if both have none, as before a first connection or
      after the old socket was destroyed - and then sends no QUIT. */
  function SetSocket(c: Ctx, upgrade: bool): Ctx {
    var c1 := DropData(c).(partialResponse := "");
    var c2 := if upgrade then c1 else CloseControl(c1);
    c2.(closingError := None, control := Control(true, 0))
  }

  datatype Event =
    | CallEvent(handler: Handler, command: string, connection: Option<bool>)
    | ControlData(chunk: string)
    | SecureConnect
    | PipelineEnd(id: nat, failure: Option<Error>)
    | ControlSocketFailure(text: string)
    | DataSocketFailure(text: string)
    | StreamFailure(text: string)
    | UserClose
    | Reconnect(samePort: bool)
    | NewSocket(upgrade: bool)

  /** Sockets whose listeners were removed deliver nothing. */
  function Step(c: Ctx, e: Event): Ctx {
    match e
    case CallEvent(handler, command, connection) => Call(c, handler, command, connection)
    case ControlData(chunk) => if c.control.listening then OnControlData(c, chunk) else c
    case SecureConnect => OnSecureConnect(c)
    case PipelineEnd(id, failure) => OnPipeline(c, id, failure)
    case ControlSocketFailure(text) => if c.control.listening then CloseWithError(c, External(text)) else c
    case DataSocketFailure(text) =>
      if c.data.Some? && c.data.value.listening then CloseWithError(c, External(text)) else c
    case StreamFailure(text) => CloseWithError(c, External(text))
    case UserClose => CallProgress(CloseWithError(c, UserClosed(c.task.Some?)), Stop)
    case Reconnect(samePort) => Handle(SetSocket(c, samePort), Greeting, "")
    case NewSocket(upgrade) => SetSocket(c, upgrade)
  }
}
