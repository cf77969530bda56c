/** The objects of src/FtpContext.ts and src/transfer.ts with the fields they update in place.  Each
    method is proved to do to the fields what its function in `Connection` does to the state. */
module FtpContextObjects {
  import opened ReplyParser
  import opened ReplyStream
  import opened Connection

  datatype Response = Reply(response: FtpResponse) | Failure(error: Error)

  /** A tracked task; transfers bring the resolver their handler closes over. */
  datatype TrackedTask = TrackedTask(id: nat, handler: Handler, resolver: TransferResolver?)

  class FtpContext {
    const timeout: nat
    var task: Option<TrackedTask>
    var partialResponse: string
    var closingError: Option<Error>
    var control: Control
    var data: Option<Data>
    /** What the event loop can call back: the resolvers that handlers close over, and the pipelines
        whose callback is outstanding. */
    var resolvers: map<nat, TransferResolver>
    var pipes: multiset<nat>
    var next: nat
    ghost var sent: seq<string>
    ghost var handlers: map<nat, Handler>
    ghost var outcomes: map<nat, Outcome>
    ghost var traces: map<nat, seq<Note>>
    ghost var progress: seq<ProgressCall>

    ghost predicate Valid()
      reads this, resolvers.Values
    {
      && (forall k | k in resolvers :: resolvers[k].ftp == this && resolvers[k].id == k)
      && (task.Some? && task.value.handler.IsTransfer() ==>
            task.value.id in resolvers && task.value.resolver == resolvers[task.value.id])
      && (task.Some? ==> task.value.id < next)
      && (forall k | k in resolvers :: k < next)
    }

    ghost function View(): Ctx
      reads this, resolvers.Values
    {
      Ctx(timeout, if task.Some? then Some(Task(task.value.id, task.value.handler)) else None,
          partialResponse, closingError, control, data, Transfers(),
          sent, next, handlers, outcomes, traces, pipes, progress)
    }

    ghost function Transfers(): map<nat, Transfer>
      reads this`resolvers, resolvers.Values
    {
      map k | k in resolvers :: Transfer(resolvers[k].response, resolvers[k].dataTransferDone)
    }

    constructor (timeout: nat)
      ensures Valid() && View() == Init(timeout)
    {
      this.timeout := timeout;
      task, partialResponse, closingError := None, "", None;
      control, data := Control(true, 0), None;
      resolvers, sent, pipes, progress := map[], [], multiset{}, [];
      handlers, outcomes, traces := map[], map[], map[];
      next := 0;
    }

    ghost method Note(id: nat, note: Note)
      requires Valid()
      modifies this`traces
      ensures Valid() && View() == Record(old(View()), id, note)
    {
      if id in traces && id !in outcomes {
        traces := traces[id := traces[id] + [note]];
      }
    }

    ghost method ProgressCalled(call: ProgressCall)
      requires Valid()
      modifies this`progress
      ensures Valid() && View() == CallProgress(old(View()), call)
    {
      progress := progress + [call];
    }

    method SetTimeout(t: nat)
      requires Valid()
      modifies this`control
      ensures Valid() && View() == SetControlTimer(old(View()), t)
    {
      control := control.(timer := t);
    }

    method SetDataTimeout(t: nat)
      requires Valid()
      modifies this`data
      ensures Valid() && View() == SetDataTimer(old(View()), t)
    {
      if data.Some? {
        data := Some(data.value.(timer := t));
      }
    }

    method WriteCommand(command: string)
      requires Valid()
      modifies this`sent
      ensures Valid() && View() == Send(old(View()), command)
    {
      if Clean(command) {
        sent := sent + [command];
      }
    }

    method StopTracking()
      requires Valid()
      modifies this`control, this`task
      ensures Valid() && View() == StopTrackingTask(old(View()))
    {
      SetTimeout(0);
      task := None;
    }

    method ResolvePromise(id: nat, response: FtpResponse)
      requires Valid()
      modifies this`control, this`task, this`outcomes
      ensures Valid() && View() == ResolveTask(old(View()), id, response)
    {
      StopTracking();
      if id !in outcomes {
        outcomes := outcomes[id := Resolved(response)];
      }
    }

    method RejectPromise(id: nat, error: Error)
      requires Valid()
      modifies this`control, this`task, this`outcomes
      ensures Valid() && View() == RejectTask(old(View()), id, error)
    {
      StopTracking();
      if id !in outcomes {
        outcomes := outcomes[id := Rejected(error)];
      }
    }

    /** `dataSocket = undefined` */
    method DropDataSocket()
      requires Valid()
      modifies this`data
      ensures Valid() && View() == DropData(old(View()))
    {
      data := None;
    }

    method CloseDataSocket()
      requires Valid()
      modifies this`data
      ensures Valid() && View() == CloseData(old(View()))
    {
      if data.Some? {
        data := Some(data.value.(listening := false, waiting := []));
      }
    }

    method CloseControlSocket()
      requires Valid()
      modifies this`control, this`sent
      ensures Valid() && View() == CloseControl(old(View()))
    {
      control := control.(listening := false);
      WriteCommand("QUIT");
    }

    method Close()
      requires Valid()
      modifies this, resolvers.Values
      ensures Valid() && resolvers == old(resolvers)
      ensures View() == Step(old(View()), UserClose)
    {
      CloseWithError(UserClosed(task.Some?));
      ProgressCalled(Stop);
    }

    method CloseWithError(error: Error)
      requires Valid()
      modifies this, resolvers.Values
      ensures Valid() && resolvers == old(resolvers) && next == old(next)
      ensures View() == Connection.CloseWithError(old(View()), error)
      decreases false, 3
    {
      if closingError.Some? {
        return;
      }
      closingError := Some(error);
      ghost var c1 := View();
      assert c1 == old(View()).(closingError := Some(error));
      CloseControlSocket();
      CloseDataSocket();
      assert View() == CloseData(CloseControl(c1));
      PassToHandler(Failure(error));
      StopTracking();
    }

    method PassToHandler(res: Response)
      requires Valid()
      modifies this, resolvers.Values
      ensures Valid() && resolvers == old(resolvers) && next == old(next)
      ensures View() == match res case Reply(r) => PassReply(old(View()), r)
                                  case Failure(e) => PassFailure(old(View()), e)
      decreases res.Reply?, 2
    {
      if task.Some? {
        match res {
          case Reply(r) => Note(task.value.id, Heard(r, data.Some?, closingError == None));
          case Failure(e) => Note(task.value.id, Failed(e, closingError == None));
        }
        RunHandler(task.value, res);
      }
    }

    /** The response handlers of `request`, `sendIgnoringError`, `login` and the greeting; those of
        transfers belong to their resolver. */
    method RunHandler(t: TrackedTask, res: Response)
      requires Valid() && task == Some(t)
      modifies this, resolvers.Values
      ensures Valid() && resolvers == old(resolvers) && next == old(next)
      ensures View() == match res case Reply(r) => HandleReply(old(View()), Task(t.id, t.handler), r)
                                  case Failure(e) => HandleFailure(old(View()), Task(t.id, t.handler), e)
      decreases res.Reply?, 1
    {
      match t.handler {
        case Upload => t.resolver.HandleTransfer(t, res);
        case Download(_) => t.resolver.HandleTransfer(t, res);
        case _ =>
          match res {
            case Failure(e) => HandlePlainFailure(t, e);
            case Reply(r) => HandlePlainReply(t, r);
          }
      }
    }

    method HandlePlainFailure(t: TrackedTask, e: Error)
      requires Valid() && !t.handler.IsTransfer()
      modifies this`control, this`task, this`outcomes
      ensures Valid() && View() == HandleFailure(old(View()), Task(t.id, t.handler), e)
    {
      if t.handler.IgnoringErrors? && e.FtpError? {
        ResolvePromise(t.id, e.response);
      } else {
        RejectPromise(t.id, e);
      }
    }

    method HandlePlainReply(t: TrackedTask, r: FtpResponse)
      requires Valid() && !t.handler.IsTransfer()
      modifies this`control, this`task, this`outcomes, this`sent
      ensures Valid() && View() == HandleReply(old(View()), Task(t.id, t.handler), r)
    {
      match t.handler {
        case Greeting =>
          if PositiveCompletion(r.code) {
            ResolvePromise(t.id, r);
          } else {
            RejectPromise(t.id, FtpError(r));
          }
        case Login(password) =>
          if PositiveCompletion(r.code) {
            ResolvePromise(t.id, r);
          } else if r.code == 331 {
            WriteCommand("PASS " + password);
          } else {
            RejectPromise(t.id, FtpError(r));
          }
        case Request => ResolvePromise(t.id, r);
        case IgnoringErrors => ResolvePromise(t.id, r);
      }
    }

    /** One reply: from code 400 on it is passed on as an error. */
    method HandleMessage(message: string)
      requires Valid()
      modifies this, resolvers.Values
      ensures Valid() && resolvers == old(resolvers)
      ensures View() == DeliverMessage(old(View()), message)
    {
      var r := FtpResponse(Code(message), message);
      PassToHandler(if r.code >= 400 then Failure(FtpError(r)) else Response.Reply(r));
    }

    method OnControlSocketData(chunk: string)
      requires Valid()
      modifies this, resolvers.Values
      ensures Valid() && resolvers == old(resolvers)
      ensures View() == OnControlData(old(View()), chunk)
    {
      if |partialResponse| + |chunk| > MAX_CONTROL_RESPONSE_LENGTH {
        CloseWithError(ResponseTooLarge);
        return;
      }
      var messages, rest := ParseControlResponse(partialResponse + chunk);
      partialResponse := rest;
      assert View() == old(View()).(partialResponse := rest);
      assert messages[0..] == messages;
      var i := 0;
      while i < |messages|
        invariant 0 <= i <= |messages|
        invariant Valid() && resolvers == old(resolvers)
        invariant DeliverAll(View(), messages[i..]) == OnControlData(old(View()), chunk)
      {
        HandleMessage(messages[i]);
        assert messages[i..][1..] == messages[i + 1..];
        i := i + 1;
      }
    }

    /** `handle(command, responseHandler)` */
    method Handle(command: string, handler: Handler, resolver: TransferResolver?)
      requires Valid()
      requires handler.IsTransfer() ==>
                 && resolver != null && resolver.ftp == this && resolver.id == next
                 && resolver !in resolvers.Values && resolver.response == None && !resolver.dataTransferDone
      modifies this, resolvers.Values, resolver
      ensures Valid()
      ensures resolvers == if handler.IsTransfer() then old(resolvers)[old(next) := resolver] else old(resolvers)
      ensures View() == Connection.Handle(old(View()), handler, command)
    {
      if task.Some? {
        CloseWithError(SecondTask);
      }
      var id := next;
      ghost var c1 := View();
      Launch(handler, resolver);
      assert View() == Track(c1, handler);
      Begin(id, command);
    }

    /** The rest of the executor: a closed context turns the task away, an open one sends the command. */
    method Begin(id: nat, command: string)
      requires Valid()
      modifies this, resolvers.Values
      ensures Valid() && resolvers == old(resolvers)
      ensures View() == var c := old(View());
                        if c.closingError.Some? then PassFailure(c, ClientIsClosed(c.closingError.value))
                        else if command == "" then SetControlTimer(c, timeout)
                        else if Clean(command) then Send(SetControlTimer(c, timeout), command)
                        else Settle(SetControlTimer(c, timeout), id, Rejected(InvalidCommand(command)))
    {
      if closingError.Some? {
        PassToHandler(Failure(ClientIsClosed(closingError.value)));
        return;
      }
      SetTimeout(timeout);
      if command != "" {
        Submit(id, command);
      }
    }

    /** The task of a new promise becomes the tracked one. */
    method Launch(handler: Handler, resolver: TransferResolver?)
      requires Valid()
      requires handler.IsTransfer() ==>
                 && resolver != null && resolver.ftp == this && resolver.id == next
                 && resolver !in resolvers.Values && resolver.response == None && !resolver.dataTransferDone
      modifies this
      ensures Valid() && View() == Track(old(View()), handler) && next == old(next) + 1
      ensures resolvers == if handler.IsTransfer() then old(resolvers)[old(next) := resolver] else old(resolvers)
    {
      var id := next;
      Count(handler);
      if handler.IsTransfer() {
        Register(id, resolver);
      }
      task := Some(TrackedTask(id, handler, resolver));
    }

    /** A new promise. */
    method Count(ghost handler: Handler)
      requires Valid()
      modifies this`next, this`handlers, this`traces
      ensures Valid() && next == old(next) + 1
      ensures View() == old(View()).(next := next, handlers := old(handlers)[old(next) := handler],
                                     traces := old(traces)[old(next) := []])
    {
      handlers := handlers[next := handler];
      traces := traces[next := []];
      next := next + 1;
    }

    /** The resolver that the handler of a new transfer closes over. */
    method Register(id: nat, resolver: TransferResolver)
      requires Valid() && id < next && id !in resolvers && resolver !in resolvers.Values
      requires !(task.Some? && task.value.handler.IsTransfer() && task.value.id == id)
      requires resolver.ftp == this && resolver.id == id && resolver.response == None && !resolver.dataTransferDone
      modifies this`resolvers
      ensures Valid() && resolvers == old(resolvers)[id := resolver]
      ensures View() == old(View()).(transfers := old(View()).transfers[id := Transfer(None, false)])
    {
      resolvers := resolvers[id := resolver];
    }

    /** `send` inside the executor of a promise: if it throws, the promise is rejected. */
    method Submit(id: nat, command: string)
      requires Valid()
      modifies this`sent, this`outcomes
      ensures Valid()
      ensures View() == if Clean(command) then Send(old(View()), command)
                        else Settle(old(View()), id, Rejected(InvalidCommand(command)))
    {
      if Clean(command) {
        WriteCommand(command);
      } else if id !in outcomes {
        outcomes := outcomes[id := Rejected(InvalidCommand(command))];
      }
    }

    /** `dataSocket = socket` for a new passive connection. */
    method SetDataSocket(tls: bool)
      requires Valid()
      modifies this`data
      ensures Valid() && View() == ConnectData(old(View()), tls)
    {
      CloseDataSocket();
      data := Some(Data(tls, false, 0, true, []));
    }

    /** `uploadFrom` and `downloadTo`: launch a transfer with a new resolver, the latter only if there
        is a data connection. */
    method LaunchTransfer(command: string, handler: Handler) returns (launched: bool)
      requires Valid() && handler.IsTransfer()
      modifies this, resolvers.Values
      ensures Valid() && launched == !(handler.Download? && old(data) == None)
      ensures View() == Call(old(View()), handler, command, None)
      ensures fresh(resolvers.Values - old(resolvers.Values))
    {
      launched := !(handler.Download? && data == None);
      if launched {
        var resolver := new TransferResolver(this, next);
        Handle(command, handler, resolver);
      }
    }

    method SecureConnected()
      requires Valid() && data.Some? && data.value.listening && data.value.tls && !data.value.secure
      requires forall i | 0 <= i < |data.value.waiting| ::
                 task.Some? && task.value.handler.IsTransfer() && task.value.id == data.value.waiting[i]
      modifies this, resolvers.Values
      ensures Valid() && resolvers == old(resolvers)
      ensures View() == OnSecureConnect(old(View()))
    {
      var waiting := data.value.waiting;
      data := Some(data.value.(secure := true, waiting := []));
      assert View() == old(View()).(data := data);
      assert waiting[0..] == waiting;
      var i := 0;
      while i < |waiting|
        invariant 0 <= i <= |waiting|
        invariant Valid() && resolvers == old(resolvers) && data.Some? && task == old(task)
        invariant StartPipelines(View(), waiting[i..]) == OnSecureConnect(old(View()))
      {
        task.value.resolver.StartPipeline(waiting[i]);
        assert waiting[i..][1..] == waiting[i + 1..];
        i := i + 1;
      }
    }

    /** The `socket` setter. */
    method SetControlSocket(upgrade: bool)
      requires Valid()
      modifies this
      ensures Valid() && resolvers == old(resolvers)
      ensures View() == SetSocket(old(View()), upgrade)
    {
      DropDataSocket();
      ForgetPartialResponse();
      if !upgrade {
        CloseControlSocket();
      }
      Reopen();
    }

    method ForgetPartialResponse()
      requires Valid()
      modifies this`partialResponse
      ensures Valid() && View() == old(View()).(partialResponse := "")
    {
      partialResponse := "";
    }

    /** A new control socket is listened to and resets the reason for closing. */
    method Reopen()
      requires Valid()
      modifies this`closingError, this`control
      ensures Valid() && View() == old(View()).(closingError := None, control := Control(true, 0))
    {
      closingError := None;
      control := Control(true, 0);
    }
  }

  /** Waits for the data and the control connection of one transfer. */
  class TransferResolver {
    const ftp: FtpContext
    ghost const id: nat
    var response: Option<FtpResponse>
    var dataTransferDone: bool

    constructor (ftp: FtpContext, ghost id: nat)
      ensures this.ftp == ftp && this.id == id && response == None && !dataTransferDone
    {
      this.ftp, this.id := ftp, id;
      response, dataTransferDone := None, false;
    }

    /** The context is in order and knows this resolver. */
    ghost predicate Attached()
      reads this, ftp, ftp.resolvers.Values
    {
      ftp.Valid() && id in ftp.resolvers && ftp.resolvers[id] == this
    }

    method OnDataStart()
      requires Attached() && ftp.data.Some?
      modifies ftp`control, ftp`data, ftp`progress
      ensures Attached() && ftp.data.Some?
      ensures ftp.View() == Connection.OnDataStart(old(ftp.View()))
    {
      ftp.SetTimeout(0);
      ftp.SetDataTimeout(ftp.timeout);
      ftp.ProgressCalled(Start);
    }

    method OnDataDone(taskId: nat)
      requires Attached() && taskId == id
      modifies ftp, this
      ensures Attached() && ftp.resolvers == old(ftp.resolvers)
      ensures ftp.View() == Connection.OnDataDone(old(ftp.View()), id)
    {
      HandTimeoutBack();
      MarkDone();
      TryResolve(taskId);
    }

    /** The control socket is in charge of timeouts again. */
    method HandTimeoutBack()
      requires Attached()
      modifies ftp`control, ftp`data, ftp`progress
      ensures Attached()
      ensures ftp.View() ==
              SetDataTimer(SetControlTimer(CallProgress(old(ftp.View()), UpdateAndStop), ftp.timeout), 0)
    {
      ftp.ProgressCalled(UpdateAndStop);
      ftp.SetTimeout(ftp.timeout);
      ftp.SetDataTimeout(0);
    }

    method MarkDone()
      requires Attached()
      modifies this`dataTransferDone
      ensures Attached() && dataTransferDone
      ensures ftp.View() == old(ftp.View()).(transfers := old(ftp.View()).transfers[id := Transfer(response, true)])
    {
      dataTransferDone := true;
    }

    method KeepResponse(r: FtpResponse)
      requires Attached()
      modifies this`response
      ensures Attached() && response == Some(r)
      ensures ftp.View() ==
              old(ftp.View()).(transfers := old(ftp.View()).transfers[id := Transfer(Some(r), dataTransferDone)])
    {
      response := Some(r);
    }

    method OnControlDone(taskId: nat, r: FtpResponse)
      requires Attached() && taskId == id
      modifies ftp, this
      ensures Attached() && ftp.resolvers == old(ftp.resolvers) && ftp.next == old(ftp.next)
      ensures ftp.View() == Connection.OnControlDone(old(ftp.View()), id, r)
    {
      KeepResponse(r);
      TryResolve(taskId);
    }

    method OnError(taskId: nat, error: Error)
      requires Attached()
      modifies ftp`control, ftp`data, ftp`progress, ftp`task, ftp`outcomes
      ensures Attached() && ftp.View() == Connection.OnError(old(ftp.View()), taskId, error)
    {
      ftp.ProgressCalled(UpdateAndStop);
      ftp.SetTimeout(ftp.timeout);
      ftp.DropDataSocket();
      ftp.RejectPromise(taskId, error);
    }

    method OnUnexpectedRequest(r: FtpResponse)
      requires Attached()
      modifies ftp, ftp.resolvers.Values
      ensures Attached() && ftp.resolvers == old(ftp.resolvers) && ftp.next == old(ftp.next)
      ensures ftp.View() == Connection.CloseWithError(old(ftp.View()), UnexpectedRequest(r.message))
      decreases false, 4
    {
      ftp.CloseWithError(UnexpectedRequest(r.message));
    }

    method TryResolve(taskId: nat)
      requires Attached() && taskId == id
      modifies ftp`control, ftp`data, ftp`task, ftp`outcomes
      ensures Attached() && ftp.View() == Connection.TryResolve(old(ftp.View()), id)
    {
      if dataTransferDone && response.Some? {
        ftp.DropDataSocket();
        ftp.ResolvePromise(taskId, response.value);
      }
    }

    /** Start of the data phase and of the stream pipeline, whose callback is then outstanding. */
    method StartPipeline(taskId: nat)
      requires Attached() && ftp.data.Some?
      modifies ftp`control, ftp`data, ftp`progress, ftp`traces, ftp`pipes
      ensures Attached() && ftp.data.Some?
      ensures ftp.View() == Connection.StartPipeline(old(ftp.View()), taskId)
    {
      OnDataStart();
      ftp.Note(taskId, Started);
      ftp.pipes := ftp.pipes + multiset{taskId};
    }

    /** The response handlers of `uploadFrom` and `downloadTo`. */
    method HandleTransfer(t: TrackedTask, res: Response)
      requires Attached() && t.handler.IsTransfer() && t.id == id
      modifies ftp, ftp.resolvers.Values
      ensures Attached() && ftp.resolvers == old(ftp.resolvers) && ftp.next == old(ftp.next)
      ensures ftp.View() == match res
                            case Reply(r) => HandleTransferReply(old(ftp.View()), Task(t.id, t.handler), r)
                            case Failure(e) => Connection.OnError(old(ftp.View()), t.id, e)
      decreases res.Reply?, 0
    {
      if res.Failure? {
        OnError(t.id, res.error);
        return;
      }
      var r := res.response;
      if r.code == 150 || r.code == 125 {
        HandleAnnouncement(t);
      } else if t.handler.Download? && r.code == 350 {
        ftp.WriteCommand("RETR " + t.handler.path);
      } else if PositiveCompletion(r.code) {
        OnControlDone(t.id, r);
      } else if PositiveIntermediate(r.code) {
        OnUnexpectedRequest(r);
      }
    }

    /** Replies 125 and 150. */
    method HandleAnnouncement(t: TrackedTask)
      requires Attached() && t.handler.IsTransfer() && t.id == id
      modifies ftp`control, ftp`data, ftp`progress, ftp`traces, ftp`pipes, ftp`task, ftp`outcomes
      ensures Attached()
      ensures ftp.View() == var c := old(ftp.View());
                            if c.data == None then Connection.OnError(c, t.id, NoDataConnection)
                            else if t.handler.Upload? && c.data.value.tls && !c.data.value.secure
                            then AwaitSecure(c, t.id)
                            else Connection.StartPipeline(c, t.id)
    {
      if ftp.data == None {
        OnError(t.id, NoDataConnection);
      } else if t.handler.Upload? && ftp.data.value.tls && !ftp.data.value.secure {
        var data := ftp.data.value;
        ftp.data := Some(data.(waiting := data.waiting + [t.id]));
      } else {
        StartPipeline(t.id);
      }
    }

    /** The callback passed to `pipeline`. */
    method PipelineCallback(taskId: nat, failure: Option<Error>)
      requires Attached() && taskId == id && id in ftp.pipes
      modifies ftp, this
      ensures Attached() && ftp.resolvers == old(ftp.resolvers)
      ensures ftp.View() == OnPipeline(old(ftp.View()), id, failure)
    {
      ftp.pipes := ftp.pipes - multiset{taskId};
      assert ftp.View() == old(ftp.View()).(pipes := old(ftp.View()).pipes - multiset{id});
      ftp.Note(taskId, Piped(failure));
      match failure {
        case Some(e) => OnError(taskId, e);
        case None => OnDataDone(taskId);
      }
    }
  }
}
