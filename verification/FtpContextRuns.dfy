/** The event loop: every event of the machine is a call on the objects, and they keep its invariants. */
module FtpContextRuns {
  import opened ReplyParser
  import opened Connection
  import opened ConnectionSafety
  import opened FtpContextObjects

  /** A client call with its data connection, if one was prepared. */
  method DeliverCall(ftp: FtpContext, handler: Handler, command: string, connection: Option<bool>)
    requires ftp.Valid()
    modifies ftp, ftp.resolvers.Values
    ensures ftp.Valid() && fresh(ftp.resolvers.Values - old(ftp.resolvers.Values))
    ensures ftp.View() == Call(old(ftp.View()), handler, command, connection)
  {
    if connection.Some? {
      ftp.SetDataSocket(connection.value);
    }
    if handler.IsTransfer() {
      var _ := ftp.LaunchTransfer(command, handler);
    } else {
      ftp.Handle(command, handler, null);
    }
  }

  method DeliverPipelineEnd(ftp: FtpContext, id: nat, failure: Option<Error>)
    requires ftp.Valid() && Domains(ftp.View())
    modifies ftp, ftp.resolvers.Values
    ensures ftp.Valid() && ftp.resolvers == old(ftp.resolvers)
    ensures ftp.View() == OnPipeline(old(ftp.View()), id, failure)
  {
    if id in ftp.pipes {
      assert Registered(ftp.View(), id);
      ftp.resolvers[id].PipelineCallback(id, failure);
    }
  }

  method DeliverSecureConnect(ftp: FtpContext)
    requires ftp.Valid() && Domains(ftp.View())
    modifies ftp, ftp.resolvers.Values
    ensures ftp.Valid() && ftp.resolvers == old(ftp.resolvers)
    ensures ftp.View() == OnSecureConnect(old(ftp.View()))
  {
    if ftp.data.Some? && ftp.data.value.listening && ftp.data.value.tls && !ftp.data.value.secure {
      assert WaitingOk(ftp.View());
      forall i | 0 <= i < |ftp.data.value.waiting|
        ensures ftp.task.Some? && ftp.task.value.handler.IsTransfer()
                && ftp.task.value.id == ftp.data.value.waiting[i]
      {
        assert Pending(ftp.View(), ftp.data.value.waiting[i]);
      }
      ftp.SecureConnected();
    }
  }

  method DeliverControlData(ftp: FtpContext, chunk: string)
    requires ftp.Valid()
    modifies ftp, ftp.resolvers.Values
    ensures ftp.Valid() && ftp.resolvers == old(ftp.resolvers)
    ensures ftp.View() == Step(old(ftp.View()), ControlData(chunk))
  {
    if ftp.control.listening {
      ftp.OnControlSocketData(chunk);
    }
  }

  /** Failures, timeouts and FIN packets of the sockets and failures of streams. */
  method DeliverFailure(ftp: FtpContext, e: Event)
    requires ftp.Valid() && (e.ControlSocketFailure? || e.DataSocketFailure? || e.StreamFailure?)
    modifies ftp, ftp.resolvers.Values
    ensures ftp.Valid() && ftp.resolvers == old(ftp.resolvers)
    ensures ftp.View() == Step(old(ftp.View()), e)
  {
    if (e.ControlSocketFailure? ==> ftp.control.listening)
       && (e.DataSocketFailure? ==> ftp.data.Some? && ftp.data.value.listening)
    {
      ftp.CloseWithError(External(e.text));
    }
  }

  method DeliverReconnect(ftp: FtpContext, samePort: bool)
    requires ftp.Valid()
    modifies ftp, ftp.resolvers.Values
    ensures ftp.Valid() && ftp.resolvers == old(ftp.resolvers)
    ensures ftp.View() == Step(old(ftp.View()), Reconnect(samePort))
  {
    ftp.SetControlSocket(samePort);
    ftp.Handle("", Greeting, null);
  }

  method Perform(ftp: FtpContext, e: Event)
    requires ftp.Valid() && Domains(ftp.View())
    modifies ftp, ftp.resolvers.Values
    ensures ftp.Valid() && fresh(ftp.resolvers.Values - old(ftp.resolvers.Values))
    ensures ftp.View() == Step(old(ftp.View()), e)
  {
    match e {
      case CallEvent(handler, command, connection) => DeliverCall(ftp, handler, command, connection);
      case ControlData(chunk) => DeliverControlData(ftp, chunk);
      case SecureConnect => DeliverSecureConnect(ftp);
      case PipelineEnd(id, failure) => DeliverPipelineEnd(ftp, id, failure);
      case UserClose => ftp.Close();
      case Reconnect(samePort) => DeliverReconnect(ftp, samePort);
      case NewSocket(upgrade) => ftp.SetControlSocket(upgrade);
      case _ => DeliverFailure(ftp, e);
    }
  }

  /** One event: the objects do what the machine does, and keep its invariants if the event is timely. */
  method Deliver(ftp: FtpContext, e: Event)
    requires ftp.Valid() && Domains(ftp.View())
    modifies ftp, ftp.resolvers.Values
    ensures ftp.Valid() && fresh(ftp.resolvers.Values - old(ftp.resolvers.Values))
    ensures ftp.View() == Step(old(ftp.View()), e)
    ensures old(Inv(ftp.View()) && Timely(ftp.View(), e)) ==> Inv(ftp.View())
  {
    ghost var c := ftp.View();
    Perform(ftp, e);
    if Inv(c) && Timely(c, e) {
      StepKeeps(c, e);
    }
  }

  lemma NextOfRun(c: Ctx, events: seq<Event>, i: nat)
    requires i < |events| && TimelyRun(c, events[i..])
    ensures var c1 := Step(c, events[i]);
            && Timely(c, events[i]) && TimelyRun(c1, events[i + 1..])
            && Run(c, events[i..]) == Run(c1, events[i + 1..])
  {
    assert events[i..][0] == events[i] && events[i..][1..] == events[i + 1..];
  }

  /** A new client, driven through any timely events, is in the state of the machine's run and keeps all
      its invariants. */
  method Drive(timeout: nat, events: seq<Event>) returns (ftp: FtpContext)
    requires TimelyRun(Init(timeout), events)
    ensures fresh(ftp) && ftp.Valid()
    ensures ftp.View() == Run(Init(timeout), events) && Inv(ftp.View())
  {
    ftp := new FtpContext(timeout);
    EveryRunIsSafe(timeout, []);
    assert events[0..] == events;
    var i := 0;
    while i < |events|
      invariant 0 <= i <= |events|
      invariant fresh(ftp) && fresh(ftp.resolvers.Values) && ftp.Valid() && Inv(ftp.View())
      invariant TimelyRun(ftp.View(), events[i..])
      invariant Run(ftp.View(), events[i..]) == Run(Init(timeout), events)
    {
      NextOfRun(ftp.View(), events, i);
      Deliver(ftp, events[i]);
      i := i + 1;
    }
  }
}
