/** What the invariants mean for users of a client, and exactly when a step breaks them. */
module ConnectionTheorems {
  import opened ReplyParser
  import opened ReplyStream
  import opened Connection
  import opened ConnectionSafety

  // ---------------------------------------------------------------- transfers

  /** `r` is the most recent positive completion in `t`. */
  ghost predicate IsLastConfirmation(t: seq<Note>, r: FtpResponse) {
    exists j :: 0 <= j < |t| && ConfirmsLast(t, r, j)
  }

  predicate ConfirmsLast(t: seq<Note>, r: FtpResponse, j: nat)
    requires j < |t|
  {
    Confirms(t[j]) && t[j].response == r && forall i | j < i < |t| :: !Confirms(t[i])
  }

  ghost predicate NoFailure(t: seq<Note>) {
    forall i | 0 <= i < |t| :: FailureOf(t[i]) == None
  }

  lemma {:induction false} NoFailureMeans(t: seq<Note>)
    ensures FirstFailure(t) == None <==> NoFailure(t)
    decreases |t|
  {
    if t != [] {
      var n := |t| - 1;
      NoFailureMeans(t[..n]);
      assert t == t[..n] + [t[n]];
    }
  }

  lemma ConfirmsLastBefore(t: seq<Note>, n: Note, r: FtpResponse, j: nat)
    requires j < |t| && !Confirms(n)
    ensures ConfirmsLast(t + [n], r, j) <==> ConfirmsLast(t, r, j)
  {
    assert forall i | 0 <= i < |t| :: (t + [n])[i] == t[i];
  }

  lemma {:induction false} LastConfirmationMeans(t: seq<Note>, r: FtpResponse)
    ensures LastConfirmation(t) == Some(r) <==> IsLastConfirmation(t, r)
    decreases |t|
  {
    if t != [] {
      var n := |t| - 1;
      var before := t[..n];
      assert t == before + [t[n]];
      LastConfirmationMeans(before, r);
      if Confirms(t[n]) {
        assert ConfirmsLast(t, t[n].response, n);
        assert forall j | 0 <= j < n :: !ConfirmsLast(t, r, j);
      } else {
        assert !ConfirmsLast(t, r, n);
        forall j | 0 <= j < n ensures ConfirmsLast(t, r, j) <==> ConfirmsLast(before, r, j) {
          ConfirmsLastBefore(before, t[n], r, j);
        }
      }
    }
  }

  /** A transfer resolves exactly when its pipeline has succeeded and a 2xx reply has arrived with no
      error before, in whatever order, with the most recent 2xx reply as its value; otherwise it is
      rejected exactly if there was an error. */
  lemma TransferResolvesExactly(timeout: nat, events: seq<Event>, k: nat, r: FtpResponse)
    requires TimelyRun(Init(timeout), events) && k in Run(Init(timeout), events).transfers
    ensures var c := Run(Init(timeout), events);
            && k in c.traces
            && (OutcomeOf(c, k) == Some(Resolved(r)) <==>
                NoFailure(c.traces[k]) && DataDone(c.traces[k]) && IsLastConfirmation(c.traces[k], r))
            && (k in c.outcomes && c.outcomes[k].Rejected? <==> !NoFailure(c.traces[k]))
  {
    EveryRunIsSafe(timeout, events);
    OutcomeMeans(Run(Init(timeout), events), k, r);
  }

  lemma OutcomeMeans(c: Ctx, k: nat, r: FtpResponse)
    requires Inv(c) && k in c.transfers
    ensures && k in c.traces
            && (OutcomeOf(c, k) == Some(Resolved(r)) <==>
                NoFailure(c.traces[k]) && DataDone(c.traces[k]) && IsLastConfirmation(c.traces[k], r))
            && (k in c.outcomes && c.outcomes[k].Rejected? <==> !NoFailure(c.traces[k]))
  {
    assert Faithful(c, k) && Accounted(c, k) && Registered(c, k);
    NoFailureMeans(c.traces[k]);
    LastConfirmationMeans(c.traces[k], r);
  }

  /** The data and the control channel have both reported success. */
  ghost predicate BothReported(t: seq<Note>) {
    DataDone(t) && exists r :: IsLastConfirmation(t, r)
  }

  /** A transfer settles with the very event that decides it: before its last experience it had met no
      error, and not both channels had reported. */
  lemma TransferSettlesAtOnce(timeout: nat, events: seq<Event>, k: nat)
    requires TimelyRun(Init(timeout), events)
    requires var c := Run(Init(timeout), events); k in c.transfers && k in c.outcomes && k in c.traces
    ensures var t := Run(Init(timeout), events).traces[k];
            t != [] &&
            var before := t[..|t| - 1];
            NoFailure(before) && !BothReported(before)
  {
    EveryRunIsSafe(timeout, events);
    SettledAtOnce(Run(Init(timeout), events), k);
  }

  lemma SettledAtOnce(c: Ctx, k: nat)
    requires Inv(c) && k in c.transfers && k in c.outcomes && k in c.traces
    ensures var t := c.traces[k];
            t != [] &&
            var before := t[..|t| - 1];
            NoFailure(before) && !BothReported(before)
  {
    assert Faithful(c, k) && Accounted(c, k);
    var before := c.traces[k][..|c.traces[k]| - 1];
    NoFailureMeans(before);
    BothReportedMeans(before);
  }

  lemma BothReportedMeans(before: seq<Note>)
    ensures BothReported(before) <==> DataDone(before) && LastConfirmation(before).Some?
  {
    forall r ensures IsLastConfirmation(before, r) <==> LastConfirmation(before) == Some(r) {
      LastConfirmationMeans(before, r);
    }
    if LastConfirmation(before).Some? {
      assert IsLastConfirmation(before, LastConfirmation(before).value);
    }
  }

  /** The data channel reports first. */
  lemma DataFirst(c: Ctx, id: nat)
    requires Pending(c, id) && id in c.pipes && id in c.transfers && c.transfers[id].response == None
    requires id in c.traces && id !in c.outcomes
    ensures OnPipeline(c, id, None) ==
              c.(pipes := c.pipes - multiset{id},
                 traces := c.traces[id := c.traces[id] + [Piped(None)]],
                 transfers := c.transfers[id := c.transfers[id].(dataTransferDone := true)],
                 progress := c.progress + [UpdateAndStop],
                 control := c.control.(timer := c.timeout),
                 data := if c.data.Some? then Some(c.data.value.(timer := 0)) else None)
  {
  }

  /** The control channel reports `r` to the tracked transfer. */
  lemma ControlReports(c: Ctx, message: string)
    requires c.task.Some? && HasTransfer(c) && PositiveCompletion(Code(message))
    requires c.task.value.id in c.traces && c.task.value.id !in c.outcomes && c.task.value.id in c.transfers
    ensures var id := c.task.value.id;
            var r := FtpResponse(Code(message), message);
            var c1 := c.(traces := c.traces[id := c.traces[id] + [Heard(r, c.data.Some?, c.closingError == None)]],
                         transfers := c.transfers[id := c.transfers[id].(response := Some(r))]);
            DeliverMessage(c, message) ==
              if c.transfers[id].dataTransferDone
              then c1.(task := None, data := None, control := c.control.(timer := 0),
                       outcomes := c.outcomes[id := Resolved(r)])
              else c1
  {
    var id := c.task.value.id;
    var r := FtpResponse(Code(message), message);
    var c1 := Record(c, id, Heard(r, c.data.Some?, c.closingError == None));
    assert DeliverMessage(c, message) == OnControlDone(c1, id, r);
    ReportIsKept(c1, id, r);
  }

  lemma ReportIsKept(c: Ctx, id: nat, r: FtpResponse)
    requires id in c.transfers && id !in c.outcomes
    ensures var c1 := c.(transfers := c.transfers[id := c.transfers[id].(response := Some(r))]);
            OnControlDone(c, id, r) ==
              if c.transfers[id].dataTransferDone
              then c1.(task := None, data := None, control := c.control.(timer := 0),
                       outcomes := c.outcomes[id := Resolved(r)])
              else c1
  {
  }

  /** The data channel reports to a transfer that has its 2xx reply. */
  lemma DataLast(c: Ctx, id: nat)
    requires Pending(c, id) && id in c.pipes && id in c.transfers && c.transfers[id].response.Some?
    requires id in c.traces && id !in c.outcomes
    ensures OnPipeline(c, id, None) ==
              c.(pipes := c.pipes - multiset{id},
                 traces := c.traces[id := c.traces[id] + [Piped(None)]],
                 transfers := c.transfers[id := c.transfers[id].(dataTransferDone := true)],
                 progress := c.progress + [UpdateAndStop],
                 task := None, data := None, control := c.control.(timer := 0),
                 outcomes := c.outcomes[id := Resolved(c.transfers[id].response.value)])
  {
  }

  /** The two channels may report in either order: the final state is the same, apart from the
      order of the two notes, and the transfer has resolved with the reply. */
  lemma EitherOrderResolves(c: Ctx, message: string)
    requires Inv(c) && HasTransfer(c) && c.task.value.id in c.pipes
    requires PositiveCompletion(Code(message))
    requires TransferOf(c, c.task.value.id) == Transfer(None, false)
    ensures var id := c.task.value.id;
            var a := DeliverMessage(OnPipeline(c, id, None), message);
            var b := OnPipeline(DeliverMessage(c, message), id, None);
            && a == b.(traces := a.traces)
            && a.task == None && a.data == None
            && a.outcomes == c.outcomes[id := Resolved(FtpResponse(Code(message), message))]
  {
    var id := c.task.value.id;
    DataThenControl(c, message, DeliverMessage(OnPipeline(c, id, None), message));
    ControlThenData(c, message, OnPipeline(DeliverMessage(c, message), id, None));
  }

  /** `c'` is `c` after the tracked transfer resolved with the reply `message`. */
  ghost predicate ResolvedWith(c: Ctx, message: string, c': Ctx)
    requires c.task.Some?
  {
    var id := c.task.value.id;
    var r := FtpResponse(Code(message), message);
    c' == c.(traces := c'.traces, pipes := c.pipes - multiset{id}, progress := c.progress + [UpdateAndStop],
             transfers := c.transfers[id := Transfer(Some(r), true)], task := None, data := None,
             control := c.control.(timer := 0), outcomes := c.outcomes[id := Resolved(r)])
  }

  lemma DataThenControl(c: Ctx, message: string, c': Ctx)
    requires Inv(c) && HasTransfer(c) && c.task.value.id in c.pipes && PositiveCompletion(Code(message))
    requires TransferOf(c, c.task.value.id) == Transfer(None, false)
    requires c' == DeliverMessage(OnPipeline(c, c.task.value.id, None), message)
    ensures ResolvedWith(c, message, c')
  {
    Tracked(c);
    DataFirst(c, c.task.value.id);
    ControlAfter(c, OnPipeline(c, c.task.value.id, None), message);
  }

  /** `c1` is `c` after the data channel has reported. */
  lemma ControlAfter(c: Ctx, c1: Ctx, message: string)
    requires HasTransfer(c) && PositiveCompletion(Code(message))
    requires var id := c.task.value.id;
             && id in c.traces && id !in c.outcomes && id in c.transfers
             && c1 == c.(pipes := c.pipes - multiset{id}, traces := c.traces[id := c.traces[id] + [Piped(None)]],
                         transfers := c.transfers[id := c.transfers[id].(dataTransferDone := true)],
                         progress := c.progress + [UpdateAndStop], control := c1.control, data := c1.data)
             && c1.control.listening == c.control.listening
    ensures ResolvedWith(c, message, DeliverMessage(c1, message))
  {
    ControlReports(c1, message);
    assert c1.transfers[c.task.value.id].dataTransferDone;
  }

  lemma ControlThenData(c: Ctx, message: string, c': Ctx)
    requires Inv(c) && HasTransfer(c) && c.task.value.id in c.pipes && PositiveCompletion(Code(message))
    requires TransferOf(c, c.task.value.id) == Transfer(None, false)
    requires c' == OnPipeline(DeliverMessage(c, message), c.task.value.id, None)
    ensures ResolvedWith(c, message, c')
  {
    Tracked(c);
    ControlReports(c, message);
    DataAfter(c, DeliverMessage(c, message), message);
  }

  /** `c1` is `c` after the control channel has reported. */
  lemma DataAfter(c: Ctx, c1: Ctx, message: string)
    requires HasTransfer(c) && c.task.value.id in c.pipes && c.task.value.id in c.transfers
    requires c.transfers[c.task.value.id] == Transfer(None, false) && c.task.value.id !in c.outcomes
    requires var id := c.task.value.id;
             && id in c1.traces
             && c1 == c.(traces := c1.traces,
                         transfers := c.transfers[id := Transfer(Some(FtpResponse(Code(message), message)), false)])
    ensures ResolvedWith(c, message, OnPipeline(c1, c.task.value.id, None))
  {
    DataLast(c1, c.task.value.id);
  }

  // ---------------------------------------------------------------- conservation, exactly

  /** A pipeline callback loses a task exactly if it comes late, settles its own promise again, and
      another task is tracked by then. */
  lemma PipelineConservesExactly(c: Ctx, id: nat, failure: Option<Error>)
    requires Inv(c) && id in c.pipes
    ensures Conserved(OnPipeline(c, id, failure)) <==>
            Pending(c, id) || c.task == None || !SettlesOn(c, id, failure)
  {
    if Pending(c, id) {
      PipelineKeeps(c, id, failure);
    } else if SettlesOn(c, id, failure) {
      LateCallbackIs(c, id, failure);
      var c' := OnPipeline(c, id, failure);
      if c.task.Some? {
        Tracked(c);
        assert !Accounted(c', c.task.value.id);
      } else {
        LatePipelineKeeps(c, id, failure);
      }
    } else {
      assert Registered(c, id) && Accounted(c, id);
      var c' := OnPipeline(c, id, failure);
      assert c'.outcomes == c.outcomes && c'.task == c.task && c'.next == c.next;
      forall k: nat ensures Accounted(c', k) { assert Accounted(c, k); }
    }
  }

  /** A late successful callback of a transfer that got no 2xx reply leaves the control socket armed
      without a task; no other callback breaks the timeouts. */
  lemma PipelineTimersExactly(c: Ctx, id: nat, failure: Option<Error>)
    requires Inv(c) && id in c.pipes
    ensures TimersOk(OnPipeline(c, id, failure)) <==>
            c.task.Some? || SettlesOn(c, id, failure) || c.timeout == 0
  {
    if Pending(c, id) {
      PipelineKeeps(c, id, failure);
    } else if SettlesOn(c, id, failure) {
      LateCallbackIs(c, id, failure);
    } else {
      LateQuietIs(c, id, failure);
    }
  }

  /** A pipeline callback keeps all invariants exactly if it is timely. */
  lemma PipelineKeepsExactly(c: Ctx, id: nat, failure: Option<Error>)
    requires Inv(c) && AnnouncedOnce(c) && id in c.pipes
    ensures Inv(OnPipeline(c, id, failure)) <==> TimelyPipeline(c, id, failure)
  {
    if TimelyPipeline(c, id, failure) {
      AnyPipelineKeeps(c, id, failure);
    } else if SettlesOn(c, id, failure) {
      PipelineConservesExactly(c, id, failure);
    } else if c.task == None {
      PipelineTimersExactly(c, id, failure);
    } else {
      LateQuietIs(c, id, failure);
      var c' := OnPipeline(c, id, failure);
      assert AnnouncedOnce(c') by {
        forall k: nat ensures AtMostOneAnnouncement(c', k) { assert AtMostOneAnnouncement(c, k); }
      }
      assert !ProgressOk(c');
    }
  }

  /** A launched task stays accounted for exactly if its command has no control characters, or the
      context is closed by then and nothing is sent. */
  lemma HandleConservesExactly(c: Ctx, handler: Handler, command: string)
    requires Inv(c) && MayHandle(c, handler)
    ensures Conserved(Handle(c, handler, command)) <==>
            Clean(command) || c.closingError.Some? || c.task.Some?
  {
    if Clean(command) || c.closingError.Some? || c.task.Some? {
      HandleKeeps(c, handler, command);
    } else {
      var c' := Handle(c, handler, command);
      assert command != "";
      assert Accounted(c, c.next) && !Accounted(c', c.next);
    }
  }

  /** Exchanging the control socket disarms the timeouts; that is wrong exactly if a task is waiting. */
  lemma NewSocketTimersExactly(c: Ctx, upgrade: bool)
    requires Inv(c)
    ensures TimersOk(SetSocket(c, upgrade)) <==> c.task == None || c.timeout == 0
  {
    var c' := SetSocket(c, upgrade);
    assert c'.task == c.task && c'.data == None && c'.control.timer == 0 && c'.timeout == c.timeout;
  }

  // ---------------------------------------------------------------- closing

  predicate Reopens(e: Event) {
    e.Reconnect? || e.NewSocket?
  }

  /** From `c` to `c'` nothing happened but that new tasks were turned away because of `reason`. */
  ghost predicate TurnedAway(c: Ctx, reason: Error, c': Ctx) {
    && c'.closingError == Some(reason) && c'.task == None && c'.data == None
    && !c'.control.listening && c'.control.timer == 0
    && c.next <= c'.next
    && (forall k: nat | k < c.next ::
          (k in c'.outcomes <==> k in c.outcomes) && (k in c.outcomes ==> c'.outcomes[k] == c.outcomes[k]))
    && (forall k: nat | k < c.next ::
          (k in c'.traces <==> k in c.traces) && (k in c.traces ==> c'.traces[k] == c.traces[k]))
    && (forall k: nat | c.next <= k < c'.next ::
          && k in c'.outcomes && c'.outcomes[k] == Rejected(ClientIsClosed(reason))
          && k in c'.traces && c'.traces[k] == [Failed(ClientIsClosed(reason), false)])
  }

  lemma ClosedCall(c: Ctx, handler: Handler, command: string, connection: Option<bool>, reason: Error)
    requires Inv(c) && c.closingError == Some(reason) && (connection.Some? ==> handler.IsTransfer())
    ensures TurnedAway(c, reason, Call(c, handler, command, connection))
  {
    var c1 := if connection.Some? then ConnectData(c, connection.value) else c;
    if !(handler.Download? && c1.data == None) {
      assert Accounted(c, c.next) && Registered(c, c.next);
      ClosedTurnsAway(c1, handler, command, reason);
    }
  }

  lemma ClosedTurnsAway(c: Ctx, handler: Handler, command: string, reason: Error)
    requires c.closingError == Some(reason) && c.task == None && !c.control.listening && c.control.timer == 0
    requires c.data.Some? ==> handler.IsTransfer()
    requires c.next !in c.outcomes && c.next !in c.traces
    ensures TurnedAway(c, reason, Handle(c, handler, command))
    ensures Handle(c, handler, command).next == c.next + 1
  {
    var c2 := Track(c, handler);
    var e := ClientIsClosed(reason);
    var n, outcome := PassFailureIs(c2, e);
    assert outcome == Rejected(e);
    PassFailureEnds(c2, e);
    assert [] + [n] == [n];
  }

  lemma ClosedStep(c: Ctx, e: Event, reason: Error)
    requires Inv(c) && c.closingError == Some(reason) && Timely(c, e) && !Reopens(e)
    ensures TurnedAway(c, reason, Step(c, e))
  {
    match e
    case CallEvent(handler, command, connection) => ClosedCall(c, handler, command, connection, reason);
    case PipelineEnd(id, failure) =>
      if id in c.pipes {
        if SettlesOn(c, id, failure) {
          LateCallbackIs(c, id, failure);
        } else {
          LateQuietIs(c, id, failure);
        }
      }
    case _ =>
  }

  /** Closing is final and keeps its first cause: until a new control socket is set the reason does
      not change, no handler hears anything from the server, every promise keeps its outcome, and
      every task launched is rejected with an error that names the reason. */
  lemma {:induction false} ClosingIsAbsorbing(c: Ctx, events: seq<Event>, reason: Error)
    requires Inv(c) && c.closingError == Some(reason) && TimelyRun(c, events)
    requires forall i | 0 <= i < |events| :: !Reopens(events[i])
    ensures TurnedAway(c, reason, Run(c, events))
    decreases |events|
  {
    if events != [] {
      var c1 := Step(c, events[0]);
      StepKeeps(c, events[0]);
      ClosedStep(c, events[0], reason);
      ClosingIsAbsorbing(c1, events[1..], reason);
    }
  }

  /** In every reachable state, all replies any handler ever saw arrived while the context was open. */
  lemma NoReplyAfterClosing(timeout: nat, events: seq<Event>, k: nat, i: nat)
    requires TimelyRun(Init(timeout), events)
    requires var c := Run(Init(timeout), events); k in c.traces && i < |c.traces[k]|
    ensures var n := Run(Init(timeout), events).traces[k][i];
            n.Heard? || (n.Failed? && n.error.FtpError?) ==> n.open
  {
    EveryRunIsSafe(timeout, events);
    var c := Run(Init(timeout), events);
    assert Silent(c, k);
  }

  // ---------------------------------------------------------------- data connections

  /** Whenever no transfer is running there is no data connection: a transfer that has settled left
      none behind, and the next one starts on the connection prepared for it. */
  lemma NoDataConnectionLeaks(timeout: nat, events: seq<Event>)
    requires TimelyRun(Init(timeout), events)
    ensures var c := Run(Init(timeout), events); !HasTransfer(c) ==> c.data == None
  {
    EveryRunIsSafe(timeout, events);
  }

  /** A call on a free, open context uses the fresh connection; on a closed one, or one that is busy,
      the connection is closed at once, even though it came up after the closing. */
  lemma CallUsesFreshConnection(c: Ctx, handler: Handler, command: string, tls: bool)
    requires Inv(c) && handler.IsTransfer() && Clean(command)
    ensures var c' := Call(c, handler, command, Some(tls));
            if c.closingError == None && c.task == None
            then c'.data == Some(Data(tls, false, 0, true, [])) && Pending(c', c.next)
            else c'.data == None && c'.task == None && c'.closingError.Some?
  {
    var c1 := ConnectData(c, tls);
    assert Call(c, handler, command, Some(tls)) == Handle(c1, handler, command);
    if c.closingError.Some? || c.task.Some? {
      CallKeeps(c, handler, command, Some(tls));
      BaseFrame(c, c1);
      HandleStaysClosed(c1, handler, command);
    } else {
      FreeHandle(c1, handler, command);
    }
  }

  lemma FreeHandle(c: Ctx, handler: Handler, command: string)
    requires c.closingError == None && c.task == None && Clean(command)
    ensures var c' := Handle(c, handler, command); c'.data == c.data && Pending(c', c.next)
  {
  }

  lemma HandleStaysClosed(c: Ctx, handler: Handler, command: string)
    requires Core(c) && (c.closingError.Some? || c.task.Some?)
    ensures Handle(c, handler, command).closingError.Some?
  {
    if c.task.Some? {
      CloseKeeps(c, SecondTask);
    }
    var c1 := if c.task.Some? then CloseWithError(c, SecondTask) else c;
    var c2 := Track(c1, handler);
    PassFailureEnds(c2, ClientIsClosed(c2.closingError.value));
  }

  // ---------------------------------------------------------------- progress and memory

  /** If no transfer is announced twice, the progress poll runs exactly while the tracked transfer is
      between the start and the end of its data, and is always ended by a last update. */
  lemma PollRunsDuringData(timeout: nat, events: seq<Event>)
    requires TimelyRun(Init(timeout), events) && AnnouncedOnce(Run(Init(timeout), events))
    ensures var c := Run(Init(timeout), events);
            && Bracketed(c.progress)
            && (Polling(c.progress) <==>
                HasTransfer(c) && c.task.value.id in c.traces && InDataPhase(c.traces[c.task.value.id]))
  {
    EveryRunIsSafe(timeout, events);
  }

  lemma RecordPartial(c: Ctx, id: nat, n: Note, p: string)
    ensures Record(c.(partialResponse := p), id, n) == Record(c, id, n).(partialResponse := p)
  {
  }

  lemma OnErrorPartial(c: Ctx, id: nat, e: Error, p: string)
    ensures OnError(c.(partialResponse := p), id, e) == OnError(c, id, e).(partialResponse := p)
  {
  }

  lemma SettlePartial(c: Ctx, id: nat, o: Outcome, p: string)
    ensures Settle(StopTrackingTask(c.(partialResponse := p)), id, o)
         == Settle(StopTrackingTask(c), id, o).(partialResponse := p)
  {
  }

  lemma OnControlDonePartial(c: Ctx, id: nat, r: FtpResponse, p: string)
    ensures OnControlDone(c.(partialResponse := p), id, r) == OnControlDone(c, id, r).(partialResponse := p)
  {
    var kept := c.transfers[id := TransferOf(c, id).(response := Some(r))];
    TryResolvePartial(c.(transfers := kept), id, p);
  }

  lemma TryResolvePartial(c: Ctx, id: nat, p: string)
    ensures TryResolve(c.(partialResponse := p), id) == TryResolve(c, id).(partialResponse := p)
  {
    if TransferOf(c, id).response.Some? {
      SettlePartial(DropData(c), id, Resolved(TransferOf(c, id).response.value), p);
    }
  }

  lemma StartPipelinePartial(c: Ctx, id: nat, p: string)
    ensures StartPipeline(c.(partialResponse := p), id) == StartPipeline(c, id).(partialResponse := p)
  {
    if c.data.Some? {
      OnDataStartPartial(c, p);
      RecordPartial(OnDataStart(c), id, Started, p);
    }
  }

  lemma OnDataStartPartial(c: Ctx, p: string)
    requires c.data.Some?
    ensures OnDataStart(c.(partialResponse := p)) == OnDataStart(c).(partialResponse := p)
  {
  }

  lemma PassFailurePartial(c: Ctx, e: Error, p: string)
    ensures PassFailure(c.(partialResponse := p), e) == PassFailure(c, e).(partialResponse := p)
  {
    if c.task.Some? {
      var id := c.task.value.id;
      var n, o := PassFailureIs(c, e);
      var n', o' := PassFailureIs(c.(partialResponse := p), e);
      RecordPartial(c, id, n, p);
      OnErrorPartial(Record(c, id, n), id, e, p);
      SettlePartial(Record(c, id, n), id, o, p);
    }
  }

  lemma ClosePartial(c: Ctx, e: Error, p: string)
    ensures CloseWithError(c.(partialResponse := p), e) == CloseWithError(c, e).(partialResponse := p)
    ensures CloseWithError(c, e).partialResponse == c.partialResponse
    ensures CloseWithError(c, e).control.listening ==> c.control.listening
  {
    if c.closingError == None {
      var c1 := CloseData(CloseControl(c.(closingError := Some(e))));
      PassFailurePartial(c1, e, p);
      PassFailureEnds(c1, e);
      assert CloseData(CloseControl(c.(partialResponse := p).(closingError := Some(e)))) == c1.(partialResponse := p);
    }
  }

  lemma AnnouncedPartial(c: Ctx, task: Task, r: FtpResponse, p: string)
    requires Announces(r.code)
    ensures HandleTransferReply(c.(partialResponse := p), task, r)
         == HandleTransferReply(c, task, r).(partialResponse := p)
  {
    var d := c.(partialResponse := p);
    assert d.data == c.data;
    if c.data == None {
      OnErrorPartial(c, task.id, NoDataConnection, p);
    } else if task.handler.Upload? && c.data.value.tls && !c.data.value.secure {
      assert AwaitSecure(d, task.id) == AwaitSecure(c, task.id).(partialResponse := p);
    } else {
      StartPipelinePartial(c, task.id, p);
    }
  }

  lemma OtherPartial(c: Ctx, task: Task, r: FtpResponse, p: string)
    requires !Announces(r.code)
    ensures HandleTransferReply(c.(partialResponse := p), task, r)
         == HandleTransferReply(c, task, r).(partialResponse := p)
  {
    var d := c.(partialResponse := p);
    if task.handler.Download? && r.code == 350 {
      var command := "RETR " + task.handler.path;
      assert HandleTransferReply(d, task, r) == Send(d, command);
      assert HandleTransferReply(c, task, r) == Send(c, command);
    } else if PositiveCompletion(r.code) {
      OnControlDonePartial(c, task.id, r, p);
    } else {
      ClosePartial(c, UnexpectedRequest(r.message), p);
    }
  }

  lemma HandleReplyPartial(c: Ctx, task: Task, r: FtpResponse, p: string)
    ensures HandleReply(c.(partialResponse := p), task, r) == HandleReply(c, task, r).(partialResponse := p)
  {
    if task.handler.IsTransfer() {
      if Announces(r.code) {
        AnnouncedPartial(c, task, r, p);
      } else {
        OtherPartial(c, task, r, p);
      }
    } else {
      PlainPartial(c, task, r, p);
    }
  }

  lemma PlainPartial(c: Ctx, task: Task, r: FtpResponse, p: string)
    requires !task.handler.IsTransfer()
    ensures HandleReply(c.(partialResponse := p), task, r) == HandleReply(c, task, r).(partialResponse := p)
  {
    var n := Heard(r, false, true);
    var o := Decision(task.handler, n);
    PlainReplyIs(c, task, r, n);
    PlainReplyIs(c.(partialResponse := p), task, r, n);
    if o.Some? {
      SettlePartial(c, task.id, o.value, p);
    }
  }

  lemma PassReplyPartial(c: Ctx, r: FtpResponse, p: string)
    ensures PassReply(c.(partialResponse := p), r) == PassReply(c, r).(partialResponse := p)
  {
    if c.task.Some? {
      var n := Heard(r, c.data.Some?, c.closingError == None);
      RecordPartial(c, c.task.value.id, n, p);
      HandleReplyPartial(Record(c, c.task.value.id, n), c.task.value, r, p);
    }
  }

  lemma DeliverMessagePartial(c: Ctx, message: string, p: string)
    ensures DeliverMessage(c.(partialResponse := p), message) == DeliverMessage(c, message).(partialResponse := p)
  {
    var r := FtpResponse(Code(message), message);
    PassFailurePartial(c, FtpError(r), p);
    PassReplyPartial(c, r, p);
  }

  lemma {:induction false} DeliverAllPartial(c: Ctx, messages: seq<string>, p: string)
    ensures DeliverAll(c.(partialResponse := p), messages) == DeliverAll(c, messages).(partialResponse := p)
    decreases |messages|
  {
    if messages != [] {
      DeliverMessagePartial(c, messages[0], p);
      DeliverAllPartial(DeliverMessage(c, messages[0]), messages[1..], p);
    }
  }

  lemma HandlePartial(c: Ctx, handler: Handler, command: string)
    ensures Handle(c, handler, command).partialResponse == c.partialResponse
    ensures Handle(c, handler, command).control.listening ==> c.control.listening
  {
    ClosePartial(c, SecondTask, "");
    var c1 := if c.task.Some? then CloseWithError(c, SecondTask) else c;
    var c2 := Track(c1, handler);
    assert c2.partialResponse == c.partialResponse && (c2.control.listening ==> c.control.listening);
    if c2.closingError.Some? {
      PassFailureEnds(c2, ClientIsClosed(c2.closingError.value));
    } else {
      HandleOpenPartial(c2, c1.next, command);
    }
  }

  lemma HandleOpenPartial(c: Ctx, id: nat, command: string)
    ensures Send(SetControlTimer(c, c.timeout), command).partialResponse == c.partialResponse
    ensures Settle(SetControlTimer(c, c.timeout), id, Rejected(InvalidCommand(command))).partialResponse
         == c.partialResponse
    ensures Send(SetControlTimer(c, c.timeout), command).control.listening == c.control.listening
    ensures Settle(SetControlTimer(c, c.timeout), id, Rejected(InvalidCommand(command))).control.listening
         == c.control.listening
  {
  }

  lemma PipelinePartial(c: Ctx, id: nat, failure: Option<Error>)
    ensures OnPipeline(c, id, failure).partialResponse == c.partialResponse
    ensures OnPipeline(c, id, failure).control.listening == c.control.listening
  {
    if id in c.pipes {
      EndKeepsPartial(Record(c.(pipes := c.pipes - multiset{id}), id, Piped(failure)), id, failure);
    }
  }

  lemma EndKeepsPartial(c: Ctx, id: nat, failure: Option<Error>)
    ensures var c' := match failure case Some(e) => OnError(c, id, e) case None => OnDataDone(c, id);
            c'.partialResponse == c.partialResponse && c'.control.listening == c.control.listening
  {
  }

  lemma OnControlDataPartial(c: Ctx, chunk: string)
    ensures var p := OnControlData(c, chunk).partialResponse;
            || p == c.partialResponse
            || (|c.partialResponse + chunk| <= MAX_CONTROL_RESPONSE_LENGTH && p == Parse(c.partialResponse + chunk).rest)
  {
    match Receive(c.partialResponse, chunk)
    case None => ClosePartial(c, ResponseTooLarge, "");
    case Some(p) => DeliverAllPartial(c, p.messages, p.rest);
  }

  lemma CallPartial(c: Ctx, handler: Handler, command: string, connection: Option<bool>)
    ensures Call(c, handler, command, connection).partialResponse == c.partialResponse
    ensures Call(c, handler, command, connection).control.listening ==> c.control.listening
  {
    HandlePartial(if connection.Some? then ConnectData(c, connection.value) else c, handler, command);
  }

  lemma SecureConnectPartial(c: Ctx)
    ensures OnSecureConnect(c).partialResponse == c.partialResponse
    ensures OnSecureConnect(c).control.listening == c.control.listening
  {
    if c.data.Some? {
      StartPipelinesPartial(c.(data := Some(c.data.value.(secure := true, waiting := []))), c.data.value.waiting);
    }
  }

  lemma ClosingPartial(c: Ctx, e: Event)
    requires e.ControlSocketFailure? || e.DataSocketFailure? || e.StreamFailure? || e.UserClose?
    ensures Step(c, e).partialResponse == c.partialResponse
    ensures Step(c, e).control.listening ==> c.control.listening
  {
    ClosePartial(c, if e.UserClose? then UserClosed(c.task.Some?) else External(e.text), "");
  }

  lemma PartialStep(c: Ctx, e: Event)
    ensures var p := Step(c, e).partialResponse;
            || p == c.partialResponse || (Reopens(e) && p == "")
            || (e.ControlData? && |c.partialResponse + e.chunk| <= MAX_CONTROL_RESPONSE_LENGTH
                && p == Parse(c.partialResponse + e.chunk).rest)
    ensures Step(c, e).control.listening && !Reopens(e) && !e.ControlData? ==> c.control.listening
  {
    match e
    case CallEvent(handler, command, connection) => CallPartial(c, handler, command, connection);
    case ControlData(chunk) => OnControlDataPartial(c, chunk);
    case SecureConnect => SecureConnectPartial(c);
    case PipelineEnd(id, failure) => PipelinePartial(c, id, failure);
    case Reconnect(samePort) => HandlePartial(SetSocket(c, samePort), Greeting, "");
    case NewSocket(upgrade) =>
    case _ => ClosingPartial(c, e);
  }

  lemma {:induction false} StartPipelinesPartial(c: Ctx, ids: seq<nat>)
    ensures StartPipelines(c, ids).partialResponse == c.partialResponse
    ensures StartPipelines(c, ids).control.listening == c.control.listening
    decreases |ids|
  {
    if ids != [] {
      StartPipelinesPartial(StartPipeline(c, ids[0]), ids[1..]);
    }
  }

  /** The memory kept for an unfinished reply is bounded in every reachable state, by the limit plus
      one character, whether or not the run is timely. */
  lemma {:induction false} PartialStaysBounded(c: Ctx, events: seq<Event>)
    requires |c.partialResponse| <= MAX_CONTROL_RESPONSE_LENGTH + 1
    ensures |Run(c, events).partialResponse| <= MAX_CONTROL_RESPONSE_LENGTH + 1
    decreases |events|
  {
    if events != [] {
      var e := events[0];
      PartialStep(c, e);
      if e.ControlData? {
        RestIsNotLonger(c.partialResponse + e.chunk);
      }
      PartialStaysBounded(Step(c, e), events[1..]);
    }
  }

  // ---------------------------------------------------------------- chunks

  function Chunks(chunks: seq<string>): seq<Event> {
    if chunks == [] then [] else [ControlData(chunks[0])] + Chunks(chunks[1..])
  }

  lemma {:induction false} DeliverNothing(c: Ctx, messages: seq<string>)
    requires c.task == None
    ensures DeliverAll(c, messages) == c
    decreases |messages|
  {
    if messages != [] {
      DeliverNothing(c, messages[1..]);
    }
  }

  lemma {:induction false} DeliverConcat(c: Ctx, a: seq<string>, b: seq<string>)
    ensures DeliverAll(c, a + b) == DeliverAll(DeliverAll(c, a), b)
    decreases |a|
  {
    if a == [] {
      assert a + b == b;
    } else {
      assert (a + b)[1..] == a[1..] + b;
      DeliverConcat(DeliverMessage(c, a[0]), a[1..], b);
    }
  }

  /** Chunks on the control socket deliver, message by message, what `ReceiveAll` says. */
  lemma {:induction false} ChunkedDelivery(c: Ctx, chunks: seq<string>)
    requires Inv(c) && c.closingError == None && ReceiveAll(c.partialResponse, chunks).Some?
    ensures var messages := ReceiveAll(c.partialResponse, chunks).value.messages;
            var c' := Run(c, Chunks(chunks));
            c' == DeliverAll(c, messages).(partialResponse := c'.partialResponse)
    decreases |chunks|
  {
    if chunks != [] {
      var p := Receive(c.partialResponse, chunks[0]).value;
      var rest := ReceiveAll(p.rest, chunks[1..]).value;
      var c1 := OnControlData(c, chunks[0]);
      DeliverAllPartial(c, p.messages, p.rest);
      ControlDataKeeps(c, chunks[0]);
      assert Chunks(chunks)[0] == ControlData(chunks[0]) && Chunks(chunks)[1..] == Chunks(chunks[1..]);
      DeliverConcat(c, p.messages, rest.messages);
      if c1.closingError == None {
        ChunkedDelivery(c1, chunks[1..]);
        DeliverAllPartial(DeliverAll(c, p.messages), rest.messages, p.rest);
      } else {
        DeafRun(c1, chunks[1..]);
        DeliverNothing(DeliverAll(c, p.messages), rest.messages);
      }
    } else {
      assert c == DeliverAll(c, []).(partialResponse := c.partialResponse);
    }
  }

  lemma {:induction false} DeafRun(c: Ctx, chunks: seq<string>)
    requires !c.control.listening
    ensures Run(c, Chunks(chunks)) == c
    decreases |chunks|
  {
    if chunks != [] {
      assert Chunks(chunks)[0] == ControlData(chunks[0]) && Chunks(chunks)[1..] == Chunks(chunks[1..]);
      DeafRun(c, chunks[1..]);
    }
  }

  /** What the stream `a + chunk` gives beyond `a`, both parsed in one piece. */
  function NewMessages(a: string, chunk: string): seq<string> {
    var n, m := |Parse(a).messages|, Parse(a + chunk).messages;
    if n <= |m| then m[n..] else []
  }

  /** The chunks among some events. */
  function ChunksOf(events: seq<Event>): seq<string>
    decreases |events|
  {
    if events == [] then []
    else (if events[0].ControlData? then [events[0].chunk] else []) + ChunksOf(events[1..])
  }

  /** A run of a client that keeps the whole stream `a` and parses it in one piece whenever something is
      added to it. */
  function Replay(c: Ctx, a: string, events: seq<Event>): Ctx
    decreases |events|
  {
    if events == [] then c
    else
      match events[0]
      case ControlData(chunk) =>
        var c1 := if c.control.listening
                  then DeliverAll(c.(partialResponse := Parse(a + chunk).rest), NewMessages(a, chunk)) else c;
        Replay(c1, a + chunk, events[1..])
      case e => Replay(Step(c, e), a, events[1..])
  }

  lemma ReplayChunk(c: Ctx, a: string, chunk: string, rest: string)
    requires Aligned(a) && CrOnlyBeforeLf(a + (chunk + rest))
    requires c.partialResponse == Parse(a).rest && Receive(c.partialResponse, chunk).Some?
    ensures OnControlData(c, chunk)
         == DeliverAll(c.(partialResponse := Parse(a + chunk).rest), NewMessages(a, chunk))
    ensures OnControlData(c, chunk).partialResponse == Parse(a + chunk).rest
  {
    ResumeChunk(a, chunk, rest);
    var p, q := Parse(a), Parse(Parse(a).rest + chunk);
    assert (p.messages + q.messages)[|p.messages|..] == q.messages;
    DeliverAllPartial(c, q.messages, q.rest);
  }

  /** Handlers cannot tell how a stream was cut after line feeds, whatever happens in between: as long as
      the size guard does not trip and no new control socket is set, every run leads to the same state as
      if the whole stream were kept and parsed in one piece each time. */
  lemma {:induction false} HandlersCannotSeeChunks(c: Ctx, a: string, events: seq<Event>)
    requires c.control.listening ==> c.partialResponse == Parse(a).rest
    requires forall i | 0 <= i < |events| :: !Reopens(events[i])
    requires CutAfterLines(a, ChunksOf(events)) && CrOnlyBeforeLf(a + Concat(ChunksOf(events)))
    requires c.control.listening ==> ReceiveAll(c.partialResponse, ChunksOf(events)).Some?
    ensures Run(c, events) == Replay(c, a, events)
    decreases |events|
  {
    if events == [] {
      return;
    }
    var e, more := events[0], events[1..];
    PartialStep(c, e);
    if e.ControlData? {
      var chunks := ChunksOf(events);
      assert chunks[0] == e.chunk && chunks[1..] == ChunksOf(more);
      ConcatNext(a, chunks);
      if c.control.listening {
        ReceiveCons(c.partialResponse, chunks);
        ReplayChunk(c, a, e.chunk, Concat(chunks[1..]));
        ResumeChunk(a, e.chunk, Concat(chunks[1..]));
      }
      HandlersCannotSeeChunks(Step(c, e), a + e.chunk, more);
    } else {
      assert ChunksOf(events) == ChunksOf(more);
      HandlersCannotSeeChunks(Step(c, e), a, more);
    }
  }

  /** With nothing in between, the state reached is that of delivering what the whole stream gives
      beyond what had come before. */
  lemma ChunksAreOneChunk(c: Ctx, a: string, chunks: seq<string>)
    requires Inv(c) && c.closingError == None && c.partialResponse == Parse(a).rest
    requires CutAfterLines(a, chunks) && CrOnlyBeforeLf(a + Concat(chunks))
    requires ReceiveAll(c.partialResponse, chunks).Some?
    ensures var c' := Run(c, Chunks(chunks));
            c' == DeliverAll(c, NewMessages(a, Concat(chunks))).(partialResponse := c'.partialResponse)
  {
    ResumeChunks(a, chunks);
    var p, r := Parse(a), ReceiveAll(c.partialResponse, chunks).value;
    assert (p.messages + r.messages)[|p.messages|..] == r.messages;
    ChunkedDelivery(c, chunks);
  }
}
