/** What tasks make of the replies of the server, from the text of a reply on, and what the client
    writes and does at each event. */
module ConnectionReplies {
  import opened ReplyParser
  import opened ReplyStream
  import opened Connection
  import opened ConnectionSafety
  import opened ConnectionTheorems
  import opened Numbers
  import Witnesses = ConnectionWitnesses

  // ---------------------------------------------------------------- codes

  /** The code of a reply is the number its first three characters show. */
  lemma CodeIsRead(message: string)
    requires HasCode(message)
    ensures AllDigits(message[..3], 10) && Code(message) == Value(message[..3])
  {
    var s := message[..3];
    assert s[..2][..1][..0] == "" && s[..2][..1] == s[..1];
    assert ValueIn(s[..1], 10) == 10 * ValueIn(s[..1][..0], 10) + DigitValue(s[0]);
    assert ValueIn(s[..2], 10) == 10 * ValueIn(s[..2][..1], 10) + DigitValue(s[1]);
  }

  /** Classes of replies by the first digit, and the codes that matter by all three. */
  lemma ClassIsFirstDigit(message: string)
    requires HasCode(message)
    ensures PositiveCompletion(Code(message)) <==> message[0] == '2'
    ensures PositiveIntermediate(Code(message)) <==> message[0] == '3'
    ensures Code(message) >= 400 <==> message[0] >= '4'
    ensures Announces(Code(message)) <==> message[..3] == "125" || message[..3] == "150"
    ensures Code(message) == 331 <==> message[..3] == "331"
    ensures Code(message) == 350 <==> message[..3] == "350"
  {
    var s := message[..3];
    assert s == [message[0], message[1], message[2]];
  }

  /** A chunk that is one line with a code and CRLF delivers exactly that line. */
  lemma OneReplyArrives(c: Ctx, line: string)
    requires c.control.listening && c.partialResponse == "" && |line| + 2 <= 65536
    requires HasCode(line) && (|line| == 3 || line[3] == ' ') && OneLine(line) && '\r' !in line
    ensures Step(c, ControlData(line + CRLF)) == DeliverMessage(c, line)
  {
    Witnesses.OneReply(line);
    var chunk := line + CRLF;
    assert "" + chunk == chunk && |chunk| == |line| + 2;
    OneMessage(c, chunk, line);
  }

  lemma OneMessage(c: Ctx, chunk: string, message: string)
    requires c.partialResponse == "" && Receive("", chunk) == Some(Parsed([message], ""))
    ensures OnControlData(c, chunk) == DeliverMessage(c, message)
  {
    assert c.(partialResponse := "") == c;
    DeliverOne(c, message);
  }

  lemma DeliverOne(c: Ctx, message: string)
    ensures DeliverAll(c, [message]) == DeliverMessage(c, message)
  {
    assert [message][1..] == [];
  }

  // ---------------------------------------------------------------- tasks that are no transfers

  lemma PlainTask(timeout: nat, events: seq<Event>, k: nat)
    requires TimelyRun(Init(timeout), events)
    requires var c := Run(Init(timeout), events); k in c.handlers && !c.handlers[k].IsTransfer()
    ensures var c := Run(Init(timeout), events);
            && k in c.traces && UndecidedBefore(c.handlers[k], c.traces[k])
            && OutcomeOf(c, k) == LastDecision(c.handlers[k], c.traces[k])
  {
    EveryRunIsSafe(timeout, events);
    var c := Run(Init(timeout), events);
    assert Registered(c, k) && FaithfulPlain(c, k);
  }

  /** A request is settled by the first thing it experiences: a reply below 400 resolves it, a failure
      rejects it, an error reply of the server included. */
  lemma RequestSettlesExactly(timeout: nat, events: seq<Event>, k: nat, r: FtpResponse, e: Error)
    requires TimelyRun(Init(timeout), events)
    requires var c := Run(Init(timeout), events); k in c.handlers && c.handlers[k] == Request
    ensures var c := Run(Init(timeout), events);
            && k in c.traces && |c.traces[k]| <= 1
            && var t := c.traces[k];
            && (OutcomeOf(c, k) == Some(Resolved(r)) <==> t != [] && t[0].Heard? && t[0].response == r)
            && (OutcomeOf(c, k) == Some(Rejected(e)) <==> t != [] && t[0].Failed? && t[0].error == e)
            && (OutcomeOf(c, k) == None <==> t == [])
  {
    PlainTask(timeout, events, k);
    FirstDecides(Request, Run(Init(timeout), events).traces[k]);
  }

  lemma FirstDecides(h: Handler, t: seq<Note>)
    requires h.Request? || h.IgnoringErrors? || h.Greeting?
    requires UndecidedBefore(h, t)
    ensures |t| <= 1
  {
    assert 0 < |t| - 1 ==> Decision(h, t[0]) == None;
  }

  /** One that ignores errors resolves also with the error reply of the server. */
  lemma IgnoringErrorsSettlesExactly(timeout: nat, events: seq<Event>, k: nat, r: FtpResponse, e: Error)
    requires TimelyRun(Init(timeout), events)
    requires var c := Run(Init(timeout), events); k in c.handlers && c.handlers[k] == IgnoringErrors
    ensures var c := Run(Init(timeout), events);
            && k in c.traces && |c.traces[k]| <= 1
            && var t := c.traces[k];
            && (OutcomeOf(c, k) == Some(Resolved(r)) <==>
                  t != [] && ((t[0].Heard? && t[0].response == r) || (t[0].Failed? && t[0].error == FtpError(r))))
            && (OutcomeOf(c, k) == Some(Rejected(e)) <==>
                  t != [] && t[0].Failed? && t[0].error == e && !e.FtpError?)
            && (OutcomeOf(c, k) == None <==> t == [])
  {
    PlainTask(timeout, events, k);
    FirstDecides(IgnoringErrors, Run(Init(timeout), events).traces[k]);
  }

  /** Connecting resolves exactly with a greeting of the 2xx kind; any other greeting rejects it. */
  lemma GreetingSettlesExactly(timeout: nat, events: seq<Event>, k: nat, r: FtpResponse, e: Error)
    requires TimelyRun(Init(timeout), events)
    requires var c := Run(Init(timeout), events); k in c.handlers && c.handlers[k] == Greeting
    ensures var c := Run(Init(timeout), events);
            && k in c.traces && |c.traces[k]| <= 1
            && var t := c.traces[k];
            && (OutcomeOf(c, k) == Some(Resolved(r)) <==>
                  t != [] && t[0].Heard? && t[0].response == r && 200 <= r.code < 300)
            && (OutcomeOf(c, k) == Some(Rejected(e)) <==>
                  t != [] && ((t[0].Failed? && t[0].error == e)
                              || (t[0].Heard? && !(200 <= t[0].response.code < 300) && e == FtpError(t[0].response))))
            && (OutcomeOf(c, k) == None <==> t == [])
  {
    PlainTask(timeout, events, k);
    FirstDecides(Greeting, Run(Init(timeout), events).traces[k]);
  }

  /** A login is settled by the first thing it experiences other than a reply 331. */
  lemma LoginSettlesExactly(timeout: nat, events: seq<Event>, k: nat, r: FtpResponse, e: Error)
    requires TimelyRun(Init(timeout), events)
    requires var c := Run(Init(timeout), events); k in c.handlers && c.handlers[k].Login?
    ensures var c := Run(Init(timeout), events);
            && k in c.traces
            && var t := c.traces[k];
            && (forall i | 0 <= i < |t| - 1 :: t[i].Heard? && t[i].response.code == 331)
            && (OutcomeOf(c, k) == None <==> t == [] || (t[|t| - 1].Heard? && t[|t| - 1].response.code == 331))
            && (OutcomeOf(c, k) == Some(Resolved(r)) <==>
                  t != [] && t[|t| - 1].Heard? && t[|t| - 1].response == r && 200 <= r.code < 300)
            && (OutcomeOf(c, k) == Some(Rejected(e)) <==>
                  t != [] && var n := t[|t| - 1];
                  || (n.Failed? && n.error == e)
                  || (n.Heard? && n.response.code != 331 && !(200 <= n.response.code < 300) && e == FtpError(n.response)))
  {
    PlainTask(timeout, events, k);
    var c := Run(Init(timeout), events);
    LoginMeans(c.handlers[k], c.traces[k], r, e);
  }

  lemma LoginMeans(h: Handler, t: seq<Note>, r: FtpResponse, e: Error)
    requires h.Login? && UndecidedBefore(h, t)
    ensures forall i | 0 <= i < |t| - 1 :: t[i].Heard? && t[i].response.code == 331
    ensures LastDecision(h, t) == None <==> t == [] || (t[|t| - 1].Heard? && t[|t| - 1].response.code == 331)
    ensures LastDecision(h, t) == Some(Resolved(r)) <==>
              t != [] && t[|t| - 1].Heard? && t[|t| - 1].response == r && 200 <= r.code < 300
    ensures LastDecision(h, t) == Some(Rejected(e)) <==>
              t != [] && var n := t[|t| - 1];
              || (n.Failed? && n.error == e)
              || (n.Heard? && n.response.code != 331 && !(200 <= n.response.code < 300) && e == FtpError(n.response))
  {
    forall i | 0 <= i < |t| - 1 ensures t[i].Heard? && t[i].response.code == 331 {
      assert Decision(h, t[i]) == None;
    }
  }

  // ---------------------------------------------------------------- what a task experiences

  /** Every reply reaches the tracked task: from code 400 on as an error, otherwise as a reply. */
  lemma ReplyIsExperienced(c: Ctx, message: string)
    requires Inv(c) && c.task.Some? && HasCode(message)
    ensures AllDigits(message[..3], 10)
    ensures var id := c.task.value.id;
            var r := FtpResponse(Value(message[..3]), message);
            var n := if Value(message[..3]) >= 400 then Failed(FtpError(r), true) else Heard(r, c.data.Some?, true);
            var c' := DeliverMessage(c, message);
            id in c.traces && id in c'.traces && c.traces[id] + [n] <= c'.traces[id]
  {
    CodeIsRead(message);
    Tracked(c);
    var id := c.task.value.id;
    var r := FtpResponse(Code(message), message);
    if r.code >= 400 {
      FailureIsNoted(c, FtpError(r));
    } else {
      var n := Heard(r, c.data.Some?, true);
      var c1 := Record(c, id, n);
      assert c1.traces[id] == c.traces[id] + [n];
      if HasTransfer(c) {
        TransferReplyKeepsTrace(c1, r, id);
      } else {
        PlainReplyIs(c1, c.task.value, r, n);
      }
    }
  }

  lemma FailureIsNoted(c: Ctx, e: Error)
    requires c.task.Some? && c.task.value.id in c.traces && c.task.value.id !in c.outcomes
    ensures var id := c.task.value.id;
            var c' := PassFailure(c, e);
            id in c'.traces && c'.traces[id] == c.traces[id] + [Failed(e, c.closingError == None)]
  {
    var n, o := PassFailureIs(c, e);
    assert Record(c, c.task.value.id, n).traces[c.task.value.id] == c.traces[c.task.value.id] + [n];
  }

  lemma CloseKeepsTrace(c: Ctx, e: Error, id: nat)
    requires id in c.traces
    ensures var c' := CloseWithError(c, e); id in c'.traces && c.traces[id] <= c'.traces[id]
  {
    if c.closingError == None && c.task.Some? {
      var c1 := CloseData(CloseControl(c.(closingError := Some(e))));
      var n, o := PassFailureIs(c1, e);
      assert Record(c1, c1.task.value.id, n).traces == c1.traces
             || Record(c1, c1.task.value.id, n).traces == c1.traces[c1.task.value.id := c1.traces[c1.task.value.id] + [n]];
    }
  }

  lemma TransferReplyKeepsTrace(c: Ctx, r: FtpResponse, id: nat)
    requires c.task.Some? && c.task.value.id == id && id in c.traces
    ensures var c' := HandleTransferReply(c, c.task.value, r); id in c'.traces && c.traces[id] <= c'.traces[id]
  {
    if PositiveIntermediate(r.code) {
      CloseKeepsTrace(c, UnexpectedRequest(r.message), id);
    } else if Announces(r.code) && c.data.Some? {
      StartIsNoted(c, id);
    }
  }

  lemma StartIsNoted(c: Ctx, id: nat)
    requires c.data.Some? && id in c.traces
    ensures var c' := StartPipeline(c, id);
            && id in c'.traces && c.traces[id] <= c'.traces[id]
            && (id !in c.outcomes ==> c'.traces == c.traces[id := c.traces[id] + [Started]])
            && c'.pipes == c.pipes + multiset{id} && c'.progress == c.progress + [Start]
            && c'.sent == c.sent && c'.outcomes == c.outcomes && c'.task == c.task
            && c'.control == c.control.(timer := 0) && c'.data == Some(c.data.value.(timer := c.timeout))
  {
  }

  /** So does the callback of the pipeline of the tracked transfer. */
  lemma PipelineEndIsExperienced(c: Ctx, id: nat, failure: Option<Error>)
    requires Inv(c) && Pending(c, id) && id in c.pipes
    ensures var c' := Step(c, PipelineEnd(id, failure));
            && id in c.traces && c'.traces == c.traces[id := c.traces[id] + [Piped(failure)]]
            && c'.pipes == c.pipes - multiset{id}
  {
    Tracked(c);
    EndKeepsNotes(Record(c.(pipes := c.pipes - multiset{id}), id, Piped(failure)), id, failure);
  }

  lemma EndKeepsNotes(c: Ctx, id: nat, failure: Option<Error>)
    ensures var c' := match failure case Some(e) => OnError(c, id, e) case None => OnDataDone(c, id);
            c'.traces == c.traces && c'.pipes == c.pipes
  {
  }

  /** Closing an open context says QUIT once, keeps the reason, and rejects the tracked task with it. */
  lemma ClosingIsExperienced(c: Ctx, e: Error)
    requires Inv(c) && c.closingError == None && !e.FtpError?
    ensures var c' := CloseWithError(c, e);
            && c'.closingError == Some(e) && c'.sent == c.sent + ["QUIT"] && !c'.control.listening && c'.task == None
            && (c.task.Some? ==>
                  var id := c.task.value.id;
                  && id in c'.outcomes && c'.outcomes[id] == Rejected(e)
                  && id in c.traces && c'.traces == c.traces[id := c.traces[id] + [Failed(e, false)]])
            && (c.task == None ==> c'.outcomes == c.outcomes && c'.traces == c.traces)
  {
    var c1 := CloseData(CloseControl(c.(closingError := Some(e))));
    assert Clean("QUIT") && c1.sent == c.sent + ["QUIT"];
    if c.task.Some? {
      Tracked(c);
      var n, o := PassFailureIs(c1, e);
      FailedTaskIs(c1, n, e, o);
    }
  }

  lemma FailedTaskIs(c: Ctx, n: Note, e: Error, o: Outcome)
    requires c.task.Some? && c.task.value.id in c.traces && c.task.value.id !in c.outcomes && !e.FtpError?
    requires n == Failed(e, c.closingError == None) && o == Rejected(e)
    requires var id := c.task.value.id;
             PassFailure(c, e) == if HasTransfer(c) then OnError(Record(c, id, n), id, e)
                                  else Settle(StopTrackingTask(Record(c, id, n)), id, o)
    ensures var id := c.task.value.id;
            var c' := PassFailure(c, e);
            && id in c'.outcomes && c'.outcomes[id] == Rejected(e) && c'.sent == c.sent
            && c'.traces == c.traces[id := c.traces[id] + [n]]
            && c'.closingError == c.closingError && c'.control.listening == c.control.listening
  {
  }

  /** Each of these events closes an open context, with its own reason. */
  lemma FailureCloses(c: Ctx, e: Event)
    requires Closing(c) && c.closingError == None
    requires e.ControlSocketFailure? || e.StreamFailure?
             || (e.DataSocketFailure? && c.data.Some? && c.data.value.listening)
    ensures Step(c, e).closingError == Some(External(e.text))
  {
    assert Step(c, e) == CloseWithError(c, External(e.text));
    ReasonIsKept(c, External(e.text));
  }

  /** Closing by the user tells whether a task was running. */
  lemma UserCloses(c: Ctx)
    requires c.closingError == None
    ensures Step(c, UserClose).closingError == Some(UserClosed(c.task.Some?))
  {
    ReasonIsKept(c, UserClosed(c.task.Some?));
  }

  lemma ReasonIsKept(c: Ctx, e: Error)
    requires c.closingError == None
    ensures CloseWithError(c, e).closingError == Some(e)
  {
    PassFailureEnds(CloseData(CloseControl(c.(closingError := Some(e)))), e);
  }

  /** A chunk that together with the remainder exceeds 65536 characters closes an open context. */
  lemma LargeChunkCloses(c: Ctx, chunk: string)
    requires Inv(c) && c.closingError == None && |c.partialResponse| + |chunk| > 65536
    ensures var c' := Step(c, ControlData(chunk));
            && c'.closingError == Some(ResponseTooLarge)
            && (c.task.Some? ==> c.task.value.id in c'.outcomes
                                 && c'.outcomes[c.task.value.id] == Rejected(ResponseTooLarge))
  {
    ClosingIsExperienced(c, ResponseTooLarge);
  }

  /** The opener of a group that fills the limit stays as remainder, one character longer; then any chunk,
      even an empty one, closes the context. */
  lemma FullRemainderCloses(c: Ctx, opener: string, chunk: string)
    requires Inv(c) && c.closingError == None && c.partialResponse == ""
    requires OneLine(opener) && ThreeDigits(opener) && |opener| == 65536 && opener[3] == '-'
    ensures var c1 := Step(c, ControlData(opener));
            && c1 == c.(partialResponse := opener + LF)
            && Step(c1, ControlData(chunk)).closingError == Some(ResponseTooLarge)
  {
    assert "" + opener == opener;
    LinesOfOneLine(opener);
    OpenerIsNotBlank(opener);
    FeedOne(START, opener);
    AloneMeans(opener);
    var c1 := c.(partialResponse := opener + LF);
    BaseFrame(c, c1);
    LargeChunkCloses(c1, chunk);
  }

  // ---------------------------------------------------------------- what is written and started

  /** Launching a task on a free open context writes its command and waits under the timeout. */
  lemma CommandIsWritten(c: Ctx, handler: Handler, command: string)
    requires c.task == None && c.closingError == None && Clean(command)
    ensures var c' := Handle(c, handler, command);
            && c'.sent == (if command == "" then c.sent else c.sent + [command])
            && c'.task == Some(Task(c.next, handler)) && c'.next == c.next + 1 && c'.outcomes == c.outcomes
            && c'.traces == c.traces[c.next := []] && c'.control == c.control.(timer := c.timeout)
  {
  }

  /** A new control socket resets everything but the task and the promises. */
  lemma SocketIsSet(c: Ctx, upgrade: bool)
    ensures SetSocket(c, upgrade) ==
              c.(sent := if upgrade then c.sent else c.sent + ["QUIT"], data := None, partialResponse := "",
                 closingError := None, control := Control(true, 0))
  {
    assert Clean("QUIT");
  }

  /** A task launched while another one is running closes the context: the running one is rejected for
      that reason, the new one because the context is closed, and its command is not written. */
  lemma SecondTaskCloses(c: Ctx, handler: Handler, command: string)
    requires Inv(c) && c.task.Some?
    ensures var c' := Handle(c, handler, command);
            && c'.closingError == Some(SecondTask) && c'.sent == c.sent + ["QUIT"] && c'.task == None
            && c.task.value.id in c'.outcomes && c'.outcomes[c.task.value.id] == Rejected(SecondTask)
            && c.next in c'.outcomes && c'.outcomes[c.next] == Rejected(ClientIsClosed(SecondTask))
  {
    ClosingIsExperienced(c, SecondTask);
    CloseKeeps(c, SecondTask);
    var c1 := CloseWithError(c, SecondTask);
    assert Accounted(c1, c.next) && Registered(c1, c.next);
    NewTaskIsRejected(c1, handler, SecondTask);
  }

  lemma NewTaskIsRejected(c: Ctx, handler: Handler, reason: Error)
    requires c.closingError == Some(reason) && c.task == None && c.next !in c.outcomes
    ensures var c' := PassFailure(Track(c, handler), ClientIsClosed(reason));
            && c'.outcomes == c.outcomes[c.next := Rejected(ClientIsClosed(reason))]
            && c'.sent == c.sent && c'.closingError == c.closingError && c'.task == None
  {
    var c2 := Track(c, handler);
    var n, o := PassFailureIs(c2, ClientIsClosed(reason));
    TurnedAwayTask(c2, n, ClientIsClosed(reason), o);
  }

  lemma TurnedAwayTask(c: Ctx, n: Note, e: Error, o: Outcome)
    requires c.task.Some? && c.task.value.id !in c.outcomes && o == Rejected(e)
    ensures var id := c.task.value.id;
            var c' := if HasTransfer(c) then OnError(Record(c, id, n), id, e)
                      else Settle(StopTrackingTask(Record(c, id, n)), id, o);
            && c'.outcomes == c.outcomes[id := Rejected(e)]
            && c'.sent == c.sent && c'.closingError == c.closingError && c'.task == None
  {
  }

  /** An upgraded control socket is not told QUIT, a replaced one is told once. */
  lemma OnlyReplacedSocketQuits(c: Ctx)
    ensures SetSocket(c, true).sent == c.sent
    ensures SetSocket(c, false).sent == c.sent + ["QUIT"]
    ensures c.task == None ==> Step(c, Reconnect(true)).sent == c.sent
    ensures c.task == None ==> Step(c, Reconnect(false)).sent == c.sent + ["QUIT"]
  {
    SocketIsSet(c, true);
    SocketIsSet(c, false);
    if c.task == None {
      CommandIsWritten(SetSocket(c, true), Greeting, "");
      CommandIsWritten(SetSocket(c, false), Greeting, "");
    }
  }

  /** The reply 331, whatever its text, makes a login send its password, and nothing else. */
  lemma PasswordIsSent(c: Ctx, password: string, message: string)
    requires Inv(c) && c.task.Some? && c.task.value.handler == Login(password) && Clean(password)
    requires HasCode(message) && message[..3] == "331"
    ensures var c' := DeliverMessage(c, message);
            c' == c.(sent := c.sent + ["PASS " + password], traces := c'.traces)
  {
    ClassIsFirstDigit(message);
    assert Clean("PASS " + password);
  }

  /** The replies 125 and 150, whatever their text: without a data connection the transfer fails; an
      upload on a data connection that is not secure yet waits for it; otherwise the pipeline starts. */
  lemma AnnouncementStarts(c: Ctx, message: string)
    requires Inv(c) && HasTransfer(c) && HasCode(message) && (message[..3] == "125" || message[..3] == "150")
    ensures var id := c.task.value.id;
            var c' := DeliverMessage(c, message);
            && c'.sent == c.sent && id in c.traces && id in c'.traces
            && (if c.data == None then
                  id in c'.outcomes && c'.outcomes[id] == Rejected(NoDataConnection) && c'.task == None
                else if c.task.value.handler.Upload? && c.data.value.tls && !c.data.value.secure then
                  && c' == c.(traces := c'.traces,
                              data := Some(c.data.value.(waiting := c.data.value.waiting + [id])))
                else
                  && c'.pipes == c.pipes + multiset{id} && c'.progress == c.progress + [Start] && c'.task == c.task
                  && c'.control == c.control.(timer := 0) && c'.data == Some(c.data.value.(timer := c.timeout))
                  && |c'.traces[id]| == |c.traces[id]| + 2 && c'.traces[id][|c.traces[id]| + 1] == Started)
  {
    ClassIsFirstDigit(message);
    Tracked(c);
    var id := c.task.value.id;
    var r := FtpResponse(Code(message), message);
    var c1 := Record(c, id, Heard(r, c.data.Some?, true));
    assert DeliverMessage(c, message) == HandleTransferReply(c1, c.task.value, r);
    if c.data.Some? { StartIsNoted(c1, id); }
  }

  /** The latest experience of a task. */
  predicate LastNote(c: Ctx, id: nat, n: Note) {
    id in c.traces && c.traces[id] != [] && c.traces[id][|c.traces[id]| - 1] == n
  }

  lemma SnocIsLast(t: seq<Note>, n: Note)
    ensures (t + [n])[|t + [n]| - 1] == n
  {
  }

  /** An upload that waits for its data connection starts as soon as that is secure. */
  lemma SecureConnectStarts(c: Ctx)
    requires Inv(c) && c.data.Some? && c.data.value.listening && c.data.value.tls && !c.data.value.secure
    ensures var c' := Step(c, SecureConnect);
            && c'.pipes == c.pipes + multiset(c.data.value.waiting)
            && c'.data.Some? && c'.data.value.secure && c'.data.value.waiting == []
            && (c.data.value.waiting != [] ==> c.task.Some? && LastNote(c', c.task.value.id, Started))
  {
    var waiting := c.data.value.waiting;
    if waiting != [] { Tracked(c); }
    PipelinesStart(c.(data := Some(c.data.value.(secure := true, waiting := []))), waiting);
  }

  lemma {:induction false} PipelinesStart(c: Ctx, ids: seq<nat>)
    requires c.data.Some? && c.data.value.secure && c.data.value.waiting == []
    requires ids != [] ==> c.task.Some? && c.task.value.id in c.traces && c.task.value.id !in c.outcomes
    requires forall i | 0 <= i < |ids| :: Pending(c, ids[i])
    ensures var c' := StartPipelines(c, ids);
            && c'.pipes == c.pipes + multiset(ids) && c'.task == c.task && c'.outcomes == c.outcomes
            && c'.data.Some? && c'.data.value.secure && c'.data.value.waiting == []
            && (ids != [] ==> LastNote(c', c.task.value.id, Started))
    decreases |ids|
  {
    if ids != [] {
      assert Pending(c, ids[0]);
      StartIsNoted(c, ids[0]);
      SnocIsLast(c.traces[ids[0]], Started);
      assert ids == [ids[0]] + ids[1..];
      PipelinesStart(StartPipeline(c, ids[0]), ids[1..]);
    }
  }

  /** Other replies to a transfer, whatever their text: 350 makes a download request its file; a 2xx is
      kept as the response; another 3xx closes the context; another 1xx changes nothing. */
  lemma TransferAnswers(c: Ctx, message: string)
    requires Inv(c) && HasTransfer(c) && HasCode(message) && CleanHandler(c.task.value.handler)
    requires message[0] < '4' && message[..3] != "125" && message[..3] != "150"
    ensures var h, id := c.task.value.handler, c.task.value.id;
            var c' := DeliverMessage(c, message);
            if h.Download? && message[..3] == "350" then
              c' == c.(sent := c.sent + ["RETR " + h.path], traces := c'.traces)
            else if message[0] == '2' then
              && c'.sent == c.sent && id in c'.transfers && c'.transfers[id].response.Some?
              && c'.transfers[id].response.value.message == message
              && c'.transfers[id].response.value.code == Code(message)
            else if message[0] == '3' then
              c'.closingError == Some(UnexpectedRequest(message)) && c'.sent == c.sent + ["QUIT"]
            else c' == c.(traces := c'.traces)
  {
    ClassIsFirstDigit(message);
    Tracked(c);
    var h, id := c.task.value.handler, c.task.value.id;
    var r := FtpResponse(Code(message), message);
    var n := Heard(r, c.data.Some?, true);
    var c1 := Record(c, id, n);
    assert DeliverMessage(c, message) == HandleTransferReply(c1, c.task.value, r);
    if h.Download? && message[..3] == "350" {
      assert Clean("RETR " + h.path);
    } else if message[0] == '3' {
      QuietReplyKeepsInv(c, n);
      ClosingIsExperienced(c1, UnexpectedRequest(message));
    }
  }
}
