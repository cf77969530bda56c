/** Runs of a new client that reach the states in which a step breaks an invariant. */
module ConnectionWitnesses {
  import opened ReplyParser
  import opened ReplyStream
  import opened Connection
  import opened ConnectionSafety
  import opened ConnectionTheorems

  /** A download is requested on a fresh data connection, and announced. */
  const CALL := CallEvent(Download("f"), "RETR f", Some(false))
  const ANNOUNCED := ControlData("150 go\r\n")

  lemma OneReply(line: string)
    requires IsSingleLine(line) && OneLine(line) && '\r' !in line
    ensures Parse(line + CRLF) == Parsed([line], "")
  {
    var items := [Reply([line])];
    assert items[1..] == [];
    assert Flatten(items) + [] == [line];
    assert Messages(items) == [line];
    assert !IsBlank(line) by { assert !IsSpace(line[0]); }
    PrintParseRoundTrip(items, []);
    assert Unlines([line], CRLF) == line + CRLF + Unlines([], CRLF) by { assert [line][1..] == []; }
    assert line + CRLF + "" == line + CRLF;
  }

  function Requested(timeout: nat): Ctx {
    Init(timeout).(task := Some(Task(0, Download("f"))), next := 1,
                   handlers := map[0 := Download("f")], traces := map[0 := []],
                   transfers := map[0 := Transfer(None, false)], data := Some(Data(false, false, 0, true, [])),
                   control := Control(true, timeout), sent := ["RETR f"])
  }

  function Transferring(timeout: nat): Ctx {
    Requested(timeout).(traces := map[0 := [Heard(FtpResponse(150, "150 go"), true, true), Started]],
                        data := Some(Data(false, false, timeout, true, [])), control := Control(true, 0),
                        pipes := multiset{0}, progress := [Start])
  }

  lemma CallRequests(timeout: nat)
    ensures Step(Init(timeout), CALL) == Requested(timeout)
  {
  }

  const HEARD := Heard(FtpResponse(150, "150 go"), true, true)

  function Announced(timeout: nat): Ctx {
    Requested(timeout).(traces := map[0 := [HEARD]])
  }

  lemma MessageIsHeard(timeout: nat)
    ensures Record(Requested(timeout), 0, HEARD) == Announced(timeout)
  {
    assert [] + [HEARD] == [HEARD];
    assert map[0 := []][0 := [HEARD]] == map[0 := [HEARD]];
  }

  lemma PipelineStarts(timeout: nat)
    ensures StartPipeline(Announced(timeout), 0) == Transferring(timeout)
  {
    assert [HEARD] + [Started] == [HEARD, Started];
    assert map[0 := [HEARD]][0 := [HEARD, Started]] == map[0 := [HEARD, Started]];
    assert multiset{} + multiset{0} == multiset{0} && [] + [Start] == [Start];
  }

  lemma GoHasCode(message: string)
    requires message == "150 go"
    ensures Code(message) == 150
  {
  }

  lemma MessageStarts(timeout: nat)
    ensures DeliverMessage(Requested(timeout), "150 go") == Transferring(timeout)
  {
    GoHasCode("150 go");
    MessageIsHeard(timeout);
    PipelineStarts(timeout);
  }

  lemma AnnouncementStarts(timeout: nat)
    ensures Step(Requested(timeout), ANNOUNCED) == Transferring(timeout)
  {
    OneReply("150 go");
    assert "" + "150 go\r\n" == "150 go" + CRLF;
    var c := Requested(timeout);
    assert Receive("", "150 go\r\n") == Some(Parsed(["150 go"], ""));
    assert c.(partialResponse := "") == c;
    assert DeliverAll(c, ["150 go"]) == DeliverAll(DeliverMessage(c, "150 go"), []) by { assert ["150 go"][1..] == []; }
    MessageStarts(timeout);
  }

  // The connection breaks: the pipeline's callback stays outstanding.

  const BROKEN := DataSocketFailure("reset")

  function Broken(timeout: nat): Ctx {
    var e := External("reset");
    Transferring(timeout).(
      closingError := Some(e), task := None, data := None, control := Control(false, 0),
      sent := ["RETR f", "QUIT"], outcomes := map[0 := Rejected(e)], progress := [Start, UpdateAndStop],
      traces := map[0 := [Heard(FtpResponse(150, "150 go"), true, true), Started, Failed(e, false)]])
  }

  /** The sockets are closed, and the task has not been told yet. */
  function Closed(timeout: nat): Ctx {
    Transferring(timeout).(
      closingError := Some(External("reset")), data := Some(Data(false, false, timeout, false, [])),
      control := Control(false, 0), sent := ["RETR f", "QUIT"])
  }

  lemma SocketsClose(timeout: nat)
    ensures CloseData(CloseControl(Transferring(timeout).(closingError := Some(External("reset"))))) == Closed(timeout)
  {
    assert Clean("QUIT") && ["RETR f"] + ["QUIT"] == ["RETR f", "QUIT"];
  }

  lemma FailureBreaks(timeout: nat)
    ensures Step(Transferring(timeout), BROKEN) == Broken(timeout)
  {
    var e := External("reset");
    SocketsClose(timeout);
    assert [HEARD, Started] + [Failed(e, false)] == [HEARD, Started, Failed(e, false)];
    assert map[0 := [HEARD, Started]][0 := [HEARD, Started, Failed(e, false)]]
        == map[0 := [HEARD, Started, Failed(e, false)]];
    assert [Start] + [UpdateAndStop] == [Start, UpdateAndStop];
    assert map[][0 := Rejected(e)] == map[0 := Rejected(e)];
  }

  function Reconnected(timeout: nat, samePort: bool): Ctx {
    Step(Broken(timeout), Reconnect(samePort))
  }

  lemma {:induction false} RunTwo(c: Ctx, a: Event, b: Event, more: seq<Event>)
    ensures Run(c, [a, b] + more) == Run(Step(Step(c, a), b), more)
    ensures TimelyRun(c, [a, b] + more) <==> Timely(c, a) && Timely(Step(c, a), b) && TimelyRun(Step(Step(c, a), b), more)
  {
    assert ([a, b] + more)[1..] == [b] + more && ([b] + more)[1..] == more;
  }

  const TO_BROKEN := [CALL, ANNOUNCED, BROKEN]

  lemma BrokenIsReached(timeout: nat)
    ensures TimelyRun(Init(timeout), TO_BROKEN) && Run(Init(timeout), TO_BROKEN) == Broken(timeout)
  {
    CallRequests(timeout);
    AnnouncementStarts(timeout);
    FailureBreaks(timeout);
    assert TO_BROKEN == [CALL, ANNOUNCED] + [BROKEN];
    RunTwo(Init(timeout), CALL, ANNOUNCED, [BROKEN]);
    assert [BROKEN][1..] == [];
    assert Clean("RETR f") && Clean("f");
  }

  lemma BrokenIsSafe(timeout: nat)
    ensures Inv(Broken(timeout))
  {
    BrokenIsReached(timeout);
    EveryRunIsSafe(timeout, TO_BROKEN);
  }

  lemma ReconnectedWaits(timeout: nat, samePort: bool)
    ensures var c := Reconnected(timeout, samePort);
            Inv(c) && 0 in c.pipes && c.task == Some(Task(1, Greeting))
  {
    BrokenIsSafe(timeout);
    StepKeeps(Broken(timeout), Reconnect(samePort));
  }

  lemma ReconnectedIsReached(timeout: nat, samePort: bool)
    ensures var run := TO_BROKEN + [Reconnect(samePort)];
            TimelyRun(Init(timeout), run) && Run(Init(timeout), run) == Reconnected(timeout, samePort)
  {
    BrokenIsReached(timeout);
    RunConcat(Init(timeout), TO_BROKEN, [Reconnect(samePort)]);
    RunOne(Broken(timeout), Reconnect(samePort));
  }

  lemma RunOne(c: Ctx, e: Event)
    ensures Run(c, [e]) == Step(c, e) && (TimelyRun(c, [e]) <==> Timely(c, e))
  {
    assert [e][1..] == [];
  }

  /** After reconnecting, the outstanding callback of the first transfer loses the task that waits for
      the greeting. */
  lemma LateFailureLosesTask(timeout: nat, samePort: bool, e: Error)
    ensures var run := TO_BROKEN + [Reconnect(samePort)];
            var c := Run(Init(timeout), run);
            && TimelyRun(Init(timeout), run) && 0 in c.pipes && Pending(c, 1)
            && !Conserved(OnPipeline(c, 0, Some(e)))
  {
    ReconnectedIsReached(timeout, samePort);
    ReconnectedWaits(timeout, samePort);
    PipelineConservesExactly(Reconnected(timeout, samePort), 0, Some(e));
  }

  lemma {:induction false} RunConcat(c: Ctx, a: seq<Event>, b: seq<Event>)
    ensures Run(c, a + b) == Run(Run(c, a), b)
    ensures TimelyRun(c, a + b) <==> TimelyRun(c, a) && TimelyRun(Run(c, a), b)
    decreases |a|
  {
    if a == [] {
      assert a + b == b;
    } else {
      assert (a + b)[1..] == a[1..] + b;
      RunConcat(Step(c, a[0]), a[1..], b);
    }
  }

  /** A late success without any reply arms the control socket of a closed client. */
  lemma LateSuccessArmsTimeout(timeout: nat)
    requires timeout > 0
    ensures var c := Run(Init(timeout), TO_BROKEN);
            && TimelyRun(Init(timeout), TO_BROKEN) && 0 in c.pipes && c.task == None
            && !TimersOk(OnPipeline(c, 0, None))
  {
    BrokenIsReached(timeout);
    BrokenIsSafe(timeout);
    PipelineTimersExactly(Broken(timeout), 0, None);
  }

  /** A command with a line break leaves a rejected task tracked. */
  lemma UncleanCommandStaysTracked(timeout: nat)
    ensures var c := Step(Init(timeout), CallEvent(Request, "NOOP\r\n", None));
            Pending(c, 0) && 0 in c.outcomes && c.outcomes[0].Rejected? && !Conserved(c)
  {
    assert "NOOP\r\n"[4] == '\r';
    var c := Step(Init(timeout), CallEvent(Request, "NOOP\r\n", None));
    assert !Accounted(c, 0);
  }

  /** A new control socket under a waiting task leaves that task without timeout. */
  lemma NewSocketStopsTimeout(timeout: nat, upgrade: bool)
    requires timeout > 0
    ensures var run := [CallEvent(Request, "NOOP", None)];
            var c := Run(Init(timeout), run);
            TimelyRun(Init(timeout), run) && Pending(c, 0) && !TimersOk(Step(c, NewSocket(upgrade)))
  {
    var e := CallEvent(Request, "NOOP", None);
    NoopWaits(timeout, e);
    RunOne(Init(timeout), e);
    EveryRunIsSafe(timeout, [e]);
    NewSocketTimersExactly(Step(Init(timeout), e), upgrade);
  }

  lemma NoopWaits(timeout: nat, e: Event)
    requires e == CallEvent(Request, "NOOP", None)
    ensures var c := Step(Init(timeout), e);
            Timely(Init(timeout), e) && Pending(c, 0) && c.task.Some? && c.timeout == timeout
  {
    assert Clean("NOOP");
  }
}
