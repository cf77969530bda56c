/** Invariants of every run of the connection machine. */
module ConnectionSafety {
  import opened ReplyParser
  import opened ReplyStream
  import opened Connection

  // ---------------------------------------------------------------- the verdict on a transfer

  /** The error that ends a transfer which experiences `n`. */
  function FailureOf(n: Note): Option<Error> {
    match n
    case Failed(e, _) => Some(e)
    case Piped(failure) => failure
    case Heard(r, hasData, _) => if Announces(r.code) && !hasData then Some(NoDataConnection) else None
    case Started => None
  }

  predicate Confirms(n: Note) {
    n.Heard? && PositiveCompletion(n.response.code)
  }

  function FirstFailure(t: seq<Note>): Option<Error> {
    if t == [] then None
    else
      var before := FirstFailure(t[..|t| - 1]);
      if before.Some? then before else FailureOf(t[|t| - 1])
  }

  function LastConfirmation(t: seq<Note>): Option<FtpResponse> {
    if t == [] then None
    else if Confirms(t[|t| - 1]) then Some(t[|t| - 1].response)
    else LastConfirmation(t[..|t| - 1])
  }

  predicate DataDone(t: seq<Note>) {
    exists i :: 0 <= i < |t| && t[i] == Piped(None)
  }

  /** What the promise of a transfer that experienced `t` has to be. */
  function Verdict(t: seq<Note>): Option<Outcome> {
    if FirstFailure(t).Some? then Some(Rejected(FirstFailure(t).value))
    else if DataDone(t) && LastConfirmation(t).Some? then Some(Resolved(LastConfirmation(t).value))
    else None
  }

  // ---------------------------------------------------------------- the verdict on any other task

  /** The outcome that one experience gives a task that is not a transfer, if it does. */
  function Decision(h: Handler, n: Note): Option<Outcome> {
    match n
    case Heard(r, _, _) =>
      if h.Request? || h.IgnoringErrors? || PositiveCompletion(r.code) then Some(Resolved(r))
      else if h.Login? && r.code == 331 then None
      else Some(Rejected(FtpError(r)))
    case Failed(e, _) => Some(if h.IgnoringErrors? && e.FtpError? then Resolved(e.response) else Rejected(e))
    case _ => None
  }

  /** Its last experience decides. */
  function LastDecision(h: Handler, t: seq<Note>): Option<Outcome> {
    if t == [] then None else Decision(h, t[|t| - 1])
  }

  function OutcomeOf(c: Ctx, id: nat): Option<Outcome> {
    if id in c.outcomes then Some(c.outcomes[id]) else None
  }

  // ---------------------------------------------------------------- progress polling

  function Announcements(t: seq<Note>): nat {
    if t == [] then 0
    else Announcements(t[..|t| - 1]) + (if t[|t| - 1].Heard? && Announces(t[|t| - 1].response.code) then 1 else 0)
  }

  /** Between the start and the end of the data phase. */
  predicate InDataPhase(t: seq<Note>) {
    Started in t && NoPiped(t)
  }

  /** A poll is running after these calls on the tracker. */
  predicate Polling(calls: seq<ProgressCall>) {
    calls != [] && calls[|calls| - 1] == Start
  }

  /** A poll that was started is stopped with a last update before anything else is called. */
  predicate Bracketed(calls: seq<ProgressCall>) {
    forall i | 0 < i < |calls| && calls[i - 1] == Start :: calls[i] == UpdateAndStop
  }

  // ---------------------------------------------------------------- invariants

  /** Every task ever launched is settled or is the single tracked task, never both. */
  ghost predicate Conserved(c: Ctx) {
    && (c.task.Some? ==> c.task.value.id < c.next)
    && (forall k: nat :: Accounted(c, k))
  }

  predicate Accounted(c: Ctx, k: nat) {
    k in c.outcomes <==> k < c.next && !Pending(c, k)
  }

  ghost predicate Domains(c: Ctx) {
    && (forall k: nat :: Registered(c, k))
    && (c.task.Some? ==>
          && (c.task.value.handler.IsTransfer() <==> c.task.value.id in c.transfers)
          && c.task.value.id in c.handlers && c.handlers[c.task.value.id] == c.task.value.handler)
    && WaitingOk(c)
  }

  predicate Registered(c: Ctx, k: nat) {
    && (k in c.traces <==> k < c.next)
    && (k in c.handlers <==> k < c.next)
    && (k in c.transfers <==> k in c.handlers && c.handlers[k].IsTransfer())
    && (k in c.pipes ==> k in c.transfers)
  }

  /** Only the tracked upload waits for a data connection to become secure. */
  predicate WaitingOk(c: Ctx) {
    c.data.Some? && c.data.value.waiting != [] ==>
      && c.task.Some? && c.task.value.handler.Upload? && c.data.value.tls && !c.data.value.secure
      && forall i | 0 <= i < |c.data.value.waiting| :: Pending(c, c.data.value.waiting[i])
  }

  predicate Closing(c: Ctx) {
    && (c.closingError.Some? ==> c.task == None)
    && c.control.listening == (c.closingError == None)
  }

  predicate Faithful(c: Ctx, k: nat) {
    && k in c.traces && k in c.transfers
    && OutcomeOf(c, k) == Verdict(c.traces[k])
    && (Pending(c, k) ==> c.transfers[k] == Transfer(LastConfirmation(c.traces[k]), DataDone(c.traces[k])))
    && (!Pending(c, k) ==> c.traces[k] != [] && Verdict(c.traces[k][..|c.traces[k]| - 1]) == None)
  }

  ghost predicate AllFaithful(c: Ctx) {
    forall k {:trigger Faithful(c, k)} | k in c.transfers :: Faithful(c, k)
  }

  /** A task that is not a transfer experiences replies and failures; the last one decided it, or it is
      not decided yet. */
  predicate FaithfulPlain(c: Ctx, k: nat) {
    k in c.handlers && k in c.traces && !c.handlers[k].IsTransfer() ==>
      && OutcomeOf(c, k) == LastDecision(c.handlers[k], c.traces[k])
      && UndecidedBefore(c.handlers[k], c.traces[k])
  }

  predicate UndecidedBefore(h: Handler, t: seq<Note>) {
    && (forall i | 0 <= i < |t| :: t[i].Heard? || t[i].Failed?)
    && (forall i | 0 <= i < |t| - 1 :: Decision(h, t[i]) == None)
  }

  predicate Decides(h: Handler, n: Note, o: Option<Outcome>) {
    (n.Heard? || n.Failed?) && o == Decision(h, n)
  }

  ghost predicate AllFaithfulPlain(c: Ctx) {
    forall k: nat :: FaithfulPlain(c, k)
  }

  /** Replies of the server are passed on only while the context is open, and as errors exactly from
      code 400 on. */
  ghost predicate SilentWhenClosed(c: Ctx) {
    forall k: nat :: Silent(c, k)
  }

  predicate Silent(c: Ctx, k: nat) {
    k in c.traces ==> forall i | 0 <= i < |c.traces[k]| :: SoundNote(c.traces[k][i])
  }

  predicate SoundNote(n: Note) {
    && (n.Heard? ==> n.open && n.response.code < 400)
    && (n.Failed? && n.error.FtpError? ==> n.open && n.error.response.code >= 400)
  }

  ghost predicate AnnouncedOnce(c: Ctx) {
    forall k: nat :: AtMostOneAnnouncement(c, k)
  }

  predicate AtMostOneAnnouncement(c: Ctx, k: nat) {
    k in c.traces ==> Announcements(c.traces[k]) <= 1
  }

  predicate ProgressOk(c: Ctx) {
    && Bracketed(c.progress)
    && (Polling(c.progress) <==>
        HasTransfer(c) && c.task.value.id in c.traces && InDataPhase(c.traces[c.task.value.id]))
    && (HasTransfer(c) && c.task.value.id in c.traces ==>
        var t := c.traces[c.task.value.id];
        && (Announcements(t) == 0 ==> Started !in t && (c.data.Some? ==> c.data.value.waiting == []))
        && (Started in t && c.data.Some? ==> c.data.value.waiting == [])
        && (c.data.Some? ==> |c.data.value.waiting| <= 1)
        && (c.task.value.id in c.pipes ==> Started in t)
        && (Started !in t ==> NoPiped(t)))
  }

  predicate NoPiped(t: seq<Note>) {
    forall i | 0 <= i < |t| :: !t[i].Piped?
  }

  predicate HasTransfer(c: Ctx) {
    c.task.Some? && c.task.value.handler.IsTransfer()
  }

  ghost predicate Books(c: Ctx) {
    Conserved(c) && Domains(c) && AllFaithful(c) && AllFaithfulPlain(c) && SilentWhenClosed(c)
  }

  ghost predicate Base(c: Ctx) {
    Books(c) && (AnnouncedOnce(c) ==> ProgressOk(c))
  }

  ghost predicate Core(c: Ctx) {
    Base(c) && Closing(c)
  }

  /** A data connection is held only by the transfer that uses it. */
  predicate DataOwned(c: Ctx) {
    c.data.Some? ==> HasTransfer(c)
  }

  /** With a tracked task exactly one socket watches for timeouts, otherwise none does. */
  predicate TimersOk(c: Ctx) {
    && (c.task == None ==> c.control.timer == 0)
    && (c.task.Some? && c.timeout > 0 ==>
        (c.control.timer > 0) != (c.data.Some? && c.data.value.timer > 0))
  }

  ghost predicate Inv(c: Ctx) {
    Core(c) && DataOwned(c) && TimersOk(c)
  }

  // ---------------------------------------------------------------- single steps of the tracked task

  predicate IsAnnouncement(n: Note) {
    n.Heard? && Announces(n.response.code)
  }

  lemma TraceSnoc(t: seq<Note>, n: Note)
    ensures var t1 := t + [n];
            && t1[..|t|] == t
            && Announcements(t1) == Announcements(t) + (if IsAnnouncement(n) then 1 else 0)
            && (Started in t1 <==> Started in t || n == Started)
            && (NoPiped(t1) <==> NoPiped(t) && !n.Piped?)
            && (DataDone(t1) <==> DataDone(t) || n == Piped(None))
            && LastConfirmation(t1) == (if Confirms(n) then Some(n.response) else LastConfirmation(t))
            && FirstFailure(t1) == (if FirstFailure(t).Some? then FirstFailure(t) else FailureOf(n))
            && (forall i | 0 <= i < |t1| :: t1[i] == if i < |t| then t[i] else n)
  {
    var t1 := t + [n];
    assert t1[..|t|] == t;
    assert forall i | 0 <= i < |t| :: t1[i] == t[i];
    assert t1[|t|] == n;
  }

  /** `c'` is `c` after the tracked task experienced `n`, and was settled with `o` if `o` is given. */
  ghost predicate Extends(c: Ctx, n: Note, o: Option<Outcome>, c': Ctx)
    requires c.task.Some?
  {
    var id := c.task.value.id;
    && id in c.traces
    && c'.traces == c.traces[id := c.traces[id] + [n]]
    && c'.next == c.next && c'.handlers == c.handlers
    && c'.task == (if o.Some? then None else c.task)
    && c'.outcomes == (if o.Some? then c.outcomes[id := o.value] else c.outcomes)
    && WaitingOk(c')
    && (if HasTransfer(c) then id in c'.transfers && c'.transfers == c.transfers[id := c'.transfers[id]]
        else c'.transfers == c.transfers)
    && c'.pipes <= c.pipes + (if HasTransfer(c) then multiset{id} else multiset{})
  }

  /** What the books say of the tracked task. */
  lemma Tracked(c: Ctx)
    requires Books(c) && c.task.Some?
    ensures var id := c.task.value.id;
            && id in c.traces && id !in c.outcomes && (HasTransfer(c) <==> id in c.transfers)
            && id in c.handlers && c.handlers[id] == c.task.value.handler && FaithfulPlain(c, id)
            && (HasTransfer(c) ==> Faithful(c, id))
  {
    var id := c.task.value.id;
    assert Accounted(c, id) && Registered(c, id) && FaithfulPlain(c, id);
    if HasTransfer(c) { assert Faithful(c, id); }
  }

  lemma FaithfulExtends(c: Ctx, n: Note, o: Option<Outcome>, c': Ctx)
    requires Books(c) && c.task.Some? && Extends(c, n, o, c')
    requires HasTransfer(c) ==>
               var id := c.task.value.id;
               var t := c.traces[id] + [n];
               && o == Verdict(t)
               && (o == None ==> c'.transfers[id] == Transfer(LastConfirmation(t), DataDone(t)))
    ensures AllFaithful(c')
  {
    Tracked(c);
    TraceSnoc(c.traces[c.task.value.id], n);
    forall k | k in c'.transfers ensures Faithful(c', k) {
      assert Faithful(c, k);
    }
  }

  lemma PlainExtends(c: Ctx, n: Note, o: Option<Outcome>, c': Ctx)
    requires Books(c) && c.task.Some? && Extends(c, n, o, c')
    requires !HasTransfer(c) ==> Decides(c.task.value.handler, n, o)
    ensures AllFaithfulPlain(c')
  {
    Tracked(c);
    var id := c.task.value.id;
    forall k: nat ensures FaithfulPlain(c', k) {
      assert FaithfulPlain(c, k);
      if k == id && !HasTransfer(c) {
        UndecidedSnoc(c.task.value.handler, c.traces[id], n);
      }
    }
  }

  lemma UndecidedSnoc(h: Handler, t: seq<Note>, n: Note)
    requires LastDecision(h, t) == None && UndecidedBefore(h, t) && (n.Heard? || n.Failed?)
    ensures LastDecision(h, t + [n]) == Decision(h, n) && UndecidedBefore(h, t + [n])
  {
    assert forall i | 0 <= i < |t| :: (t + [n])[i] == t[i];
  }

  lemma BooksExtend(c: Ctx, n: Note, o: Option<Outcome>, c': Ctx)
    requires Books(c) && c.task.Some? && SoundNote(n) && Extends(c, n, o, c')
    requires HasTransfer(c) ==>
               var id := c.task.value.id;
               var t := c.traces[id] + [n];
               && o == Verdict(t)
               && (o == None ==> c'.transfers[id] == Transfer(LastConfirmation(t), DataDone(t)))
    requires !HasTransfer(c) ==> Decides(c.task.value.handler, n, o)
    ensures Books(c')
  {
    FaithfulExtends(c, n, o, c');
    PlainExtends(c, n, o, c');
    Tracked(c);
    forall k: nat ensures Accounted(c', k) && Registered(c', k) && Silent(c', k) {
      assert Accounted(c, k) && Registered(c, k) && Silent(c, k);
    }
  }

  /** Traces only grow, so an announcement counted once was counted at most once before. */
  lemma AnnouncedOnceBefore(c: Ctx, n: Note, c': Ctx)
    requires c.task.Some? && c.task.value.id in c.traces
    requires c'.traces == c.traces[c.task.value.id := c.traces[c.task.value.id] + [n]]
    ensures AnnouncedOnce(c') ==> AnnouncedOnce(c) && Announcements(c'.traces[c.task.value.id]) <= 1
  {
    TraceSnoc(c.traces[c.task.value.id], n);
    if AnnouncedOnce(c') {
      forall k: nat ensures AtMostOneAnnouncement(c, k) {
        assert AtMostOneAnnouncement(c', k);
      }
      assert AtMostOneAnnouncement(c', c.task.value.id);
    }
  }

  lemma BracketedSnoc(calls: seq<ProgressCall>, call: ProgressCall)
    requires Bracketed(calls) && (Polling(calls) ==> call == UpdateAndStop)
    ensures Bracketed(calls + [call])
  {
  }

  /** OnError on the tracked transfer. */
  lemma FailTransferKeeps(c: Ctx, n: Note, e: Error)
    requires Base(c) && HasTransfer(c) && FailureOf(n) == Some(e) && SoundNote(n)
    ensures Base(OnError(Record(c, c.task.value.id, n), c.task.value.id, e))
  {
    var id := c.task.value.id;
    var c' := OnError(Record(c, id, n), id, e);
    Tracked(c);
    TraceSnoc(c.traces[id], n);
    assert c'.transfers == c.transfers[id := c.transfers[id]];
    BooksExtend(c, n, Some(Rejected(e)), c');
    AnnouncedOnceBefore(c, n, c');
    if AnnouncedOnce(c') {
      BracketedSnoc(c.progress, UpdateAndStop);
    }
  }

  /** Settling the tracked task that is not a transfer. */
  lemma SettlePlainKeeps(c: Ctx, n: Note, outcome: Outcome)
    requires Base(c) && c.task.Some? && !HasTransfer(c) && SoundNote(n)
    requires Decides(c.task.value.handler, n, Some(outcome))
    ensures var id := c.task.value.id;
            Base(Settle(StopTrackingTask(Record(c, id, n)), id, outcome))
  {
    var id := c.task.value.id;
    var c' := Settle(StopTrackingTask(Record(c, id, n)), id, outcome);
    Tracked(c);
    BooksExtend(c, n, Some(outcome), c');
    AnnouncedOnceBefore(c, n, c');
  }

  lemma PassFailureIs(c: Ctx, e: Error) returns (n: Note, outcome: Outcome)
    requires c.task.Some?
    ensures n == Failed(e, c.closingError == None)
    ensures outcome == Rejected(e) || e.FtpError?
    ensures Decides(c.task.value.handler, n, Some(outcome))
    ensures var id := c.task.value.id;
            PassFailure(c, e) == if HasTransfer(c) then OnError(Record(c, id, n), id, e)
                                 else Settle(StopTrackingTask(Record(c, id, n)), id, outcome)
  {
    n := Failed(e, c.closingError == None);
    outcome := if c.task.value.handler.IgnoringErrors? && e.FtpError? then Resolved(e.response) else Rejected(e);
  }

  lemma PassFailureKeeps(c: Ctx, e: Error)
    requires Base(c)
    requires c.task.Some? && e.FtpError? ==> c.closingError == None && e.response.code >= 400
    ensures Base(PassFailure(c, e))
  {
    if c.task.Some? {
      var n, outcome := PassFailureIs(c, e);
      if HasTransfer(c) {
        FailTransferKeeps(c, n, e);
      } else {
        SettlePlainKeeps(c, n, outcome);
      }
    }
  }

  lemma PassFailureEnds(c: Ctx, e: Error)
    ensures var c' := PassFailure(c, e);
            && c'.task == None && c'.closingError == c.closingError
            && c'.control == (if c.task.Some? then c.control.(timer := 0) else c.control)
            && c'.data == (if HasTransfer(c) then None else c.data)
            && c'.next == c.next && c'.timeout == c.timeout && c'.partialResponse == c.partialResponse
  {
    if c.task.Some? {
      var n, outcome := PassFailureIs(c, e);
      var c1 := Record(c, c.task.value.id, n);
      assert c1 == c.(traces := c1.traces);
    }
  }

  /** The books depend on nothing but the fields named here. */
  lemma BooksFrame(c: Ctx, c': Ctx)
    requires Books(c) && WaitingOk(c')
    requires c'.task == c.task && c'.next == c.next && c'.outcomes == c.outcomes && c'.traces == c.traces
    requires c'.handlers == c.handlers
    requires c'.transfers.Keys == c.transfers.Keys && c'.pipes <= c.pipes
    requires HasTransfer(c) && c.task.value.id in c.transfers ==>
               c'.transfers[c.task.value.id] == c.transfers[c.task.value.id]
    ensures Books(c') && (AnnouncedOnce(c') <==> AnnouncedOnce(c))
  {
    forall k: nat ensures Accounted(c', k) && Registered(c', k) && Silent(c', k)
                          && (AtMostOneAnnouncement(c', k) <==> AtMostOneAnnouncement(c, k))
    {
      assert Accounted(c, k) && Registered(c, k) && Silent(c, k);
    }
    forall k: nat ensures FaithfulPlain(c', k) {
      assert FaithfulPlain(c, k);
    }
    forall k | k in c'.transfers ensures Faithful(c', k) {
      assert k in c.transfers && Faithful(c, k);
    }
  }

  /** Sockets may change, except for waiting transfers. */
  lemma BaseFrame(c: Ctx, c': Ctx)
    requires Base(c)
    requires c' == c.(partialResponse := c'.partialResponse, closingError := c'.closingError,
                      control := c'.control, data := c'.data, sent := c'.sent, timeout := c'.timeout)
    requires c'.data.Some? && c'.data.value.waiting != [] ==>
               c.data.Some? && c'.data.value == c.data.value.(timer := c'.data.value.timer)
    ensures Base(c')
  {
    BooksFrame(c, c');
  }

  lemma CloseKeeps(c: Ctx, e: Error)
    requires Core(c) && !e.FtpError?
    ensures var c' := CloseWithError(c, e);
            && Core(c') && c'.task == None && c'.closingError.Some?
            && (c.closingError == None ==> c'.control.timer == 0)
            && c'.next == c.next && c'.timeout == c.timeout
            && (HasTransfer(c) || c.data == None ==> c'.data == None)
  {
    if c.closingError == None {
      var c1 := CloseData(CloseControl(c.(closingError := Some(e))));
      BaseFrame(c, c1);
      PassFailureKeeps(c1, e);
      PassFailureEnds(c1, e);
      var c2 := PassFailure(c1, e);
      assert StopTrackingTask(c2) == SetControlTimer(c2, 0);
      BaseFrame(c2, SetControlTimer(c2, 0));
    }
  }

  // ---------------------------------------------------------------- replies to a transfer

  /** A reply that neither announces nor confirms a transfer changes nothing that matters. */
  lemma QuietReplyKeeps(c: Ctx, n: Note)
    requires Base(c) && c.task.Some? && n.Heard? && SoundNote(n)
    requires HasTransfer(c) ==> !Announces(n.response.code) && !Confirms(n)
    requires !HasTransfer(c) ==> Decision(c.task.value.handler, n) == None
    ensures Base(Record(c, c.task.value.id, n))
  {
    var id := c.task.value.id;
    var c' := Record(c, id, n);
    Tracked(c);
    TraceSnoc(c.traces[id], n);
    if HasTransfer(c) {
      assert c'.transfers == c.transfers[id := c.transfers[id]];
    }
    BooksExtend(c, n, None, c');
    AnnouncedOnceBefore(c, n, c');
  }

  /** An announcement with a data connection, before anything is done about it. */
  lemma AnnouncementKeepsBooks(c: Ctx, n: Note)
    requires Base(c) && HasTransfer(c) && SoundNote(n) && IsAnnouncement(n) && n.hasData
    ensures c.task.value.id in c.traces
    ensures var c' := Record(c, c.task.value.id, n);
            && Books(c') && c'.traces == c.traces[c.task.value.id := c.traces[c.task.value.id] + [n]]
            && (AnnouncedOnce(c') ==>
                 && ProgressOk(c) && Ready(c') && Announcements(c'.traces[c.task.value.id]) == 1
                 && (c.data.Some? ==> c.data.value.waiting == [])
                 && c.task.value.id !in c.pipes)
  {
    var id := c.task.value.id;
    var c' := Record(c, id, n);
    Tracked(c);
    TraceSnoc(c.traces[id], n);
    assert c'.transfers == c.transfers[id := c.transfers[id]];
    BooksExtend(c, n, None, c');
    AnnouncedOnceBefore(c, n, c');
    if AnnouncedOnce(c') {
      assert Announcements(c'.traces[id]) <= 1;
    }
  }

  /** The tracked transfer may start its pipeline: it has not, and no poll is running. */
  predicate Ready(c: Ctx) {
    && HasTransfer(c) && c.task.value.id in c.traces
    && Bracketed(c.progress) && !Polling(c.progress)
    && Started !in c.traces[c.task.value.id] && NoPiped(c.traces[c.task.value.id])
  }

  lemma AwaitSecureKeeps(c: Ctx, n: Note)
    requires Base(c) && HasTransfer(c) && c.data.Some? && SoundNote(n) && IsAnnouncement(n) && n.hasData
    requires c.task.value.handler.Upload? && c.data.value.tls && !c.data.value.secure
    ensures Base(AwaitSecure(Record(c, c.task.value.id, n), c.task.value.id))
  {
    var id := c.task.value.id;
    var c1 := Record(c, id, n);
    var c' := AwaitSecure(c1, id);
    AnnouncementKeepsBooks(c, n);
    BooksFrame(c1, c');
  }

  lemma StartPipelineKeeps(c: Ctx)
    requires Books(c) && HasTransfer(c) && c.data.Some? && c.data.value.waiting == []
    requires AnnouncedOnce(c) ==> Ready(c) && Announcements(c.traces[c.task.value.id]) > 0
    ensures Base(StartPipeline(c, c.task.value.id))
    ensures AnnouncedOnce(StartPipeline(c, c.task.value.id)) ==> AnnouncedOnce(c)
  {
    var id := c.task.value.id;
    var c' := StartPipeline(c, id);
    Tracked(c);
    TraceSnoc(c.traces[id], Started);
    assert c'.transfers == c.transfers[id := c.transfers[id]];
    BooksExtend(c, Started, None, c');
    AnnouncedOnceBefore(c, Started, c');
    if AnnouncedOnce(c') {
      BracketedSnoc(c.progress, Start);
    }
  }

  lemma ConfirmationKeeps(c: Ctx, n: Note)
    requires Base(c) && HasTransfer(c) && Confirms(n) && SoundNote(n)
    ensures Base(OnControlDone(Record(c, c.task.value.id, n), c.task.value.id, n.response))
  {
    var id := c.task.value.id;
    var c' := OnControlDone(Record(c, id, n), id, n.response);
    Tracked(c);
    var t := c.traces[id] + [n];
    TraceSnoc(c.traces[id], n);
    assert c'.traces == c.traces[id := t];
    assert Verdict(t) == if DataDone(t) then Some(Resolved(n.response)) else None;
    assert c'.transfers == c.transfers[id := c.transfers[id].(response := Some(n.response))];
    BooksExtend(c, n, Verdict(t), c');
    AnnouncedOnceBefore(c, n, c');
  }

  /** OnDataDone for the tracked transfer. */
  lemma DataDoneKeeps(c: Ctx, n: Note)
    requires Base(c) && HasTransfer(c) && n == Piped(None)
    requires AnnouncedOnce(c) ==> c.task.value.id in c.traces && Started in c.traces[c.task.value.id]
    ensures Base(OnDataDone(Record(c, c.task.value.id, n), c.task.value.id))
  {
    var id := c.task.value.id;
    var c' := OnDataDone(Record(c, id, n), id);
    Tracked(c);
    var t := c.traces[id] + [n];
    TraceSnoc(c.traces[id], n);
    assert c'.traces == c.traces[id := t];
    assert Verdict(t) == if LastConfirmation(t).Some? then Some(Resolved(LastConfirmation(t).value)) else None;
    assert c'.transfers == c.transfers[id := c.transfers[id].(dataTransferDone := true)];
    BooksExtend(c, n, Verdict(t), c');
    AnnouncedOnceBefore(c, n, c');
    if AnnouncedOnce(c') {
      BracketedSnoc(c.progress, UpdateAndStop);
    }
  }

  // ---------------------------------------------------------------- whole events

  lemma AnnouncementKeeps(c: Ctx, r: FtpResponse)
    requires Inv(c) && HasTransfer(c) && Announces(r.code)
    ensures Inv(PassReply(c, r))
  {
    var task := c.task.value;
    var n := Heard(r, c.data.Some?, true);
    var c1 := Record(c, task.id, n);
    assert PassReply(c, r) == HandleTransferReply(c1, task, r);
    assert c1.data == c.data && c1.control == c.control && c1.task == c.task;
    if c.data == None {
      FailTransferKeeps(c, n, NoDataConnection);
    } else if task.handler.Upload? && c.data.value.tls && !c.data.value.secure {
      AwaitSecureKeeps(c, n);
    } else {
      AnnouncementKeepsBooks(c, n);
      StartPipelineKeeps(c1);
      StartedSockets(c1, task.id);
    }
  }

  lemma StartedSockets(c: Ctx, id: nat)
    requires c.data.Some?
    ensures var c' := StartPipeline(c, id);
            && c'.task == c.task && c'.closingError == c.closingError && c'.timeout == c.timeout
            && c'.control == c.control.(timer := 0)
            && c'.data == Some(c.data.value.(timer := c.timeout))
  {
  }

  lemma ConfirmedKeeps(c: Ctx, r: FtpResponse)
    requires Inv(c) && HasTransfer(c) && PositiveCompletion(r.code)
    ensures Inv(PassReply(c, r))
  {
    var n := Heard(r, c.data.Some?, true);
    ConfirmationKeeps(c, n);
    var c1 := Record(c, c.task.value.id, n);
    var c' := OnControlDone(c1, c.task.value.id, r);
    assert PassReply(c, r) == c';
    ControlDoneSockets(c1, c.task.value.id, r);
  }

  lemma ControlDoneSockets(c: Ctx, id: nat, r: FtpResponse)
    ensures var c' := OnControlDone(c, id, r);
            && c'.closingError == c.closingError && c'.timeout == c.timeout
            && c'.control.listening == c.control.listening
            && ((c'.task == c.task && c'.data == c.data && c'.control == c.control)
                || (c'.task == None && c'.data == None && c'.control.timer == 0))
  {
  }

  lemma QuietReplyKeepsInv(c: Ctx, n: Note)
    requires Inv(c) && c.task.Some? && n.Heard? && SoundNote(n)
    requires HasTransfer(c) ==> !Announces(n.response.code) && !Confirms(n)
    requires !HasTransfer(c) ==> Decision(c.task.value.handler, n) == None
    ensures Inv(Record(c, c.task.value.id, n))
  {
    QuietReplyKeeps(c, n);
  }

  lemma SendKeepsInv(c: Ctx, command: string)
    requires Inv(c)
    ensures Inv(Send(c, command))
  {
    BaseFrame(c, Send(c, command));
  }

  lemma OtherReplyKeeps(c: Ctx, r: FtpResponse)
    requires Inv(c) && HasTransfer(c) && r.code < 400 && !Announces(r.code) && !PositiveCompletion(r.code)
    ensures Inv(PassReply(c, r))
  {
    var n := Heard(r, c.data.Some?, true);
    var h := c.task.value.handler;
    var c1 := Record(c, c.task.value.id, n);
    QuietReplyKeepsInv(c, n);
    assert PassReply(c, r) == HandleTransferReply(c1, c.task.value, r);
    if h.Download? && r.code == 350 {
      SendKeepsInv(c1, "RETR " + h.path);
    } else if PositiveIntermediate(r.code) {
      CloseKeepsInv(c1, UnexpectedRequest(r.message));
    }
  }

  lemma PlainReplyIs(c: Ctx, t: Task, r: FtpResponse, n: Note)
    requires !t.handler.IsTransfer() && n.Heard? && n.response == r
    ensures var o := Decision(t.handler, n);
            HandleReply(c, t, r) == if o.Some? then Settle(StopTrackingTask(c), t.id, o.value)
                                    else Send(c, "PASS " + t.handler.password)
  {
  }

  lemma PlainReplyKeeps(c: Ctx, r: FtpResponse)
    requires Inv(c) && c.task.Some? && !HasTransfer(c) && r.code < 400
    ensures Inv(PassReply(c, r))
  {
    var n := Heard(r, c.data.Some?, true);
    var t := c.task.value;
    var c1 := Record(c, t.id, n);
    var o := Decision(t.handler, n);
    PlainReplyIs(c1, t, r, n);
    assert PassReply(c, r) == HandleReply(c1, t, r);
    if o.Some? {
      SettlePlainKeeps(c, n, o.value);
    } else {
      QuietReplyKeepsInv(c, n);
      SendKeepsInv(c1, "PASS " + t.handler.password);
    }
  }

  lemma DeliverMessageKeeps(c: Ctx, message: string)
    requires Inv(c)
    ensures Inv(DeliverMessage(c, message))
  {
    var r := FtpResponse(Code(message), message);
    if r.code >= 400 {
      PassFailureKeeps(c, FtpError(r));
      PassFailureEnds(c, FtpError(r));
    } else if HasTransfer(c) {
      if Announces(r.code) {
        AnnouncementKeeps(c, r);
      } else if PositiveCompletion(r.code) {
        ConfirmedKeeps(c, r);
      } else {
        OtherReplyKeeps(c, r);
      }
    } else if c.task.Some? {
      PlainReplyKeeps(c, r);
    }
  }

  lemma {:induction false} DeliverAllKeeps(c: Ctx, messages: seq<string>)
    requires Inv(c)
    ensures Inv(DeliverAll(c, messages))
    decreases |messages|
  {
    if messages != [] {
      DeliverMessageKeeps(c, messages[0]);
      DeliverAllKeeps(DeliverMessage(c, messages[0]), messages[1..]);
    }
  }

  lemma CloseKeepsInv(c: Ctx, e: Error)
    requires Inv(c) && !e.FtpError?
    ensures Inv(CloseWithError(c, e))
  {
    CloseKeeps(c, e);
  }

  lemma ControlDataKeeps(c: Ctx, chunk: string)
    requires Inv(c)
    ensures Inv(OnControlData(c, chunk))
  {
    match Receive(c.partialResponse, chunk)
    case None => CloseKeepsInv(c, ResponseTooLarge);
    case Some(p) =>
      var c1 := c.(partialResponse := p.rest);
      BaseFrame(c, c1);
      DeliverAllKeeps(c1, p.messages);
  }

  // ---------------------------------------------------------------- launching tasks

  /** The state in which `handle` is entered: a data connection that no transfer owns yet is a fresh
      one for the transfer about to start. */
  ghost predicate MayHandle(c: Ctx, handler: Handler) {
    && Core(c)
    && (c.data.Some? && !HasTransfer(c) ==> handler.IsTransfer() && c.data.value.timer == 0)
    && (c.closingError.Some? ==> c.control.timer == 0)
  }

  lemma TrackKeeps(c: Ctx, handler: Handler)
    requires Base(c) && c.task == None
    ensures Base(Track(c, handler))
  {
    var c' := Track(c, handler);
    forall k: nat ensures Accounted(c', k) && Registered(c', k) && Silent(c', k) {
      assert Accounted(c, k) && Registered(c, k) && Silent(c, k);
    }
    forall k: nat ensures FaithfulPlain(c', k) {
      assert Accounted(c, k) && FaithfulPlain(c, k);
    }
    forall k | k in c'.transfers ensures Faithful(c', k) {
      assert Registered(c, k) && Accounted(c, k) && (k != c.next ==> Faithful(c, k));
    }
    assert Registered(c, c.next);
    if AnnouncedOnce(c') {
      forall k: nat ensures AtMostOneAnnouncement(c, k) {
        assert AtMostOneAnnouncement(c', k);
      }
    }
  }

  /** A launched command leaves the books in order if it is clean or nothing is sent. */
  lemma HandleKeeps(c: Ctx, handler: Handler, command: string)
    requires MayHandle(c, handler) && (Clean(command) || c.closingError.Some? || c.task.Some?)
    ensures Inv(Handle(c, handler, command))
  {
    var c1 := if c.task.Some? then CloseWithError(c, SecondTask) else c;
    if c.task.Some? {
      CloseKeeps(c, SecondTask);
      CloseKeepsDataTimer(c, SecondTask);
    }
    var c2 := Track(c1, handler);
    TrackKeeps(c1, handler);
    if c2.closingError.Some? {
      var e := ClientIsClosed(c2.closingError.value);
      PassFailureKeeps(c2, e);
      PassFailureEnds(c2, e);
    } else {
      BaseFrame(c2, Handle(c, handler, command));
    }
  }

  lemma CloseKeepsDataTimer(c: Ctx, e: Error)
    ensures var c' := CloseWithError(c, e);
            c'.data.Some? ==> c.data.Some? && c'.data.value.timer == c.data.value.timer
  {
    if c.closingError == None {
      PassFailureEnds(CloseData(CloseControl(c.(closingError := Some(e)))), e);
    }
  }

  lemma CallKeeps(c: Ctx, handler: Handler, command: string, connection: Option<bool>)
    requires Inv(c) && (connection.Some? ==> handler.IsTransfer())
    requires Clean(command) || c.closingError.Some? || c.task.Some?
    ensures Inv(Call(c, handler, command, connection))
  {
    var c1 := if connection.Some? then ConnectData(c, connection.value) else c;
    BaseFrame(c, c1);
    if !(handler.Download? && c1.data == None) {
      HandleKeeps(c1, handler, command);
    }
  }

  // ---------------------------------------------------------------- data connection events

  lemma {:induction false} StartPipelinesKeeps(c: Ctx, ids: seq<nat>)
    requires Books(c) && c.data.Some? && c.data.value.waiting == []
    requires ids != [] ==> HasTransfer(c) && forall i | 0 <= i < |ids| :: Pending(c, ids[i])
    requires ids == [] ==> Base(c)
    requires AnnouncedOnce(c) ==>
               |ids| <= 1 && (ids != [] ==> Ready(c) && Announcements(c.traces[c.task.value.id]) > 0)
    ensures var c' := StartPipelines(c, ids);
            && Base(c') && c'.task == c.task && c'.closingError == c.closingError && c'.timeout == c.timeout
            && c'.control.listening == c.control.listening && c'.data.Some?
            && (if ids == [] then c' == c
                else c'.control.timer == 0 && c'.data.value.timer == c.timeout)
    decreases |ids|
  {
    if ids != [] {
      StartPipelineKeeps(c);
      var c1 := StartPipeline(c, ids[0]);
      assert c1.data == Some(c.data.value.(timer := c.timeout));
      StartPipelinesKeeps(c1, ids[1..]);
    }
  }

  lemma SecureConnectKeeps(c: Ctx)
    requires Inv(c)
    ensures Inv(OnSecureConnect(c))
  {
    if c.data.Some? && c.data.value.listening && c.data.value.tls && !c.data.value.secure {
      var c1 := c.(data := Some(c.data.value.(secure := true, waiting := [])));
      BaseFrame(c, c1);
      BooksFrame(c, c1);
      if c.task.Some? { Tracked(c); }
      StartPipelinesKeeps(c1, c.data.value.waiting);
    }
  }

  /** The callback of a pipeline settles, or settles again, the promise of its transfer. */
  predicate SettlesOn(c: Ctx, id: nat, failure: Option<Error>) {
    failure.Some? || TransferOf(c, id).response.Some?
  }

  /** The tracked transfer is sending or receiving data. */
  predicate TransferringData(c: Ctx) {
    HasTransfer(c) && c.task.value.id in c.traces && InDataPhase(c.traces[c.task.value.id])
  }

  /** A callback in time for its transfer; or a late one that settles its promise again and finds no
      other task; or a late one that settles nothing: it arms the control socket and ends the poll,
      which is right without timeout or during another task that transfers no data. */
  predicate TimelyPipeline(c: Ctx, id: nat, failure: Option<Error>) {
    || Pending(c, id)
    || (SettlesOn(c, id, failure) && c.task == None)
    || (!SettlesOn(c, id, failure) && if c.task == None then c.timeout == 0 else !TransferringData(c))
  }

  lemma PipelineKeeps(c: Ctx, id: nat, failure: Option<Error>)
    requires Inv(c) && id in c.pipes && Pending(c, id)
    ensures Inv(OnPipeline(c, id, failure))
  {
    Tracked(c);
    assert Registered(c, id);
    var c0 := c.(pipes := c.pipes - multiset{id});
    BooksFrame(c, c0);
    var n := Piped(failure);
    match failure
    case Some(e) =>
      FailTransferKeeps(c0, n, e);
      assert OnPipeline(c, id, failure) == OnError(Record(c0, id, n), id, e);
    case None =>
      DataDoneKeeps(c0, n);
      var c1 := Record(c0, id, n);
      assert OnPipeline(c, id, failure) == OnDataDone(c1, id);
      DataDoneSockets(c1, id);
  }

  lemma DataDoneSockets(c: Ctx, id: nat)
    ensures var c' := OnDataDone(c, id);
            && c'.closingError == c.closingError && c'.timeout == c.timeout
            && c'.control.listening == c.control.listening
            && ((c'.task == c.task && c'.control.timer == c.timeout
                 && c'.data == (if c.data.Some? then Some(c.data.value.(timer := 0)) else None))
                || (c'.task == None && c'.data == None && c'.control.timer == 0))
  {
  }

  /** What a late callback does when its promise is settled again. */
  lemma LateCallbackIs(c: Ctx, id: nat, failure: Option<Error>)
    requires Inv(c) && id in c.pipes && !Pending(c, id) && SettlesOn(c, id, failure)
    ensures var c' := OnPipeline(c, id, failure);
            && c'.task == None && c'.control == c.control.(timer := 0) && c'.data == None
            && c'.outcomes == c.outcomes && c'.next == c.next && c'.traces == c.traces && c'.handlers == c.handlers
            && c'.closingError == c.closingError && c'.timeout == c.timeout
            && c'.pipes == c.pipes - multiset{id} && c'.progress == c.progress + [UpdateAndStop]
            && c'.transfers.Keys == c.transfers.Keys
            && (forall k | k in c.transfers && k != id :: c'.transfers[k] == c.transfers[k])
  {
    assert Registered(c, id) && Accounted(c, id);
    match failure
    case Some(_) =>
    case None =>
      assert TransferOf(c, id).response.Some?;
  }

  /** What a late callback does when it settles nothing. */
  lemma LateQuietIs(c: Ctx, id: nat, failure: Option<Error>)
    requires Inv(c) && id in c.pipes && !Pending(c, id) && !SettlesOn(c, id, failure)
    ensures id in c.transfers
    ensures OnPipeline(c, id, failure) ==
              c.(pipes := c.pipes - multiset{id}, progress := c.progress + [UpdateAndStop],
                 control := c.control.(timer := c.timeout),
                 data := if c.data.Some? then Some(c.data.value.(timer := 0)) else None,
                 transfers := c.transfers[id := c.transfers[id].(dataTransferDone := true)])
  {
    assert Registered(c, id) && Accounted(c, id);
  }

  lemma LatePipelineKeeps(c: Ctx, id: nat, failure: Option<Error>)
    requires Inv(c) && id in c.pipes && !Pending(c, id) && TimelyPipeline(c, id, failure)
    ensures Inv(OnPipeline(c, id, failure))
  {
    if SettlesOn(c, id, failure) {
      LateCallbackIs(c, id, failure);
    } else {
      LateQuietIs(c, id, failure);
    }
    var c' := OnPipeline(c, id, failure);
    BooksFrame(c, c');
    if AnnouncedOnce(c') {
      BracketedSnoc(c.progress, UpdateAndStop);
    }
  }

  // ---------------------------------------------------------------- runs

  predicate CleanHandler(h: Handler) {
    match h case Login(p) => Clean(p) case Download(p) => Clean(p) case _ => true
  }

  /** What the environment and the caller have to respect at each step: commands without control
      characters, data connections opened for transfers, timely pipeline callbacks, and no
      bare exchange of the control socket while a task is tracked. */
  predicate Timely(c: Ctx, e: Event) {
    match e
    case CallEvent(handler, command, connection) =>
      && (Clean(command) || c.closingError.Some? || c.task.Some?)
      && CleanHandler(handler)
      && (connection.Some? ==> handler.IsTransfer())
    case PipelineEnd(id, failure) => id in c.pipes ==> TimelyPipeline(c, id, failure)
    case NewSocket(_) => c.task == None || c.timeout == 0
    case _ => true
  }

  lemma SetSocketKeeps(c: Ctx, upgrade: bool)
    requires Core(c)
    ensures Core(SetSocket(c, upgrade))
  {
    BaseFrame(c, SetSocket(c, upgrade));
  }

  lemma UserCloseKeeps(c: Ctx)
    requires Inv(c)
    ensures Inv(Step(c, UserClose))
  {
    var e := UserClosed(c.task.Some?);
    CloseKeeps(c, e);
    var c1 := CloseWithError(c, e);
    var c' := CallProgress(c1, Stop);
    BooksFrame(c1, c');
    if AnnouncedOnce(c') {
      BracketedSnoc(c1.progress, Stop);
    }
  }

  lemma NewSocketKeeps(c: Ctx, upgrade: bool)
    requires Inv(c) && (c.task == None || c.timeout == 0)
    ensures Inv(SetSocket(c, upgrade))
  {
    SetSocketKeeps(c, upgrade);
  }

  lemma ReconnectKeeps(c: Ctx, samePort: bool)
    requires Inv(c)
    ensures Inv(Handle(SetSocket(c, samePort), Greeting, ""))
  {
    SetSocketKeeps(c, samePort);
    HandleKeeps(SetSocket(c, samePort), Greeting, "");
  }

  lemma AnyPipelineKeeps(c: Ctx, id: nat, failure: Option<Error>)
    requires Inv(c) && (id in c.pipes ==> TimelyPipeline(c, id, failure))
    ensures Inv(OnPipeline(c, id, failure))
  {
    if id in c.pipes {
      if Pending(c, id) {
        PipelineKeeps(c, id, failure);
      } else {
        LatePipelineKeeps(c, id, failure);
      }
    }
  }

  /** Every timely step keeps the invariants. */
  lemma StepKeeps(c: Ctx, e: Event)
    requires Inv(c) && Timely(c, e)
    ensures Inv(Step(c, e))
  {
    match e
    case CallEvent(handler, command, connection) => CallKeeps(c, handler, command, connection);
    case ControlData(chunk) => ControlDataKeeps(c, chunk);
    case SecureConnect => SecureConnectKeeps(c);
    case PipelineEnd(id, failure) => AnyPipelineKeeps(c, id, failure);
    case UserClose => UserCloseKeeps(c);
    case Reconnect(samePort) => ReconnectKeeps(c, samePort);
    case NewSocket(upgrade) => NewSocketKeeps(c, upgrade);
    case ControlSocketFailure(text) => CloseKeepsInv(c, External(text));
    case DataSocketFailure(text) => CloseKeepsInv(c, External(text));
    case StreamFailure(text) => CloseKeepsInv(c, External(text));
  }

  function Run(c: Ctx, events: seq<Event>): Ctx
    decreases |events|
  {
    if events == [] then c else Run(Step(c, events[0]), events[1..])
  }

  predicate TimelyRun(c: Ctx, events: seq<Event>)
    decreases |events|
  {
    events != [] ==> Timely(c, events[0]) && TimelyRun(Step(c, events[0]), events[1..])
  }

  lemma {:induction false} RunKeeps(c: Ctx, events: seq<Event>)
    requires Inv(c) && TimelyRun(c, events)
    ensures Inv(Run(c, events))
    decreases |events|
  {
    if events != [] {
      StepKeeps(c, events[0]);
      RunKeeps(Step(c, events[0]), events[1..]);
    }
  }

  /** The invariants hold at the end of every timely run of a new client. */
  lemma EveryRunIsSafe(timeout: nat, events: seq<Event>)
    requires TimelyRun(Init(timeout), events)
    ensures Inv(Run(Init(timeout), events))
  {
    RunKeeps(Init(timeout), events);
  }
}
