/** Model of src/ProgressTracker.ts: counting the bytes of transfers by polls that tick whenever the
    timer pleases. */
module Progress {
  import opened ReplyParser
  import C = Connection
  import Safety = ConnectionSafety

  /** What `poll` keeps for one transfer: the bytes last seen, whether its interval is set, and whether
      its update function has not been replaced yet. */
  datatype Poll = Poll(lastBytes: int, ticking: bool, live: bool)

  /** `onStop` tells whose stop function the tracker holds, if any. */
  datatype Tracker = Tracker(bytesOverall: int, polls: seq<Poll>, onStop: Option<nat>)

  const IDLE := Tracker(0, [], None)

  /** Calls on the tracker and elapsing intervals.  `bytes` is what the socket has counted by then. */
  datatype Event =
    | Start(bytes: int)
    | Tick(poll: nat, bytes: int)
    | UpdateAndStop(bytes: int)
    | Stop
    | Reset

  function Update(t: Tracker, i: nat, bytes: int): Tracker {
    if i < |t.polls| && t.polls[i].live
    then t.(bytesOverall := t.bytesOverall + bytes - t.polls[i].lastBytes,
            polls := t.polls[i := t.polls[i].(lastBytes := bytes)])
    else t
  }

  function Halt(t: Tracker, i: nat): Tracker {
    if i < |t.polls| then t.(polls := t.polls[i := t.polls[i].(ticking := false, live := false)]) else t
  }

  function Step(t: Tracker, e: Event): Tracker {
    match e
    case Start(bytes) =>
      Update(t.(polls := t.polls + [Poll(0, true, true)], onStop := Some(|t.polls|)), |t.polls|, bytes)
    case Tick(i, bytes) => if i < |t.polls| && t.polls[i].ticking then Update(t, i, bytes) else t
    case UpdateAndStop(bytes) =>
      if t.onStop.Some? then Halt(Update(t, t.onStop.value, bytes), t.onStop.value) else t
    case Stop => if t.onStop.Some? then Halt(t, t.onStop.value) else t
    case Reset => t.(bytesOverall := 0)
  }

  function Run(t: Tracker, events: seq<Event>): Tracker
    decreases |events|
  {
    if events == [] then t else Run(Step(t, events[0]), events[1..])
  }

  // ---------------------------------------------------------------- every schedule

  /** Sum of what all polls have seen last. */
  function Seen(polls: seq<Poll>): int {
    if polls == [] then 0 else Seen(polls[..|polls| - 1]) + polls[|polls| - 1].lastBytes
  }

  lemma {:induction false} SeenAfterUpdate(polls: seq<Poll>, i: nat, p: Poll)
    requires i < |polls|
    ensures Seen(polls[i := p]) == Seen(polls) + p.lastBytes - polls[i].lastBytes
  {
    var n := |polls| - 1;
    if i < n {
      SeenAfterUpdate(polls[..n], i, p);
      assert polls[i := p][..n] == polls[..n][i := p];
    } else {
      assert polls[i := p][..n] == polls[..n];
    }
  }

  lemma StepConserves(t: Tracker, e: Event)
    requires e != Reset
    ensures Step(t, e).bytesOverall - Seen(Step(t, e).polls) == t.bytesOverall - Seen(t.polls)
  {
    match e
    case Start(bytes) =>
      var polls := t.polls + [Poll(0, true, true)];
      assert polls[..|polls| - 1] == t.polls;
      SeenAfterUpdate(polls, |t.polls|, Poll(bytes, true, true));
    case Tick(i, bytes) =>
      if i < |t.polls| { SeenAfterUpdate(t.polls, i, t.polls[i].(lastBytes := bytes)); }
    case UpdateAndStop(bytes) =>
      if t.onStop.Some? && t.onStop.value < |t.polls| {
        var i := t.onStop.value;
        SeenAfterUpdate(t.polls, i, t.polls[i].(lastBytes := bytes));
        var u := Update(t, i, bytes);
        SeenAfterUpdate(u.polls, i, u.polls[i].(ticking := false, live := false));
      }
    case Stop =>
      if t.onStop.Some? && t.onStop.value < |t.polls| {
        var i := t.onStop.value;
        SeenAfterUpdate(t.polls, i, t.polls[i].(ticking := false, live := false));
      }
  }

  lemma {:induction false} RunConserves(t: Tracker, events: seq<Event>)
    requires Reset !in events
    ensures Run(t, events).bytesOverall - Seen(Run(t, events).polls) == t.bytesOverall - Seen(t.polls)
    decreases |events|
  {
    if events != [] {
      StepConserves(t, events[0]);
      RunConserves(Step(t, events[0]), events[1..]);
    }
  }

  /** Whatever the schedule, and even if polls overlap: since the last reset the counter has grown by
      exactly what the polls have seen more than at the reset. */
  lemma CountedSinceReset(t: Tracker, before: seq<Event>, after: seq<Event>)
    requires Reset !in after
    ensures var atReset, now := Run(t, before), Run(t, before + [Reset] + after);
            now.bytesOverall == Seen(now.polls) - Seen(atReset.polls)
  {
    RunConcat(t, before, [Reset] + after);
    assert before + ([Reset] + after) == before + [Reset] + after;
    var atReset := Run(t, before);
    assert ([Reset] + after)[1..] == after;
    RunConserves(atReset.(bytesOverall := 0), after);
  }

  lemma {:induction false} RunConcat(t: Tracker, a: seq<Event>, b: seq<Event>)
    ensures Run(t, a + b) == Run(Run(t, a), b)
    decreases |a|
  {
    if a == [] {
      assert a + b == b;
    } else {
      assert (a + b)[1..] == a[1..] + b;
      RunConcat(Step(t, a[0]), a[1..], b);
    }
  }

  // ---------------------------------------------------------------- one transfer at a time

  predicate RunningAfter(e: Event, running: bool) {
    if e.Start? then true else if e.UpdateAndStop? || e.Stop? then false else running
  }

  predicate Running(events: seq<Event>, running: bool)
    decreases |events|
  {
    if events == [] then running else Running(events[1..], RunningAfter(events[0], running))
  }

  /** Every poll that is started ends with a last update before anything else is called. */
  predicate OneByOne(events: seq<Event>, running: bool)
    decreases |events|
  {
    events == [] ||
    match events[0]
    case Start(_) => !running && OneByOne(events[1..], true)
    case UpdateAndStop(_) => OneByOne(events[1..], false)
    case Stop => !running && OneByOne(events[1..], false)
    case Tick(_, _) | Reset => OneByOne(events[1..], running)
  }

  /** Sum of the byte counts at the end of each transfer; ticks do not matter. */
  function FinalCounts(events: seq<Event>, running: bool): int
    decreases |events|
  {
    if events == [] then 0
    else
      match events[0]
      case Start(_) => FinalCounts(events[1..], true)
      case UpdateAndStop(bytes) => (if running then bytes else 0) + FinalCounts(events[1..], false)
      case Stop => FinalCounts(events[1..], false)
      case _ => FinalCounts(events[1..], running)
  }

  /** At most one poll can update, the one the tracker can stop. */
  predicate AtMostOneLive(t: Tracker, running: bool) {
    && (forall i | 0 <= i < |t.polls| :: t.polls[i].live == t.polls[i].ticking)
    && (forall i | 0 <= i < |t.polls| && t.polls[i].live :: running && t.onStop == Some(i))
    && (running ==> t.onStop.Some? && t.onStop.value < |t.polls| && t.polls[t.onStop.value].live)
  }

  /** Bytes seen by the running poll. */
  function InFlight(t: Tracker, running: bool): int
    requires AtMostOneLive(t, running)
  {
    if running then t.polls[t.onStop.value].lastBytes else 0
  }

  lemma {:induction false} EachCountedOnce(t: Tracker, events: seq<Event>, running: bool)
    requires AtMostOneLive(t, running) && OneByOne(events, running) && Reset !in events
    ensures var t', running' := Run(t, events), Running(events, running);
            && AtMostOneLive(t', running')
            && t'.bytesOverall - InFlight(t', running')
               == t.bytesOverall - InFlight(t, running) + FinalCounts(events, running)
    decreases |events|
  {
    if events != [] {
      OneStepCounted(t, events[0], running);
      EachCountedOnce(Step(t, events[0]), events[1..], RunningAfter(events[0], running));
    }
  }

  lemma OneStepCounted(t: Tracker, e: Event, running: bool)
    requires AtMostOneLive(t, running) && e != Reset && ((e.Start? || e.Stop?) ==> !running)
    ensures var t1 := Step(t, e);
            var running1 := RunningAfter(e, running);
            && AtMostOneLive(t1, running1)
            && t1.bytesOverall - InFlight(t1, running1) ==
               t.bytesOverall - InFlight(t, running) + if e.UpdateAndStop? && running then e.bytes else 0
  {
  }

  lemma {:induction false} StaysOneLive(t: Tracker, events: seq<Event>, running: bool)
    requires AtMostOneLive(t, running) && OneByOne(events, running)
    ensures AtMostOneLive(Run(t, events), Running(events, running))
    decreases |events|
  {
    if events != [] {
      if events[0] != Reset {
        OneStepCounted(t, events[0], running);
      }
      StaysOneLive(Step(t, events[0]), events[1..], RunningAfter(events[0], running));
    }
  }

  lemma {:induction false} OneByOneConcat(a: seq<Event>, b: seq<Event>, running: bool)
    requires OneByOne(a + b, running)
    ensures OneByOne(a, running) && OneByOne(b, Running(a, running))
    ensures Running(a + b, running) == Running(b, Running(a, running))
    decreases |a|
  {
    if a == [] {
      assert a + b == b;
    } else {
      assert (a + b)[0] == a[0] && (a + b)[1..] == a[1..] + b;
      OneByOneConcat(a[1..], b, RunningAfter(a[0], running));
    }
  }

  lemma GrowsByFinalCounts(before: seq<Event>, after: seq<Event>)
    requires OneByOne(before + after, false) && Reset !in after
    ensures var running, running' := Running(before, false), Running(before + after, false);
            var start, now := Run(IDLE, before), Run(IDLE, before + after);
            && AtMostOneLive(start, running) && AtMostOneLive(now, running')
            && now.bytesOverall - InFlight(now, running')
               == start.bytesOverall - InFlight(start, running) + FinalCounts(after, running)
  {
    OneByOneConcat(before, after, false);
    StaysOneLive(IDLE, before, false);
    EachCountedOnce(Run(IDLE, before), after, Running(before, false));
    RunConcat(IDLE, before, after);
  }

  lemma {:induction false} StartsAtZero(before: seq<Event>)
    requires before == [] || before[|before| - 1] == Reset
    ensures Run(IDLE, before).bytesOverall == 0
  {
    if before != [] {
      var earlier := before[..|before| - 1];
      assert before == earlier + [Reset];
      RunConcat(IDLE, earlier, [Reset]);
    }
  }

  // ---------------------------------------------------------------- together with the connection

  function CallOf(e: Event): seq<C.ProgressCall> {
    match e
    case Start(_) => [C.Start]
    case UpdateAndStop(_) => [C.UpdateAndStop]
    case Stop => [C.Stop]
    case _ => []
  }

  /** The calls that a sequence of events makes on the tracker. */
  function Calls(events: seq<Event>): seq<C.ProgressCall>
    decreases |events|
  {
    if events == [] then [] else CallOf(events[0]) + Calls(events[1..])
  }

  lemma {:induction false} BracketedIsOneByOne(events: seq<Event>, before: seq<C.ProgressCall>)
    requires Safety.Bracketed(before + Calls(events))
    ensures OneByOne(events, Safety.Polling(before))
    ensures Running(events, Safety.Polling(before)) == Safety.Polling(before + Calls(events))
    decreases |events|
  {
    if events == [] {
      assert before + [] == before;
    } else {
      var calls := CallOf(events[0]);
      assert before + Calls(events) == (before + calls) + Calls(events[1..]);
      if calls == [] {
        assert before + calls == before;
      } else if Safety.Polling(before) {
        NextCall(before, calls[0], Calls(events[1..]));
      }
      BracketedIsOneByOne(events[1..], before + calls);
    }
  }

  lemma OneByOneRuns(c: C.Ctx, events: seq<Event>)
    requires Safety.Bracketed(c.progress) && Calls(events) == c.progress
    ensures OneByOne(events, false) && Running(events, false) == Safety.Polling(c.progress)
  {
    assert [] + Calls(events) == Calls(events);
    BracketedIsOneByOne(events, []);
  }

  lemma NextCall(before: seq<C.ProgressCall>, call: C.ProgressCall, more: seq<C.ProgressCall>)
    requires Safety.Bracketed(before + [call] + more) && Safety.Polling(before)
    ensures call == C.UpdateAndStop
  {
    var all := before + [call] + more;
    assert all[|before| - 1] == before[|before| - 1] && all[|before|] == call;
  }

  /** Take any run of a client in which no transfer is announced twice, with intervals that elapse and
      `trackProgress` resetting the counter at any moments in between.  From any of those moments on
      and until the next reset, the counter grows by the sum of the byte counts that the transfers'
      sockets had at their ends, but for the bytes of a running transfer seen at the two moments.  It
      starts from zero at the beginning and at each reset. */
  lemma TransfersAreCountedOnce(timeout: nat, run: seq<C.Event>, before: seq<Event>, after: seq<Event>)
    requires Safety.TimelyRun(C.Init(timeout), run)
    requires var c := Safety.Run(C.Init(timeout), run);
             Safety.AnnouncedOnce(c) && Calls(before + after) == c.progress
    requires Reset !in after
    ensures var running := Running(before, false);
            var running' := Safety.Polling(Safety.Run(C.Init(timeout), run).progress);
            var start, now := Run(IDLE, before), Run(IDLE, before + after);
            && AtMostOneLive(start, running) && AtMostOneLive(now, running')
            && now.bytesOverall - InFlight(now, running')
               == start.bytesOverall - InFlight(start, running) + FinalCounts(after, running)
    ensures before == [] || before[|before| - 1] == Reset ==> Run(IDLE, before).bytesOverall == 0
  {
    Safety.EveryRunIsSafe(timeout, run);
    OneByOneRuns(Safety.Run(C.Init(timeout), run), before + after);
    GrowsByFinalCounts(before, after);
    if before == [] || before[|before| - 1] == Reset {
      StartsAtZero(before);
    }
  }

  // ---------------------------------------------------------------- objects

  /** The variables that `start` and `poll` share with their closures. */
  class Polling {
    var lastBytes: int
    var ticking: bool
    var live: bool

    constructor ()
      ensures lastBytes == 0 && ticking && live
    {
      lastBytes, ticking, live := 0, true, true;
    }

    function View(): Poll
      reads this
    {
      Poll(lastBytes, ticking, live)
    }
  }

  class ProgressTracker {
    var bytesOverall: int
    var onStop: Polling?
    /** All polls ever started, and the place of `onStop` among them. */
    ghost var polls: seq<Polling>
    ghost var place: Option<nat>

    ghost predicate Valid()
      reads this
    {
      && (forall i, j | 0 <= i < j < |polls| :: polls[i] != polls[j])
      && (if place == None then onStop == null else place.value < |polls| && onStop == polls[place.value])
    }

    ghost function View(): Tracker
      reads this, polls
    {
      Tracker(bytesOverall, PollViews(polls), place)
    }

    constructor ()
      ensures Valid() && View() == IDLE && polls == []
    {
      bytesOverall, onStop, polls, place := 0, null, [], None;
    }

    /** The update function made by `start`. */
    method UpdateFunc(poll: Polling, bytes: int, ghost i: nat)
      requires Valid() && i < |polls| && polls[i] == poll
      modifies this`bytesOverall, poll`lastBytes
      ensures Valid() && View() == Update(old(View()), i, bytes)
    {
      if poll.live {
        bytesOverall := bytesOverall + bytes - poll.lastBytes;
        poll.lastBytes := bytes;
      }
      ViewsUpdated(polls, old(PollViews(polls)), i);
    }

    method Start(bytes: int)
      requires Valid()
      modifies this
      ensures Valid() && View() == Step(old(View()), Event.Start(bytes))
      ensures fresh(onStop) && polls == old(polls) + [onStop]
    {
      ghost var before := PollViews(polls);
      var poll := new Polling();
      polls := polls + [poll];
      onStop, place := poll, Some(|polls| - 1);
      assert PollViews(polls) == before + [Poll(0, true, true)] by {
        SameViews(polls, before + [Poll(0, true, true)]);
      }
      UpdateFunc(poll, bytes, |polls| - 1);
    }

    /** The interval of a poll elapses. */
    method Tick(poll: Polling, bytes: int, ghost i: nat)
      requires Valid() && i < |polls| && polls[i] == poll
      modifies this`bytesOverall, poll`lastBytes
      ensures Valid() && View() == Step(old(View()), Event.Tick(i, bytes))
    {
      if poll.ticking {
        UpdateFunc(poll, bytes, i);
      }
    }

    /** `stopFunc` */
    method Halt(withUpdate: bool, bytes: int)
      requires Valid()
      modifies this`bytesOverall, onStop
      ensures Valid()
      ensures View() == Step(old(View()), if withUpdate then Event.UpdateAndStop(bytes) else Event.Stop)
    {
      if onStop != null {
        ghost var i := place.value;
        if withUpdate {
          UpdateFunc(onStop, bytes, i);
        }
        ghost var updated := PollViews(polls);
        onStop.ticking := false;
        onStop.live := false;
        ViewsUpdated(polls, updated, i);
      }
    }

    method Stop()
      requires Valid()
      modifies this`bytesOverall, onStop
      ensures Valid() && View() == Step(old(View()), Event.Stop)
    {
      Halt(false, 0);
    }

    method UpdateAndStop(bytes: int)
      requires Valid()
      modifies this`bytesOverall, onStop
      ensures Valid() && View() == Step(old(View()), Event.UpdateAndStop(bytes))
    {
      Halt(true, bytes);
    }

    /** `trackProgress`, without the handler. */
    method Reset()
      requires Valid()
      modifies this`bytesOverall
      ensures Valid() && View() == Step(old(View()), Event.Reset)
    {
      bytesOverall := 0;
    }
  }

  ghost function PollViews(polls: seq<Polling>): (views: seq<Poll>)
    reads polls
    ensures |views| == |polls| && forall i | 0 <= i < |polls| :: views[i] == polls[i].View()
  {
    seq(|polls|, i requires 0 <= i < |polls| reads polls => polls[i].View())
  }

  lemma SameViews(polls: seq<Polling>, views: seq<Poll>)
    requires |polls| == |views| && forall i | 0 <= i < |polls| :: polls[i].View() == views[i]
    ensures PollViews(polls) == views
  {
  }

  lemma ViewsUpdated(polls: seq<Polling>, before: seq<Poll>, i: nat)
    requires i < |polls| == |before|
    requires forall k | 0 <= k < |polls| && k != i :: polls[k].View() == before[k]
    ensures PollViews(polls) == before[i := polls[i].View()]
  {
  }
}
