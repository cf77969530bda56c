/** Model of the two searches of src/Client.ts that remember what worked: `list` over the listing
    commands and `_enterFirstCompatibleMode` over the ways to open a passive data connection. */
module ListFallback {
  import opened ReplyParser

  const LIST_COMMANDS_DEFAULT := ["LIST -a", "LIST"]
  const LIST_COMMANDS_MLSD := ["MLSD", "LIST -a", "LIST"]

  datatype Mode = EPSV | PASV

  /** An FTPError or any other error. */
  datatype Failure = FtpFailure(code: nat) | OtherFailure(text: string)

  /** What the client does to the server: preparing a data connection or requesting a listing. */
  datatype Action = Prepare(mode: Mode) | Request(command: string, path: string)

  datatype Answer = Good(text: string) | Bad(failure: Failure)

  /** How the n-th action goes. */
  type World = nat -> Answer

  /** `mode` is None while `prepareTransfer` still is the search for a mode. */
  datatype State = State(log: seq<Action>, commands: seq<string>, mode: Option<Mode>)

  const STRATEGIES := [EPSV, PASV]
  const NO_STRATEGY := OtherFailure("None of the available transfer strategies work.")

  function Act(s: State, a: Action): State {
    s.(log := s.log + [a])
  }

  function Answered(s: State, world: World): Answer {
    world(|s.log|)
  }

  function Search(s: State, world: World, strategies: seq<Mode>): (State, Option<Failure>)
    decreases |strategies|
  {
    if strategies == [] then (s, Some(NO_STRATEGY))
    else
      var s1 := Act(s, Prepare(strategies[0]));
      if Answered(s, world).Good? then (s1.(mode := Some(strategies[0])), None)
      else Search(s1, world, strategies[1..])
  }

  /** `prepareTransfer` */
  function PrepareTransfer(s: State, world: World): (State, Option<Failure>) {
    if s.mode == None then Search(s, world, STRATEGIES)
    else (Act(s, Prepare(s.mode.value)), match Answered(s, world) case Good(_) => None case Bad(f) => Some(f))
  }

  /** The loop of `list` over the remaining candidates. */
  function TryCandidates(s: State, world: World, path: string, candidates: seq<string>, last: Failure): (State, Answer)
    decreases |candidates|
  {
    if candidates == [] then (s, Bad(last))
    else
      var (s1, failed) := PrepareTransfer(s, world);
      if failed.Some? then (s1, Bad(failed.value))
      else
        var s2 := Act(s1, Request(candidates[0], path));
        match Answered(s1, world)
        case Good(text) => (s2.(commands := [candidates[0]]), Good(text))
        case Bad(FtpFailure(code)) => TryCandidates(s2, world, path, candidates[1..], FtpFailure(code))
        case Bad(f) => (s2, Bad(f))
  }

  /** Without any candidate `list` throws `undefined`. */
  const NOTHING_TRIED := OtherFailure("")

  function ListOnce(s: State, world: World, path: string): (State, Answer) {
    TryCandidates(s, world, path, s.commands, NOTHING_TRIED)
  }

  /** The default search: EPSV, and PASV if that fails in whatever way. */
  lemma EpsvThenPasv(s: State, world: World)
    requires s.mode == None
    ensures var (s', failed) := PrepareTransfer(s, world);
            var n := |s.log|;
            if world(n).Good? then s' == s.(log := s.log + [Prepare(EPSV)], mode := Some(EPSV)) && failed == None
            else
              && s'.log == s.log + [Prepare(EPSV), Prepare(PASV)] && s'.commands == s.commands
              && (failed == None <==> world(n + 1).Good?)
              && s'.mode == (if world(n + 1).Good? then Some(PASV) else None)
  {
    assert STRATEGIES[1..] == [PASV] && [PASV][1..] == [];
    assert s.log + [Prepare(EPSV)] + [Prepare(PASV)] == s.log + [Prepare(EPSV), Prepare(PASV)];
  }

  class ListingClient {
    var log: seq<Action>
    var availableListCommands: seq<string>
    var mode: Option<Mode>
    const world: World

    function View(): State
      reads this
    {
      State(log, availableListCommands, mode)
    }

    constructor (world: World)
      ensures View() == State([], LIST_COMMANDS_DEFAULT, None) && this.world == world
    {
      log, availableListCommands, mode := [], LIST_COMMANDS_DEFAULT, None;
      this.world := world;
    }

    method Do(a: Action) returns (r: Answer)
      modifies this`log
      ensures View() == Act(old(View()), a) && r == Answered(old(View()), world)
    {
      r := world(|log|);
      log := log + [a];
    }

    /** `_enterFirstCompatibleMode`: the next strategy is tried whatever the error was. */
    method EnterFirstCompatibleMode() returns (failed: Option<Failure>)
      modifies this`log, this`mode
      ensures (View(), failed) == Search(old(View()), world, STRATEGIES)
    {
      var i := 0;
      assert STRATEGIES[0..] == STRATEGIES;
      while i < |STRATEGIES|
        invariant 0 <= i <= |STRATEGIES|
        invariant Search(View(), world, STRATEGIES[i..]) == Search(old(View()), world, STRATEGIES)
      {
        var strategy := STRATEGIES[i];
        var res := Do(Prepare(strategy));
        if res.Good? {
          mode := Some(strategy);
          return None;
        }
        i := i + 1;
      }
      failed := Some(NO_STRATEGY);
    }

    method CallPrepareTransfer() returns (failed: Option<Failure>)
      modifies this`log, this`mode
      ensures (View(), failed) == PrepareTransfer(old(View()), world)
    {
      if mode == None {
        failed := EnterFirstCompatibleMode();
      } else {
        var r := Do(Prepare(mode.value));
        failed := match r case Good(_) => None case Bad(f) => Some(f);
      }
    }

    /** `list` */
    method List(path: string) returns (r: Answer)
      modifies this
      ensures (View(), r) == ListOnce(old(View()), world, path)
    {
      var candidates := availableListCommands;
      var lastError := NOTHING_TRIED;
      var i := 0;
      assert candidates[0..] == candidates;
      while i < |candidates|
        invariant 0 <= i <= |candidates|
        invariant TryCandidates(View(), world, path, candidates[i..], lastError) == ListOnce(old(View()), world, path)
      {
        var candidate := candidates[i];
        var failed := CallPrepareTransfer();
        if failed.Some? {
          return Bad(failed.value);
        }
        r := Do(Request(candidate, path));
        match r {
          case Good(_) =>
            availableListCommands := [candidate];
            return;
          case Bad(FtpFailure(code)) => lastError := FtpFailure(code);
          case Bad(_) => return;
        }
        i := i + 1;
      }
      r := Bad(lastError);
    }

    /** `useDefaultSettings`, as far as it concerns listings. */
    method UseDefaultSettings(supportsMLSD: bool)
      modifies this`availableListCommands
      ensures View() == old(View()).(commands := (if supportsMLSD then ["MLSD"] else []) + ["LIST -a", "LIST"])
    {
      availableListCommands := if supportsMLSD then LIST_COMMANDS_MLSD else LIST_COMMANDS_DEFAULT;
    }
  }

  // ---------------------------------------------------------------- the search for a mode

  /** The first modes in order; all but the last one failed, or all. */
  predicate Tried(world: World, at: nat, strategies: seq<Mode>, tried: seq<Action>, allFailed: bool) {
    && |tried| <= |strategies|
    && forall i {:trigger tried[i]} | 0 <= i < |tried| ::
         tried[i] == Prepare(strategies[i]) && (i < |tried| - 1 || allFailed ==> world(at + i).Bad?)
  }

  lemma OneMoreTried(world: World, at: nat, strategies: seq<Mode>, rest: seq<Action>, allFailed: bool)
    requires strategies != [] && world(at).Bad? && Tried(world, at + 1, strategies[1..], rest, allFailed)
    ensures Tried(world, at, strategies, [Prepare(strategies[0])] + rest, allFailed)
  {
    var tried := [Prepare(strategies[0])] + rest;
    forall i | 0 <= i < |tried|
      ensures tried[i] == Prepare(strategies[i]) && (i < |tried| - 1 || allFailed ==> world(at + i).Bad?)
    {
      if i > 0 {
        assert tried[i] == rest[i - 1];
        assert at + 1 + (i - 1) == at + i;
      }
    }
  }

  /** Exactly the modes up to the first one that works are tried, in order; that one is remembered. */
  lemma {:induction false} SearchFindsFirst(s: State, world: World, strategies: seq<Mode>) returns (tried: seq<Action>)
    ensures var (s1, failed) := Search(s, world, strategies);
            && s1.log == s.log + tried && s1.commands == s.commands && |tried| <= |strategies|
            && Tried(world, |s.log|, strategies, tried, failed.Some?)
            && (failed == None ==> && tried != [] && world(|s1.log| - 1).Good?
                                   && s1.mode == Some(strategies[|tried| - 1]))
            && (failed.Some? ==> |tried| == |strategies| && failed.value == NO_STRATEGY && s1.mode == s.mode)
    decreases |strategies|
  {
    if strategies == [] {
      tried := [];
    } else {
      var s1 := Act(s, Prepare(strategies[0]));
      if Answered(s, world).Good? {
        tried := [Prepare(strategies[0])];
      } else {
        var rest := SearchFindsFirst(s1, world, strategies[1..]);
        tried := [Prepare(strategies[0])] + rest;
        OneMoreTried(world, |s.log|, strategies, rest, Search(s1, world, strategies[1..]).1.Some?);
        assert Search(s, world, strategies) == Search(s1, world, strategies[1..]);
        assert Search(s, world, strategies).0.log == s.log + tried;
      }
    }
  }

  /** Once a mode has been found no other one is used. */
  predicate OnlyMode(actions: seq<Action>, mode: Option<Mode>) {
    mode.Some? ==> forall i | 0 <= i < |actions| && actions[i].Prepare? :: actions[i].mode == mode.value
  }

  /** Preparing a data connection: some modes are tried, and the last one worked if there was no failure. */
  lemma Preparing(s: State, world: World) returns (tried: seq<Action>)
    ensures var (s1, failed) := PrepareTransfer(s, world);
            && s1.log == s.log + tried && tried != [] && s1.commands == s.commands
            && (forall i | 0 <= i < |tried| :: tried[i].Prepare?)
            && (s.mode.Some? ==> s1.mode == s.mode)
            && (failed == None ==> world(|s1.log| - 1).Good? && s1.mode.Some?)
            && (failed.Some? ==> failed.value == NO_STRATEGY || world(|s1.log| - 1) == Bad(failed.value))
  {
    if s.mode == None {
      tried := SearchFindsFirst(s, world, STRATEGIES);
    } else {
      tried := [Prepare(s.mode.value)];
    }
  }

  // ---------------------------------------------------------------- one listing

  function Requested(actions: seq<Action>): seq<string> {
    if actions == [] then []
    else Requested(actions[..|actions| - 1])
         + match actions[|actions| - 1] case Request(c, _) => [c] case Prepare(_) => []
  }

  /** Every listing is requested right after a data connection was prepared for it, and if anything
      comes after it, it was refused with an FTP error. */
  predicate Orderly(world: World, log: seq<Action>, from: nat) {
    forall n | from <= n < |log| && log[n].Request? :: InOrder(world, log, n)
  }

  predicate InOrder(world: World, log: seq<Action>, n: nat)
    requires n < |log|
  {
    && n > 0 && log[n - 1].Prepare? && world(n - 1).Good?
    && (n < |log| - 1 ==> Refused(world, n))
  }

  predicate Refused(world: World, n: nat) {
    world(n).Bad? && world(n).failure.FtpFailure?
  }

  lemma {:induction false} RequestedConcat(a: seq<Action>, b: seq<Action>)
    ensures Requested(a + b) == Requested(a) + Requested(b)
    decreases |b|
  {
    if b == [] {
      assert a + b == a;
    } else {
      assert (a + b)[..|a + b| - 1] == a + b[..|b| - 1];
      RequestedConcat(a, b[..|b| - 1]);
    }
  }

  lemma {:induction false} NothingRequested(actions: seq<Action>)
    requires forall i | 0 <= i < |actions| :: actions[i].Prepare?
    ensures Requested(actions) == []
  {
    if actions != [] {
      NothingRequested(actions[..|actions| - 1]);
    }
  }

  lemma RequestedLast(tried: seq<Action>, r: Action)
    requires (forall i | 0 <= i < |tried| :: tried[i].Prepare?) && r.Request?
    ensures Requested(tried + [r]) == [r.command]
  {
    NothingRequested(tried);
    assert (tried + [r])[..|tried|] == tried;
  }

  lemma PreparesInLog(log: seq<Action>, tried: seq<Action>)
    requires forall i | 0 <= i < |tried| :: tried[i].Prepare?
    ensures forall n | |log| <= n < |log + tried| :: (log + tried)[n].Prepare?
  {
    forall n | |log| <= n < |log + tried| ensures (log + tried)[n].Prepare? {
      assert (log + tried)[n] == tried[n - |log|];
    }
  }

  /** A request on a connection that was just prepared. */
  lemma OneRequest(world: World, log: seq<Action>, from: nat, r: Action)
    requires from < |log| && (forall n | from <= n < |log| :: log[n].Prepare?) && r.Request?
    requires world(|log| - 1).Good?
    ensures Orderly(world, log + [r], from)
  {
    assert (log + [r])[|log| - 1] == log[|log| - 1];
  }

  /** What is done after a refused request. */
  lemma OrderGoesOn(world: World, log: seq<Action>, more: seq<Action>, from: nat)
    requires from <= |log| && Orderly(world, log, from) && Orderly(world, log + more, |log|)
    requires log != [] && Refused(world, |log| - 1)
    ensures Orderly(world, log + more, from)
  {
    var all := log + more;
    forall n | from <= n < |all| && all[n].Request? ensures InOrder(world, all, n) {
      if n < |log| {
        assert InOrder(world, log, n);
      }
    }
  }

  /** The last action decides: a request that succeeds becomes the only candidate; after anything else
      the candidates are as before, and the last error is passed on. */
  predicate EndsWell(world: World, s: State, s1: State, added: seq<Action>, r: Answer, path: string,
                     candidates: seq<string>) {
    if r.Good? then
      && added != [] && added[|added| - 1].Request? && added[|added| - 1].path == path
      && |s1.log| > 0 && world(|s1.log| - 1) == r && s1.commands == [added[|added| - 1].command]
    else
      && s1.commands == s.commands
      && (candidates != [] ==>
            && added != [] && |s1.log| > 0
            && (if added[|added| - 1].Request?
                then world(|s1.log| - 1) == r && (r.failure.FtpFailure? ==> Requested(added) == candidates)
                else r.failure == NO_STRATEGY || world(|s1.log| - 1) == r))
  }

  predicate Prepared(world: World, s: State, s1: State, tried: seq<Action>) {
    && s1.log == s.log + tried && tried != [] && s1.commands == s.commands
    && (forall i | 0 <= i < |tried| :: tried[i].Prepare?)
    && world(|s1.log| - 1).Good?
  }

  lemma LastCandidate(world: World, s: State, s1: State, tried: seq<Action>, path: string, candidates: seq<string>)
    requires Prepared(world, s, s1, tried) && candidates != [] && !Refused(world, |s1.log|)
    ensures var request := Request(candidates[0], path);
            var s2, r := Act(s1, request), world(|s1.log|);
            && Orderly(world, s2.log, |s.log|) && Requested(tried + [request]) <= candidates
            && EndsWell(world, s, if r.Good? then s2.(commands := [candidates[0]]) else s2, tried + [request], r, path,
                        candidates)
  {
    PreparesInLog(s.log, tried);
    OneRequest(world, s1.log, |s.log|, Request(candidates[0], path));
    RequestedLast(tried, Request(candidates[0], path));
    EndsWithRequest(world, s, s1, tried, path, candidates);
  }

  lemma EndsWithRequest(world: World, s: State, s1: State, tried: seq<Action>, path: string, candidates: seq<string>)
    requires candidates != [] && s1.commands == s.commands && !Refused(world, |s1.log|)
    ensures var request := Request(candidates[0], path);
            var s2, r := Act(s1, request), world(|s1.log|);
            EndsWell(world, s, if r.Good? then s2.(commands := [candidates[0]]) else s2, tried + [request], r, path,
                     candidates)
  {
    var added := tried + [Request(candidates[0], path)];
    assert added[|added| - 1] == Request(candidates[0], path);
  }

  lemma NextCandidate(world: World, s: State, s1: State, tried: seq<Action>, path: string, candidates: seq<string>,
                      s3: State, more: seq<Action>, r: Answer)
    requires Prepared(world, s, s1, tried) && candidates != [] && Refused(world, |s1.log|)
    requires s3.log == s1.log + [Request(candidates[0], path)] + more
    requires Orderly(world, s3.log, |s1.log| + 1) && Requested(more) <= candidates[1..]
    requires EndsWell(world, Act(s1, Request(candidates[0], path)), s3, more, r, path, candidates[1..])
    requires |candidates| == 1 ==> more == [] && r == world(|s1.log|)
    ensures var added := tried + [Request(candidates[0], path)] + more;
            && s3.log == s.log + added && Orderly(world, s3.log, |s.log|) && Requested(added) <= candidates
            && EndsWell(world, s, s3, added, r, path, candidates)
  {
    var request := Request(candidates[0], path);
    PreparesInLog(s.log, tried);
    OneRequest(world, s1.log, |s.log|, request);
    OrderGoesOn(world, s1.log + [request], more, |s.log|);
    RequestedNext(tried, request, more, candidates);
    var added := tried + [request] + more;
    assert s3.log == s.log + added;
    assert more != [] ==> added[|added| - 1] == more[|more| - 1];
  }

  lemma RequestedNext(tried: seq<Action>, r: Action, more: seq<Action>, candidates: seq<string>)
    requires (forall i | 0 <= i < |tried| :: tried[i].Prepare?) && r.Request?
    requires candidates != [] && r.command == candidates[0] && Requested(more) <= candidates[1..]
    ensures Requested(tried + [r] + more) <= candidates
    ensures Requested(more) == candidates[1..] ==> Requested(tried + [r] + more) == candidates
  {
    RequestedLast(tried, r);
    RequestedConcat(tried + [r], more);
    assert candidates == [candidates[0]] + candidates[1..];
  }

  /** What trying candidates leaves behind: they are requested in order, each on a data connection of
      its own, until one is not refused with an FTP error. */
  lemma {:induction false} CandidatesInOrder(s: State, world: World, path: string, candidates: seq<string>, last: Failure)
    returns (added: seq<Action>)
    ensures var (s1, r) := TryCandidates(s, world, path, candidates, last);
            && s1.log == s.log + added && Orderly(world, s1.log, |s.log|) && Requested(added) <= candidates
            && (s.mode.Some? ==> s1.mode == s.mode)
            && EndsWell(world, s, s1, added, r, path, candidates) && (r.Good? ==> s1.mode.Some?)
            && (candidates == [] ==> r == Bad(last) && added == [])
    decreases |candidates|
  {
    if candidates == [] {
      added := [];
      return;
    }
    var (s1, failed) := PrepareTransfer(s, world);
    added := Preparing(s, world);
    if failed.Some? {
      PreparesInLog(s.log, added);
      NothingRequested(added);
      return;
    }
    var request := Request(candidates[0], path);
    if Refused(world, |s1.log|) {
      var failure := world(|s1.log|).failure;
      var more := CandidatesInOrder(Act(s1, request), world, path, candidates[1..], failure);
      var (s3, r) := TryCandidates(Act(s1, request), world, path, candidates[1..], failure);
      NextCandidate(world, s, s1, added, path, candidates, s3, more, r);
      added := added + [request] + more;
    } else {
      LastCandidate(world, s, s1, added, path, candidates);
      added := added + [request];
    }
  }

  /** With a known mode every data connection is prepared in that one. */
  lemma {:induction false} CandidatesUseMode(s: State, world: World, path: string, candidates: seq<string>, last: Failure)
    requires s.mode.Some?
    ensures var s1 := TryCandidates(s, world, path, candidates, last).0;
            && |s.log| <= |s1.log| && s1.log[..|s.log|] == s.log
            && forall n | |s.log| <= n < |s1.log| && s1.log[n].Prepare? :: s1.log[n].mode == s.mode.value
    decreases |candidates|
  {
    if candidates != [] && PrepareTransfer(s, world).1 == None {
      var s1 := PrepareTransfer(s, world).0;
      assert s1.log == s.log + [Prepare(s.mode.value)];
      if Refused(world, |s1.log|) {
        var s2 := Act(s1, Request(candidates[0], path));
        CandidatesUseMode(s2, world, path, candidates[1..], world(|s1.log|).failure);
        var s3 := TryCandidates(s2, world, path, candidates[1..], world(|s1.log|).failure).0;
        assert s3.log[..|s.log|] == s3.log[..|s2.log|][..|s.log|] == s.log;
        forall n | |s.log| <= n < |s2.log| && s3.log[n].Prepare? ensures s3.log[n].mode == s.mode.value {
          assert s3.log[n] == s3.log[..|s2.log|][n];
        }
      }
    }
  }

  /** `list`: what it does and what it leaves behind. */
  lemma ListMeans(s: State, world: World, path: string) returns (added: seq<Action>)
    ensures var (s1, r) := ListOnce(s, world, path);
            && s1.log == s.log + added && Orderly(world, s1.log, |s.log|) && Requested(added) <= s.commands
            && (s.mode.Some? ==> s1.mode == s.mode) && OnlyMode(added, s.mode)
            && EndsWell(world, s, s1, added, r, path, s.commands) && (r.Good? ==> s1.mode.Some?)
  {
    added := CandidatesInOrder(s, world, path, s.commands, NOTHING_TRIED);
    if s.mode.Some? {
      CandidatesUseMode(s, world, path, s.commands, NOTHING_TRIED);
      assert forall i | 0 <= i < |added| :: added[i] == ListOnce(s, world, path).0.log[|s.log| + i];
    }
  }

  // ---------------------------------------------------------------- many listings

  function ListAll(s: State, world: World, paths: seq<string>): State
    decreases |paths|
  {
    if paths == [] then s else ListAll(ListOnce(s, world, paths[0]).0, world, paths[1..])
  }

  /** Once one command is left, every listing is requested with it. */
  lemma {:induction false} OnlyCommandSticks(s: State, world: World, c: string, paths: seq<string>)
    returns (added: seq<Action>)
    requires s.commands == [c]
    ensures var s1 := ListAll(s, world, paths);
            && s1.commands == [c] && s1.log == s.log + added && OnlyMode(added, s.mode)
            && forall i | 0 <= i < |added| && added[i].Request? :: added[i].command == c
    decreases |paths|
  {
    if paths == [] {
      added := [];
    } else {
      var first := ListMeans(s, world, paths[0]);
      OnlyOneRequested(first, c);
      var s1 := ListOnce(s, world, paths[0]).0;
      var rest := OnlyCommandSticks(s1, world, c, paths[1..]);
      added := first + rest;
    }
  }

  lemma {:induction false} OnlyOneRequested(actions: seq<Action>, c: string)
    requires Requested(actions) <= [c]
    ensures forall i | 0 <= i < |actions| && actions[i].Request? :: actions[i].command == c
  {
    if actions != [] {
      var before, a := actions[..|actions| - 1], actions[|actions| - 1];
      assert actions == before + [a];
      assert Requested(before) <= Requested(actions) <= [c];
      OnlyOneRequested(before, c);
      if a.Request? {
        assert Requested(actions)[|Requested(actions)| - 1] == a.command;
      }
    }
  }

  /** After the first listing that succeeds, its command is the only one ever requested - until
      `useDefaultSettings` puts the candidates back - and one mode is used for all data connections. */
  lemma FirstSuccessSticks(s: State, world: World, path: string, paths: seq<string>) returns (added: seq<Action>)
    requires ListOnce(s, world, path).1.Good?
    ensures var s1 := ListOnce(s, world, path).0;
            var s2 := ListAll(s1, world, paths);
            && s1.log != [] && s1.log[|s1.log| - 1].Request?
            && var c := s1.log[|s1.log| - 1].command;
               && c in s.commands && s1.commands == s2.commands == [c] && s2.log == s1.log + added
               && s1.mode.Some? && OnlyMode(added, s1.mode)
               && forall i | 0 <= i < |added| && added[i].Request? :: added[i].command == c
  {
    var first := ListMeans(s, world, path);
    var s1 := ListOnce(s, world, path).0;
    var c := first[|first| - 1].command;
    assert first == first[..|first| - 1] + [first[|first| - 1]];
    assert Requested(first) == Requested(first[..|first| - 1]) + [c];
    assert c == s.commands[|Requested(first)| - 1];
    assert s1.log[|s1.log| - 1] == first[|first| - 1];
    added := OnlyCommandSticks(s1, world, c, paths);
  }
}
