/** Model of downloading into a local file from a given position on: `_downloadToFile` of
    src/Client.ts with the exchange of REST and RETR in `downloadTo` of src/transfer.ts. */
module ResumableDownload {
  import opened ReplyParser
  import opened RemoteTree
  import opened Numbers
  import C = Connection
  import Replies = ConnectionReplies
  import Safety = ConnectionSafety

  /** One attempt as the client meets it: the remote path, whether the server answers REST with 350, the
      pieces of data that arrive before the transfer ends, and whether the transfer resolves. */
  datatype Attempt = Attempt(path: string, restAccepted: bool, chunks: seq<Bytes>, resolved: bool)

  /** The commands the client writes. */
  function Requests(startAt: nat, a: Attempt): seq<string> {
    if startAt == 0 then ["RETR " + a.path]
    else if a.restAccepted then ["REST " + Shown(startAt), "RETR " + a.path]
    else ["REST " + Shown(startAt)]
  }

  /** The position in a REST command, section 5.3 of RFC 3659. */
  function RestPosition(command: string): Option<nat> {
    if "REST " <= command && |command| > 5 && AllDigits(command[5..], 10) then Some(Value(command[5..])) else None
  }

  /** Where a server that honours REST begins to send after these commands; None if it sends nothing. */
  function BeginsAt(commands: seq<string>): Option<nat> {
    if commands == [] || !("RETR " <= commands[|commands| - 1]) then None
    else if |commands| > 1 && RestPosition(commands[|commands| - 2]).Some?
    then RestPosition(commands[|commands| - 2])
    else Some(0)
  }

  /** The server reads the position that the client means. */
  lemma RequestsBeginAtStart(startAt: nat, a: Attempt)
    ensures BeginsAt(Requests(startAt, a)) ==
              if startAt == 0 then Some(0) else if a.restAccepted then Some(startAt) else None
    ensures startAt > 0 ==> RestPosition(Requests(startAt, a)[0]) == Some(startAt)
  {
    PositionIsRead(startAt);
    assert ("RETR " + a.path)[..5] == "RETR ";
  }

  lemma PositionIsRead(startAt: nat)
    ensures RestPosition("REST " + Shown(startAt)) == Some(startAt)
    ensures !("RETR " <= "REST " + Shown(startAt))
  {
    ShownIsDecimal(startAt);
    var command := "REST " + Shown(startAt);
    assert command[..5] == "REST " && command[5..] == Shown(startAt) && command[2] == 'S';
  }

  function Drop(data: Bytes, n: nat): Bytes {
    if n <= |data| then data[n..] else []
  }

  function Concat(chunks: seq<Bytes>): Bytes {
    if chunks == [] then [] else chunks[0] + Concat(chunks[1..])
  }

  /** The server honours REST: what arrives is the file from the requested position on, cut anywhere and
      in any pieces; it only confirms a transfer of everything. */
  predicate Honest(remote: Bytes, startAt: nat, a: Attempt) {
    match BeginsAt(Requests(startAt, a))
    case None => Concat(a.chunks) == [] && !a.resolved
    case Some(n) =>
      && Concat(a.chunks) <= Drop(remote, n)
      && (a.resolved ==> Concat(a.chunks) == Drop(remote, n))
  }

  // ---------------------------------------------------------------- writing to a position

  function Zeros(n: nat): Bytes {
    seq(n, _ => 0)
  }

  /** One byte is written; a gap before it is filled with zeros. */
  function Put(file: Bytes, at: nat, b: Byte): Bytes {
    if at < |file| then file[at := b] else file + Zeros(at - |file|) + [b]
  }

  /** Writing data from a position on. */
  function Write(file: Bytes, at: nat, data: Bytes): Bytes
    decreases |data|
  {
    if data == [] then file else Write(Put(file, at, data[0]), at + 1, data[1..])
  }

  function WriteAll(file: Bytes, at: nat, chunks: seq<Bytes>): Bytes
    decreases |chunks|
  {
    if chunks == [] then file else WriteAll(Write(file, at, chunks[0]), at + |chunks[0]|, chunks[1..])
  }

  lemma {:induction false} WriteTwice(file: Bytes, at: nat, a: Bytes, b: Bytes)
    ensures Write(Write(file, at, a), at + |a|, b) == Write(file, at, a + b)
    decreases |a|
  {
    if a == [] {
      assert a + b == b;
    } else {
      assert (a + b)[1..] == a[1..] + b;
      WriteTwice(Put(file, at, a[0]), at + 1, a[1..], b);
    }
  }

  lemma WriteNext(file: Bytes, at: nat, chunks: seq<Bytes>, i: nat)
    requires i < |chunks|
    ensures WriteAll(file, at, chunks[i..]) == WriteAll(Write(file, at, chunks[i]), at + |chunks[i]|, chunks[i + 1..])
  {
    assert chunks[i..][1..] == chunks[i + 1..];
  }

  /** The pieces in which data arrives do not matter. */
  lemma {:induction false} PiecesDoNotMatter(file: Bytes, at: nat, chunks: seq<Bytes>)
    ensures WriteAll(file, at, chunks) == Write(file, at, Concat(chunks))
    decreases |chunks|
  {
    if chunks != [] {
      PiecesDoNotMatter(Write(file, at, chunks[0]), at + |chunks[0]|, chunks[1..]);
      WriteTwice(file, at, chunks[0], Concat(chunks[1..]));
    }
  }

  // ---------------------------------------------------------------- one attempt

  /** The local file after an attempt; None is no file. */
  function After(local: Option<Bytes>, startAt: nat, a: Attempt): Option<Bytes> {
    if startAt > 0 && local == None then None
    else
      var written := Write(if startAt > 0 then local.value else [], startAt, Concat(a.chunks));
      if !a.resolved && startAt == 0 && written == [] then None else Some(written)
  }

  /** A download from the start leaves what was written; if that is nothing and it failed, no file.  One
      from a later position leaves a file exactly if there was one. */
  lemma NoEmptyLeftover(local: Option<Bytes>, startAt: nat, a: Attempt)
    ensures startAt == 0 ==>
              After(local, startAt, a) == if !a.resolved && Concat(a.chunks) == [] then None else Some(Concat(a.chunks))
    ensures startAt > 0 ==> (After(local, startAt, a) == None <==> local == None)
  {
    var data, empty: Bytes := Concat(a.chunks), [];
    WriteToNothing(empty, data);
    assert empty + data == data;
  }

  lemma {:induction false} WriteToNothing(file: Bytes, data: Bytes)
    ensures Write(file, |file|, data) == file + data
    decreases |data|
  {
    if data != [] {
      assert Zeros(0) == [] && file + Zeros(|file| - |file|) + [data[0]] == file + [data[0]];
      WriteToNothing(file + [data[0]], data[1..]);
      assert file + [data[0]] + data[1..] == file + data;
    } else {
      assert file + data == file;
    }
  }

  class LocalFile {
    var content: Option<Bytes>

    constructor (content: Option<Bytes>)
      ensures this.content == content
    {
      this.content := content;
    }
  }

  /** The write stream: one chunk after the other, from a position on. */
  method WriteChunks(file: LocalFile, startAt: nat, chunks: seq<Bytes>)
    requires file.content.Some?
    modifies file
    ensures file.content == Some(Write(old(file.content.value), startAt, Concat(chunks)))
  {
    var position: nat := startAt;
    var i := 0;
    assert chunks[0..] == chunks;
    while i < |chunks|
      invariant 0 <= i <= |chunks| && file.content.Some?
      invariant WriteAll(file.content.value, position, chunks[i..]) == WriteAll(old(file.content.value), startAt, chunks)
    {
      WriteNext(file.content.value, position, chunks, i);
      file.content := Some(Write(file.content.value, position, chunks[i]));
      position := position + |chunks[i]|;
      i := i + 1;
    }
    PiecesDoNotMatter(old(file.content.value), startAt, chunks);
  }

  /** `_downloadToFile`: "r+" needs an existing file, "w" creates or empties it; after a failure a file
      without any data is removed. */
  method DownloadToFile(file: LocalFile, startAt: nat, a: Attempt) returns (ok: bool, requests: seq<string>)
    modifies file
    ensures file.content == After(old(file.content), startAt, a)
    ensures ok <==> a.resolved && (startAt > 0 ==> old(file.content).Some?)
    ensures requests == if startAt > 0 && old(file.content) == None then [] else Requests(startAt, a)
  {
    var appendingToLocalFile := startAt > 0;
    if appendingToLocalFile {
      if file.content == None {
        return false, [];
      }
    } else {
      file.content := Some([]);
    }
    requests := [if appendingToLocalFile then "REST " + Shown(startAt) else "RETR " + a.path];
    if appendingToLocalFile && a.restAccepted {
      requests := requests + ["RETR " + a.path];
    }
    WriteChunks(file, startAt, a.chunks);
    ok := a.resolved;
    if !ok {
      var hasDownloadedData := |file.content.value| > 0;
      if !appendingToLocalFile && !hasDownloadedData {
        file.content := None;
      }
    }
  }

  // ---------------------------------------------------------------- on the connection

  lemma ShownIsClean(n: nat)
    ensures C.Clean("REST " + Shown(n))
  {
    ShownIsDecimal(n);
  }

  /** The connection machine writes these commands for a download on a free, open context: the first one
      at once, and RETR after REST exactly if the server answers with 350.  The number after REST is the
      position. */
  lemma RequestsAreSent(c: C.Ctx, path: string, tls: bool, startAt: nat, message: string, c1: C.Ctx, c2: C.Ctx)
    requires c.task == None && c.closingError == None && C.Clean(path) && HasCode(message)
    requires c1 == C.Call(c, C.Download(path), Requests(startAt, Attempt(path, false, [], false))[0], Some(tls))
    requires c2 == C.DeliverMessage(c1, message)
    ensures c1.sent == c.sent + Requests(startAt, Attempt(path, false, [], false))
    ensures startAt > 0 ==> RestPosition(c1.sent[|c1.sent| - 1]) == Some(startAt)
    ensures startAt > 0 && message[..3] == "350" ==>
              c2.sent == c.sent + Requests(startAt, Attempt(path, true, [], false))
    ensures message[0] != '3' ==> c2.sent == c1.sent
  {
    var command := Requests(startAt, Attempt(path, false, [], false))[0];
    FirstRequest(startAt, path);
    CallSends(c, path, command, tls, c1);
    DownloadSends(c1, path, message, c2);
    if startAt > 0 { SecondRequest(startAt, path, c.sent); }
  }

  lemma FirstRequest(startAt: nat, path: string)
    requires C.Clean(path)
    ensures var first := Requests(startAt, Attempt(path, false, [], false));
            first == [first[0]] && C.Clean(first[0]) && first[0] != ""
            && (startAt > 0 ==> RestPosition(first[0]) == Some(startAt))
  {
    ShownIsClean(startAt);
    PositionIsRead(startAt);
    assert C.Clean("RETR " + path);
  }

  lemma SecondRequest(startAt: nat, path: string, sent: seq<string>)
    requires startAt > 0
    ensures sent + Requests(startAt, Attempt(path, true, [], false)) ==
            sent + [Requests(startAt, Attempt(path, false, [], false))[0]] + ["RETR " + path]
  {
  }

  lemma CallSends(c: C.Ctx, path: string, command: string, tls: bool, c1: C.Ctx)
    requires c.task == None && c.closingError == None && C.Clean(command) && command != ""
    requires c1 == C.Call(c, C.Download(path), command, Some(tls))
    ensures c1.sent == c.sent + [command] && c1.task.Some? && c1.task.value.handler == C.Download(path)
  {
    Replies.CommandIsWritten(C.ConnectData(c, tls), C.Download(path), command);
  }

  lemma DownloadSends(c: C.Ctx, path: string, message: string, c': C.Ctx)
    requires c.task.Some? && c.task.value.handler == C.Download(path) && C.Clean(path) && HasCode(message)
    requires c' == C.DeliverMessage(c, message)
    ensures message[..3] == "350" ==> c'.sent == c.sent + ["RETR " + path]
    ensures message[0] != '3' ==> c'.sent == c.sent
  {
    Replies.ClassIsFirstDigit(message);
    assert message[..3] == "350" ==> message[..3][0] == '3';
    assert C.Clean("RETR " + path);
    var r := C.FtpResponse(C.Code(message), message);
    if r.code >= 400 {
      FailureSendsNothing(c, C.FtpError(r));
    } else {
      var id := c.task.value.id;
      ReplySends(C.Record(c, id, C.Heard(r, c.data.Some?, c.closingError == None)), c.task.value, r);
    }
  }

  lemma FailureSendsNothing(c: C.Ctx, e: C.Error)
    ensures C.PassFailure(c, e).sent == c.sent
  {
    if c.task.Some? {
      var id := c.task.value.id;
      var n, o := Safety.PassFailureIs(c, e);
      SettlingSendsNothing(C.Record(c, id, n), id, e, o);
    }
  }

  lemma SettlingSendsNothing(c: C.Ctx, id: nat, e: C.Error, o: C.Outcome)
    ensures C.OnError(c, id, e).sent == c.sent && C.Settle(C.StopTrackingTask(c), id, o).sent == c.sent
  {
  }

  lemma ReplySends(c: C.Ctx, task: C.Task, r: C.FtpResponse)
    requires task.handler.Download?
    ensures var c' := C.HandleTransferReply(c, task, r);
            && (r.code == 350 ==> c' == C.Send(c, "RETR " + task.handler.path))
            && (!C.PositiveIntermediate(r.code) ==> c'.sent == c.sent)
  {
  }

  /** The local file is a part of the remote one from its start, or does not exist. */
  predicate IsPart(local: Option<Bytes>, remote: Bytes) {
    local.Some? ==> local.value <= remote
  }

  function Size(local: Option<Bytes>): nat {
    if local.Some? then |local.value| else 0
  }

  /** The data are the remote file's bytes from a position on. */
  predicate ComesFrom(data: Bytes, remote: Bytes, at: nat) {
    at + |data| <= |remote| && forall k | 0 <= k < |data| :: data[k] == remote[at + k]
  }

  lemma RestComesFrom(remote: Bytes, at: nat, data: Bytes)
    requires data <= Drop(remote, at) && data != []
    ensures ComesFrom(data, remote, at)
    ensures data == Drop(remote, at) ==> at + |data| == |remote|
  {
    forall k | 0 <= k < |data| ensures data[k] == remote[at + k] {
      assert data[k] == Drop(remote, at)[k];
    }
  }

  lemma PutPart(remote: Bytes, local: Bytes, at: nat)
    requires local <= remote && at <= |local| && at < |remote|
    ensures Put(local, at, remote[at]) <= remote
    ensures |Put(local, at, remote[at])| == if |local| > at then |local| else at + 1
  {
  }

  lemma {:induction false} WritePart(remote: Bytes, local: Bytes, at: nat, data: Bytes)
    requires local <= remote && at <= |local| && ComesFrom(data, remote, at)
    ensures Write(local, at, data) <= remote
    ensures |Write(local, at, data)| == if |local| > at + |data| then |local| else at + |data|
    decreases |data|
  {
    if data != [] {
      PutPart(remote, local, at);
      assert data[0] == remote[at];
      forall k | 0 <= k < |data[1..]| ensures data[1..][k] == remote[at + 1 + k] {
        assert data[1..][k] == data[k + 1];
      }
      WritePart(remote, Put(local, at, data[0]), at + 1, data[1..]);
    }
  }

  lemma PartIsWritten(remote: Bytes, local: Bytes, at: nat, data: Bytes)
    requires local <= remote && at <= |local| && data <= Drop(remote, at)
    ensures Write(local, at, data) <= remote && |Write(local, at, data)| >= |local|
    ensures data == Drop(remote, at) ==> Write(local, at, data) == remote
  {
    if data == [] {
      assert local == remote[..|local|];
      assert Drop(remote, at) == [] ==> |remote| <= at;
    } else {
      RestComesFrom(remote, at, data);
      WritePart(remote, local, at, data);
      var w := Write(local, at, data);
      assert w == remote[..|w|];
    }
  }

  /** An attempt that starts from any position within the local part leaves a part, and the whole file
      if it resolves; only an attempt from the start can make the file shorter. */
  lemma AttemptKeepsPart(remote: Bytes, local: Option<Bytes>, startAt: nat, a: Attempt)
    requires Honest(remote, startAt, a)
    requires startAt > 0 ==> IsPart(local, remote) && startAt <= Size(local)
    ensures IsPart(After(local, startAt, a), remote)
    ensures a.resolved ==> After(local, startAt, a) == Some(remote)
    ensures startAt > 0 ==> Size(After(local, startAt, a)) >= Size(local)
  {
    RequestsBeginAtStart(startAt, a);
    PartIsWritten(remote, if startAt > 0 then local.value else [], startAt, Concat(a.chunks));
  }

  // ---------------------------------------------------------------- any number of attempts

  /** Each attempt starts at the size of the local file. */
  function AfterAll(local: Option<Bytes>, attempts: seq<Attempt>): Option<Bytes>
    decreases |attempts|
  {
    if attempts == [] then local else AfterAll(After(local, Size(local), attempts[0]), attempts[1..])
  }

  predicate AllHonest(remote: Bytes, local: Option<Bytes>, attempts: seq<Attempt>)
    decreases |attempts|
  {
    attempts != [] ==>
      Honest(remote, Size(local), attempts[0])
      && AllHonest(remote, After(local, Size(local), attempts[0]), attempts[1..])
  }

  lemma {:induction false} ResumingKeepsPart(remote: Bytes, local: Option<Bytes>, attempts: seq<Attempt>)
    requires IsPart(local, remote) && AllHonest(remote, local, attempts)
    ensures IsPart(AfterAll(local, attempts), remote) && Size(AfterAll(local, attempts)) >= Size(local)
    decreases |attempts|
  {
    if attempts != [] {
      AttemptKeepsPart(remote, local, Size(local), attempts[0]);
      ResumingKeepsPart(remote, After(local, Size(local), attempts[0]), attempts[1..]);
    }
  }

  /** Nothing is missing any more after the `i`-th attempt has resolved. */
  lemma {:induction false} ResumingCompletes(remote: Bytes, local: Option<Bytes>, attempts: seq<Attempt>, i: nat)
    requires IsPart(local, remote) && AllHonest(remote, local, attempts)
    requires i < |attempts| && attempts[i].resolved
    ensures Size(AfterAll(local, attempts)) == |remote|
    ensures i == |attempts| - 1 ==> AfterAll(local, attempts) == Some(remote)
    decreases i
  {
    var next := After(local, Size(local), attempts[0]);
    AttemptKeepsPart(remote, local, Size(local), attempts[0]);
    if i > 0 {
      ResumingCompletes(remote, next, attempts[1..], i - 1);
    } else {
      ResumingKeepsPart(remote, next, attempts[1..]);
      PartIsNotLonger(AfterAll(next, attempts[1..]), remote);
    }
  }

  lemma PartIsNotLonger(local: Option<Bytes>, remote: Bytes)
    requires IsPart(local, remote)
    ensures Size(local) <= |remote|
  {
  }

  /** However many attempts are cut off wherever: the local file stays a part of the remote one and
      never shrinks, and once an attempt has resolved it is complete and stays so. */
  lemma ResumingNeverHarms(remote: Bytes, local: Option<Bytes>, attempts: seq<Attempt>)
    requires IsPart(local, remote) && AllHonest(remote, local, attempts)
    ensures IsPart(AfterAll(local, attempts), remote)
    ensures Size(AfterAll(local, attempts)) >= Size(local)
    ensures (exists i :: 0 <= i < |attempts| && attempts[i].resolved) ==> Size(AfterAll(local, attempts)) == |remote|
    ensures attempts != [] && attempts[|attempts| - 1].resolved ==> AfterAll(local, attempts) == Some(remote)
  {
    ResumingKeepsPart(remote, local, attempts);
    forall i | 0 <= i < |attempts| && attempts[i].resolved
      ensures Size(AfterAll(local, attempts)) == |remote|
      ensures i == |attempts| - 1 ==> AfterAll(local, attempts) == Some(remote)
    {
      ResumingCompletes(remote, local, attempts, i);
    }
  }

  // ---------------------------------------------------------------- any position

  /** A byte of a file; what lies behind its end counts as zero. */
  function ByteOf(file: Bytes, k: nat): Byte {
    if k < |file| then file[k] else 0
  }

  /** The file has the bytes of the remote one before a position. */
  predicate AgreesBefore(remote: Bytes, local: Bytes, at: nat)
    requires at <= |remote|
  {
    forall k | 0 <= k < at :: ByteOf(local, k) == remote[k]
  }

  /** What has to hold before a download from `startAt` so that it completes the file. */
  predicate CanComplete(remote: Bytes, local: Option<Bytes>, startAt: nat) {
    || startAt == 0
    || (&& local.Some?
        && if startAt >= |remote| then local.value == remote
           else |local.value| <= |remote| && AgreesBefore(remote, local.value, startAt))
  }

  lemma PutByte(file: Bytes, at: nat, b: Byte, k: nat)
    ensures |Put(file, at, b)| == if |file| > at then |file| else at + 1
    ensures ByteOf(Put(file, at, b), k) == if k == at then b else ByteOf(file, k)
  {
  }

  /** Size and bytes of a file after something was written. */
  lemma {:induction false} WrittenByte(file: Bytes, at: nat, data: Bytes, k: nat)
    ensures data != [] ==> |Write(file, at, data)| == if |file| > at + |data| then |file| else at + |data|
    ensures ByteOf(Write(file, at, data), k) == if at <= k < at + |data| then data[k - at] else ByteOf(file, k)
    decreases |data|
  {
    if data != [] {
      PutByte(file, at, data[0], k);
      WrittenByte(Put(file, at, data[0]), at + 1, data[1..], k);
    }
  }

  lemma WriteRest(remote: Bytes, local: Bytes, at: nat)
    requires at < |remote|
    ensures Write(local, at, remote[at..]) == remote <==> |local| <= |remote| && AgreesBefore(remote, local, at)
  {
    var w := Write(local, at, remote[at..]);
    WrittenByte(local, at, remote[at..], 0);
    forall k | 0 <= k < |remote| ensures ByteOf(w, k) == if k < at then ByteOf(local, k) else remote[k] {
      WrittenByte(local, at, remote[at..], k);
    }
    if w == remote {
      forall k | 0 <= k < at ensures ByteOf(local, k) == remote[k] {
        assert ByteOf(w, k) == remote[k];
      }
    }
    if |local| <= |remote| && AgreesBefore(remote, local, at) {
      forall k | 0 <= k < |remote| ensures w[k] == remote[k] {
        assert ByteOf(w, k) == w[k];
      }
    }
  }

  /** A download from any position that resolves completes the file exactly if the file agreed with the
      remote one before that position and was not longer.  A gap counts as zeros. */
  lemma CompletesExactly(remote: Bytes, local: Option<Bytes>, startAt: nat, a: Attempt)
    requires Honest(remote, startAt, a) && a.resolved
    ensures After(local, startAt, a) == Some(remote) <==> CanComplete(remote, local, startAt)
  {
    RequestsBeginAtStart(startAt, a);
    if startAt == 0 {
      AttemptKeepsPart(remote, local, startAt, a);
    } else if local.Some? && startAt < |remote| {
      WriteRest(remote, local.value, startAt);
    }
  }

  /** A local file that is no part of the remote one is completed to a wrong file, and the download
      resolves. */
  lemma WrongPartIsCompleted(remote: Bytes, local: Bytes, startAt: nat, path: string, a: Attempt)
    requires remote == [1, 2] && local == [3] && startAt == 1 && a == Attempt(path, true, [[2]], true)
    ensures Honest(remote, startAt, a) && After(Some(local), startAt, a) == Some([3, 2])
  {
    RequestsBeginAtStart(startAt, a);
    assert a.chunks[1..] == [] && Concat(a.chunks) == [2];
    assert Drop(remote, startAt) == [2];
    assert Write(local, 1, [2]) == Write(Put(local, 1, 2), 2, [2][1..]) && [2][1..] == [];
    assert Put(local, 1, 2) == [3, 2];
  }
}
