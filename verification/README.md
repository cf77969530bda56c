# basic-ftp: a verified model of the client

This project models the parts of the FTP client library basic-ftp in which state, order and failure
matter, and proves what they guarantee. `dafny verify dfyconfig.toml` checks everything.

Where the source updates objects in place there is a class whose methods are proved to compute a
specification function on its fields; the properties of whole runs are lemmas about those functions.

| files | subject |
|---|---|
| `ReplyParser.dfy`, `ReplyStream.dfy`, `ReplyWitnesses.dfy` | the line automaton for control replies; the grammar it accepts; at which cuts of the stream the stored remainder may be parsed again, and streams for which it may not |
| `Connection.dfy`, `ConnectionSafety.dfy`, `ConnectionTheorems.dfy`, `ConnectionWitnesses.dfy` | control and data connection as one event-driven state machine with its invariants over all runs, and runs that reach the states where a step breaks one |
| `ConnectionReplies.dfy` | what every kind of task makes of the server's replies, from the text of a reply on, and what the client writes and starts at each event |
| `FtpContext.dfy`, `FtpContextRuns.dfy` | the classes `FtpContext` and `TransferResolver` that implement the steps of the machine, driven through whole runs |
| `RemoteTree.dfy`, `TreeChanges.dfy`, `DirectoryClient.dfy` | recursive removal, upload and download of directories by commands, any of which may fail |
| `Numbers.dfy`, `MlsxDate.dfy`, `Mlsd.dfy`, `MlsdOrder.dfy`, `MlsdWire.dfy`, `MlsdListing.dfy` | MLSD facts, times and symbolic links; a printer for entries, and that they are read back |
| `Progress.dfy` | progress counting under any timer schedule, tied to the connection machine |
| `ResumableDownload.dfy` | downloads into a local file from a position on, resumed any number of times |
| `ListFallback.dfy` | the searches for a listing command and for a passive mode |

Some promises hold only under conditions the code does not check. They are proved as
equivalences, for all inputs, and each has an input for which the promise fails:

- The remainder of a parse may be prefixed to the next chunk exactly if the cut was after a line feed
  and the remainder holds no CRLF (`ReplyStream.SafeCutExactly`). "20" followed by "0 OK" loses a reply
  (`ReplyWitnesses.SplitReplyIsLost`). In a group whose lines end in CR CR LF the reply arrives with
  another text (`StrayCrChangesText`), or ends at another line, which adds a reply
  (`StrayCrChangesEnd`).
- A pipeline callback keeps all invariants exactly if it is in time for its transfer, or settles it
  again while no task is tracked, or settles nothing and there is either no task and no timeout or a
  task that transfers no data (`ConnectionTheorems.PipelineKeepsExactly`, for transfers announced once).
  A late failure can lose the task that waits for the greeting after a reconnect
  (`ConnectionWitnesses.LateFailureLosesTask`), a late success can arm the timeout of a closed client
  (`LateSuccessArmsTimeout`).
- A launched command with control characters makes `send` throw after its task is tracked
  (`HandleConservesExactly`, `ConnectionWitnesses.UncleanCommandStaysTracked`), and an exchange of the
  control socket under a task stops its timeout (`NewSocketTimersExactly`, `NewSocketStopsTimeout`).
- A merge of two trees is their overlay exactly if no file name meets a directory name
  (`TreeChanges.MergeIsOverlay`). `uploadFromDir` fails on every clash; `downloadToDir` does not notice a
  remote directory without files and directories in it - empty, or holding only links and entries of
  unknown type - that meets a local file or link (`TreeChanges.UnnoticedClash`, `ClashGoesUnnoticed`).
- The facts of a line mean the same in every order exactly if they do not hold both one that drops the
  entry and one that throws (`MlsdOrder.OrderIrrelevantExactly`): "type=cdir" and "modify=x" do
  (`OrderMatters`). A fact named `__proto__` throws (`PrototypeThrows`).
- `parseMLSxDate` reads a valid time right exactly from the year 100 on and with a fraction of at least
  three digits, of zeros, or none (`MlsxDate.ReadExactly`): the year 50 is read as 1950
  (`OldYearIsMisread`), ".5" as five milliseconds (`ShortFractionIsMisread`). Leap seconds collide with
  the next minute (`LeapSecondExactly`).
- A resolved download from a given position completes the local file exactly if the file agreed with
  the remote one before that position and was not longer (`ResumableDownload.CompletesExactly`); another
  file is completed just as well (`WrongPartIsCompleted`).

## Assumptions

- A `char` stands for one UTF-16 code unit.
- Sockets whose listeners were removed deliver nothing. Handlers are the library's own; continuations
  of promises run after the current step.
- `ConnectionSafety.Timely` states what runs are about: commands without CR, LF and NUL, data connections
  opened for transfers only, no bare exchange of the control socket under a task, and of the pipeline
  callbacks that come after their transfer has settled only those that keep the invariants. That
  excludes late callbacks that would settle a transfer again while another task is tracked, and late
  successes without a stored 2xx reply while no task is tracked and there is a timeout or while another
  transfer is sending or receiving data. The equivalences above say what happens otherwise.
- Statements about progress are about runs in which no transfer is announced twice by 125 or 150, as
  section 5.4 of RFC 959 has it.
- The server of `RemoteTree.dfy` is a finite tree and a working directory. Symbolic links are leaves;
  CWD into them and STOR over them are refused. Names are not empty, ".", ".." or with a leading space
  and hold no "/". PWD and listings observe it faithfully. Each command may be refused, cut off after
  some bytes with or without the connection, or met by a lost connection before or after it took effect,
  as a fault function of its number says; preparing the data connection of a transfer counts as part of
  its command.
- Local files are seen as `stat` shows them; local operations fail only where names clash.

## Model

| member | source | states |
|---|---|---|
| ReplyParser.ParseControlResponse | src/parseControlResponse.ts:15-44 | the loop with its three variables returns the messages and the remainder of the line automaton |
| ReplyParser.ScanReadsItems | src/parseControlResponse.ts:20-43 | fed any replies and noise lines in grammatical form, and a last unclosed group, the automaton finds exactly those replies in order and keeps exactly that group |
| ReplyParser.ScanIsGrammatical | src/parseControlResponse.ts:20-43 | for any lines at all, messages and open group are, in order, all lines but those outside groups that are no reply: single lines, and groups that begin and end with the same code and hold no closing line inside |
| ReplyStream.PrintParseRoundTrip | src/parseControlResponse.ts:15-44 | printing replies with CRLF and parsing gives back the replies and only an unclosed last group as remainder |
| ReplyStream.MessagesHaveCodes | src/parseControlResponse.ts:46-52 | every message found in any text begins with three digits |
| ReplyStream.LineMeans | src/parseControlResponse.ts:20-52 | any line outside of a group: three digits alone or before a space are a reply, before a hyphen they open a group, anything else is dropped |
| ReplyStream.LineInGroupMeans | src/parseControlResponse.ts:20-43 | any line in a group: the opening digits alone or before a space end it, blank lines are dropped, others belong to it |
| ReplyStream.SafeCutExactly | src/FtpContext.ts:344-347 | a remainder can be parsed again with whatever follows as if nothing had been cut, exactly if the cut is after a line feed and the remainder holds no CRLF |
| ReplyStream.UnalignedCutIsUnsafe | src/FtpContext.ts:344-347 | for every cut inside a line there is a continuation that is parsed differently |
| ReplyStream.CrLfRemainderIsUnsafe | src/FtpContext.ts:344-347 | a remainder with a CRLF in it changes when it is parsed again |
| ReplyWitnesses.SplitReplyIsLost | src/FtpContext.ts:344-347 | "20" and then "0 OK" give no reply, in one piece they give one |
| ReplyWitnesses.StrayCrChangesText | src/FtpContext.ts:344-347 | any group of two lines with CR CR LF after the first, cut there, gives its reply with another text |
| ReplyWitnesses.StrayCrChangesEnd | src/FtpContext.ts:344-347 | a group with a line of its code and CR CR LF, cut there, ends at that line and its last line is one more reply |
| ReplyStream.ChunkingIsInvisible | src/FtpContext.ts:337-355 | chunks cut after line feeds of a stream without stray CR give the messages and the remainder of the whole stream, unless the size guard trips |
| ReplyStream.RestIsNotLonger | src/parseControlResponse.ts:42 | a remainder is at most one character longer than the text it comes from |
| ReplyStream.PartialIsBounded | src/FtpContext.ts:337-347 | what any sequence of chunks leaves behind has at most 2^16 + 1 characters |
| ReplyStream.BoundIsAttained | src/FtpContext.ts:340-347 | that bound is reached, and then any next chunk trips the guard |
| ConnectionSafety.CloseKeeps | src/FtpContext.ts:110-123 | closing keeps the books and the closing invariant, ends with no tracked task and no timeout on the control socket |
| ConnectionSafety.HandleKeeps | src/FtpContext.ts:262-302 | launching a task keeps all invariants, also when another one is running or the context is closed |
| ConnectionSafety.ControlDataKeeps | src/FtpContext.ts:337-355 | a chunk with any number of replies keeps all invariants |
| ConnectionSafety.DeliverMessageKeeps | src/FtpContext.ts:349-372 | so does each reply, for every handler of the library |
| ConnectionSafety.OtherReplyKeeps | src/transfer.ts:259-330 | so does a reply to a transfer that announces nothing, including a 3xx that closes the context from inside the handler |
| ConnectionSafety.AnnouncementKeeps | src/transfer.ts:263-318 | so does an announcement, whether the pipeline starts, waits for TLS or there is no data connection |
| ConnectionSafety.SecureConnectKeeps | src/transfer.ts:269-282 | so does the data socket becoming secure while an upload waits for it |
| ConnectionSafety.PipelineKeeps | src/transfer.ts:196-226 | so does the callback of the tracked transfer's pipeline, success or failure |
| ConnectionSafety.LatePipelineKeeps | src/transfer.ts:196-245 | so does a late callback that settles its transfer again while no task is tracked, or settles nothing while no timeout or no data transfer can suffer from it |
| ConnectionSafety.CallKeeps | src/Client.ts:476-495 | so does a transfer call, also when its data connection came up after the context had closed |
| ConnectionSafety.UserCloseKeeps | src/Client.ts:107-110 | so does closing by the user, including the order of its two calls on the progress tracker |
| ConnectionSafety.ReconnectKeeps | src/Client.ts:130-138 | so does connecting again |
| ConnectionSafety.StepKeeps | src/FtpContext.ts:110-373 | every timely event keeps all invariants: each task ever launched is settled or is the one tracked task, each transfer's outcome is the verdict on what it experienced, no reply is heard after closing, only the tracked transfer holds a data connection, exactly one socket watches for timeouts during a task and none without, polls are bracketed |
| ConnectionSafety.EveryRunIsSafe | src/FtpContext.ts:110-373 | all of this holds after every timely run of a new client |
| ConnectionTheorems.TransferResolvesExactly | src/transfer.ts:164-246 | a transfer resolves exactly when its pipeline has succeeded and a 2xx has arrived with no error before, with the most recent 2xx; otherwise it is rejected exactly if there was an error |
| ConnectionTheorems.TransferSettlesAtOnce | src/transfer.ts:164-246 | it settles with the very event that decides it, and not again: nothing it experienced before did decide |
| ConnectionTheorems.EitherOrderResolves | src/transfer.ts:156-163 | data end then reply, or reply then data end, lead to the same resolved state |
| ConnectionTheorems.PipelineKeepsExactly | src/transfer.ts:196-245 | when a pipeline callback, in time or late, keeps all invariants, exactly, if no transfer is announced twice |
| ConnectionTheorems.PipelineConservesExactly | src/transfer.ts:221-226 | when a pipeline callback loses a task, exactly |
| ConnectionTheorems.PipelineTimersExactly | src/transfer.ts:196-208 | when a pipeline callback leaves a wrong timeout, exactly |
| ConnectionTheorems.HandleConservesExactly | src/FtpContext.ts:232-241 | when a launched command leaves a rejected task tracked, exactly |
| ConnectionTheorems.NewSocketTimersExactly | src/FtpContext.ts:150-186 | when a new control socket leaves a task without timeout, exactly |
| ConnectionTheorems.ClosingIsAbsorbing | src/FtpContext.ts:110-123 | until a new control socket is set, any run keeps the first cause, changes no outcome and no task's experience, and rejects every new task at once with an error naming that cause |
| ConnectionTheorems.NoReplyAfterClosing | src/FtpContext.ts:408-429 | in every reachable state all replies any handler ever saw arrived while the context was open |
| ConnectionTheorems.NoDataConnectionLeaks | src/transfer.ts:221-245 | whenever no transfer is tracked there is no data connection |
| ConnectionTheorems.CallUsesFreshConnection | src/Client.ts:579-594 | a transfer on a free open context runs on the connection just prepared; on a busy or closed one that connection is closed at once |
| ConnectionTheorems.PollRunsDuringData | src/transfer.ts:180-226 | the progress poll runs exactly between data start and data end of the tracked transfer, and each start is followed by a last update |
| ConnectionTheorems.PartialStaysBounded | src/FtpContext.ts:337-347 | the stored remainder is bounded in every state of every run |
| ConnectionTheorems.ChunkedDelivery | src/FtpContext.ts:337-355 | chunks deliver to the handlers, one by one, what parsing them yields, even if a reply closes the context midway |
| ConnectionTheorems.HandlersCannotSeeChunks | src/FtpContext.ts:337-355 | from any remainder on, with any other events between the chunks: cut after line feeds, a stream leads to the state of a client that keeps all of it and parses it in one piece each time |
| ConnectionTheorems.ChunksAreOneChunk | src/FtpContext.ts:337-355 | with nothing in between, that is the state of delivering what the whole stream gives beyond what had come before |
| ConnectionWitnesses.LateFailureLosesTask | src/transfer.ts:221-226 | a download fails, the client reconnects, and then the callback of the download's pipeline untracks the task waiting for the greeting |
| ConnectionWitnesses.LateSuccessArmsTimeout | src/transfer.ts:196-208 | after the same failure a late success leaves a timeout on a client without task |
| ConnectionWitnesses.UncleanCommandStaysTracked | src/FtpContext.ts:232-241 | a command with a line break leaves its rejected task tracked |
| ConnectionWitnesses.NewSocketStopsTimeout | src/FtpContext.ts:150-186 | a new control socket under a waiting task leaves it without timeout |
| ConnectionReplies.CodeIsRead | src/FtpContext.ts:350 | the code of a reply is the number its first three digits show |
| ConnectionReplies.ClassIsFirstDigit | src/FtpContext.ts:350-352 | which replies are completions, intermediate replies, errors, announcements, 331 and 350, by their digits |
| ConnectionReplies.OneReplyArrives | src/FtpContext.ts:337-355 | a chunk that is one line with a code delivers exactly that line |
| ConnectionReplies.RequestSettlesExactly | src/FtpContext.ts:247-256 | over all timely runs a request is resolved exactly by its first reply below 400 and rejected exactly by its first failure, error replies included; it experiences nothing else |
| ConnectionReplies.IgnoringErrorsSettlesExactly | src/Client.ts:193-205 | one that ignores errors resolves also with an error reply, and is rejected by any other failure |
| ConnectionReplies.GreetingSettlesExactly | src/Client.ts:159-175 | connecting resolves exactly with a 2xx greeting and is rejected by any other reply or failure |
| ConnectionReplies.LoginSettlesExactly | src/Client.ts:227-244 | a login is decided by the first thing it experiences other than 331, and resolves exactly if that is a 2xx |
| ConnectionReplies.ReplyIsExperienced | src/FtpContext.ts:349-372 | every reply reaches the tracked task, with its code and text, as an error exactly from 400 on |
| ConnectionReplies.PipelineEndIsExperienced | src/transfer.ts:275-281 | so does the callback of its pipeline |
| ConnectionReplies.ClosingIsExperienced | src/FtpContext.ts:110-123 | closing an open context writes QUIT once, keeps the reason and rejects the tracked task with it |
| ConnectionReplies.FailureCloses | src/FtpContext.ts:378-393 | failing sockets and streams close an open context, with their own reason |
| ConnectionReplies.UserCloses | src/FtpContext.ts:95-105 | closing by the user tells whether a task was running |
| ConnectionReplies.LargeChunkCloses | src/FtpContext.ts:340-343 | a chunk that together with the remainder exceeds 65536 characters closes an open context and rejects its task for that reason |
| ConnectionReplies.FullRemainderCloses | src/FtpContext.ts:340-347 | an opener of exactly that size is accepted, and any chunk after it closes the context |
| ConnectionReplies.CommandIsWritten | src/FtpContext.ts:262-302 | a task launched on a free open context writes exactly its command and waits under the timeout |
| ConnectionReplies.SecondTaskCloses | src/FtpContext.ts:263-292 | a second task closes the context: both are rejected, each for its own reason, and its command is not written |
| ConnectionReplies.SocketIsSet | src/FtpContext.ts:150-186 | a new control socket resets everything but the task and the promises |
| ConnectionReplies.OnlyReplacedSocketQuits | src/FtpContext.ts:158-164 | an upgrade writes nothing, a replacement exactly one QUIT |
| ConnectionReplies.PasswordIsSent | src/Client.ts:236-238 | 331, whatever its text, makes a login write PASS and the password, and nothing else |
| ConnectionReplies.AnnouncementStarts | src/transfer.ts:263-318 | 125 and 150, whatever their text, start the pipeline, or make an upload wait for TLS, or fail without data connection |
| ConnectionReplies.SecureConnectStarts | src/transfer.ts:341-348 | a waiting upload starts once its data connection is secure |
| ConnectionReplies.TransferAnswers | src/transfer.ts:283-330 | any other reply below 400 to a transfer: 350 makes a download write RETR, a 2xx is kept, another 3xx closes the context, another 1xx changes nothing |
| FtpContextObjects.FtpContext.CloseWithError | src/FtpContext.ts:110-123 | updates the fields as the machine's closing step does |
| FtpContextObjects.FtpContext.Close | src/FtpContext.ts:95-105 | closes with the cause that tells whether a task was running |
| FtpContextObjects.FtpContext.PassToHandler | src/FtpContext.ts:362-372 | passes a reply or an error to the tracked task, if there is one |
| FtpContextObjects.FtpContext.RunHandler | src/Client.ts:159-244 | the handlers of requests, of requests ignoring errors, of the greeting and of the login |
| FtpContextObjects.FtpContext.OnControlSocketData | src/FtpContext.ts:337-355 | size guard, parsing and the loop over messages do what the machine does for a chunk |
| FtpContextObjects.FtpContext.Handle | src/FtpContext.ts:262-302 | launches a task, closing a busy context first and turning the task away on a closed one |
| FtpContextObjects.FtpContext.Submit | src/FtpContext.ts:232-241 | sends a clean command; one with control characters rejects the promise and leaves the task tracked |
| FtpContextObjects.FtpContext.SetDataSocket | src/FtpContext.ts:198-207 | replaces the data connection |
| FtpContextObjects.FtpContext.SetControlSocket | src/FtpContext.ts:150-186 | resets data connection, remainder, closing error and timeout |
| FtpContextObjects.FtpContext.LaunchTransfer | src/transfer.ts:256-299 | a transfer gets a resolver of its own; a download without data connection launches nothing |
| FtpContextObjects.FtpContext.SecureConnected | src/transfer.ts:341-348 | the loop over waiting uploads starts their pipelines in order |
| FtpContextRuns.Deliver | src/FtpContext.ts:110-373 | the objects do for every event what the machine does, and keep all invariants if it is timely |
| FtpContextRuns.Drive | src/FtpContext.ts:110-373 | a new client driven through any timely events is where the machine's run is, with all invariants |
| FtpContextObjects.TransferResolver.OnDataStart | src/transfer.ts:180-191 | hands the timeout over to the data socket and starts the poll |
| FtpContextObjects.TransferResolver.OnDataDone | src/transfer.ts:196-208 | hands it back, marks the data as done and resolves if the reply is there |
| FtpContextObjects.TransferResolver.OnControlDone | src/transfer.ts:213-216 | keeps the reply and resolves if the data is done |
| FtpContextObjects.TransferResolver.OnError | src/transfer.ts:221-226 | stops the poll, drops the data connection and rejects |
| FtpContextObjects.TransferResolver.TryResolve | src/transfer.ts:238-245 | resolves with the stored reply when both channels are done |
| FtpContextObjects.TransferResolver.HandleTransfer | src/transfer.ts:259-330 | the reply handlers of upload and download |
| FtpContextObjects.TransferResolver.PipelineCallback | src/transfer.ts:275-281 | the callback given to the stream pipeline, in time or late |
| TreeChanges.MergeIsOverlay | src/Client.ts:660-666 | replacing files and merging directories where kinds agree is the overlay of one tree on the other exactly if no names clash |
| TreeChanges.EnsuredMeans | src/Client.ts:869-876 | providing a local directory fails exactly if it does not exist and something on the way to it is no directory, and adds exactly the missing directories |
| TreeChanges.MakeDirsMeans | src/Client.ts:740-749 | so does creating the directories of a path without ".." on the server |
| TreeChanges.UnnoticedClash | src/Client.ts:715-734 | the only clashes that do not block a download are directories without files and directories in them over local files or links |
| TreeChanges.ClashGoesUnnoticed | src/Client.ts:715-734 | for any names, a remote directory with a link in it passes a local file by, and the download succeeds |
| TreeChanges.NoClashNoBlock | src/Client.ts:715-734 | where no names clash nothing blocks a download |
| DirectoryClient.LocalDisk.EnsureDirectory | src/Client.ts:869-876 | creates exactly the missing directories of a path, or fails if a file is in the way |
| DirectoryClient.Client.Cd | src/Client.ts:344-347 | changes the working directory or nothing |
| DirectoryClient.Client.SwitchToParent | src/Client.ts:352-354 | goes to the parent or changes nothing |
| DirectoryClient.Client.RemoveEmptyDir | src/Client.ts:764-767 | removes exactly one empty directory or nothing |
| DirectoryClient.Client.Remove | src/Client.ts:402-408 | removes exactly one file or link or nothing |
| DirectoryClient.Client.ClearWorkingDir | src/Client.ts:643-655 | terminates; whatever fails, only proper descendants of the working directory can be lost; on success exactly they are and the working directory is the same; without faults it succeeds |
| DirectoryClient.Client.ClearEntry | src/Client.ts:644-654 | one round of its loop removes exactly the subtree of one entry, links without their targets |
| DirectoryClient.Client.GoBack | src/Client.ts:784-794 | an open client is back in the caller's directory unless that is gone or the restoring CWD failed |
| DirectoryClient.Client.RemoveDir | src/Client.ts:625-637 | with any command failing anywhere, nothing outside the target subtree changes and the working directory is the caller's unless it was deleted, the client closed or the restoring CWD failed; on success exactly the subtree is gone (its contents for the root); without faults it succeeds exactly on directories and ends in the caller's directory or the target's parent |
| DirectoryClient.Client.UploadFrom | src/Client.ts:429-431 | one place gets the file or a part of it, over nothing or a file, or nothing changes |
| DirectoryClient.Client.OpenDir | src/Client.ts:756-759 | enters a directory that existed or was created, whatever MKD answered |
| DirectoryClient.Client.EnsureDir | src/Client.ts:740-749 | creates the missing directories of a path up to the point it gets to, and enters it; without faults exactly if nothing is in the way |
| DirectoryClient.Client.UploadToWorkingDir | src/Client.ts:681-695 | on success the merge of the local directory into the working directory, with no clash; after any failure every place is as before, as wanted, or a part of the wanted file; without faults it succeeds exactly without clashes |
| DirectoryClient.Client.UploadFromDir | src/Client.ts:669-676 | on success the remote tree is the overlay of the local one on the target, everything else untouched; nothing is ever removed; the caller's directory is current again unless the restoring CWD failed |
| DirectoryClient.Client.DownloadTo | src/Client.ts:510-544 | one local file becomes the remote one, a part of it, or is removed if no data came; without faults it succeeds exactly if the remote path is a file and the local one can be written |
| DirectoryClient.Client.DownloadFromWorkingDir | src/Client.ts:715-734 | the mirror image of the upload, with links skipped and the server's tree unchanged |
| DirectoryClient.Client.DownloadToDir | src/Client.ts:703-710 | on success the local tree is the merge of the remote directory, and its overlay exactly if no names clash; without faults it succeeds exactly if the remote path is a directory, the local one can be provided, and no file and no directory is to go below something that is no directory and no file over something that is no file; the caller's directory is current again unless the restoring CWD failed |
| DirectoryClient.UploadThenDownload | src/Client.ts:669-734 | both calls, one after the other, for a path without ".." and nothing below the two places: the downloaded tree is the original one; without faults this fails exactly if the local directory is missing, or something that is no directory is on the way to one of the places or is that place - the local one only if there is anything to download |
| Numbers.DigitsAreRead | src/parseListMLSD.ts:184-194 | among all strings the unary plus accepts, digits are read as their value |
| Numbers.IntegersAreRead | src/parseListMLSD.ts:10-12 | parseInt skips white space, takes a sign and the digits after it, and is NaN without digits there |
| Numbers.ShownIsDecimal | src/Client.ts:560 | a number is printed by decimal digits that show its value, without leading zeros |
| MlsxDate.MonthsStart | src/parseListMLSD.ts:184-194 | for all years, the first days of the months are 0, 31, 59, 90 and so on up to 334 days after that of January, one more after February in leap years, and years have 365 or 366 days |
| MlsxDate.MonthsLast | src/parseListMLSD.ts:184-194 | the valid days of a month, by the same table |
| MlsxDate.MonthsCarry | src/parseListMLSD.ts:184-194 | months beyond December belong to the years after, days beyond the end of a month to the months after |
| MlsxDate.FieldsCount | src/parseListMLSD.ts:184-194 | a second is 1000 milliseconds of the time value, and so on up to the day |
| MlsxDate.NextDayCounts | src/parseListMLSD.ts:184-194 | the day count behind Date.UTC grows by one from each calendar day to the next, leap years included |
| MlsxDate.EpochIsDayZero | src/parseListMLSD.ts:184-194 | it is zero on 1970-01-01 |
| MlsxDate.InstantsInOrder | src/parseListMLSD.ts:184-194 | an earlier stamp that is no leap second has the smaller time value |
| MlsxDate.LeapSecondExactly | src/parseListMLSD.ts:184-194 | a stamp precedes all later ones exactly if it is no leap second |
| MlsxDate.ReadsAs | src/parseListMLSD.ts:184-194 | every string with valid fields is read as the instant of those fields, but for years below 100 and the digits of the fraction |
| MlsxDate.FractionExactly | src/parseListMLSD.ts:192 | when the digits of a fraction are the right milliseconds, exactly |
| MlsxDate.ReadExactly | src/parseListMLSD.ts:184-194 | when a time in a valid string is read as the instant it denotes, exactly |
| MlsxDate.OldYearIsMisread | src/parseListMLSD.ts:184-194 | "00500101000000" is read as the beginning of 1950 |
| MlsxDate.ShortFractionIsMisread | src/parseListMLSD.ts:192 | "20000101000000.5" is read with five milliseconds |
| MlsxDate.ParsingKeepsOrder | src/parseListMLSD.ts:184-194 | on such strings parsing keeps the order of the calendar strictly and identifies only equal times |
| Mlsd.HandleFact | src/parseListMLSD.ts:133-146 | splitting a fact, looking up and running its handler sets the property the fact stands for, drops the entry or throws |
| Mlsd.HandleType | src/parseListMLSD.ts:27-63 | both notations for links, files, directories, the entries to drop, anything else |
| Mlsd.ParseLine | src/parseListMLSD.ts:126-148 | the loop over facts returns what reading the line means: a fresh entry, nothing, or an exception |
| MlsdOrder.ReadingIsDescription | src/parseListMLSD.ts:17-100 | if no property gets two values, the entry is the one described by the facts as a set |
| MlsdOrder.NamesWin | src/parseListMLSD.ts:72-89 | names of owner and group win over IDs wherever they stand |
| MlsdOrder.OrderIrrelevantExactly | src/parseListMLSD.ts:126-148 | when all orders of compatible facts read the same, exactly |
| MlsdOrder.OrderMatters | src/parseListMLSD.ts:126-148 | "type=cdir" and "modify=x" are ignored in this order and throw in the other |
| MlsdOrder.PrototypeThrows | src/parseListMLSD.ts:133-146 | a fact named `__proto__` throws, whatever its value |
| MlsdOrder.FactOrderIsIrrelevant | src/parseListMLSD.ts:126-148 | a whole line reads the same for every permutation of such facts |
| MlsdWire.TextIsRead | src/parseListMLSD.ts:17-100 | every well-formed fact, its name in any letter case, sets exactly the property section 7 of RFC 3659 and its Unix extensions mean by it; unknown facts set nothing |
| MlsdWire.PrintedIsRead | src/parseListMLSD.ts:126-148 | an entry with any of its properties, both link notations included, printed with its facts in any order, case and repetition, is read back as it is |
| MlsdWire.PrintReadRoundTrip | src/parseListMLSD.ts:126-148 | printing any entry and reading the line gives the entry |
| MlsdWire.DirectoryIsIgnored | src/parseListMLSD.ts:53-55 | a line of type cdir or pdir gives no entry, whatever else it tells |
| MlsdListing.CollectTargets | src/parseListMLSD.ts:152-157 | the map holds, by ID, the last entry that is no link |
| MlsdListing.ResolveAndKeep | src/parseListMLSD.ts:158-175 | the second loop sets the links in place and keeps the entries without slash, also if an object is listed twice |
| MlsdListing.TransformList | src/parseListMLSD.ts:150-176 | only links of the given objects change, each to its resolved value; the result is the transformed listing, of the same objects |
| MlsdListing.TransformMeans | src/parseListMLSD.ts:150-176 | the result is, in order, exactly the entries without "/", where an unresolved link has the name of the last entry with its ID that is no link - even one that is taken out - and nothing else changed |
| MlsdListing.TransformIsIdempotent | src/parseListMLSD.ts:150-176 | transforming again changes nothing |
| Progress.CountedSinceReset | src/ProgressTracker.ts:24-90 | for every schedule, even with polls that overlap, the counter is what all polls have seen since the last reset |
| Progress.EachCountedOnce | src/ProgressTracker.ts:44-72 | with polls one by one, the counter grows by the byte count at the end of each transfer, whatever the ticks |
| Progress.TransfersAreCountedOnce | src/transfer.ts:180-226 | for every timely run of a client, with ticks and resets at any moments in between: from any moment to the next reset the counter grows by the final byte counts of the transfers that end, but for the bytes of a running transfer seen at the two moments; it starts from zero at first and at each reset |
| Progress.ProgressTracker.Start | src/ProgressTracker.ts:44-57 | starts a poll with a first update |
| Progress.ProgressTracker.UpdateFunc | src/ProgressTracker.ts:46-50 | counts what the socket has transferred since the last look |
| Progress.ProgressTracker.Halt | src/ProgressTracker.ts:80-87 | an optional last update, then the poll never counts again |
| Progress.ProgressTracker.Tick | src/ProgressTracker.ts:79 | an elapsed interval updates a poll that is still ticking |
| Progress.ProgressTracker.Reset | src/Client.ts:418-421 | resets the counter and no poll |
| ResumableDownload.DownloadToFile | src/Client.ts:520-544 | opening, writing at the position and removing an empty leftover give the specified file; the requests are RETR, or REST and then RETR if it is accepted |
| ResumableDownload.WriteChunks | src/Client.ts:524-528 | writing chunk by chunk is one write of all data at the start position |
| ResumableDownload.PiecesDoNotMatter | src/Client.ts:524-528 | so for every way to cut the data |
| ResumableDownload.AttemptKeepsPart | src/Client.ts:520-569 | an attempt from any position within a local part, cut anywhere, leaves a part; if it resolves, the whole file |
| ResumableDownload.ResumingNeverHarms | src/Client.ts:500-505 | after any number of attempts from the local size the file is a part of the remote one, has not shrunk, and is complete once an attempt has resolved |
| ResumableDownload.CompletesExactly | src/Client.ts:510-515 | when a resolved download from any position completes the file, exactly |
| ResumableDownload.WrongPartIsCompleted | src/Client.ts:510-515 | a file with other bytes before the position is completed to a wrong one, and the download resolves |
| ResumableDownload.RequestsBeginAtStart | src/Client.ts:560 | the position that a server reads from the text of the commands is the one the client writes at |
| ResumableDownload.RequestsAreSent | src/transfer.ts:294-330 | the connection machine writes exactly these commands: the first at once, RETR after REST if the server answers with 350 |
| ResumableDownload.NoEmptyLeftover | src/Client.ts:533-540 | a download from the start leaves exactly what was written, and no file if that is nothing and it failed |
| ListFallback.SearchFindsFirst | src/Client.ts:802-821 | exactly the modes up to the first that works are tried, whatever the errors; that one is remembered |
| ListFallback.EpsvThenPasv | src/Client.ts:91-94 | by default EPSV is tried first, PASV exactly after it failed, and what worked is remembered |
| ListFallback.ListMeans | src/Client.ts:576-597 | candidates are requested in order, each right after a connection was prepared for it and only after FTP errors; the last answer decides and is passed on; a success becomes the only candidate |
| ListFallback.FirstSuccessSticks | src/Client.ts:584-585 | after the first success all further listings request only that command, in one passive mode |
| ListFallback.ListingClient.EnterFirstCompatibleMode | src/Client.ts:802-821 | the loop over strategies is that search |
| ListFallback.ListingClient.List | src/Client.ts:576-597 | the loop over candidates leaves the specified state and result |
| ListFallback.ListingClient.UseDefaultSettings | src/Client.ts:253-258 | puts the candidates back |

## Left out

- Real sockets, TLS handshakes and session tickets, keep-alive, encodings and Node's streams: they appear only as events and assumptions.
- Parsing of PASV and EPSV replies and the connecting of data sockets: a data connection comes up or does not.
- Unix and DOS listing formats and the choice between formats; `features`, `size`, `lastMod`, `rename`, deprecated aliases, logging, stack traces, texts of errors.
- Raw handlers given to `handle` by users, and handlers of progress reports: the reports themselves are not recorded, only the counts.
- Exceptions that escape from a handler: a password or path with control characters makes `send` throw in the login or download handler; the machine writes nothing then, and `Timely` excludes such handlers.
- `protectWhitespace`: names with leading spaces are excluded, and MKD would not protect them.
- Aliasing of a data socket between its pipeline and the context: a callback may come at any time after the start of its pipeline, also after the socket was closed.
- Failing local operations other than name clashes, and partial results of a recursive `mkdir`.
- Paths are resolved by their text; what a server makes of ".." behind a symbolic link is its own affair.
- Mlsd.HandleFact: sizes are exact integers, while parseInt rounds beyond 2^53; `rawModifiedAt` repeats `modifiedAt` as text and is not kept.
- ResumableDownload.DownloadToFile: what the server sends and whether the transfer resolves are parameters. The requests are those of the connection machine (`RequestsAreSent`), which resolves transfers as `TransferResolvesExactly` says, but carries no bytes.
- ListFallback.ListingClient.List: the path is passed on as it is, and the parsing of a listing is not part of it.
