# ThreadHaul: a verified model of its protocols and state machines

ThreadHaul is a Windows service that protects a few critical processes by throttling and suspending
batch processes, writes a hash-chained log, and talks to a controller over an authenticated
channel. This project models the parts of it that do not depend on Windows and proves what they
keep over every run. `dafny verify dfyconfig.toml` checks all of it.

Code that changes fields is a class here, and each of its methods is proved equal to a function on
values (`Abs`, `State`); the theorems about whole runs are stated over those functions. What the
operating system, the network or a library answers is a parameter (`luck`, `facts`, `events`, `Env`),
so that every answer is covered.

| file | what it models |
|---|---|
| `Bytes.dfy` | hexadecimal text, big-endian numbers and the 12-byte nonce |
| `Framing.dfy` | length-prefixed frames and the receive buffer, at byte level |
| `SecureChannel.dfy` | the handshake and the sealed channel against an adversarial network, with ideal HMAC and AEAD |
| `SendLock.dfy` | any number of sender threads around the send lock |
| `LogChain.dfy` | the hash chain, its verification, and the head read back from a file |
| `LogFiles.dfy` | the rotating writer, restarts, and the `verify-log` walk |
| `LogWalk.dfy` | what an accepted walk over several files protects, and where it does not |
| `LogEntries.dfy` | what was to be logged comes back from the files |
| `LogReader.dfy` | incremental reading of the log for the dashboard |
| `OsControl.dfy` | processes, threads, suspend counts and priorities |
| `StateMachine.dfy`, `Samples.dfy` | the state machine of one managed process |
| `Actuators.dfy` | the map of all managed processes |
| `Daemon.dfy` | polling, reloading and manual commands, one operation at a time |
| `Tracker.dfy` | the reporting threshold tracker beside the acting machines |
| `Adaptive.dfy` | the least-squares forecast and the thresholds in effect |
| `AutoPolicy.dfy`, `AutoProtect.dfy` | automatic protection of the whole machine |
| `DaemonWorld.dfy` | the whole service, step by step: managed processes and auto-protect together |
| `DaemonRuns.dfy`, `DaemonExamples.dfy` | its runs, adoption and shutdown |
| `SessionGuard.dfy` | the dashboard's access key and its rate limit |
| `SessionReplies.dfy` | every answer of that guard, from the log of events alone |
| `Identity.dfy` | the identity filter and its cache |

## Conventions

- Byte strings are `string` with characters below 256. Names, paths and publishers are compared
  without regard to case in the original and are kept in folded form here.
- HMAC and AES-GCM are free constructors of a term algebra: the network knows what it has seen, what
  has leaked and what it can build from that, and nothing else. The nonce, the frame header, the
  key input and all counters are concrete. HMAC is that of RFC 2104; the nonce is the deterministic
  construction of section 8.2.1 of NIST SP 800-38D.
- The JSON parser and SHA-256 are functions of an environment `Env`. What is assumed of them is
  written out in `LogChain.Faithful` and, for tamper evidence only, `LogChain.NoCollision`.
- `Thread.others`, `Thread.caught`, `Thread.late` and `Proc.original` are bookkeeping that no code
  decides on.
- A double is a `real`. Counters and times are unbounded; only the 64-bit sequence numbers wrap.

## What the code does not promise

Some properties one might expect hold only under a condition, which is proved to be exact:

- A receiver rejects its buffer as soon as it passes `kMaxFrame + 4` bytes, even if the excess
  belongs to the next frame. All pipelined frames arrive, however they are cut up, exactly if
  each leaves room for a full read or is followed by little enough (`Framing.RoundTripExactly`). Frames
  up to `kMaxFrame - 8191` bytes are always safe, one byte more is not.
- A message of more than `kMaxFrame - 16` bytes cannot be sent but still uses up a sequence number, so it
  cuts off all later ones (`SendLock.DeliversEverythingExactly`).
- `verify-log` checks a file against the hash read back from the one before it, and against nothing if that
  hash is empty. So a file emptied to nothing or to line feeds is not reported, and the files before it may
  then be replaced by any that verify (`LogWalk.EmptiedFileIsAccepted`): a blank file cuts the chain in
  two (`LogWalk.BlankFileCuts`). The next file is bound to the last line so far exactly if the hash of
  that line is what is read back (`LogWalk.NextIsBoundExactly`). The writer leaves only such files
  (`LogWalk.RunFilesReadBack`), and as long as every file there is reads back the chain holds across files
  (`LogWalk.RunIsProtected`).
- A manual throttle or suspend does not ask auto-protect. If it takes a running process that auto-protect
  holds under management, auto-protect may later give back the priority of a process that is throttled; this
  is the only step after which a managed process may not be as its machine says
  (`DaemonRuns.AdoptionExactly`, `DaemonExamples.AdoptionHappens`). Reloading and discovery never do that
  (`DaemonWorld.StepIsUnlisted`, `DaemonRuns.AdoptsExactly`), and the shutdown gives everything back all the same
  (`DaemonRuns.ShutdownLeavesNothing`).
- The limit on wrong access keys holds exactly if the lockout is at least as long as the failure
  window (`SessionGuard.RateLimitExactly`).
- Resuming a process gives each thread back what was taken exactly if no thread that appeared while
  it was suspended is suspended by another program (`OsControl.ResumeExactly`).
- Recovery gives the normal priority, which is the process's own exactly if it came with that
  (`Actuators.RestoresOriginalExactly`); the service leaves a process demoted in some run exactly if it
  came above the normal priority (`DaemonExamples.NeverDemotedExactly`).
- A cached identity is the right answer under all pins exactly if the pid, seen again with the same
  start time, is the same process (`Identity.CacheIsRightExactly`). A start time that cannot be read
  is always the same.

Where a comment and the code disagree the code is modelled:

- `AutoProtector::Exempt` is said to return false for a pid that is not running; it always returns
  true (`AutoProtect.AutoProtector.Exempt`).
- `IdentityFilter` is said to report each pid once; it reports it as often as an impostor shows up
  under it anew (`Identity.ReportsAreArrivals`, `Identity.ReportedTwice`).
- `AdaptiveThresholds` is said to leave the thresholds untouched under flat load; it does so exactly
  if there is no bias from the controller or no room (`Adaptive.FlatLoadKeepsThresholds`).

## Model

| member | source | states |
|---|---|---|
| `Bytes.HexRoundTrip` | src/common/SecureChannel.cpp:116-141 | decoding the hexadecimal text of any byte string gives it back |
| `Bytes.FromHexExactly` | src/common/SecureChannel.cpp:126-141 | a text decodes to the bytes it spells in digits of either case, and to nothing exactly if it spells none |
| `Bytes.EncodeHex` | src/common/SecureChannel.cpp:116-124 | the loop over the bytes yields the two lower-case digits of each, in order |
| `Bytes.DecodeHex` | src/common/SecureChannel.cpp:126-141 | odd lengths and foreign characters give the empty string, everything else the bytes |
| `Bytes.BigEndianRoundTrip` | src/common/SecureChannel.cpp:82-87 | the eight bytes determine every number below 2^64 |
| `Bytes.NonceInjective` | src/common/SecureChannel.cpp:82-87 | equal nonces mean the same direction and the same sequence number |
| `Bytes.BuildNonce` | src/common/SecureChannel.cpp:82-87 | the shifting loop builds that nonce: a direction byte, three zeros and the number, most significant byte first |
| `Framing.HeaderRoundTrip` | src/common/SecureChannel.cpp:150-180 | the reader gets the length that the writer put into the header |
| `Framing.HeaderIsBigEndian` | src/common/SecureChannel.cpp:153-156 | the header is the length, most significant byte first |
| `Framing.LongHeaderIsRejected` | src/common/SecureChannel.cpp:172-177 | a length above kMaxFrame is rejected as soon as the header is complete, and nothing is read after it |
| `Framing.ErrorEndsReading` | src/common/SecureChannel.cpp:192-195 | an error or the end of the stream ends reading: earlier frames stay, nothing later counts |
| `Framing.DrainsInOrder` | src/common/SecureChannel.cpp:168-199 | at every point the reader has exactly the frames that are complete so far, whatever the cuts and timeouts |
| `Framing.RoundTripExactly` | src/common/SecureChannel.cpp:150-199 | every cutting and delaying of the stream yields exactly the frames written if and only if each frame leaves room for a full read or is followed by little enough |
| `Framing.ShortFramesAreSafe` | src/common/SecureChannel.cpp:168-199 | any number of pipelined frames up to kMaxFrame - 8191 bytes meets that condition |
| `Framing.LongerFrameIsNotSafe` | src/common/SecureChannel.cpp:197-198 | a frame one byte longer with a full read behind it does not |
| `Framing.OverflowRejects` | src/common/SecureChannel.cpp:168-199 | whenever the condition fails there is a legal delivery of the very same bytes that is rejected |
| `Framing.ReaderInvertsSender` | src/common/SecureChannel.cpp:150-199 | on any stream at all, the frames returned, written again, and the buffer are exactly the bytes that arrived |
| `Framing.BufferIsBounded` | src/common/SecureChannel.cpp:168-199 | a reader that goes on never holds more than one largest frame and its header |
| `Framing.FrameSocket.SendFrame` | src/common/SecureChannel.cpp:150-166 | whatever the socket takes each time, the frame is sent if and only if the calls before the first error took all of it, and exactly what they took is out, in order; a frame that is too long puts out nothing |
| `Framing.FrameSocket.Send` | src/common/SecureChannel.cpp:158-163 | one call puts out the front of the data, as much as the socket takes, or reports an error |
| `Framing.FrameSocket.ReceiveFrame` | src/common/SecureChannel.cpp:168-199 | the receive loop returns the next frame, a timeout or a rejection, and leaves the buffer as specified |
| `SecureChannel.KeyInputInjective` | src/common/SecureChannel.cpp:201-210 | nonces of fixed length make the key input determine both nonces and the host |
| `SecureChannel.SessionSecrecy` | src/common/SecureChannel.cpp:201-290 | without the secret the network can neither compute the session key nor any proof or traffic key under it that no honest run has shown |
| `SecureChannel.StepKeepsInv` | src/common/SecureChannel.cpp:201-311 | every step of every party and of the network keeps the account of who sent and accepted what |
| `SecureChannel.MutualAuthentication` | src/common/SecureChannel.cpp:212-290 | a completed honest endpoint has exactly one partner of the other role with its nonces and host; a partner server has completed, a partner client has sent its proof |
| `SecureChannel.TrafficKeysStaySecret` | src/common/SecureChannel.cpp:201-210 | the traffic keys of an honest session never become known to the network |
| `SecureChannel.DeliveryIsPrefix` | src/common/SecureChannel.cpp:292-311 | under dropping, replaying, reordering, injecting and reflecting, what was delivered is a prefix of what the one partner sealed |
| `SecureChannel.NoncesNeverRepeat` | src/common/SecureChannel.cpp:292-299 | across all connections no key and nonce seal two messages below 2^64 |
| `SecureChannel.PrefixExactly` | src/common/SecureChannel.cpp:292-311 | in-order delivery is guaranteed exactly below 2^64 messages |
| `SecureChannel.HandshakeCompletes` | src/common/SecureChannel.cpp:212-290 | the protocol does run to the end: a completed pair is reachable |
| `SecureChannel.ServerCompletesExactly` | src/common/SecureChannel.cpp:254-290 | the server completes exactly on version 2, a 32-byte nonce, a host name of 1 to 255 bytes and the one right proof, and then knows that host |
| `SecureChannel.ClientCompletesExactly` | src/common/SecureChannel.cpp:212-252 | the client completes exactly on a 32-byte nonce and the one right proof, with a secret of at least 16 characters |
| `SecureChannel.ClientRunExactly` | src/common/SecureChannel.cpp:212-252 | everything the client sends in a handshake, when it succeeds and with which keys, from the frames that arrive; a failed receive ends it |
| `SecureChannel.ServerRunExactly` | src/common/SecureChannel.cpp:254-290 | the same for the server: an error for anything but a hello of version 2, no answer to a malformed one, a proof only after the right proof |
| `SecureChannel.Channel.ClientHandshake` | src/common/SecureChannel.cpp:212-252 | the client's messages, checks, failures and keys are those of the protocol role |
| `SecureChannel.Channel.ServerHandshake` | src/common/SecureChannel.cpp:254-290 | the same for the server, including the host name it reports |
| `SecureChannel.Channel.Send` | src/common/SecureChannel.cpp:292-299 | seals under the next counter, which moves on even if the frame could not be written; if the cipher fails nothing changes |
| `SecureChannel.Channel.Receive` | src/common/SecureChannel.cpp:301-311 | opens only under the expected counter, which moves on only then |
| `SendLock.WireIsWholeFrames` | src/common/SecureChannel.cpp:150-166 | for any number of threads and any interleaving the wire is whole frames in sealing order and at most one partial frame |
| `SendLock.WritesRun` | src/common/SecureChannel.cpp:150-166 | pieces of any sizes, empty ones too, that fit the frame are a run of writes of the thread that holds the lock |
| `SendLock.SendUnderLock` | src/common/SecureChannel.cpp:150-166 | the send loop itself, run by the thread that holds the lock, is such a run and ends it: the wire of the model is what the socket put out |
| `SendLock.IdealIsMet` | src/common/SecureChannel.cpp:42-78 | what is assumed of the cipher, the 16-byte tag included, can be met |
| `SendLock.OpensOnlyInTurn` | src/common/SecureChannel.cpp:301-311 | a receiver that expects one number rejects every frame sealed under a later one |
| `SendLock.GapStopsReceiver` | src/common/SecureChannel.cpp:301-311 | after a missing number no later frame is ever accepted |
| `SendLock.DeliversUpToFirstTooLong` | src/common/SecureChannel.cpp:150-311 | end to end, the peer obtains every message before the first that is too long, in sealing order, and nothing after it |
| `SendLock.DeliversEverythingExactly` | src/common/SecureChannel.cpp:292-299 | everything sealed arrives if and only if no message is longer than kMaxFrame - 16 bytes |
| `LogChain.VerifyChain` | src/logging/LogChain.cpp:39-79 | the pass reports the first line that is no object, drops the chain or does not link to the line before it, accepts exactly if there is none, and counts the lines, chained and unchained, up to there |
| `LogChain.WellChainedExactly` | src/logging/LogChain.cpp:39-79 | a sequence is accepted exactly if it is unchained objects and then linked ones, and each link is the hash of the line before it or, on the first line, the expected one if there is one |
| `LogChain.AgreeBackwards` | src/logging/LogChain.cpp:15-79 | two line sequences with right links and the same last line agree going back until one is exhausted or unchained |
| `LogChain.TamperingIsReported` | src/logging/LogChain.cpp:39-79 | any edit, insertion or interior deletion before the untouched last line of a chained log is reported |
| `LogChain.LinkedPartIsProtected` | src/logging/LogChain.cpp:39-79 | the same for one verifying line sequence whose front is cut off or unchained: from any linked line on nothing can be edited, inserted or removed, and the line before it has the hash it links to |
| `LogChain.FaithfulIsMet` | src/logging/LogChain.cpp:15-20 | what is assumed of the parser and the hash is met by a parser that reads the link at the end of the line |
| `LogChain.NothingBeforeGenesis` | src/logging/LogChain.cpp:15-20 | lines in front of a genesis line need a line that hashes to the genesis value |
| `LogChain.LastLineHash` | src/logging/LogChain.cpp:22-37 | the two backward scans find the last line within the last 64 KiB, or nothing |
| `LogChain.HeadIsLastLineExactly` | src/logging/LogChain.cpp:22-37 | the head read back is the hash of the last line exactly if that line is shorter than 64 KiB |
| `LogFiles.RotatedAt` | src/logging/JsonLinesLogger.cpp:184-199 | after a rotation .k is gone and every other file up to .k has moved up one place |
| `LogFiles.WriteKeepsHistory` | src/logging/JsonLinesLogger.cpp:136-158 | a write drops at most the oldest whole file and appends its line; everything else stays in order |
| `LogFiles.WriteKeepsInv` | src/logging/JsonLinesLogger.cpp:136-182 | a write keeps the files an unbroken chain without gaps and the in-memory head equal to the last line's hash |
| `LogFiles.HistoryIsTail` | src/logging/JsonLinesLogger.cpp:136-199 | at every point of every run the files hold an unbroken tail of everything ever written, in at most k old files without gaps |
| `LogFiles.CurrentFileIsBounded` | src/logging/JsonLinesLogger.cpp:143-157 | from a fresh log the current file is within its limit or holds a single line |
| `LogFiles.RebootsAreInvisible` | src/logging/JsonLinesLogger.cpp:160-182 | restarting between writes changes not a single byte of what is written later |
| `LogFiles.VerifierAcceptsEveryRun` | src/service/main.cpp:349-378 | after any run of writes, rotations and restarts the verify-log walk finds every file intact |
| `LogEntries.EqualLinesMeanEqualEntries` | src/logging/LogChain.cpp:15-20 | equal chained lines carry equal entries and equal links |
| `LogEntries.EntriesComeBack` | src/logging/JsonLinesLogger.cpp:136-199 | after every run the lines on disk, with their links taken off, are the last of the entries that were to be logged, in order; if that is all of them, any line from before the run comes before |
| `LogEntries.RotatesOnlyWhenFull` | src/logging/JsonLinesLogger.cpp:143-157 | after every run each old file, together with the first line of the file after it, is longer than the limit: no file is put away before it is full |
| `LogWalk.BlankFileCuts` | src/service/main.cpp:361-375 | a walk with a blank file in it is accepted exactly if the files before it and those after it are accepted on their own |
| `LogWalk.LineFeedsAreBlank` | src/logging/LogChain.cpp:22-37 | an empty file and one of line feeds are blank |
| `LogWalk.EmptiedFileIsAccepted` | src/service/main.cpp:361-378 | blanking any file of an accepted walk is not reported, and then any files that verify may stand in front of it |
| `LogWalk.WalkLinks` | src/service/main.cpp:361-375 | in an accepted walk over files that read back every linked line, also the first of a file, carries the hash of the line before it |
| `LogWalk.WalksAgree` | src/service/main.cpp:361-375 | two such walks with the same last line agree going back, across files, until one is exhausted or unlinked |
| `LogWalk.WalkIsProtected` | src/service/main.cpp:361-378 | against such a walk with lines linked from u on, other files that read back, verify and end in the same line keep all lines from u on |
| `LogWalk.NextIsBoundExactly` | src/service/main.cpp:365-374 | every file that the walk accepts next links to the last line so far if and only if the hash of that line is read back |
| `LogWalk.NextIsForcedExactly` | src/logging/LogChain.cpp:22-58 | its first link is forced at all if and only if what is read back is not empty |
| `LogWalk.RunFilesReadBack` | src/logging/JsonLinesLogger.cpp:136-199 | after every run each file reads back, except a current one without a line when there is no other |
| `LogWalk.WalkSeesAll` | src/service/main.cpp:351-375 | the lines of the walked files are those on disk, in order |
| `LogWalk.RunIsProtected` | src/service/main.cpp:361-378 | whatever is done to the files after a run, if they still read back, verify and end in the last line, everything from any linked line on is unchanged |
| `LogFiles.FindFiles` | src/service/main.cpp:351-356 | the files are found oldest first, from .99 to the current one |
| `LogFiles.VerifyLog` | src/service/main.cpp:361-378 | the verdict over all files, each checked against the end of the one before it |
| `LogFiles.JsonLinesLogger.Open` | src/logging/JsonLinesLogger.cpp:160-182 | opening continues the chain from what is in the file and takes over its size |
| `LogFiles.JsonLinesLogger.Rotate` | src/logging/JsonLinesLogger.cpp:184-199 | the descending loop of moves is one shift of all files |
| `LogFiles.JsonLinesLogger.WriteLine` | src/logging/JsonLinesLogger.cpp:136-158 | chains, rotates if the line does not fit, appends, and remembers the new size and head |
| `LogReader.ReadLog` | src/service/Daemon.cpp:832-905 | the reply of one request: offset, reset flag and entries, also for a missing file, a failed read, a first load and a rotated file |
| `LogReader.StartsOverExactly` | src/service/Daemon.cpp:858-880 | a request starts over exactly if its offset is negative or beyond the end; beyond the end it is the request from the start |
| `LogReader.ShowsObjectsExactly` | src/service/Daemon.cpp:882-904 | a complete line is shown, without its carriage return, exactly if it is a JSON object |
| `LogReader.WindowFromBoundary` | src/service/Daemon.cpp:858-904 | from a line boundary a request ends on a line boundary and advances exactly if the next line is complete and fits 1 MiB |
| `LogReader.IncrementalReadIsExact` | src/service/Daemon.cpp:858-904 | over any appends and requests each complete line is delivered once and in order |
| `LogReader.CatchesUp` | src/service/Daemon.cpp:858-904 | if lines fit 1 MiB, asking often enough delivers every complete line of the file |
| `LogReader.AdvancesExactly` | src/service/Daemon.cpp:872-886 | a reader ever gets past an offset exactly if its line is complete and fits 1 MiB |
| `LogReader.FirstLoadExactly` | src/service/Daemon.cpp:858-886 | the first load ends on a line boundary exactly if the file is short or its last 256 KiB hold a newline |
| `LogReader.SessionIsExact` | src/service/Daemon.cpp:858-904 | a first load and all later requests together deliver each complete line from the first one shown, once and in order |
| `OsControl.EachAt` | src/actuator/ThreadControl.cpp:32-90 | a pass over the snapshot changes exactly the threads whose call succeeded, by one step each |
| `OsControl.AllSucceededExactly` | src/actuator/ThreadControl.cpp:32-90 | a pass succeeded exactly if a thread was there and every thread still there did as told; threads that ended meanwhile do not count |
| `OsControl.SuspendCatches` | src/actuator/ThreadControl.cpp:32-60 | suspending adds one suspension to every thread of the process |
| `OsControl.ResumeExactly` | src/actuator/ThreadControl.cpp:62-90 | resuming restores all suspend counts if and only if no late thread is suspended by somebody else |
| `OsControl.Os.SuspendAllThreads` | src/actuator/ThreadControl.cpp:32-60 | the loop's table and result counters |
| `OsControl.Os.ResumeAllThreads` | src/actuator/ThreadControl.cpp:62-90 | the loop's table and result counters |
| `OsControl.Os.SetProcessPriority` | src/actuator/PriorityControl.cpp:18-42 | the priority changes exactly on success |
| `StateMachine.CountsStreaks` | src/actuator/StateMachine.cpp:31-50 | since its last transition a machine counts exactly the streaks of high, critical and low samples |
| `StateMachine.MovesOnStreak` | src/actuator/StateMachine.cpp:31-71 | it moves on the very sample that completes a streak, to the state that streak calls for, and counts anew |
| `StateMachine.MovesExactly` | src/actuator/StateMachine.cpp:31-71 | the same by the samples themselves: a machine moves up if the last so many samples were all high or critical, else back to normal if they were all low |
| `StateMachine.HoldSticks` | src/actuator/StateMachine.cpp:52-54 | while it is held no series of samples moves it |
| `StateMachine.NoFlapping` | src/actuator/StateMachine.cpp:31-71 | N*T + M*S + K*R <= L for T throttles, S suspensions and R recoveries in L samples, under any threshold changes, holds and forced states |
| `StateMachine.StreaksAreExclusive` | src/actuator/StateMachine.cpp:34-50 | high and low streaks are never both positive, and a critical streak is also a high one |
| `StateMachine.SuccessIsReal` | src/actuator/StateMachine.cpp:73-122 | a transition reported as successful was carried out on every remaining thread and on the priority |
| `StateMachine.TransitionExactly` | src/actuator/StateMachine.cpp:73-122 | what a transition does to threads and priority whatever the operating system answers, failures included, and when it counts as done |
| `StateMachine.ReportsFollowStates` | src/actuator/StateMachine.cpp:73-122 | every change of state is reported once, as from the old state to the new and with the reading that caused it, and as a success exactly if the process ran and the operating system did as asked; the reports form one chain of states |
| `StateMachine.ActingFollowsControl` | src/actuator/StateMachine.cpp:31-137 | states and counters never depend on whether the OS calls succeed |
| `StateMachine.ProcessStateMachine.Update` | src/actuator/StateMachine.cpp:31-71 | counts, honours the hold, and makes at most one transition |
| `StateMachine.ProcessStateMachine.TransitionTo` | src/actuator/StateMachine.cpp:73-122 | acts on a live process, resets the counters and reports |
| `StateMachine.ProcessStateMachine.Act` | src/actuator/StateMachine.cpp:82-109 | the OS calls of a transition; no priority is set if resuming fails on the way to throttled |
| `StateMachine.ProcessStateMachine.ForceState` | src/actuator/StateMachine.cpp:124-129 | sets the hold and moves unless already there |
| `StateMachine.ProcessStateMachine.ForceRecoverForShutdown` | src/actuator/StateMachine.cpp:131-137 | drops the hold and returns to normal |
| `Actuators.ActKeepsOrder` | src/actuator/StateMachine.cpp:73-137 | when the OS calls succeed every call on a machine keeps its process as its state says, whatever auto-protect holds, and a suspension catches every thread of the snapshot |
| `Actuators.ActKeeps` | src/actuator/StateMachine.cpp:73-137 | when the OS calls succeed every call on a machine keeps threads and priority of a process that auto-protect does not hold as its state says, and a suspension catches every thread of the snapshot |
| `Actuators.ActIsEvent` | src/actuator/StateMachine.cpp:31-71 | every call the manager makes on a machine is one event of the runs that the theorems about a single machine are about |
| `Actuators.RestoresOriginalExactly` | src/actuator/StateMachine.cpp:99-108 | recovery restores the process's own priority exactly if that is the normal one |
| `Actuators.SweepAct` | src/actuator/ActuatorManager.cpp:88-112 | no machine touches another's process, so the order of the loop over the map does not matter |
| `Actuators.ActuatorManager.AddBatchProcess` | src/actuator/ActuatorManager.cpp:32-42 | refuses protected processes, keeps managed ones, and starts a machine otherwise |
| `Actuators.AddedExactly` | src/actuator/ActuatorManager.cpp:32-42 | a process comes under management exactly if it is neither protected nor managed yet, in the normal state with the thresholds in effect; everything else stays |
| `Actuators.ActuatorManager.SetProtectedProcessNames` | src/actuator/ActuatorManager.cpp:44-54 | every managed process that is now protected is recovered and dropped, and no other |
| `Actuators.ActuatorManager.UpdateAll` | src/actuator/ActuatorManager.cpp:88-99 | drops exactly the exited ones, updates each other one once, and says whether one changed state |
| `Actuators.ActuatorManager.ForceRecoverAllForShutdown` | src/actuator/ActuatorManager.cpp:101-105 | every machine is recovered once |
| `Actuators.ActuatorManager.SetConfigAll` | src/actuator/ActuatorManager.cpp:107-112 | the thresholds reach every machine and later ones |
| `Actuators.ActuatorManager.RemoveBatchProcess` | src/actuator/ActuatorManager.cpp:77-79 | only the machine goes, the process is not touched |
| `Daemon.PollIsSafe` | src/service/Daemon.cpp:469-474 | updating all machines keeps every process in order: threads and priority as its machine says, or where the entry of auto-protect says, or left alone |
| `Daemon.ReloadIsSafe` | src/service/Daemon.cpp:200-238 | so does a reload with new thresholds, protection list and names, and no protected process stays managed |
| `Daemon.CommandIsSafe` | src/service/Daemon.cpp:965-1011 | so does every manual command; what it brings under management while auto-protect holds it counts as adopted |
| `Daemon.ReloadLeavesConfigured` | src/service/Daemon.cpp:225-238 | after a reload what is still managed is configured or ad hoc, was managed before, and is not protected |
| `Daemon.ReloadExactly` | src/service/Daemon.cpp:200-240 | a reload keeps exactly the machines that are configured or ad hoc and not protected, as they were but for the thresholds, recovers the processes of the rest and touches no other |
| `Daemon.CommandTakesHold` | src/service/Daemon.cpp:972-988 | an accepted throttle or suspend leaves the process managed, in that state and held |
| `Daemon.ResumeAndRelease` | src/service/Daemon.cpp:992-1003 | resume holds the process in the normal state; release lets the machine go on as it is and drops it exactly if it is ad hoc and normal |
| `Daemon.PollForgetsGone` | src/service/Daemon.cpp:469-474 | a poll drops exactly the exited processes, moves each other machine as its own sample says, and keeps exactly the managed ad-hoc processes |
| `Daemon.RefusedChangesNothing` | src/service/Daemon.cpp:969-991 | a refused command changes nothing |
| `Daemon.AcceptedExactly` | src/service/Daemon.cpp:965-1000 | a command is accepted exactly if the process is not critical and either is managed already or is to be throttled or suspended and is not protected; any other changes nothing |
| `Daemon.CommandsExactly` | src/service/Daemon.cpp:965-1012 | a command for several processes does to each what it would do to it alone, nothing to any other, and is accepted exactly if it would be for each |
| `Daemon.DaemonService.PollMachines` | src/service/Daemon.cpp:469-474 | updates all machines and forgets exactly the ad-hoc processes that are no longer managed |
| `Daemon.DaemonService.DropStale` | src/service/Daemon.cpp:225-238 | collects, recovers and removes exactly the processes whose name is no longer configured |
| `Daemon.DaemonService.ApplyConfig` | src/service/Daemon.cpp:200-238 | thresholds, then the protection list, then stale names |
| `Daemon.DaemonService.HandleTarget` | src/service/Daemon.cpp:965-1003 | one command for one process, and whether it was accepted |
| `Daemon.DaemonService.HandleCommand` | src/service/Daemon.cpp:953-1016 | the command for each matching process in turn; the reply says whether there was one and all were accepted |
| `DaemonRuns.ReachableIsSafe` | src/service/Daemon.cpp:426-481 | in every reachable state of the service with auto-protect, for every process that was not adopted: managed and live it is not held too and is as its machine says (suspended: one extra suspension on exactly the threads of the snapshot; throttled: idle priority, no suspension; normal: neither); held by auto-protect it is where the entry says, strictly below an own priority; any other is left alone. No protected process is managed, no exempt one held |
| `DaemonRuns.ThreadsExactly` | src/actuator/StateMachine.cpp:73-122 | in every reachable state, adoption included, a thread of a live process carries exactly one suspension of ours if the process is suspended and the thread was there at the snapshot, and none otherwise |
| `DaemonRuns.AdoptionExactly` | src/service/Daemon.cpp:965-991 | after a step every managed process is as its machine says, and stays so as long as nothing more is adopted, if and only if it is not a throttle or suspend that takes a running process auto-protect holds under management |
| `DaemonRuns.AdoptsExactly` | src/service/Daemon.cpp:489-508 | such a command adopts that one process; discovery, reloads and everything else adopt none |
| `DaemonRuns.ExemptionLasts` | src/service/AutoProtect.cpp:82-211 | the same over the runs of the whole service |
| `DaemonWorld.StepIsSound` | src/service/Daemon.cpp:426-481 | every step of the service keeps every process in order, with auto-protect and whatever was adopted |
| `DaemonExamples.AdoptionHappens` | src/service/Daemon.cpp:972-991 | a run in which a command adopts a process |
| `DaemonWorld.StepIsUnlisted` | src/service/Daemon.cpp:256-268 | auto-protect never holds a running process whose name is configured: the tick excludes it and a reload gives it back |
| `DaemonWorld.CandidatesExactly` | src/service/Daemon.cpp:476-481 | whom the service lets a tick choose: no configured and no managed process, and every other that auto-protect accepts |
| `DaemonWorld.TickKeepsOrder` | src/service/Daemon.cpp:476-481 | a tick of auto-protect, which excludes managed processes, keeps every process in order |
| `DaemonRuns.ShutdownLeavesNothing` | src/service/Daemon.cpp:340-347 | after the shutdown of any run, adoption included, no live process is left suspended or lowered; one is left demoted only if it came above the normal priority, and then it is on the normal one |
| `DaemonExamples.NeverDemotedExactly` | src/actuator/StateMachine.cpp:99-108 | the service never leaves a process demoted exactly if the process came with at most the normal priority |
| `DaemonExamples.ThrottleThenShutdown` | src/service/Daemon.cpp:340-347 | a throttle by hand and the shutdown leave any process from above on the normal priority |
| `Tracker.ThresholdTracker.Add` | src/telemetry/ThresholdTracker.h:24-39 | counts as a machine does and reports each streak on the sample that reaches its length |
| `Tracker.FiresExactly` | src/telemetry/ThresholdTracker.h:24-39 | a threshold is reported on a reading exactly if the streak that ends with it has just reached its length, each once and in the order high, critical, low |
| `Tracker.ReportsExactly` | src/service/Daemon.cpp:453-471 | over the polls of every run, counted since a machine last changed state |
| `Tracker.TrackerFollowsMachines` | src/service/Daemon.cpp:453-471 | after every poll the tracker's three counters are those of every machine present from the start |
| `Tracker.ActionsMatchEvents` | src/service/Daemon.cpp:453-471 | each automatic throttle, suspension and recovery coincides with the High, Critical or Low event of its poll, and the event that matters in a state never comes without it |
| `Tracker.PollIsJoint` | src/service/Daemon.cpp:453-471 | the poll of the service, with the tracker beside it, is the poll those two theorems are about |
| `Tracker.PollAndReport` | src/service/Daemon.cpp:440-474 | so is the code: thresholds if they moved, report, update all, start again after a change |
| `Adaptive.DenominatorClosed` | src/telemetry/AdaptiveThresholds.cpp:29-40 | the denominator is n^2(n^2-1)/12, so it is positive and the guard against zero never fires |
| `Adaptive.FitIsNormal` | src/telemetry/AdaptiveThresholds.cpp:36-41 | slope and intercept solve the normal equations |
| `Adaptive.FitIsOptimal` | src/telemetry/AdaptiveThresholds.cpp:21-42 | no line has a smaller squared error over the window, and no other line the same |
| `Adaptive.RampIsRecovered` | src/telemetry/AdaptiveThresholds.cpp:21-58 | a linear ramp is recovered exactly and the forecast is its own later value |
| `Adaptive.AdjustedIsLowered` | src/telemetry/AdaptiveThresholds.cpp:60-81 | the thresholds are lowered together, by no more than the cap and the room above recovery |
| `Adaptive.RampLowersByItsRise` | src/telemetry/AdaptiveThresholds.cpp:60-72 | a rising ramp forecast to cross the throttle threshold lowers it by its own rise, within the cap |
| `Adaptive.FlatLoadKeepsThresholds` | src/telemetry/AdaptiveThresholds.cpp:64-72 | without a rising forecast that crosses the threshold, nothing moves exactly if there is no bias or no room |
| `Adaptive.LowersByBestLine` | src/telemetry/AdaptiveThresholds.cpp:60-81 | for every window: with any line of least squared error, the thresholds go down by the bias plus slope times horizon if that line rises and reaches the throttle threshold, within the cap and the room |
| `Adaptive.WindowIsNewest` | src/telemetry/AdaptiveThresholds.cpp:7-19 | over any readings, polls and new settings the window is the newest readings, in order, within its size but at least one, and all that fit as long as the size stays |
| `Adaptive.LoweredKeepsBand` | src/telemetry/AdaptiveThresholds.cpp:69-81 | lowering keeps the order of the thresholds, the escalate gap, and a band of at least 1 if the base has it |
| `Adaptive.EffectiveKeepsBand` | src/service/Daemon.cpp:437-451 | in every run the thresholds in effect keep that band and are within 0.5 of the freshly adjusted ones |
| `Adaptive.MovesByHalf` | src/service/Daemon.cpp:437-451 | a poll puts the adjusted thresholds into effect exactly if the throttle threshold is 0.5 or more away from the one in effect, a reload always |
| `Adaptive.StreaksStayExclusive` | src/service/Daemon.cpp:437-451 | however the thresholds move, no machine ever has a high and a low streak at once, whenever it joins and however it is held, forced and released |
| `Adaptive.AdaptiveThresholds.SetSettings` | src/telemetry/AdaptiveThresholds.cpp:7-12 | keeps the newest readings that fit the new window |
| `Adaptive.AdaptiveThresholds.AddSample` | src/telemetry/AdaptiveThresholds.cpp:14-19 | the window is the last readings, at least one |
| `Adaptive.AdaptiveThresholds.Fit` | src/telemetry/AdaptiveThresholds.cpp:21-42 | the summing loop and the two divisions give the fitted line |
| `Adaptive.AdaptiveThresholds.Adjust` | src/telemetry/AdaptiveThresholds.cpp:74-81 | both upper thresholds minus the offset |
| `Adaptive.EffectiveThresholds.ApplyConfig` | src/service/Daemon.cpp:200-203 | a reload puts the adjusted thresholds into effect at once |
| `Adaptive.EffectiveThresholds.PollThresholds` | src/service/Daemon.cpp:437-451 | a poll does so only if they differ by 0.5 or more |
| `AutoPolicy.CountersAreStreaks` | src/telemetry/AutoProtectPolicy.h:48-51 | the counters are the streaks of system load, whatever the level did |
| `AutoPolicy.LevelMovesOnStreaks` | src/telemetry/AutoProtectPolicy.h:48-60 | protection starts, sinks to idle and ends exactly on completed streaks |
| `AutoPolicy.LevelMovesExactly` | src/telemetry/AutoProtectPolicy.h:48-60 | the same for all settings, by the last so many readings themselves |
| `AutoPolicy.SelectAutoTargets` | src/telemetry/AutoProtectPolicy.h:78-88 | the chosen are the heaviest eligible processes, in order, and one is left out only if all slots are taken by better ones |
| `AutoPolicy.TopIsUnique` | src/telemetry/AutoProtectPolicy.h:78-88 | the choice does not depend on the order of the input |
| `AutoPolicy.AutoProtectState.Update` | src/telemetry/AutoProtectPolicy.h:48-60 | the new level and counters |
| `AutoProtect.AlwaysReversible` | src/service/AutoProtect.cpp:57-211 | at every point of every run of auto-protect alone, also when lowering is refused, unthrottled processes have their own priority, throttled ones are strictly below it with it remembered, none is exempt, and on the normal level or when off nothing is throttled |
| `AutoProtect.EligibleExactly` | src/service/AutoProtect.cpp:137-145 | the candidates are the accessible ordinary processes that are neither throttled nor exempt nor excluded |
| `AutoProtect.ChoiceExactly` | src/service/AutoProtect.cpp:137-157 | the choice of an elevated tick is the heaviest of the processes that may be chosen, in order, as many as there is room for beside those that are throttled and still run |
| `AutoProtect.TickExactly` | src/service/AutoProtect.cpp:82-158 | what an elevated tick does to one process: it is throttled afterwards exactly if it was and still runs, or was chosen and could be lowered; where it stands and what is remembered; and it stays exempt exactly if it was and is in the table |
| `AutoProtect.CalmTickExactly` | src/service/AutoProtect.cpp:82-119 | a tick on the normal level gives every process its remembered priority back, forgets them, and keeps all exemptions |
| `AutoProtect.ExemptionLasts` | src/service/AutoProtect.cpp:82-211 | over any run, a process that was exempted and was in the table of every elevated tick since is exempt and not throttled |
| `AutoProtect.TickKeeps` | src/service/AutoProtect.cpp:82-158 | a tick never raises an entry, keeps the limit, and newly throttles only the top choice |
| `AutoProtect.TickIsTidy` | src/service/AutoProtect.cpp:82-158 | the same whoever else changes priorities; no exempt process is throttled, and nothing is on the normal level or when off |
| `AutoProtect.NeverAboveLimit` | src/service/AutoProtect.cpp:137-157 | for a fixed limit there are never more throttled processes |
| `AutoProtect.EveryoneIsGivenBack` | src/service/AutoProtect.cpp:194-198 | after a last restore every live process is on its own priority |
| `AutoProtect.RestoreExactly` | src/service/AutoProtect.cpp:184-192 | a restore gives the own priority back exactly if the call succeeds |
| `AutoProtect.ConfigureKeeps` | src/service/AutoProtect.cpp:57-65 | switching off restores everything |
| `AutoProtect.ExemptKeeps` | src/service/AutoProtect.cpp:200-211 | an exempted process is restored and not throttled |
| `AutoProtect.AutoProtector.Tick` | src/service/AutoProtect.cpp:82-158 | forgetting, level, restoring, exemptions, escalation and choice, in this order |
| `AutoProtect.AutoProtector.RestoreAll` | src/service/AutoProtect.cpp:194-198 | every entry is restored and erased |
| `AutoProtect.AutoProtector.Restore` | src/service/AutoProtect.cpp:184-192 | one entry is restored, unless its process has exited, and erased |
| `AutoProtect.AutoProtector.Lower` | src/service/AutoProtect.cpp:160-182 | lowers and remembers a process unless it is low enough or refuses, and says whether it did |
| `AutoProtect.AutoProtector.Configure` | src/service/AutoProtect.cpp:57-65 | new settings; switched off, everything is restored and the level reset |
| `AutoProtect.AutoProtector.Exempt` | src/service/AutoProtect.cpp:200-211 | restores the process if needed and exempts it; the answer is always yes |
| `AutoProtect.AutoProtector.ExemptAll` | src/service/Daemon.cpp:257-267 | the processes that a reload configures are restored and exempted, all of them |
| `SessionGuard.RateLimitExactly` | src/service/SessionGuard.h:43-65 | over all runs every interval of the window's length sees at most maxFailures examined wrong keys if and only if the lockout is as long as the window |
| `SessionGuard.LockoutLimitsRate` | src/service/SessionGuard.h:43-58 | the limit, for every run with a clock that does not go back |
| `SessionGuard.ShortLockoutFails` | src/service/SessionGuard.h:52-56 | a run that beats the limit whenever the lockout is shorter |
| `SessionGuard.AcceptedKeyIsLive` | src/service/SessionGuard.h:33-65 | an accepted key was issued within `absolute`, last used within `idle`, and neither replaced nor signed out since |
| `SessionReplies.LiveKeyIsAccepted` | src/service/SessionGuard.h:33-65 | a key within both limits, neither replaced nor signed out, is given out again and, unless the guard is locked, accepted |
| `SessionReplies.ReplyExactly` | src/service/SessionGuard.h:33-76 | every reply follows from the times of the events: locked, wrong with the number of recent wrong keys, expired or accepted, and which key is given out |
| `SessionGuard.NeverAgain` | src/service/SessionGuard.h:33-76 | an expired, replaced or revoked key is never accepted again if keys are fresh |
| `SessionGuard.Equal` | src/service/SessionGuard.h:77-82 | the comparison without early exit is equality |
| `SessionGuard.Guard.CurrentOrNewKey` | src/service/SessionGuard.h:33-41 | keeps a live key and issues a new one otherwise |
| `SessionGuard.Guard.Check` | src/service/SessionGuard.h:43-65 | the answer and the new state, in the order locked, wrong, expired, accepted |
| `SessionGuard.Guard.Revoke` | src/service/SessionGuard.h:68-71 | the key is gone and nothing else changes |
| `Identity.MatchMeans` | src/telemetry/ProcessIdentity.cpp:90-102 | a process matches exactly if nothing that is pinned differs |
| `Identity.CacheRefinesCheck` | src/telemetry/ProcessIdentity.cpp:104-145 | if pid and start time determine a process, the cached filter keeps exactly what the uncached check keeps, in order, after any snapshots and new pins |
| `Identity.CacheIsRightExactly` | src/telemetry/ProcessIdentity.cpp:128-143 | for a pid seen again with the same start time the cached answer is right under all pins if and only if name, image path and signer are the same |
| `Identity.UnreadableStartIsNotEnough` | src/telemetry/ProcessIdentity.cpp:33-45 | whenever a pid is used again by another process while start times are unreadable, some pins are answered wrongly |
| `Identity.ReportedOnce` | src/telemetry/ProcessIdentity.cpp:128-143 | an impostor is reported once while it stays in consecutive snapshots, a genuine process never |
| `Identity.ReportsAreArrivals` | src/telemetry/ProcessIdentity.cpp:116-145 | over any snapshots a pid is reported exactly as often as an impostor shows up under it that was not there in the snapshot before |
| `Identity.ReportedTwice` | src/telemetry/ProcessIdentity.cpp:143-143 | an impostor that leaves the snapshots and comes back is reported again |
| `Identity.ReportedExactly` | src/telemetry/ProcessIdentity.cpp:116-145 | one snapshot reports a pinned process exactly if it is not remembered and fails its check |
| `Identity.IdentityFilter.Filter` | src/telemetry/ProcessIdentity.cpp:116-145 | the loop's output, rejections and new cache |
| `Identity.IdentityFilter.SetExpected` | src/telemetry/ProcessIdentity.cpp:104-109 | new pins forget every cached answer |

## Left out

- SecureChannel.Channel.ClientHandshake: JSON fields are constructor arguments, and unreadable JSON is a frame of another kind.
- SecureChannel.Channel.ServerHandshake: the same; JSON text is not modelled.
- SecureChannel.DeliveryIsPrefix: frames are symbolic terms here; how bytes become frames is the subject of Framing and SendLock.
- SendLock.WireIsWholeFrames: a socket that has reported an error takes no more bytes.
- LogWalk.RunIsProtected: hash collisions among the lines looked at; nothing protects the last line itself, or lines from before chaining.
- LogFiles.VerifierAcceptsEveryRun: writes, moves and deletes succeed, no crash falls inside a write, chained lines are under 64 KiB, and the number of old files does not change; with more than 99 of them the walk looks at the newest 99.
- LogEntries.EntriesComeBack: under the same assumptions; entries are JSON objects as the logger serialises them.
- LogReader.IncrementalReadIsExact: the file is only appended to; a rotation between two requests shows by size alone.
- DaemonRuns.ReachableIsSafe: OS calls succeed, except that auto-protect may fail to lower a process; no other program changes priorities, and when a suspended process is resumed no late thread of it is suspended by others. What holds otherwise is stated by StateMachine.SuccessIsReal, OsControl.ResumeExactly and AutoProtect.RestoreExactly.
- DaemonRuns.AdoptionExactly: in the state reached every live process has a thread, so that a throttle of it can succeed.
- DaemonWorld.StepIsUnlisted: names do not change while a process runs, and a reload finds every running process in its snapshot.
- Daemon.DaemonService.HandleCommand: the text of the command and of the reply, and the log line.
- Tracker.TrackerFollowsMachines: machines that join later and manual commands, after which the counters may differ.
- AutoProtect.AlwaysReversible: runs in which something else changes priorities; those together with the managed processes are in DaemonRuns.
- AutoProtect.NeverAboveLimit: a limit that is reduced while processes are throttled.
- Adaptive.FitIsOptimal: rounding of floating-point numbers.
- SessionReplies.ReplyExactly: a clock that goes back, and keys that repeat.
- Identity.CacheRefinesCheck: how start times, image paths and signers are read.
- Windows calls, sockets, `select` timing, named pipes, the HTTP server, alerts and the Event Log: their answers are parameters.
- Cryptographic strength, key lengths and BCrypt failures: HMAC, AES-GCM and SHA-256 are ideal or parameters.
- A poll that is skipped because a critical process was only just found, the sampling of CPU, memory and I/O, and the choice of the trigger signal.
- Configuration parsing, the controller's rebalancing and coordination back-off, safety classification, status JSON, the dashboard pages and the tools: input validation and reporting around the state machines above.
