# Verification of flyology_postgres

Dafny models of the parts of this repository whose correctness is hardest to
see, with proofs. `dafny verify dfyconfig.toml` checks everything.

**The client session.** `SessionState` gives the effect of every typed call on
the session's bookkeeping as a function; `Session` is the mutable object with
the same branches in the same order, proved against it; `SessionInvariant`
proves one invariant over all runs of typed calls and all backend messages.
The five COPY fields are grouped in one field, `currentCopy`, and the row
description with its flag in another. `SessionHistory` and `SessionTraces` say
the same without that bookkeeping: what a session remembers, and how each call
ends, in terms of the calls made and the messages read before.

**The client with its server.** `Backend` is a PostgreSQL server as chapter
"Frontend/Backend Protocol" of its documentation describes it: it may answer a
command as it likes, discards after an error until Sync, answers each Sync with
one ReadyForQuery, before which committing may have its say or fail, reads
Flush and Sync over inside writable COPY, and may give such a COPY up.
`Pipeline` and `PipelineRuns` put the client, two queues and the server
together as a step system; the invariant speaks of everything still to be
read, so server steps do not change it. `PipelineTheorems` draws the
conclusions, `QueryCycles` carries them over to sessions that also run simple
queries, and `DrainLoop` is the documented loop that reads batches off.
`Scripts`, `Retelling`, `Conversations` and `Discipline` show that the care these
conclusions ask of the application is exactly what is needed, `CopyBatches` and
`CarelessRuns` which batches go wrong without it, and how.

**Driven exchanges.** `Framing` has the frame format and the one-shot reader,
`Transfer` and `TransferRuns` the reader and sender that are driven step by
step, under every schedule of partial reads, partial writes and waits.
`StartupDialogue` says what the client answers to each startup message;
`Startup` (the blocking loop) and `ScopedStartup` (the driven operation) are
both proved against it, so they agree. `StartupAnswers` and `StartupEndings` say
what the replies hold, how servers that keep to the protocol are answered, and
what each ending means.

**BASE_BACKUP.** `BaseBackup` composes the server's message sequence, which can be
read back from it, with the client's state machine.

**The SQL tools.** `SqlPieces` defines token by token how a psql script falls
into pieces; `SqlSplitter` is the byte-by-byte splitter, `SqlLaws` and
`SqlIdempotence` its laws. `SqlTokens` and `SqlScripts` start from the other end:
scripts as they are written are read back. `Members` and `Builders` are the lowering of C
member chains and the linked lists it runs on; `Labels`, `Chunks` and `Catalog`
the sharing, chunking and two-level dispatch of action bodies; `OwnedShape`,
`OwnedConversion`, `OwnedRefusals` and `OwnedParse` the conversion of builder
values into owned trees, which `OwnedMirror` describes from the builder's objects
and lists alone; `Visitors` the walkers; `Schema` the selection of
reachable messages.

Three promises hold on fewer inputs than one might expect. For each there is
an input on which it fails and the exact condition under which it holds.

- The client gives up one Sync when a writable COPY opens. That is right only if
  no more than one was written after its Execute and before its answer, and
  that one only if nothing of the batch came between and the server does not
  give the COPY up by itself; the client permits all of this. `CareIsExact`
  shows that this care is sufficient and necessary, write by write;
  `BatchConservesIff` says the same of whole batches.
  `InterruptedCopyLosesASync` and `SecondSyncStrandsTheSession` are runs in which
  it is missing. The documentation at README.md:316-322 mentions no such
  restriction.
- A lowered read of a union member that was never stored finds what the builder
  has under another name, where C has nothing (`LoweredReadIsReadIff`,
  `FreshConstantReadsItself`).
- Splitting a candidate again does not give it back when it begins, after
  blanks, with a backslash (`SplittingAgainIff`, `CommandAfterStatement`).

## Model

| member | source | states |
|---|---|---|
| `PipelineTheorems.SyncConservation` | src/flyology-postgres-client.adb:43-86 | in every reachable client, channels and server state the client's Sync count is the ReadyForQuery still to be read, in flight or yet to be sent, plus the Syncs a COPY swallowed that were not yet given up; none are left over once the COPY response is read, at most one before; several Syncs for one COPY included, whatever else the server says at Sync, and servers that give a COPY up by themselves |
| `QueryCycles.SessionsAreRuns` | src/flyology-postgres-client.adb:725-806 | in every state of a session that alternates simple queries and batches: between queries it is as in a run of batches from a fresh session, so that all that is proved of those holds, and a query finds nothing of them left; within a query, its COPYs included, no Sync is counted and exactly one ReadyForQuery is to come until it has been read |
| `QueryCycles.QueryIsNeverStuck` | README.md:311-315 | during a query, when nothing is on its way to the client, the client may write COPY data or end the COPY: the two never wait for each other, also after a COPY that failed on either side |
| `QueryCycles.AskKeepsInv` | src/flyology-postgres-client.adb:584-602 | a query is asked only when nothing of the batches is left to be read and the server is in its normal mode |
| `PipelineTheorems.ResponseAttribution` | src/flyology-postgres-client.adb:1002-1029 | the next response's batch is exactly as many Syncs behind the last one written as the client counts outstanding; so the count is zero exactly for the batch whose Sync is unwritten |
| `PipelineTheorems.OpenBatchOwnsItsResponses` | src/flyology-postgres-client.adb:1006-1029 | an error calls for recovery exactly when it belongs to the open batch, and only that batch's responses set or lift a suspension |
| `PipelineTheorems.ReceivedIsServedInOrder` | src/flyology-postgres-client.adb:116-144 | whatever the interleaving, what was read is a prefix of what the server says to the commands one after the other, and all of it once the channels are empty |
| `PipelineTheorems.InterleavingsAgree` | README.md:217-235 | two runs that wrote the same commands, one of which has drained everything, read the same replies, the other a prefix of them |
| `PipelineTheorems.SegmentsAreBatches` | README.md:198-235 | the server's output cut after each ReadyForQuery is, batch by batch, what each batch yields when all earlier ones are drained first |
| `PipelineTheorems.SegmentReadIsBatchDrained` | README.md:198-235 | in every run the k-th segment read is what batch k yields when the batches before it were drained |
| `PipelineTheorems.SegmentsOfPrefix` | src/flyology-postgres-client.adb:116-144 | reading further never changes a finished segment |
| `PipelineTheorems.ClosedBatchYields` | README.md:217-235 | without COPY a batch yields exactly one ReadyForQuery, as its last reply |
| `PipelineRuns.StepKeepsInv` | src/flyology-postgres-client.adb:487-582 | every write, server step, receive and mode change keeps the relation between the client's bookkeeping, what is still to be read, the server's mode and the commands written |
| `PipelineRuns.RunStaysInBalance` | src/flyology-postgres-client.adb:487-582 | the same in every state of every run |
| `PipelineRuns.ReachedNext` | src/flyology-postgres-client.adb:487-582 | the reached states the theorems speak of hold the start and are closed under every enabled action |
| `PipelineRuns.ServingIsInvisible` | README.md:217-235 | a server step changes neither what the client has still to read nor the mode the server ends in |
| `Pipeline.OpeningKeepsBalance` | src/flyology-postgres-client.adb:529-546 | writing a command of a batch keeps the balance, also when its answer opens a writable COPY, when the server gives that COPY up, and when the command follows one and makes it fail |
| `Pipeline.SyncKeepsBalance` | src/flyology-postgres-client.adb:552-560 | writing Sync adds one outstanding ReadyForQuery, or, into a COPY about to open, one Sync to be given up |
| `Pipeline.CopyWriteKeepsBalance` | src/flyology-postgres-client.adb:561-569 | data is written only into a COPY no Sync has ended; finishing or aborting it leaves the server out of COPY mode |
| `Pipeline.ReadyKeepsBalance` | src/flyology-postgres-client.adb:116-144 | ReadyForQuery finds its Sync outstanding and makes the session ready exactly when nothing is left to read |
| `Pipeline.WritableCopyKeepsBalance` | src/flyology-postgres-client.adb:43-86 | a writable COPY opens with its early Sync, if any, retired, and with nothing left to read but the error of a COPY the server has given up |
| `Pipeline.ErrorKeepsBalance` | src/flyology-postgres-client.adb:1017-1026 | an error taken while Syncs are outstanding changes nothing but the row description; otherwise the server is discarding until the next Sync |
| `PostgresBackend.SyncsAreAnsweredOrSwallowed` | README.md:311-326 | each Sync the server reads is answered by one ReadyForQuery or swallowed inside writable COPY |
| `PostgresBackend.DiscardsUntilSync` | README.md:311-326 | after an error the server answers nothing and does nothing until Sync, which commits and ends its answer with one ReadyForQuery |
| `CopyBatches.OneEndForEveryBackendIff` | README.md:316-322 | a batch with its Sync has exactly one end (a ReadyForQuery or a writable COPY that swallows the Sync) for every legal server if and only if the server waits with each such COPY and nothing but Flush follows its Execute |
| `CopyBatches.CopyLastYieldsOneEnd` | README.md:316-322 | the one-end half, for every database and server |
| `CopyBatches.InterruptedCopyYieldsTwoEnds` | src/flyology-postgres-client.adb:43-86 | otherwise a legal server opens the COPY and still answers the Sync |
| `Discipline.CareIsExact` | src/flyology-postgres-client.adb:43-86 | in every state any run reaches outside pipeline mode: of the permitted writes, exactly the careful ones (while an Execute of a writable COPY is unanswered one Sync at most, and none if the server may give the COPY up or anything of the batch follows it) keep the Sync count right with every legal server with which the client has written and read the same so far |
| `Discipline.CarelessLosesCount` | src/flyology-postgres-client.adb:43-86 | for any other write there is such a server, a state with the same conversation, and careful steps after the write that make the count wrong |
| `Discipline.CarefulConserves` | src/flyology-postgres-client.adb:43-86 | after a careful write and careful steps the count is right, in any batch |
| `Discipline.SameConversation` | src/flyology-postgres-client.adb:43-86 | in every such run that leaves a COPY unanswered, what was written and read can be so with a server that now opens it |
| `Conversations.RunIsOpen` | src/flyology-postgres-client.adb:43-86 | in every run outside pipeline mode the server need not have said more than was read while the application may go on with its batch, and an unanswered COPY can still open |
| `Retelling.HearOnBeforeCopy` | src/flyology-postgres-client.adb:43-86 | reading one message more of an unanswered COPY leaves it open |
| `Scripts.ScriptedSays` | src/flyology-postgres-client.adb:43-86 | a server that reads its answers from a script gives every command the scripted answer |
| `CarelessRuns.BatchConservesIff` | README.md:316-322 | a batch keeps the Sync count right in every run with every legal server if and only if the server waits with each writable COPY and nothing but Flush follows its Execute |
| `CarelessRuns.InterruptedCopyLosesASync` | src/flyology-postgres-client.adb:43-86 | otherwise a run with a legal server ends with no Sync outstanding for the client and a ReadyForQuery still to come |
| `CarelessRuns.CopyLastConserves` | README.md:316-322 | the conserving half, for every database and server and any order of writes, server steps and reads |
| `CarelessRuns.SecondSyncStrandsTheSession` | src/flyology-postgres-client.adb:955-977 | a run with a legal server in which a second Sync for COPY OUT, sent before the batch's COPY IN is answered, leaves the session waiting for a ReadyForQuery when nothing is left to come, with every writing call refused |
| `DrainLoop.Drain` | README.md:257-273 | the documented drain loop ends, reads every batch's replies and none beyond, and leaves a session equal to a freshly started one; it raises exactly when a message does not fit a pipelined receive |
| `DrainLoop.RunsEndBehind` | README.md:242-273 | every run that ends pipelined with its batches closed satisfies what the loop requires |
| `SessionInvariant.CallKeepsInv` | src/flyology-postgres-client.adb:487-582 | every typed call with any backend message keeps the invariant; a permitted call never raises Program_Error, so the one in Enter_Copy is unreachable; a refused call changes nothing; awaiting ReadyForQuery keeps meaning an outstanding Sync and no open batch except exactly when a writable COPY opens on several Syncs, which takes a second Sync for one COPY |
| `SessionInvariant.RunKeepsInv` | src/flyology-postgres-client.adb:487-582 | the same over runs of calls; with one Sync for each COPY also that stronger invariant |
| `SessionInvariant.StartedSessionKeepsInv` | src/flyology-postgres-client.adb:487-582 | so for every run of calls on a session that has just started, and all backend messages |
| `ClientSession.Session.EnterCopyState` | src/flyology-postgres-client.adb:43-86 | the effect of a COPY response on the fields: for each of the three responses the state and exactly the directions that are then open |
| `ClientSession.Session.RefusePipelinedCopy` | src/flyology-postgres-client.adb:88-111 | a COPY response in pipeline mode closes the session and resets every field |
| `ClientSession.Session.Complete` | src/flyology-postgres-client.adb:116-144 | the effect of a ReadyForQuery; refused when no Sync is outstanding |
| `ClientSession.Session.Send` | src/flyology-postgres-client.adb:487-582 | which messages are refused in which state, and what writing the others does |
| `ClientSession.Session.Record` | src/flyology-postgres-client.adb:522-581 | the bookkeeping after a message of each kind |
| `ClientSession.Session.SendQuery` | src/flyology-postgres-client.adb:584-602 | effect, refusals, what is written, and that the invariant survives |
| `ClientSession.Session.PrepareStatement` | src/flyology-postgres-client.adb:823-836 | likewise |
| `ClientSession.Session.BindPortal` | src/flyology-postgres-client.adb:838-855 | likewise |
| `ClientSession.Session.DescribeStatement` | src/flyology-postgres-client.adb:857-868 | likewise |
| `ClientSession.Session.DescribePortal` | src/flyology-postgres-client.adb:870-881 | likewise |
| `ClientSession.Session.ExecutePortal` | src/flyology-postgres-client.adb:883-902 | likewise |
| `ClientSession.Session.ResumePortal` | src/flyology-postgres-client.adb:904-921 | likewise |
| `ClientSession.Session.CloseStatement` | src/flyology-postgres-client.adb:923-934 | likewise |
| `ClientSession.Session.ClosePortal` | src/flyology-postgres-client.adb:936-946 | likewise |
| `ClientSession.Session.FlushOutput` | src/flyology-postgres-client.adb:948-953 | likewise |
| `ClientSession.Session.Synchronize` | src/flyology-postgres-client.adb:955-977 | likewise |
| `ClientSession.Session.SendCopyData` | src/flyology-postgres-client.adb:2267-2274 | likewise |
| `ClientSession.Session.FinishCopy` | src/flyology-postgres-client.adb:2276-2280 | likewise |
| `ClientSession.Session.AbortCopy` | src/flyology-postgres-client.adb:2282-2289 | likewise |
| `ClientSession.Session.EnterPipelineMode` | src/flyology-postgres-client.adb:2442-2453 | likewise |
| `ClientSession.Session.ExitPipelineMode` | src/flyology-postgres-client.adb:2455-2472 | likewise |
| `ClientSession.Session.ApplyToQuery` | src/flyology-postgres-client.adb:725-791 | what a message does to a simple query |
| `ClientSession.Session.ApplyToBatch` | src/flyology-postgres-client.adb:979-1054 | what a message does to an extended query, given whether a Sync was outstanding |
| `ClientSession.Session.ApplyToCopy` | src/flyology-postgres-client.adb:2317-2438 | what a message does to a COPY |
| `ClientSession.Session.ReceiveQueryEvent` | src/flyology-postgres-client.adb:793-806 | effect, refusals and invariant of the blocking receives |
| `ClientSession.Session.ReceiveExtendedEvent` | src/flyology-postgres-client.adb:2246-2265 | likewise |
| `ClientSession.Session.ReceiveCopyEvent` | src/flyology-postgres-client.adb:2291-2440 | likewise; CopyData is accepted exactly while the receive side is open or, in COPY BOTH, when it crosses the end of both sides, and CopyDone exactly while the receive side is open |
| `ClientSession.Session.CompleteSimpleQuery` | src/flyology-postgres-client.adb:1120-1133 | completing a scoped query send has the effect of the blocking call |
| `ClientSession.Session.CompletePortalExecute` | src/flyology-postgres-client.adb:1120-1133 | and completing a scoped execute, which assigns nothing, that of the blocking Execute |
| `SessionHistory.ReceivingSince` | src/flyology-postgres-client.adb:43-86 | after any run of calls and messages the receive side is open exactly if a COPY OUT or COPY BOTH response was accepted and since then neither CopyDone, nor the error or the end of the COPY, nor another COPY response was read |
| `SessionHistory.SendingSince` | src/flyology-postgres-client.adb:561-569 | the send side exactly if a COPY IN or COPY BOTH response was accepted and since then neither CopyDone nor CopyFail was written, nor the error or the end of the COPY read |
| `SessionHistory.SyncsAreCounted` | src/flyology-postgres-client.adb:116-144 | the session counts the Syncs written less those that a ReadyForQuery answered or a writable COPY retired |
| `SessionTraces.HistoryIsState` | src/flyology-postgres-client.adb:487-582 | everything a session remembers is determined by its history: for each field, which calls and messages begin it and which end it |
| `SessionTraces.OutcomeIsHistory` | src/flyology-postgres-client.adb:725-1054 | how every call ends after any run: which calls the history admits, and which messages conform to it |
| `SessionTraces.SendIsHistory` | src/flyology-postgres-client.adb:487-521 | which raw messages may be written after any run, that the others change nothing, and that Terminate leaves nothing behind |
| `SessionTraces.BothStreamIsRead` | src/flyology-postgres-client.adb:2317-2350 | once a COPY BOTH response was accepted, of a query or a batch, any number of CopyData and one CopyDone are accepted however writes interleave, and data may be written until the first CopyDone or CopyFail |
| `Framing.EncodeRoundTrip` | src/flyology-postgres-protocol.adb:259-267 | reading an encoded message gives it back, whatever bytes follow, and leaves exactly those |
| `Framing.DecodeRoundTrip` | src/flyology-postgres-framing.adb:82-107 | a frame read is the encoding of its message: no two byte streams carry the same one |
| `Framing.FirstFrameExtends` | src/flyology-postgres-framing.adb:82-107 | what a beginning of the stream decides, accepting or refusing, more bytes do not change |
| `Framing.ProperPrefixIsIncomplete` | src/flyology-postgres-framing.adb:82-107 | nothing short of a whole valid frame decides anything |
| `Framing.WordRoundTrip` | src/flyology-postgres-wire.adb:18-23 | big-endian length words round-trip |
| `Framing.Channel.ReadMessage` | src/flyology-postgres-framing.adb:82-107 | the one-shot reader returns the stream's first frame and stops at its end |
| `Framing.FrameLayout` | src/flyology-postgres-protocol.adb:259-267 | a frame is its tag, four bytes that hold the length of all that follows the tag, highest first, and the payload |
| `Framing.FrameDecision` | src/flyology-postgres-framing.adb:82-107 | a length below 4 or above 16 MiB is refused, and any other waits for exactly as many bytes |
| `Transfer.FrameReader.Step` | src/flyology-postgres-client.adb:1372-1451 | one step takes at most what the current buffer lacks and keeps the byte stream as a whole |
| `Transfer.FrameReader.ConsumedDecides` | src/flyology-postgres-client.adb:1372-1451 | the bytes taken are undecided while the reader waits, a refused length or one whole frame when it stops |
| `Transfer.ReceiveBlocking` | src/flyology-postgres-client.adb:793-806 | the blocking receive: refusal, violation, loss or a message applied |
| `Transfer.EndingIff` | src/flyology-postgres-client.adb:793-806 | a receive is refused exactly in a state in which its kind reads nothing, is lost exactly when no whole frame comes, and delivers a well-formed message exactly when the session accepts it |
| `Transfer.ReceiveOperation.constructor` | src/flyology-postgres-client.adb:1516-1566 | starting a scoped receive checks the state and records whether a Sync is outstanding |
| `Transfer.ReceiveOperation.Drive` | src/flyology-postgres-client.adb:1453-1498 | a step leaves the session alone until the frame is whole and then ends as the blocking receive does; a closed peer ends it without effect |
| `TransferRuns.RunReceive` | src/flyology-postgres-client.adb:1353-1498 | under every schedule of partial reads and waits the scoped receive ends with the session, message and rest of the stream of the blocking one; it has ended once as many steps moved bytes as the frame has |
| `TransferRuns.FrameNeeds` | src/flyology-postgres-framing.adb:82-107 | the bytes a receive waits for are those of its frame |
| `TransferRuns.ReceiveAllBlocking` | src/flyology-postgres-client.adb:793-806 | one blocking receive after another gives the session, the endings and the unread stream of the recursive definition |
| `TransferRuns.ReceiveAllStepwise` | src/flyology-postgres-client.adb:1353-1498 | one scoped receive after another, each under its own schedule, gives the same session and endings and leaves the same bytes unread |
| `TransferRuns.FramesAreApplied` | src/flyology-postgres-framing.adb:82-107 | on the bytes of any list of valid frames the receives apply exactly those messages in order and leave unread exactly the frames they did not take and whatever follows them |
| `TransferRuns.SendOperation.Drive` | src/flyology-postgres-client.adb:1135-1158 | a send step moves the next bytes and changes the session only with the last one |
| `TransferRuns.RunSend` | src/flyology-postgres-client.adb:1120-1210 | under every schedule the message's bytes leave in order, once each, and the session ends as after the blocking call, with the message recorded once |
| `Startup.CompleteStartup` | src/flyology-postgres-client.adb:211-403 | the blocking startup sends, keeps and ends as the message dialogue says |
| `Startup.AnswerAuthentication` | src/flyology-postgres-client.adb:248-352 | its reaction to every authentication request; what it sends, if anything, is one password message that answers the request: the NUL-terminated password, the mechanism with the length-prefixed first SCRAM message, or the final one |
| `Startup.OffersScram` | src/flyology-postgres-client.adb:268-304 | the mechanism loop finds SCRAM-SHA-256 exactly in well-formed lists that name it |
| `StartupDialogue.MechanismsOfEncoding` | src/flyology-postgres-client.adb:268-304 | every list of proper names is accepted as itself |
| `StartupDialogue.EncodingOfMechanisms` | src/flyology-postgres-client.adb:268-304 | and only encodings of lists are accepted |
| `ScopedStartup.RunStartup` | src/flyology-postgres-client.adb:1896-2089 | under every fragmentation of both directions the scoped startup sends the same bytes, leaves the same key data and ends as the same dialogue, hence as the blocking one; it has ended once enough steps moved bytes |
| `ScopedStartup.StartupOperation.ProcessMessage` | src/flyology-postgres-client.adb:1708-1894 | its reaction to every message is the blocking one's, although it wipes its secrets after SASLFinal |
| `ScopedStartup.StartupOperation.Drive` | src/flyology-postgres-client.adb:2027-2089 | a step conserves what is still to be sent, the key data and the ending, and moves bytes unless nothing can arrive |
| `ScopedStartup.StartupOperation.Finish` | src/flyology-postgres-client.adb:1636-1655 | every ending leaves no password, nonce or signature behind |
| `StartupDialogue.ReadyIsAuthentic` | src/flyology-postgres-client.adb:252-258 | a startup that ends ready accepted AuthenticationOk before any SCRAM exchange or after one whose server signature was verified against the one computed from its first message |
| `StartupDialogue.FinalVerifiedIsEarned` | src/flyology-postgres-client.adb:330-343 | the verified phase is reached only through such a check |
| `StartupAnswers.ReplyAnswers` | src/flyology-postgres-client.adb:154-209 | each reply is exactly one password message that answers its request: the password and a NUL and nothing else, the literal mechanism name with the length and the text of the first SCRAM message, or the final SCRAM message |
| `StartupAnswers.QuietIsPassedOver` | src/flyology-postgres-client.adb:368-390 | notices, parameters and unknown messages may come anywhere in a startup and change nothing |
| `StartupAnswers.TrustingServer` | src/flyology-postgres-client.adb:252-262 | with a server that trusts the client the startup succeeds, sends nothing more and keeps the key data announced |
| `StartupAnswers.CleartextServer` | src/flyology-postgres-client.adb:263-264 | with one that asks for the password it succeeds and sends exactly that |
| `StartupAnswers.ScramServer` | src/flyology-postgres-client.adb:265-344 | with one that completes a SCRAM exchange it succeeds and sends exactly the two messages of the exchange |
| `StartupEndings.EndingIsExplained` | src/flyology-postgres-client.adb:345-390 | how a startup ends, from the messages handled: a server error, an unsupported request or a ready session each exactly after the message that says so, a lost connection only when no further frame comes; and the key data is the last announced |
| `StartupEndings.EndingIsFinal` | src/flyology-postgres-client.adb:241-246 | an ending other than a lost connection does not depend on what comes after |
| `BaseBackup.BackupServer.SendPosition` | src/flyology-postgres-replication-base_backups-server_sessions.adb:23-44 | one row with two columns, refused for timeline 0 |
| `BaseBackup.BackupServer.SendTablespace` | src/flyology-postgres-replication-base_backups-server_sessions.adb:69-95 | one row with three columns, refused when only one of OID and location is NULL |
| `BaseBackup.BackupServer.SendEndPosition` | src/flyology-postgres-replication-base_backups-server_sessions.adb:179-188 | the end position, a second CommandComplete and ReadyForQuery |
| `BaseBackup.BackupServer.SendBackup` | src/flyology-postgres-replication-base_backups-server_sessions.adb:46-188 | the primitives in their documented order send the whole reply |
| `BaseBackup.ReplyIsRead` | src/flyology-postgres-replication-base_backups-server_sessions.adb:46-188 | the whole reply read back: a start position, one row of three columns for each tablespace, each stream with its data in order, an end position, CommandComplete and ReadyForQuery |
| `BaseBackup.BackupIsAccepted` | src/flyology-postgres-client.adb:2388-2419 | for any number of tablespaces, streams and chunks, and notices anywhere, a client that picks its receive call by state accepts every message and ends ready |
| `BaseBackup.ReceiveByState` | src/flyology-postgres-client.adb:2388-2419 | the client's loop accepts exactly the sequences so accepted and ends in that state |
| `BaseBackup.QuietIsAccepted` | src/flyology-postgres-client.adb:2421-2423 | notices and parameter changes may be put anywhere |
| `SqlSplitter.SplitSql` | sql/tests/scripts/prepare_regression_corpus.py:149-316 | the byte-by-byte splitter returns exactly the texts of the non-blank pieces of the token-by-token definition; so whatever statements, comments, quotes, psql commands and COPY data a script was written as, it returns the non-blank statements written |
| `SqlSplitter.StepInside` | sql/tests/scripts/prepare_regression_corpus.py:178-235 | one step inside a comment or quote reaches the same end as the token |
| `SqlSplitter.Open` | sql/tests/scripts/prepare_regression_corpus.py:249-287 | which long token opens at a byte |
| `SqlSplitter.SkipCopyData` | sql/tests/scripts/prepare_regression_corpus.py:294-305 | where COPY data ends |
| `SqlLaws.PiecesAreInOrder` | sql/tests/scripts/prepare_regression_corpus.py:149-316 | the pieces are slices of the input, in order and apart; between them lie psql commands and COPY data only |
| `SqlLaws.PlainScriptIsKeptIff` | sql/tests/scripts/prepare_regression_corpus.py:149-316 | the pieces, blank ones included, concatenate to the input if and only if no piece stops at a psql command and nothing follows a COPY from stdin |
| `SqlLaws.WalkIsFirstStop` | sql/tests/scripts/prepare_regression_corpus.py:237-306 | a piece ends at the first semicolon or psql command outside quotes, comments and dollar quotes, and at no other |
| `SqlLaws.BoundariesAreOutside` | sql/tests/scripts/prepare_regression_corpus.py:168-316 | in such a script, backslashes inside quotes and comments included, every boundary is outside every token of the whole input |
| `SqlLaws.LineCommentCloses` | sql/tests/scripts/prepare_regression_corpus.py:178-184 | a line comment ends with its line |
| `SqlLaws.DollarQuoteCloses` | sql/tests/scripts/prepare_regression_corpus.py:227-235 | a dollar quote ends with the first occurrence of its tag |
| `SqlTokens.TokenReadsBack` | sql/tests/scripts/prepare_regression_corpus.py:178-287 | every long token written from its contents, whatever stands around it, is read back as one token: line comments, comments nested to any depth, quoted texts with doubled quotes and escapes, and dollar quotes with any tag |
| `SqlTokens.CommentCloses` | sql/tests/scripts/prepare_regression_corpus.py:186-200 | a block comment ends where the comments nested in it have ended and its own end follows |
| `SqlScripts.CopyDataEnds` | sql/tests/scripts/prepare_regression_corpus.py:294-305 | COPY data ends with the first line that is a backslash and a dot but for blanks |
| `SqlScripts.CopyDataUnended` | sql/tests/scripts/prepare_regression_corpus.py:294-305 | without such a line it goes on to the end of the script |
| `SqlScripts.ScriptReadsBack` | sql/tests/scripts/prepare_regression_corpus.py:149-316 | any script written as statements, psql commands and COPY data, made of tokens and bytes that begin none, is split into exactly the non-blank statements written |
| `SqlScripts.NestedCommentIsKept` | sql/tests/scripts/prepare_regression_corpus.py:186-200 | a script in which a semicolon follows a nested comment inside another is one candidate |
| `SqlLaws.Bundle` | sql/tests/scripts/prepare_regression_corpus.py:355-362 | the spans tile the bundle over the candidates |
| `SqlLaws.SpanFindsCandidate` | sql/tests/scripts/prepare_regression_corpus.py:355-362 | each span finds its candidate |
| `SqlIdempotence.SplittingAgainIff` | sql/tests/scripts/prepare_regression_corpus.py:149-316 | splitting a returned candidate again gives that one candidate if and only if its first byte that is not a blank is not a backslash, for every input |
| `SqlIdempotence.WithoutBackslash` | sql/tests/scripts/prepare_regression_corpus.py:149-316 | so every candidate without a backslash splits into itself |
| `SqlIdempotence.OpeningLocal` | sql/tests/scripts/prepare_regression_corpus.py:274-287 | the search for a closing dollar past a candidate's end changes nothing inside it |
| `SqlIdempotence.CommandAfterStatement` | sql/tests/scripts/prepare_regression_corpus.py:237-247 | the input on which a candidate does not survive |
| `Members.MemberTarget` | sql/tools/generate_native_actions.py:264-295 | the loops over a member chain compute the target and path defined by recursion on the expression |
| `Members.LoweredReadIsReadIff` | sql/tools/generate_native_actions.py:264-295 | for every chain that C can follow and every heap, the lowered read gives the value C reads if and only if the leaf at its end has been stored or no alias of the builder stands in for it |
| `Members.LoweredReadIsRead` | sql/tools/generate_native_actions.py:264-295 | so every stored leaf is read back, through fresh nodes as well |
| `Members.FreshConstantReadsItself` | sql/src/flyology-postgres-sql-native-builders.adb:127-143 | the tag of a constant that holds nothing yet reads as the constant itself |
| `Members.LoweredChainReads` | sql/tools/generate_native_actions.py:264-295 | a chain on a variable reads the builder once for each pointer it follows, under the dotted path between two pointers; on a variable of the parser's stack its first member is no read |
| `Members.LoweredStoreIsStore` | sql/tools/generate_native_actions.py:513-545 | the lowered store yields the image of the heap after the C store, for every chain that C can follow and every heap, the first store into a fresh node included |
| `Members.LoweringDenotes` | sql/tools/generate_native_actions.py:264-295 | the lowered target and path denote the object and path, or the value, that C denotes |
| `Members.JoinIsInjective` | sql/tools/generate_native_actions.py:264-295 | different member paths have different dotted names |
| `Members.RunStore` | sql/tools/generate_native_actions.py:513-545 | run on the builder's linked lists, the lowered store leaves the image of the heap after the C store |
| `Builders.Builder.SetField` | sql/src/flyology-postgres-sql-native-builders.adb:30-97 | setting a field changes that field of that object and nothing else; a value that is no object is refused |
| `Builders.Builder.Field` | sql/src/flyology-postgres-sql-native-builders.adb:99-143 | reading a field gives the value held under its name; else, by name, ival for val.ival of an Integer, sval for val.str of a String and the object itself for val.node of an A_Const; else no value |
| `Builders.FieldByName` | sql/src/flyology-postgres-sql-native-builders.adb:112-143 | of the fields an object does not hold exactly three read as something, each under the C member's literal name |
| `Builders.Builder.NewObject` | sql/src/flyology-postgres-sql-native-builders.adb:16-24 | a new object has no fields and leaves the others alone |
| `Builders.ReplaceSets` | sql/src/flyology-postgres-sql-native-builders.adb:62-72 | replacing the first entry of a name replaces that field of its list |
| `Builders.AppendSets` | sql/src/flyology-postgres-sql-native-builders.adb:74-96 | an entry linked behind the last one adds that field to its list |
| `Labels.CanonicalizeLabels` | sql/tools/generate_native_actions.py:1050-1061 | one pass with a table numbers each label by its first appearance |
| `Labels.NumberedByAppearance` | sql/tools/generate_native_actions.py:1050-1061 | a label is numbered one higher than as many different labels as appear before its first appearance, and keeps that number |
| `Labels.RenderedReads` | sql/tools/generate_native_actions.py:1064-1071 | a rendered label is its kind, H and the body's identifier in sixteen capital hexadecimal digits, and its number in decimal |
| `Labels.RenamedHasSameForm` | sql/tools/generate_native_actions.py:1050-1061 | bodies that a prefix-preserving bijection on labels takes to each other have the same canonical form |
| `Labels.SameFormIsRenamed` | sql/tools/generate_native_actions.py:1050-1061 | bodies with the same canonical form are taken to each other by one |
| `Labels.RenderedIsInjective` | sql/tools/generate_native_actions.py:1064-1071 | rendered labels differ for different pairs of body identifier and label |
| `Chunks.LineBalancedChunks` | sql/tools/generate_native_actions.py:969-999 | as many non-empty chunks as asked for or as there are cases, which concatenate to the cases, each but the last cut close to its target |
| `Chunks.CutChunk` | sql/tools/generate_native_actions.py:985-997 | a chunk overshoots its target by less than half its last case and undershoots it by at most half the next, unless one case is left for each later chunk |
| `Catalog.CatalogBodies` | sql/tools/generate_native_actions.py:1126-1140 | succeeds exactly when no body has the reserved identifier and no two different bodies share one, and then holds exactly the bodies |
| `Catalog.ChunkRanges` | sql/tools/generate_native_actions.py:1281-1290 | each chunk's range ends at its last identifier and begins after the one before |
| `Catalog.RangesAreDisjoint` | sql/tools/generate_native_actions.py:1281-1290 | no two ranges have an identifier in common |
| `Catalog.DispatchIsLookup` | sql/tools/generate_native_actions.py:1234-1307 | range case then chunk case reaches exactly the identifier's body; identifiers outside the catalog do nothing |
| `Catalog.SharedDispatchIsDirect` | sql/tools/generate_native_actions.py:1451-1490 | every version runs its own body for every rule, and nothing for a rule that has none |
| `Catalog.DirectIsFirst` | sql/tools/generate_native_actions.py:1451-1490 | a version's own body for a rule is that of its first case for the rule |
| `Catalog.GenerateCatalog` | sql/tools/generate_native_actions.py:1234-1307 | the same for the catalog as generated, for any weights and number of chunks |
| `OwnedConversion.ConvertNode` | sql/tools/generate_owned_parser.py:582-628 | succeeds exactly when the value converts within the depth bound; then the result owns each new allocation once and is the converted tree, otherwise nothing stays allocated |
| `OwnedConversion.ConvertRecord` | sql/tools/generate_owned_parser.py:465-562 | likewise for a record's fields, with its contents released when a later field fails |
| `OwnedConversion.ConvertSequence` | sql/tools/generate_owned_parser.py:323-376 | likewise for a list and its elements, each of which gives one tree, in order |
| `OwnedConversion.ConvertAccess` | sql/tools/generate_owned_parser.py:563-580 | likewise for a record with a node of its own |
| `OwnedConversion.OwnsMore` | sql/tools/generate_owned_parser.py:323-376 | what two conversions own is separate and together all that was allocated |
| `OwnedParse.ConvertRoot` | sql/tools/generate_owned_parser.py:629-665 | likewise for the statements of a parse result, raw or wrapped: one for each element of the root list, in order, each the mirror of its element |
| `OwnedMirror.NodeIff` | sql/tools/generate_owned_parser.py:582-628 | a node converts to a tree if and only if the tree mirrors it: an empty node for a null value, else a node of the object's type over the trees of its fields, sound and at most 256 deep |
| `OwnedMirror.RecordIff` | sql/tools/generate_owned_parser.py:465-562 | a record's trees are, field by field in order, those of the values its object holds |
| `OwnedMirror.ElementsIff` | sql/tools/generate_owned_parser.py:323-376 | a list's trees are one for each of its elements, in order |
| `OwnedMirror.ParsedIsMirror` | sql/tools/generate_owned_parser.py:629-665 | a parse gives exactly the trees that mirror the root list, statement by statement |
| `OwnedMirror.HeldMirrors` | sql/tools/generate_owned_parser.py:629-665 | followed in the heap from its addresses, an owned parse is that mirror |
| `OwnedRefusals.RefusedIff` | sql/tools/generate_owned_parser.py:323-665 | a value is refused exactly when a chain of conversions from it, through fields, records, lists and their elements, fails a check or goes deeper than the bound |
| `OwnedRefusals.ConvertsIff` | sql/tools/generate_owned_parser.py:323-665 | a conversion succeeds exactly when it is not too deep, its own checks pass, and every conversion it calls for succeeds one level down |
| `OwnedRefusals.EndlessIsRefused` | sql/tools/generate_owned_parser.py:465-562 | a value that lies on a cycle of any kind, a list that contains itself among them, or leads to one, is refused at every depth |
| `OwnedParse.OwnedTree.Parse` | sql/tools/generate_owned_parser.py:672-714 | a parse succeeds exactly when some trees mirror the graph, and then the cells followed from its roots are that mirror, one statement for each element of the root list; it owns exactly those; a failed one leaves nothing allocated |
| `OwnedParse.OwnedTree.Clear` | sql/tools/generate_owned_ast.py:645-653 | clearing frees everything the tree owns, which is everything allocated |
| `OwnedShape.Heap.Release` | sql/tools/generate_owned_ast.py:402-435 | releasing a tree frees each of its nodes once and nothing else |
| `OwnedShape.Heap.ReleaseContents` | sql/tools/generate_owned_ast.py:362-400 | releasing contents frees every owned child |
| `Visitors.Traversal.WalkNode` | sql/tools/generate_owned_visitors.py:135-184 | the walker's callbacks, visitor state and stop flag are those of the recursive definition; once stopped it does nothing |
| `Visitors.Traversal.WalkChildren` | sql/tools/generate_owned_visitors.py:81-109 | likewise for children in field order |
| `Visitors.Traversal.Traverse` | sql/tools/generate_owned_visitors.py:205-214 | a fresh traversal emits the callbacks of the recursive walk of its root, and none for a null root |
| `Visitors.UnstoppedIsBracketed` | sql/tools/generate_owned_visitors.py:135-184 | a walk that is not stopped emits the bracketed depth-first trace of the tree with skipped children left out |
| `Visitors.StoppedIsCutOff` | sql/tools/generate_owned_visitors.py:135-184 | any walk's callbacks are a prefix of those of the same visitor with Stop taken for Continue, all of them unless stopped; a stopped walk ends in the Enter whose control was Stop, and no callback before asked to stop |
| `Schema.ReachableSchema` | sql/tools/generate_ada.py:183-204 | returns exactly the messages and enums in the least closed set, in declaration order, and fails exactly when a reachable field has an unknown type |
| `Schema.SelectAround` | sql/tools/generate_ada.py:183-204 | what is selected keeps the order and the multiplicity of its declarations |
| `Schema.SelectionIsClosed` | sql/tools/generate_ada.py:183-204 | no selected field points outside the selection |
| `Schema.AllReached` | sql/tools/generate_ada.py:189-200 | an empty queue means the least closed set has been found |

## Left out

- PipelineTheorems.SyncConservation: no COPY in pipeline mode, which closes the session, and the care with COPY that CareIsExact shows to be necessary. Which Execute messages may run a COPY the client feeds is told from the message, although for the unnamed portal it depends on the Bind before it. A receive that raises ends the run.
- QueryCycles.SessionsAreRuns: where batches give way to a query and back, the server is taken to have read what was written before, to which it says nothing any more.
- Discipline.CareIsExact: outside pipeline mode only, in which the response to such a COPY closes the session; and after conversations with servers that complete a COPY at CopyDone and not before, as PostgreSQL does.
- PipelineTheorems.SegmentReadIsBatchDrained: batches without COPY, as pipeline mode demands.
- PostgresBackend.SyncsAreAnsweredOrSwallowed: the server speaks only when it reads a command; what it would send by itself counts as part of an answer, the error with which it gives a COPY up included.
- TransferRuns.RunReceive: transport acquisition, deadlines, cancellation and exceptions of the transport itself are not modelled; a closed peer is.
- StartupDialogue.ReadyIsAuthentic: the SCRAM calculations are arbitrary functions that may fail, the nonce is a parameter.
- BaseBackup.BackupServer.SendBackup: payloads of rows and of CopyData messages are not modelled, nor is the manifest upload.
- SqlScripts.ScriptReadsBack: scripts that end inside a token or inside COPY data are not among those written there.
- SqlSplitter.SplitSql: the regular expression for COPY FROM STDIN is an arbitrary predicate on statements.
- Members.LoweredReadIsRead: union members that alias each other, list cells and the special members of cells and of the parse tree are not modelled. A pointer that C could not follow denotes nothing.
- Catalog.SharedDispatchIsDirect: body identifiers are an arbitrary function in place of SHA-256; line wrapping, file writing and the helper catalog, which has the same shape, are not modelled. The items in identifier order are given, as Python's `sorted` gives them. An empty catalog, on which the generator raises, is excluded.
- Labels.CanonicalizeLabels: a body is a list of text and label tokens, already recognized.
- OwnedConversion.ConvertRecord: scalars only pass or fail their check, and an enumeration only has or lacks a value 0; the inlined A_Const fields and the prefixed CREATE TABLE base record are not modelled, and memory exhaustion is not: only converter checks fail.
- Visitors.Traversal.WalkNode: exceptions from callbacks.
- Raw Send_Command and Receive_Message as an interface of their own, with the idle reset by a raw ReadyForQuery.
- TLS upgrade, cancel requests, sockets, clocks and timeouts.
- Message size limits other than that of Send_Query and of frames.
- Interleaving a scoped operation with other calls on the same session.
- The LR engine and scanner, text extraction from C headers, and the generators' output text.
