# TermBridge: the terminal byte stream

TermBridge runs terminals on remote hosts through SSH, and keeps them alive in a small daemon
(`agentd`) so that a client can come back to them. This project models the parts that carry the bytes
and proves what they promise.

**Output.** Terminal output is appended to a ring of fixed size with a write count that never wraps
(`Ring`, `OutputBuffer` on the client, `DaemonBuffer` in the daemon). The ring's ghost `history` is the
unbounded stream, and every read is stated as a slice of it. On top sit pages (`Paging`), the consuming
mark with its settle and wait modes (`OutputEngine`, `Patterns`, `ReadMarks`,
`OverlappingReads`), the lines around a match (`ContextLines`, `ContextBlock`), the last lines (`TailLines`),
and the removal of terminal control sequences.

**Stripping.** `AnsiTokens` is the grammar of text and control sequences in plain byte ranges, after ECMA-48 (5th
edition), sections 5.4 and 5.6; every stream is of that grammar, and stripping it leaves its text.
`AnsiStrip` has the program's lookahead loops and an automaton that reads one byte at a time, between which
the proof goes. `AnsiPaging` shows
that cutting a stream into pages and carrying each cut-off sequence to the next page gives the same
text, and exactly when it does not. `StripConsumer` puts pages, ring and carry together, with other
writers and readers in between.

**Daemon.** `DaemonSession` is a state machine of sessions, PTY read threads, connections and event
pumps in which every lock region and atomic access is one step; a pump's socket write belongs to the
read it sends. `SessionSafety`, `Attachments`, `PumpStream`, `PumpEnds`, `PumpEpochs` and `EpochReads`
prove what every interleaving keeps; `ConnectionProgress` and `PumpProgress` prove what connections and
pumps get done; `DaemonRuns` has the runs that show why the theorems need their conditions. `InputQueue`
and `InputWriter` do the same for input: senders, a bounded queue, a writer thread and one condition
variable; `SendOutcomes` says how calls end and that the writer gets on. `PendingCalls` is the client's
table of unanswered requests, and `CallOutcomes` says how requests end.

**Framing, paths, upload.** `Framing` is the length-prefixed message format and the incremental parser that
reads it. `PathPolicy` and `RelativePaths` are lexical normalisation of remote paths. `Upload` is the upload through a
temporary file, for every way its steps can fail.

Code that updates fields or arrays in place is a class or a method with loops here, proved against a
function; the theorems are about those functions. Protocols between threads are step machines on values,
so that a theorem can speak of every run; the lock regions themselves are methods of `SessionObject`,
`WriterQueue` and `PendingTable`.

## Results that differ from the program's own comments

- `strip_page` is said to give, over all pages, what stripping the whole stream gives. It does exactly when no
  carried sequence directly follows an ESC byte (`AnsiPaging.PagingKeepsText`); two ESC bytes at the end
  of a page are a counterexample (`AnsiPaging.TwoEscapesAtPageEnd`). A sequence of more than 8 KiB can
  leave bytes of itself in the text (`AnsiPaging.OversizedTailLeaksItsEnd`).
- agentd/src/rpc.rs:419-420 promises all output before the terminal event. The pump reads the buffer before it
  reads the state, so the promise holds exactly when nothing was written between the two
  (`PumpStream.TailBeforeTerminal`, `DaemonRuns.TailCanBeLost`).
- agentd/src/session.rs:354 promises the same for a close. The pump reads the buffer before it looks into the map,
  with the same condition (`PumpStream.TailBeforeClosed`, `DaemonRuns.TailCanBeLostOnClose`).
- agentd/src/rpc.rs:419-423 promises exactly one terminal event unless the client detaches or is superseded. A pump
  ends without one exactly when it finds its epoch bumped, finds the session detached, or a write fails
  (`PumpEnds.TerminalEventUnless`). The session can have been detached by another connection, while the
  client is still there and waits (`PumpEnds.WhoseReleaseItWas`, `DaemonRuns.AttachmentEndsInSilence`).
- The mark is meant for one consumer (docs/adr/0003-output-buffer-strategy.md:38, 90), but `read_output` can be called
  again before it returns. A call then moves the mark back exactly when another has stored a greater one since it took the mark
  (`OverlappingReads.StoreMovesBackExactly`, `OverlappingReads.OverlapMovesBack`).
- agentd/src/session.rs:268-269 says that the epoch rules out two pumps side by side. Two attaches of one
  session that overlap can read the same epoch (`DaemonRuns.OverlappingAttachesShareAnEpoch`). Two pumps
  share an epoch exactly when no bump lies between the steps that read it, and both are current exactly
  when none lies after the earlier of them (`EpochReads.SharedEpochsExactly`,
  `EpochReads.OneCurrentExactly`); attaches one after the other are always fine
  (`EpochReads.OnePumpPerEpoch`).
- agentd/src/rpc.rs:194-195 says that a connection's cleanup resets the sessions that this connection still has
  attached. Its list can hold a session that another connection has attached since: exactly when its own last
  attachment had been released before, by another connection or by its own cleanup of an earlier entry
  (`Attachments.CleanupEndsAnothersExactly`, `DaemonRuns.LeftoverEntryEndsAnothersAttachment`,
  `DaemonRuns.SecondEntryEndsAnothersAttachment`).
- The disconnect cleanup at src/infrastructure/persistent.rs:597-612 is meant to fail every pending call. A call
  that registers after the table has been taken is not told, and waits for its time-out
  (`CallOutcomes.DisconnectTellsAllButLate`, `CallOutcomes.CallsCanBeLate`).
- `extract_context` is meant to return the match with its surroundings. It always returns one block of the data,
  and the block holds the match except in two cases: a match that takes in the newline at the end of the
  data, and an empty match on a blank line with nothing but blank lines for context before it
  (`ContextBlock.ContextHoldsMatch`).
- Lexical normalisation keeps relative paths relative (src/application/path_policy.rs:508), except those that come
  back to where they start and end in a slash (`RelativePaths.RelativeBecomesRoot`). It is not idempotent
  exactly on relative paths that leave for good with a segment that starts with `~`
  (`RelativePaths.IdempotentUnlessTildeSurfaces`).

## Model

| member | source | states |
|---|---|---|
| `AnsiStrip.RunAppend` | src/domain/ansi_strip.rs:49-128 | reading two pieces one after the other is reading them together: the mode in between is all that has to be remembered |
| `AnsiStrip.CsiLengthMeaning` | src/domain/ansi_strip.rs:130-156 | a control sequence ends exactly where the automaton is back in text; no end is found both for one cut off and for one with a byte outside the grammar, and then nothing after it is text |
| `AnsiStrip.OscLengthMeaning` | src/domain/ansi_strip.rs:158-188 | an OSC ends at BEL, at ESC backslash, or just before a lone ESC, and none of it is text |
| `AnsiStrip.StrLengthMeaning` | src/domain/ansi_strip.rs:158-188 | the other control strings end at ESC backslash only |
| `AnsiStrip.SequenceMeaning` | src/domain/ansi_strip.rs:274-305 | a complete escape sequence adds no text and what follows is read as from the start; an incomplete one leaves the automaton inside a sequence |
| `AnsiStrip.ConsumeCsi` | src/domain/ansi_strip.rs:139-156 | the two loops over parameter and intermediate bytes find the automaton's end of the sequence |
| `AnsiStrip.ConsumeStringTerminator` | src/domain/ansi_strip.rs:168-188 | the consumed length of a control string, all of it when it is unterminated |
| `AnsiStrip.ConsumeStringUntil` | src/domain/ansi_strip.rs:312-328 | the same scan, with no result for an unterminated string |
| `AnsiStrip.SequenceEnd` | src/domain/ansi_strip.rs:274-305 | where the sequence that starts at an ESC ends, if it does |
| `AnsiStrip.IncompleteTrailingStart` | src/domain/ansi_strip.rs:256-269 | where the sequence begins that the end of the input cuts off |
| `AnsiStrip.SkipSequence` | src/domain/ansi_strip.rs:65-121 | scanning goes on after the sequence, or at the end of the input for one that is not complete |
| `AnsiStrip.StripControlSequences` | src/domain/ansi_strip.rs:49-128 | the program's lookahead stripping equals the automaton's text, on every input |
| `AnsiTokens.StrippingMeansText` | src/domain/ansi_strip.rs:49-128 | for every input: it is a list of tokens and an ending, and stripping it leaves exactly the text tokens, and an ESC that is the very last byte |
| `AnsiTokens.StrippedIsTheText` | src/domain/ansi_strip.rs:49-128 | for every list of tokens and every ending, however it was found: stripping what they spell leaves their text |
| `AnsiTokens.TokenStripped` | src/domain/ansi_strip.rs:65-121 | whatever follows a complete control sequence (ESC `[`, bytes 30-3F, bytes 20-2F, one of 40-7E), control string or escape is stripped as if it stood alone |
| `AnsiTokens.EndingStripped` | src/domain/ansi_strip.rs:130-188 | a sequence that is cut off shows nothing, and neither does anything after a control sequence with a byte outside those ranges |
| `AnsiTokens.TextIsKept` | src/domain/ansi_strip.rs:122-126 | bytes without an ESC are kept as they are |
| `AnsiTokens.PrivateModesAreStripped` | src/domain/ansi_strip.rs:139-156 | ESC `[?25h` leaves what follows it |
| `AnsiPaging.RunStripPage` | src/domain/ansi_strip.rs:216-250 | one page with carried bytes: text before the cut-off sequence, the sequence carried unless it is longer than 8192 bytes |
| `AnsiPaging.TrailingMeaning` | src/domain/ansi_strip.rs:252-269 | what is carried starts at an ESC that begins a sequence without an end; with nothing carried the automaton is in text |
| `AnsiPaging.PageMeaning` | src/domain/ansi_strip.rs:227-250 | a page returns the automaton's text, and one ESC more exactly when its cut-off sequence follows an ESC; the carried bytes stand for the state of the whole |
| `AnsiPaging.PagingKeepsText` | src/domain/ansi_strip.rs:207-250 | for any pages whose tails fit: the page texts and the stripped last tail are the stripped whole if and only if no cut-off sequence follows an ESC; otherwise they are longer by one byte for each that does |
| `AnsiPaging.TwoEscapesAtPageEnd` | src/domain/ansi_strip.rs:59-63 | a page that ends in two ESC bytes shows one that the whole stream does not |
| `AnsiPaging.DroppedTailStartsAfresh` | src/domain/ansi_strip.rs:238-242 | after any dropped sequence the pages are read as if nothing had come before; the dropping page itself shows the text before the sequence |
| `AnsiPaging.OversizedTailLeaksItsEnd` | src/domain/ansi_strip.rs:238-244 | for every OSC longer than the limit: it is given up and its terminator on the next page becomes text |
| `AnsiPaging.MalformedCsiIsGivenUp` | src/domain/ansi_strip.rs:150-155 | for every malformed control sequence: the whole stream has no text after it, and paging resumes once it has outgrown the limit |
| `Ring.BufferInner.Write` | src/domain/output.rs:106-141 | any write, empty, wrapping or longer than the ring, appends exactly its bytes to the history and keeps the representation |
| `Ring.BufferInner.WriteWrapping` | agentd/src/buffer.rs:91-103 | the copy loop for data shorter than the ring |
| `Ring.BufferInner.ReadRange` | agentd/src/buffer.rs:155-178 | the wrapping read loop returns exactly the asked slice of the history |
| `OutputBuffer.OutputRingBuffer.constructor` | src/domain/output.rs:84-103 | the size is clamped to 64 KiB and 32 MiB |
| `OutputBuffer.OutputRingBuffer.Write` | src/domain/output.rs:106-141 | appends to the history |
| `OutputBuffer.OutputRingBuffer.IsTruncated` | src/domain/output.rs:149-158 | true exactly for a cursor that has been overwritten or is not yet written |
| `OutputBuffer.OutputRingBuffer.ReadSinceInner` | src/domain/output.rs:242-276 | the history from the cursor, or from the oldest byte held, for at most the limit, and where it ends |
| `OutputBuffer.OutputRingBuffer.ReadSinceMax` | src/domain/output.rs:169-179 | that page with exact truncation and has-more flags |
| `OutputBuffer.OutputRingBuffer.Tail` | src/domain/output.rs:183-211 | the last lines of everything the ring holds |
| `TailLines.TailIsABlock` | src/domain/output.rs:181-211 | a tail is one block of the data: from the start of the n-th last line to the end, without the final newline |
| `DaemonBuffer.RingBuffer.constructor` | agentd/src/buffer.rs:53-69 | size zero means 10 MiB, anything else at least 64 KiB |
| `DaemonBuffer.RingBuffer.Write` | agentd/src/buffer.rs:77-104 | appends to the history |
| `DaemonBuffer.RingBuffer.ReadSince` | agentd/src/buffer.rs:111-135 | the history from the cursor or the oldest byte held; beyond the end an empty slice that keeps the asked start |
| `DaemonBuffer.RingBuffer.CursorStart` | agentd/src/buffer.rs:143-146 | the oldest position held |
| `DaemonBuffer.RingsAgree` | agentd/src/buffer.rs:111-135 | both rings give the same bytes for every cursor, and the same truncation exactly up to the end; beyond it the daemon's start lies after its end |
| `Paging.PageIsSlice` | src/domain/output.rs:169-179 | a page ends at its new cursor, starts at its cursor or, exactly when truncated, at the oldest byte, and leaves more only when full |
| `Paging.PagingCovers` | src/domain/output.rs:169-179 | without writes, following the new cursor ends at the end of the history, the pages together are the unbounded read, only the first can be truncated |
| `Paging.ZeroPageStalls` | src/domain/output.rs:169-179 | with page size zero a reader that is behind never gets on |
| `Paging.UntruncatedPagesJoin` | src/domain/output.rs:242-276 | pages without a skip, however the history grows between them, are one slice |
| `Paging.GrowingPaging` | src/domain/output.rs:169-179 | with writes between pages: bytes delivered and bytes skipped add up to the way of the cursor, and none is skipped if and only if no page is flagged as truncated |
| `ContextLines.RunExtractContext` | src/domain/output.rs:705-766 | the program's context lines, pushed with a newline only onto something |
| `ContextBlock.ContextIsABlock` | src/domain/output.rs:705-766 | for every match, empty or with newlines at its ends, and every number of context lines, the result is one block of the data |
| `ContextBlock.NoContextMeaning` | src/domain/output.rs:705-711 | without context lines the block goes from just after a newline to just after the next one from the end of the match on |
| `ContextBlock.ContextHoldsMatch` | src/domain/output.rs:705-766 | the block reaches from before the start of the match to after its end if and only if no context is asked for, or the match neither takes in the final newline of the data nor is empty among blank lines |
| `ContextBlock.FinalNewlineIsLost` | src/domain/output.rs:705-766 | a match of a final newline that is not returned |
| `ContextBlock.BlankLineIsLost` | src/domain/output.rs:724-729 | an empty match that lies before the block returned |
| `ContextBlock.LinesBackCounts` | src/domain/output.rs:732-744 | the block starts at a line start, the given number of lines before the match or at the start of the data |
| `ContextBlock.LinesOnCounts` | src/domain/output.rs:751-764 | the block ends at a line end, the given number of lines after the match or at the end of the data |
| `ContextBlock.OnlyBlankLinesSkipped` | src/domain/output.rs:724-729 | what is left out between the first context line and the block is newlines only |
| `Patterns.FindSubslice` | src/domain/output.rs:780-785 | the leftmost occurrence, or there is none |
| `Patterns.MatchPattern` | src/domain/output.rs:677-702 | the regular expression's match in bytes that are UTF-8, or else the leftmost plain occurrence |
| `Utf8Meaning.ValidUtf8Exactly` | src/domain/output.rs:686-696 | the bytes given to a regular expression are exactly the encodings of Unicode characters |
| `OutputEngine.OutputEngine.MarkToLatest` | src/domain/output.rs:393-396 | everything written so far is skipped |
| `OutputEngine.OutputEngine.ReadSinceCursor` | src/domain/output.rs:406-461 | a page of the history; only the carry may change, never the mark |
| `OutputEngine.OutputEngine.StripSincePageStep` | src/domain/output.rs:471-486 | carried bytes are used and replaced exactly for a read that continues the last page and was not overwritten |
| `OutputEngine.OutputEngine.ReadTail` | src/domain/output.rs:433-446 | a peek at the last lines, at most 100, stripped on their own when asked for |
| `OutputEngine.OutputEngine.ReadWithSettle` | src/domain/output.rs:590-650 | shows all that is unread at the first poll that settles, or at the deadline when none does, and moves the mark by its length |
| `OutputEngine.OutputEngine.PollUntilSettled` | src/domain/output.rs:598-648 | stops at the first poll with a prompt, or with output that has not changed for 300 ms |
| `SettleMeaning.SettlesExactly` | src/domain/output.rs:613-645 | a poll settles if and only if there is unread output and it ends in a prompt, or has been the same since some poll or the start, at least 300 ms ago, and was different before |
| `SettleMeaning.FreshOutputIsNotSettled` | src/domain/output.rs:626-634 | output that came 50 ms ago has not settled 450 ms into the read; 300 ms after it came it has |
| `OutputEngine.OutputEngine.ScanForMatch` | src/domain/output.rs:511-586 | stops at the first scan that finds a match; no earlier scan did |
| `OutputEngine.OutputEngine.ReadWithWaitFor` | src/domain/output.rs:490-586 | a hit returns the context of the first match and moves the mark past everything written; a timeout returns what is unread and leaves the mark |
| `ReadMarks.SettleConsumes` | src/domain/output.rs:604-636 | a settle read uses everything up exactly when its mark was not overwritten |
| `ReadMarks.MarkStaysInHistory` | src/domain/output.rs:388-396 | over any calls that do not overlap, with writes between and within them, the mark never goes back nor past the end |
| `ReadMarks.SettleReadsAdjoin` | src/domain/output.rs:590-650 | settle reads with marks intact are together one slice of the history from the first mark to the last, with any writes and peeks between |
| `ReadMarks.TruncatedSettleRepeats` | src/domain/output.rs:604-609 | whenever a mark was overwritten, the next settle read delivers bytes again |
| `ReadMarks.WaitHitDiscards` | src/domain/output.rs:511-515 | after a hit nothing written by then is delivered by a settle read |
| `OverlappingReads.StoreMovesBackExactly` | src/domain/output.rs:590-636 | in every interleaving of calls the mark stays inside the history; a store moves it back if and only if another call has stored since this one took the mark, and the last mark so stored is greater |
| `OverlappingReads.SerialMarksNeverMoveBack` | src/domain/output.rs:511-515 | when no call begins before the one before it is over, no store moves the mark back |
| `OverlappingReads.OverlapMovesBack` | src/domain/output.rs:590-636 | a run in which the mark goes from 5 back to 3 |
| `StripConsumer.ReaderGetsItsSlice` | src/domain/output.rs:406-486 | in every run in which a reader is undisturbed its texts are those of its pages in order, and its pages are one slice of the history |
| `StripConsumer.StrippedReadRefinesHistory` | src/domain/output.rs:413-486 | end to end: such a reader gets the stripped slice of the raw history if and only if no cut-off sequence follows an ESC |
| `StripConsumer.StatelessForever` | src/domain/output.rs:471-486 | once the carried position is overwritten, in every run the carry never changes and every page is stripped on its own |
| `DaemonSession.SessionObject.Claim` | agentd/src/session.rs:252-267 | attach takes a created or detached session over and refuses the others, in place |
| `DaemonSession.SessionObject.Attach` | agentd/src/session.rs:246-272 | attach as a whole: refused without a change, or taken over with the next epoch and the slice from the cursor as the reply |
| `DaemonSession.SessionObject.Release` | agentd/src/session.rs:275-292 | detach releases an attached session and refuses the others, in place |
| `DaemonSession.SessionObject.ReadLoop` | agentd/src/session.rs:426-489 | the read thread as a whole: all output goes to the history in order, and the session ends Lost with the terminal info, never Lost without it |
| `SessionSafety.RunKeepsSessions` | agentd/src/session.rs:246-292 | over every run sessions only evolve: history grows until the end, the epoch never falls, terminal info is set once |
| `SessionSafety.LostIsFinal` | agentd/src/session.rs:446-489 | Lost has terminal info, and from then on state, info and history never change; Created is never entered again |
| `SessionSafety.ReferencesStayValid` | agentd/src/rpc.rs:146-200 | in every run all tasks refer to known sessions |
| `SessionSafety.NoAttachmentIsOrphaned` | agentd/src/rpc.rs:146-200 | in every reachable state an attached registered session is held by a connection that is not gone, whoever attached and detached it |
| `SessionSafety.ReattachAfterCleanup` | agentd/src/rpc.rs:193-198 | with all connections gone, every registered session that is not lost can be attached by a new one |
| `ConnectionProgress.AttachSucceeds` | agentd/src/rpc.rs:244-278 | in every state an idle connection attaches a registered session that is neither attached nor lost in seven steps: state, next epoch, entry in its list, and a pump whose reply starts at the cursor asked for |
| `ConnectionProgress.AttachIsRefused` | agentd/src/session.rs:252-262 | an attach of an attached or lost session changes nothing at all |
| `ConnectionProgress.DetachSucceeds` | agentd/src/rpc.rs:284-288 | a detach releases the session and takes every entry of it out of the list, and nothing else changes |
| `ConnectionProgress.DetachIsRefused` | agentd/src/session.rs:286-290 | a detach of a session that is not attached changes nothing at all |
| `ConnectionProgress.CloseSucceeds` | agentd/src/rpc.rs:369-381 | a close takes the session out of the map and out of the list |
| `ConnectionProgress.UnknownIsRefused` | agentd/src/session.rs:389-392 | whatever is asked of a session that is not in the map changes nothing |
| `ConnectionProgress.AttachOfClosedFails` | agentd/src/rpc.rs:252-254 | a session closed in the middle of its attach gets no entry and no pump |
| `ConnectionProgress.CleanupFinishes` | agentd/src/rpc.rs:193-200 | by its own steps a cleanup comes to its end, and none of the registered sessions in its list is attached then; no session changes but from attached to detached |
| `Attachments.CleanupEndsAnothersExactly` | agentd/src/rpc.rs:193-198 | in every run a cleanup that releases an attached session ends another connection's attachment if and only if its own last one had been released, by another connection or by its cleanup of an earlier entry |
| `PumpStream.UntruncatedStreamIsSlice` | agentd/src/rpc.rs:438-455 | events without truncation are together one slice of the history |
| `PumpStream.PumpStreamIsCorrect` | agentd/src/rpc.rs:244-278 | in every run the reply is a history slice from the cursor asked for, or from a later one exactly when flagged as truncated; the events of its pump are slices in order inside the history, each adjoining the last unless flagged; a terminal event can only be the last |
| `PumpEnds.TerminalEventUnless` | agentd/src/rpc.rs:419-487 | in every run a stopped pump has sent a terminal event if and only if it did not find its epoch bumped, nor the session detached, and no write failed |
| `PumpEnds.WhoseReleaseItWas` | agentd/src/rpc.rs:478-479 | in every run a pump that finds its session detached stops in silence; a connection that still lists the session and is not leaving had its attachment released by another |
| `PumpProgress.PumpKeepsUp` | agentd/src/rpc.rs:433-486 | in every reachable state five steps of its own bring a current pump of an attached session to the end of the history, and it is still running |
| `PumpProgress.PumpTellsTheEnd` | agentd/src/rpc.rs:464-477 | with the session lost, at most six steps of its own make the pump send its terminal event and stop, and its stream is complete if it had still to read |
| `PumpProgress.PumpTellsTheClose` | agentd/src/rpc.rs:456-462 | the same for a closed session, in at most four steps |
| `PumpStream.TailBeforeTerminal` | agentd/src/rpc.rs:433-487 | a pump that tells the end tells what the read thread set, never its fallback; its stream reaches the end of the final history, and without gaps carries every byte from the start of the reply, if and only if nothing was written between its buffer read and its state read |
| `PumpStream.TailBeforeClosed` | agentd/src/rpc.rs:456-462 | a pump that tells of a close has sent all that was there at its look into the map if and only if nothing was written between its buffer read and that look; the session is out of the map for good |
| `EpochReads.SupersededPumpStops` | agentd/src/rpc.rs:433-487 | in every continuation a superseded pump sends at most the rest of its iteration: one piece of data, then one terminal event |
| `EpochReads.SharedEpochsExactly` | agentd/src/rpc.rs:250-256 | in every run two pumps of a session carry the same epoch if and only if no bump of it lies between the two steps that read it |
| `EpochReads.SupersededExactly` | agentd/src/rpc.rs:434-437 | in every run a pump is superseded if and only if a bump lies after the step that read its epoch |
| `EpochReads.OneCurrentExactly` | agentd/src/session.rs:267-271 | in every run at most one of two pumps of a session is current if and only if a bump lies after the earlier of the two reads |
| `EpochReads.OnePumpPerEpoch` | agentd/src/rpc.rs:250-273 | when attaches of a session do not overlap, of any two pumps at least one is superseded, in every reachable state |
| `DaemonRuns.OverlappingAttachesShareAnEpoch` | agentd/src/session.rs:267-271 | a run with overlapping attaches ends with two live pumps of the current epoch |
| `DaemonRuns.SharedEpochBothSuperseded` | agentd/src/session.rs:267-271 | a run in which two pumps share an epoch and neither is current |
| `DaemonRuns.LeftoverEntryEndsAnothersAttachment` | agentd/src/rpc.rs:193-198 | a run in which a connection's cleanup ends an attachment another connection has made since |
| `DaemonRuns.SecondEntryEndsAnothersAttachment` | agentd/src/rpc.rs:193-198 | a run in which the leftover entry is the connection's own second one |
| `DaemonRuns.TailCanBeLost` | agentd/src/rpc.rs:438-476 | a run in which the terminal event is sent although the last bytes never are |
| `DaemonRuns.TailCanBeLostOnClose` | agentd/src/rpc.rs:439-462 | a run in which the close is told although the last bytes never are sent |
| `DaemonRuns.AttachmentEndsInSilence` | agentd/src/rpc.rs:478-479 | a run in which a pump stops without a terminal event while its client is still attached in its own eyes |
| `InputQueue.QueueStaysOk` | agentd/src/pty.rs:341-368 | pushing what fits, popping and discarding keep the count equal to the queued bytes and below 256 KiB |
| `InputQueue.WriterQueue.TryPush` | agentd/src/pty.rs:347-365 | a chunk is accepted exactly when the queue is open and it fits |
| `InputQueue.WriterQueue.TryPop` | agentd/src/pty.rs:406-423 | the oldest chunk comes out; a closed queue is discarded |
| `InputQueue.ChunksOf` | agentd/src/pty.rs:346 | the chunks are non-empty, at most 64 KiB, and together the data |
| `InputQueue.ChunksAreFull` | agentd/src/pty.rs:346 | every chunk but the last has 65536 bytes |
| `InputQueue.WriteChunk` | agentd/src/pty.rs:427-448 | short writes add up to the chunk: a prefix is written, all of it unless a write fails for good |
| `InputWriter.WriterStaysOk` | agentd/src/pty.rs:341-451 | the invariant of senders, queue and writer over every run |
| `SendOutcomes.NoLostWakeUp` | agentd/src/pty.rs:402-423 | in every reachable state a sleeping writer with input has a notification still to come, and a parked sender's chunk does not fit |
| `SendOutcomes.InputIsConserved` | agentd/src/pty.rs:341-451 | accepted chunks are, in order, those taken, discarded after the close, and queued; written bytes are prefixes of those taken, in order; without loss, written, in hand and queued together are the accepted input |
| `SendOutcomes.CallsKeepOrder` | agentd/src/pty.rs:341-368 | of each call a prefix of whole chunks is accepted in order: all when it returns, a proper one when it fails |
| `SendOutcomes.CallsFailExactly` | agentd/src/pty.rs:347-361 | in every run a call has failed if and only if it once found the queue closed, or found past its deadline that its chunk would exceed 262144 bytes |
| `SendOutcomes.LockDecides` | agentd/src/pty.rs:347-365 | under the lock a chunk is accepted exactly when the queue is open and has room, deadline or not; else the accepted prefix stays, and the call waits if its deadline has not passed |
| `SendOutcomes.WaitingEnds` | agentd/src/pty.rs:355-360 | a waiting call is let go by its time-out with its prefix, and fails if there is still no room |
| `SendOutcomes.CloseLetsAllGo` | agentd/src/pty.rs:380-384 | after a close nobody waits and every call that comes to the lock fails |
| `SendOutcomes.SendSucceeds` | agentd/src/pty.rs:341-368 | with room for all its chunks a call returns by its own steps, its chunks queued in order behind the others |
| `SendOutcomes.WriterDrains` | agentd/src/pty.rs:402-449 | a running writer of an open queue writes all that is queued, in order, by its own steps |
| `SendOutcomes.WritesOne` | agentd/src/pty.rs:417-421 | taking a chunk out wakes everyone who waits for room |
| `SendOutcomes.CloseEndsTheWriter` | agentd/src/pty.rs:409-415 | a running writer that finds the queue closed discards it, ends, and wakes everyone |
| `SendOutcomes.WriterIsNeverStuck` | agentd/src/pty.rs:402-449 | in every reachable state the writer can go on by itself, or a notification that is still to come wakes it |
| `PendingCalls.PendingTable.Register` | src/infrastructure/persistent.rs:297-298 | a fresh channel under the request id |
| `PendingCalls.PendingTable.DispatchResponse` | src/infrastructure/persistent.rs:571-579 | a response goes to the channel under its id and takes it out of the table |
| `PendingCalls.PendingTable.DeliverData` | src/infrastructure/persistent.rs:629-638 | output goes to every subscriber whose channel is not full, in order, and is lost for the others |
| `PendingCalls.PendingTable.HandleDisconnect` | src/infrastructure/persistent.rs:598-618 | closes, empties the table and the list of subscribers, answers every channel that was in the table with an error, and ends every subscriber's channel behind what is queued |
| `CallOutcomes.AnswersAreTheCallsOwn` | src/infrastructure/persistent.rs:278-340 | in every run a call gets the response with its own id, which no other call has, and the arm for a dropped channel is never reached |
| `CallOutcomes.NoEntryLeaks` | src/infrastructure/persistent.rs:297-327 | the table holds only calls in progress or abandoned: it is empty once all have returned |
| `CallOutcomes.DisconnectTellsAllButLate` | src/infrastructure/persistent.rs:598-612 | when the reader is gone a waiting call is without an answer if and only if it registered after the table was taken |
| `CallOutcomes.LateCallsTimeOut` | src/infrastructure/persistent.rs:283-327 | in every continuation such a call ends by timing out or by a failed write, never by an answer |
| `CallOutcomes.CallsCanBeLate` | src/infrastructure/persistent.rs:283-298 | a run with such a call |
| `CallOutcomes.AnswersWereSent` | src/infrastructure/persistent.rs:571-579 | in every run a call returns only a body that the daemon has sent under its id |
| `CallOutcomes.RefusedExactly` | src/infrastructure/persistent.rs:283-287 | in every run a call is refused if and only if it begins on a closed connection |
| `CallOutcomes.ClosedExactly` | src/infrastructure/persistent.rs:598-600 | in every run the connection is closed if and only if the reader has met its end or a call a failed write |
| `CallOutcomes.CallRegisters` | src/infrastructure/persistent.rs:289-309 | on an open connection a new call comes to wait under the next id |
| `CallOutcomes.ResponseReachesItsCall` | src/infrastructure/persistent.rs:312-335 | in every reachable state with the reader at work a response makes the call that waits for it return that body, and touches no other |
| `CallOutcomes.TimeOutLeaves` | src/infrastructure/persistent.rs:320-326 | a call that times out leaves the table |
| `Framing.DaemonReader.TryParseMsg` | src/infrastructure/persistent.rs:547-568 | takes exactly one complete message out of the buffer, or leaves it |
| `Framing.DaemonReader.OnData` | src/infrastructure/persistent.rs:504-530 | one chunk: every message it completes is dispatched, in order |
| `Framing.ReadMsg` | agentd/src/protocol.rs:251-269 | the blocking reader decides as the incremental parser does, the end of the stream being an error where that one waits |
| `Framing.ParseExtends` | src/infrastructure/persistent.rs:547-568 | more bytes never change a decision |
| `Framing.HeaderDecides` | src/infrastructure/persistent.rs:547-568 | for all four bytes of a length, most significant first: zero and more than 134217728 are errors, else that many bytes are awaited, checked and returned |
| `Framing.LengthIsBigEndian` | agentd/src/protocol.rs:235-242 | 66051 bytes are preceded by 0, 1, 2, 3 |
| `Framing.ChunkingDoesNotMatter` | src/infrastructure/persistent.rs:504-568 | messages, leftover and error depend on the concatenation only, for every chunking of every stream; the leftover stays below a full frame |
| `Framing.DrainEncoded` | agentd/src/protocol.rs:235-242 | encoded messages and then any bytes: the messages, then what those bytes give |
| `Framing.EncodedStreamRoundTrip` | src/infrastructure/daemon_proto.rs:290-324 | encoded messages come out as they went in, whatever the chunks, with nothing left over |
| `Framing.RoundTripExactly` | agentd/src/protocol.rs:235-269 | a message survives if and only if its length is from 1 to 128 MiB |
| `PathPolicy.NormalizeRemotePathLexical` | src/application/path_policy.rs:510-552 | the loop over segments computes the normal form |
| `PathPolicy.WalkCancels` | src/application/path_policy.rs:527-541 | pushing and popping from the left equals cancelling from the right, for rooted and relative paths: a name survives unless a later `..` takes it away, and a `..` that cancels nothing is clamped at the root, or leads the relative path |
| `PathPolicy.OneSegmentMore` | src/application/path_policy.rs:527-541 | what one more segment does at the end of any path, told by its spelling |
| `PathPolicy.TildeIsAName` | src/application/path_policy.rs:510-526 | `~/r` means `/~/r`, and `~user` means `/~/user` |
| `PathPolicy.RenderMeaning` | src/application/path_policy.rs:542-551 | how kept segments are written, with the slash in front and at the end |
| `Lines.JoinOfSplit` | src/application/path_policy.rs:525 | splitting loses nothing: joining gives the input back |
| `PathPolicy.RootedPathsAreCanonical` | src/application/path_policy.rs:498-552 | a path that starts with `/` or `~` becomes a slash and its uncancelled names, without empty, `.` or `..` segments, its trailing slash kept |
| `PathPolicy.RootedIsIdempotent` | src/application/path_policy.rs:510-552 | normalising such a path twice is normalising it once |
| `RelativePaths.RelativePathsKeepTheirClimb` | src/application/path_policy.rs:534-541 | a relative path keeps its uncancelled names behind the `..` that cancel nothing |
| `RelativePaths.KeptByCounting` | src/application/path_policy.rs:527-541 | by counting names and `..` in the path: it keeps nothing when it comes back to its start, begins with `..` when it climbs above it, and else begins with the segment with which it leaves for good |
| `RelativePaths.IdempotentUnlessTildeSurfaces` | src/application/path_policy.rs:510-552 | for all paths: idempotent if and only if it is not a relative one that leaves for good with a segment that starts with `~` |
| `RelativePaths.RelativeBecomesRoot` | src/application/path_policy.rs:543-551 | a relative path becomes a rooted one if and only if it comes back to its start and ends in a slash, and then it is `/` |
| `RelativePaths.DotSlashIsRoot` | src/application/path_policy.rs:543-551 | `./` becomes `/` |
| `RelativePaths.DotTildeTwice` | src/application/path_policy.rs:511-526 | `./~x` becomes `~x`, and that `/~/x` |
| `PathPolicy.UnderRemoteMeansSegments` | src/application/path_policy.rs:420-435 | for canonical paths, being under a root is a matter of whole segments |
| `PathPolicy.NormalizedUnderRemote` | src/application/path_policy.rs:415-435 | a normalised path is under a root if and only if its uncancelled segments begin with the root's |
| `Upload.CopyInto` | src/infrastructure/sftp.rs:160-164 | while the data is copied only the temporary file changes, and it holds a prefix; the copy succeeds if and only if the writes take all of it |
| `Upload.StoreTemp` | src/infrastructure/sftp.rs:151-187 | the target is untouched; success, if and only if the file was created, took all the data, was closed and looked at and has the size of the local one, means that the temporary file holds that many bytes |
| `Upload.ReplaceRemoteFile` | src/infrastructure/sftp.rs:703-728 | for every outcome of rename, remove and second rename: what the target is, in every state on the way and at the end, and when the call succeeds |
| `Upload.IntactWhileReplacing` | src/infrastructure/sftp.rs:703-728 | old content, checked new content, or absence after the remove, seen from before the upload |
| `Upload.Upload` | src/infrastructure/sftp.rs:139-213 | the upload succeeds if and only if the temporary file was stored so and a rename put it in place; over every failure point and in every state on the way the target is the old content, the complete checked new content, or missing only after the one state in which the fallback removes it, with the new content complete by then; which one at the end, for each outcome; and no temporary file stays after success or a completed cleanup |

## Left out

- Interleavings: daemon sessions, pumps, the input writer and the pending calls are step machines on values, so a
  run can be quantified over; aliasing between threads is in the step relation only. Atomics are taken
  as sequentially consistent.
- Integer widths: cursors, epochs, ids and sizes are unbounded; 64-bit overflow after 2^64 bytes is not modelled.
  The 32-bit length of a frame is.
- Time: time-outs, sleeps and the 200 ms tick are free choices of the run; the times of settle's polls and its
  deadline are parameters.
- Wake-up order: the condition variable wakes its waiters first come, first served, and has no spurious
  wake-ups other than time-outs.
- Opaque codecs: JSON, base64 and regular expressions; a predicate says which payloads parse, any function gives
  the expression's match in valid UTF-8.
- System calls: PTY, SSH and SFTP calls, fork, signals and reaping are replies chosen by the run; session, daemon
  and temporary-file names are fresh.
- Delivery to subscribers: `PersistentTerminalHandle::read` and receivers that are dropped. The bounded channels lose
  data when full, so nothing end to end is claimed beyond the events a pump sends.
- `daemon.shutdown`: the process exits with all its sessions.
- `StripConsumer.StrippedReadRefinesHistory`: speaks of tails that fit the 8 KiB limit; for longer ones
  `AnsiPaging.DroppedTailStartsAfresh` says what each page and those after it give.
- `Framing.RoundTripExactly`: says nothing of the bytes after a message longer than four gigabytes.
- `Upload.Upload`: the local file does not change during the upload, and nobody else writes the two remote paths.
- Other parts of path policy: `expand_tilde`, `parent_remote_path`, the hard safety rules and the root tables are
  settled by reading one branch each.
- `read_output`: the choice of the mode from the parameters is settled by reading four branches.
- Downloads, directory transfer, bootstrap, policy and redaction tables, launchers, the GUI and the command line:
  input and output, or easy members.
