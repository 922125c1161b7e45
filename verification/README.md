# Verification of ttym's stream pipeline

ttym keeps a terminal alive in a detached holder process, lets a restartable server reconnect to it, and
shows it to several viewers. This project models the parts on which that promise rests and proves what they
keep, with Dafny 4.11. `dafny verify dfyconfig.toml` checks everything.

## What is modelled

**The holder** (`holder/src/main.rs`). `ByteRing` is the wrapping byte ring with its whole history as a ghost;
`Lexer` the byte automaton that marks offsets between characters and escape sequences, and `LexUnits` what it accepts, by byte ranges; `Anchors` the deque of
such offsets; `Recorder` the two together; `Frames` the length-prefixed framing on both sides of the socket.
`HolderModel` is the event loop as a step function over ring, anchors, controller, parked connection, lease
and everything sent; `HolderProofs` its invariants; `HolderReplay`, `HolderLive`, `HolderLease`, `HolderAnswers`
and `HolderTells` what they give over all runs; `HolderLoop` the loop with its fields changed in place.

**The server's end** (`session.ts`). `HolderLink` is the handshake and the counting of applied bytes, `HolderHandshake` how it ends, and
`HolderRecovery` joins it to the holder's runs. `GeometryModel`, `GeometrySizes` and `GeometryLedger` decide who sets the size of the PTY.

**The viewers** (`server.ts`, `output-ring.ts`). `OutputRing` is the numbered chunk ring with head index and
compaction. `ViewerModel`, `ViewerProofs`, `ViewerRuns` and `ViewerWindow` follow each viewer's batch, ack window, stall,
paused view and resync; a snapshot at number w stands for the history through w. `ViewerLoop` is the batcher
in place.

**The sync-block filter** (`sync-block.ts`). `SyncModel` gives every byte its place in the stream and parses
the input into tokens; `SyncUnits` says what a token is, by byte ranges, and `SyncMarks` which of them are markers; `SyncProofs`, `SyncRuns`, `SyncHolds` and `SyncOrder` say what is kept and in which order; `SyncBlock` is the
byte loop over its buffers.

**Layout and workspaces** (`layout-tree.ts`, `layout-presets.ts`, `workspace-store.ts`). `Shares` and `LayoutTree` are the pane
tree over exact reals; `LayoutShape` its form and order; `LayoutAreas` and `LayoutRows` the part of the
viewport each pane gets; `Discretize` the projection onto pixels; `LayoutPresets` and `PresetShapes` the preset trees. `MemberNames`, `WorkspaceModel`, `WorkspaceProofs`,
`WorkspaceNames`, `WorkspaceOps`, `WorkspaceSplits`, `WorkspaceEntries`, `WorkspaceStore` and `WorkspaceRuns` are the store that must agree with the tree.
A workspace is *covered* when everyone its layout shows is a member, once and under a name of its own, and *in
step* when, besides, nobody else is one.

**Agent sleep** (`agent-sleep.ts`). `PassiveInput` is the pattern of input that must not wake anything;
`SleepModel` one pane with its calls of sleep and wake cut at every await; `SleepEvents`, `SleepProofs`, `SleepRuns`,
`SleepSerial` and `SleepQueue` its invariants; `SleepLoop` the fields in place, which keep them.

**The configuration file** (`config-file.ts`). `ConfigText` is trimming, lines and entries; `ConfigFile` the
parser and the patch; `ConfigProofs` the round trip; `ConfigStore` the store.

`Prelude` holds the vocabulary they share.

## Where the code and its description part

Each of these is proved, with the exact condition under which the description does hold.

- A recovering server buffers live frames "to avoid double-write" (session.ts:660), but frames buffered
  between ACQUIRED and REPLAY already lie before the replay's end and are applied a second time:
  recovery is exact if and only if the holder sent no output in between
  (`HolderRecovery.RunRecoveryIsExactIff`, with a run in `HolderRecovery.OutputInBetweenIsSeenTwice`). Live frames that
  beat the terminal's callback also overtake the buffered ones (`HolderLink.RecoveredState`).
- The anchor cap covers every ring under 2 MiB and no other (`HolderReplay.TailStartsEarly`,
  `HolderReplay.LargeRingLosesAnchors`, with a run in `HolderReplay.LargeRingIsFilled`).
- The drain timer sends a snapshot without clearing the batch, so the batch is shown twice; it can fire over
  one because an ack that ends the stall leaves the timer running (`ViewerRuns.DrainIsExactIff`,
  `ViewerRuns.AckLeavesTheTimer`). `ViewerRuns.StreamIsExact` is stated for runs in which it does not.
- The sync filter emits text behind an end marker before the block (`SyncProofs.CallInOrderIff`,
  `SyncRuns.EndThenTextReorders`), and a block that overflows before the text that preceded it in the same call
  (`SyncOrder.AnyCallInOrderIff`, `SyncOrder.BurstReorders`).
- Two calls of sleep can pass the admission check together, because it is not repeated after its awaits; the
  second can then put its gate on a thawed screen (`SleepRuns.TwoSleepsRace`, `SleepRuns.ActIsSafeIff`). With
  one call at a time it cannot (`SleepSerial.SerialSleepersAreGated`).
- An ATTACH that carries a borrow is meant to enter the ledger also on re-attaching (server.ts:2420-2422),
  but wiring an attached viewer removes it first, which gives the loan back
  (`GeometryModel.AttachBorrowsIffNew`, `GeometryModel.ReattachLosesTheLoan`).
- The return of a loan restores the size from before the first borrow even when the owner has set another one
  since (`GeometryModel.LoanIsReturned`, `GeometryModel.ReturnOverridesOwner`); the owner's comes back when the
  last read-write viewer is gone (`GeometryModel.UnwatchedHasTheOwnersSize`).
- `splitRight` does not look for the session in other workspaces (`WorkspaceRuns.SplitKeepsStore`,
  `WorkspaceRuns.SplitCanShare`), and a move whose addition throws has already removed the session
  (`WorkspaceRuns.MoveThrowsIff`, `WorkspaceRuns.MoveCanThrow`). The one caller of `splitRight`
  (server.ts:1484) passes a session it has just created; a session in two workspaces comes from `create` or
  `update` with a layout or a member list (`WorkspaceRuns.BroughtInKeepsStore`), or from the file.
- A layout leaf that no member stands for, as `update` with a layout can bring in, is named before later
  members; they keep their names if and only if no such leaf is given the name of a member met after it
  (`WorkspaceNames.ReconcileKeepsNamesIff`, with a layout in `WorkspaceProofs.NewLeafTakesAName`).
- A patched key that stands on several lines is edited on the first and read from the last
  (`ConfigProofs.UpdateOverridesIff`, `ConfigProofs.RepeatedKeyKeepsTheLast`).

## Model

| member | source | states |
|---|---|---|
| `ByteRing.Ring.Push` | holder/src/main.rs:174-197 | after any push, wrapping or longer than the ring, the array with its start and length still stands for the end of the whole history, and the history has grown by exactly the pushed bytes |
| `ByteRing.Ring.CopyIn` | holder/src/main.rs:184-191 | the two slice copies put every byte at its slot modulo the capacity and touch no other slot |
| `ByteRing.Ring.BaseOffset` | holder/src/main.rs:200 | the offset of the oldest byte held is written minus min(written, capacity) |
| `ByteRing.Ring.Dump` | holder/src/main.rs:215-226 | the dump is the last min(written, capacity) bytes of the history, in order |
| `ByteRing.Ring.Since` | holder/src/main.rs:206-213 | a request gets history[max(offset, base)..], and is flagged as a gap exactly when the offset lies below the base |
| `ByteRing.WindowMoves` | holder/src/main.rs:184-196 | overwriting at the write position and moving the start keeps the array a window onto the grown history |
| `Lexer.LexConcat` | holder/src/main.rs:129-142 | lexing is independent of how reads cut the stream |
| `Lexer.ReplayFromGround` | holder/src/main.rs:60-127 | from any ground offset, a lexer started afresh is in the state of the real stream at every later byte |
| `Lexer.CharLex` | holder/src/main.rs:83-127 | inside one UTF-8 character (RFC 3629, section 4) the lexer is ground only at its two ends |
| `Lexer.TextGround` | holder/src/main.rs:83-127 | on text, the ground offsets are exactly the boundaries between characters, in both directions |
| `Lexer.StringIsNeverGround` | holder/src/main.rs:83-127 | no offset inside an open control string (ECMA-48, section 5.6) is ground, however long the string runs |
| `LexUnits.GroundIffBoundary` | holder/src/main.rs:83-127 | on a stream of whole units (characters, escape sequences, control sequences and terminated control strings as ECMA-48, sections 5.3, 5.4 and 5.6, lays them out, and the ways each can be broken off), described by byte ranges alone, the ground offsets are exactly the boundaries between units |
| `LexUnits.GroundIffUnits` | holder/src/main.rs:83-127 | and the description leaves nothing out: in any stream at all, an offset is ground exactly when what comes before it is whole units |
| `LexUnits.UnitReturns` | holder/src/main.rs:83-127 | inside one unit no offset is ground, and right behind it the lexer is |
| `LexUnits.CutAtGround` | holder/src/main.rs:129-142 | what follows a ground offset is whole units again, whatever the stream has yet to say |
| `Anchors.GridInBounds` | holder/src/main.rs:129-142 | every anchor is a ground offset of the stream, at least a grain past the anchor before it |
| `Anchors.GridSpread` | holder/src/main.rs:129-142 | anchors j - i apart are at least (j - i) grains of 4096 bytes apart |
| `Anchors.GridComplete` | holder/src/main.rs:129-142 | every ground offset has an anchor less than one grain behind it |
| `Anchors.FirstAtOrAfterFinds` | holder/src/main.rs:153-155 | the search returns the first anchor at or past the base, and nothing exactly when there is none |
| `Anchors.AnchorTracker.Feed` | holder/src/main.rs:129-143 | the deque is the stream's anchors without the evicted ones: one more is evicted per anchor beyond 512 |
| `Anchors.AnchorTracker.PruneBelow` | holder/src/main.rs:145-150 | exactly the leading anchors below the base are dropped |
| `Anchors.AnchorTracker.FirstSafe` | holder/src/main.rs:153-155 | the deque search agrees with the specified search |
| `Recorder.Recorder.Record` | holder/src/main.rs:593-597 | ring and anchors advance together over the same history |
| `Recorder.Recorder.CutSafely` | holder/src/main.rs:826-843 | the safe tail is cut at the first surviving anchor at or past the base; nothing is served when there is none |
| `Frames.NextOfEncoded` | holder/src/main.rs:265-285 | decoding the encoding of a frame gives the frame and leaves what followed it |
| `Frames.NextIgnoresTail` | holder/src/main.rs:265-275 | bytes that arrive later never change a frame that was already whole |
| `Frames.PushBackRestores` | holder/src/main.rs:252-263 | putting the frame just taken back at the head restores the buffer byte for byte |
| `Frames.DecodeConcat` | holder/src/main.rs:240-275 | decoding in two feeds yields the frames and the remainder of one feed, wherever the cut falls |
| `Frames.FeedAllIsDecode` | holder/src/main.rs:240-275 | any list of reads decodes like their concatenation |
| `Frames.AnyChunkingRoundTrips` | holder/src/main.rs:237-286 | any chunking of a list of encoded frames yields exactly those frames and leaves nothing over |
| `Frames.RoundTripIffEncodable` | holder/src/main.rs:278-286 | a frame survives the wire exactly when its length fits the 32-bit prefix; longer ones wrap and do not |
| `Frames.PayloadsRoundTrip` | holder/src/main.rs:289-294 | the fields packed into DATA_OUT and REPLAY payloads are the fields the server reads out |
| `Frames.FrameReader.Feed` | holder/src/main.rs:240-246 | feeding appends to the bytes held, growing the buffer when needed |
| `Frames.FrameReader.PushBack` | holder/src/main.rs:252-263 | pushing back puts the encoded frame in front of the bytes held, in place |
| `Frames.FrameReader.NextFrame` | holder/src/main.rs:265-275 | a frame is taken exactly when one is whole, and the rest is shifted to the front |
| `Frames.FrameReader.Drain` | holder/src/main.rs:772-773 | taking frames until none is whole decodes the buffer |
| `Frames.HolderFrameReader.Drain` | packages/server/src/session.ts:197-206 | the server's generator hands out the same frames and keeps the same rest |
| `Frames.FeedBoth` | packages/server/src/session.ts:189-207 | fed the same reads, the holder's reader and the server's reader hand out the same frames |
| `HolderProofs.StepKeepsInv` | holder/src/main.rs:588-870 | every event keeps the books: each byte heard is a whole frame acted on or an unfinished one, what is parked has not been acted on, and a connection is served entirely or not at all |
| `HolderProofs.RunAllWorks` | holder/src/main.rs:771-870 | running frames types their input, answers their questions, and changes nothing else |
| `HolderReplay.GapReplyIsSafe` | holder/src/main.rs:814-852 | below the ring base the reply says gap and sends all bytes from the first surviving anchor that the ring covers, where a fresh lexer follows the real one; it is empty, at the end of the stream, only when there is no such anchor |
| `HolderReplay.GapReplyStartsAUnit` | holder/src/main.rs:826-843 | a gap reply that is not empty starts with a whole character or sequence |
| `HolderReplay.ReplyWithoutGap` | holder/src/main.rs:821-848 | at or above the base the reply completes what the server has: the first wanted-offset bytes and the reply are the whole stream |
| `HolderReplay.DumpReplyIsSafe` | holder/src/main.rs:797-812 | a full dump is the whole stream until the ring overflows; then it starts at the first surviving anchor, where a fresh lexer follows the real stream |
| `HolderReplay.RunKeepsAnchors` | holder/src/main.rs:593-597 | over every run no anchor below the ring stays, and with a ring under 2 MiB no anchor inside it is lost |
| `HolderReplay.TailStartsEarly` | holder/src/main.rs:67-68 | with a ring under 2 MiB, in every reachable state, each ground offset a grain past the base has a surviving anchor less than a grain behind it, and gap replies and dumps start no later and are complete from there |
| `HolderReplay.LargeRingLosesAnchors` | holder/src/main.rs:67-68 | the bound is exact: with any larger ring, every run that ends in enough plain text, however the reads cut it, has evicted an anchor that the ring still covers |
| `HolderReplay.RunCapsAnchors` | holder/src/main.rs:129-143 | along every run the deque never lags: at most 512 of the stream's anchors are kept |
| `HolderReplay.LargeRingIsFilled` | holder/src/main.rs:511 | reads of 4096 bytes, well inside the holder's 64 KiB buffer, do build that text |
| `HolderLive.ReplayPlusLive` | holder/src/main.rs:589-606 | after any run, a gap-free replay followed by every later DATA_OUT to the controller is the stream from the wanted offset on, with no hole and no overlap |
| `HolderAnswers.TurnIsAnswered` | holder/src/main.rs:771-870 | at the end of a turn each DUMP_REQ, DUMP_SINCE and PING among the controller's whole frames has got its one right answer, in order, and nothing else was sent |
| `HolderAnswers.WantIsAsked` | holder/src/main.rs:821-823 | the offset asked for is the payload's first eight bytes, little-endian, or 0 |
| `HolderAnswers.LastSizeWins` | holder/src/main.rs:783-794 | while the PTY lives the last RESIZE for a real size decides; without one the size stays |
| `HolderTells.AcceptGreets` | holder/src/main.rs:632-665 | a newcomer is told of the lease, the ring and the stream, and of the PTY's end, before anything else, and parked in the place of any other |
| `HolderTells.GreetingForetells` | holder/src/main.rs:632-665 | the number in the greeting is the next output's |
| `HolderTells.OutputIsNumbered` | holder/src/main.rs:589-606 | the n-th read of a run goes to the controller under the number n, wrapped at 32 bits; one that cannot be delivered costs the controller its place |
| `HolderTells.DeadForGood` | holder/src/main.rs:607-621 | after the PTY's end no run adds output, types input or changes the size |
| `HolderTells.TakeoverIsSpelled` | holder/src/main.rs:691-692 | a claim asks for takeover exactly when its body contains those fifteen bytes |
| `HolderTells.SilenceIsPromoted` | holder/src/main.rs:722-746 | a parked connection that says nothing in time controls the PTY without a grant |
| `HolderLease.ClaimOfHeldLeaseIsDenied` | holder/src/main.rs:690-698 | an ACQUIRE without takeover on a held lease changes neither controller, generation nor reader and sends DENIED |
| `HolderLease.TakeoverEvicts` | holder/src/main.rs:699-712 | a granted claim raises the generation by one, announces it, and sends EVICTED to the controller it displaces |
| `HolderLease.RunGrants` | holder/src/main.rs:700-703 | over every run, granted generations strictly increase |
| `HolderLease.OnlyTheControllerTypes` | holder/src/main.rs:771-784 | in any turn, whatever reaches the PTY comes from the connection that controls it at the end of that turn |
| `HolderLease.LeaseSafety` | holder/src/main.rs:667-748 | over all runs, each connection has had either no frame acted on, or every whole frame it sent (behind its claim, if it claimed) exactly once and in order, and those frames are all it typed |
| `HolderLoop.EventLoop.PtyOutput` | holder/src/main.rs:589-606 | a PTY read: ring, anchors, live frame, sequence number: the fields in place end as the specified step of the whole holder |
| `HolderLoop.EventLoop.PtyExit` | holder/src/main.rs:607-621 | the PTY ends: the fields in place end as the specified step of the whole holder |
| `HolderLoop.EventLoop.Accept` | holder/src/main.rs:632-665 | STATE is sent and the connection parked; an earlier parked one is dropped: the fields in place end as the specified step of the whole holder |
| `HolderLoop.EventLoop.PendingRead` | holder/src/main.rs:673-747 | bytes of a parked connection: claim granted, refused, or a legacy client promoted with its first frame put back: the fields in place end as the specified step of the whole holder |
| `HolderLoop.EventLoop.PendingHangup` | holder/src/main.rs:732-736 | a parked connection goes away: the fields in place end as the specified step of the whole holder |
| `HolderLoop.EventLoop.ClaimTimeout` | holder/src/main.rs:722-746 | silence past the deadline promotes: the fields in place end as the specified step of the whole holder |
| `HolderLoop.EventLoop.ClientRead` | holder/src/main.rs:751-763 | bytes of the controller: the fields in place end as the specified step of the whole holder |
| `HolderLoop.EventLoop.ClientHangup` | holder/src/main.rs:764-768 | the controller goes away: the fields in place end as the specified step of the whole holder |
| `HolderLoop.EventLoop.ProcessFrames` | holder/src/main.rs:771-870 | the frames of one turn: the fields in place end as the specified step of the whole holder |
| `HolderLoop.EventLoop.AnswerReplay` | holder/src/main.rs:814-844 | the reply to DUMP_SINCE: the fields in place end as the specified step of the whole holder |
| `HolderLoop.EventLoop.AnswerDump` | holder/src/main.rs:797-809 | the reply to DUMP_REQ: the fields in place end as the specified step of the whole holder |
| `HolderLoop.EventLoop.AsksTakeover` | holder/src/main.rs:691-692 | the search for the takeover text: the fields in place end as the specified step of the whole holder |
| `HolderLink.RecoveredState` | packages/server/src/session.ts:549-632 | what the terminal is fed and the offset counted, for any frames before, between and after the replay |
| `HolderHandshake.GreetedAsks` | packages/server/src/session.ts:520-632 | a replay is asked for exactly with a usable checkpoint, a dump otherwise, with or without a lease, and all output so far is held back |
| `HolderHandshake.ReplayEnds` | packages/server/src/session.ts:606-632 | after a replay: screen, offset and the gap flag, and a screen that stays degraded exactly until some later output repaints it |
| `HolderHandshake.DumpEnds` | packages/server/src/session.ts:638-660 | after a dump: the screen, and an offset that goes on from STATE's and never learns where the dump ends |
| `HolderHandshake.OutputAheadOfState` | packages/server/src/session.ts:549-632 | output ahead of STATE is shown; a checkpoint then takes its place, and without one it stays |
| `HolderHandshake.DeniedCloses` | packages/server/src/session.ts:593-600 | a refused claim closes the session and shows nothing of what was held back |
| `HolderHandshake.ClosedForGood` | packages/server/src/session.ts:687-741 | a closed session shows and counts nothing more |
| `HolderRecovery.RunRecoveryIsExactIff` | packages/server/src/session.ts:586-632 | with the buffered frames being those that the holder's run sent between ACQUIRED and the replay: recovery is exact exactly when the run sent no output in between |
| `HolderRecovery.OutputInBetweenIsSeenTwice` | packages/server/src/session.ts:600-632 | a run of the holder from its start, output, connection, claim, output, request, after which the last byte is on the screen twice and counted twice |
| `HolderLink.Session.Receive` | packages/server/src/session.ts:549-667 | the handshake code in place is the specified handling of one frame |
| `HolderLink.Session.HandleHolderFrame` | packages/server/src/session.ts:687-741 | one frame after the handshake: offset, healing by RIS, exit and eviction |
| `HolderLink.Session.FindRis` | packages/server/src/session.ts:703 | the scan finds ESC c exactly when it occurs |
| `OutputRing.OutputRing.Push` | packages/server/src/output-ring.ts:44-53 | the chunks kept are the shortest drop from the front that fits the byte cap, contiguous up to the new number |
| `OutputRing.OutputRing.DropOldest` | packages/server/src/output-ring.ts:33-42 | head index, compaction and base number drop exactly the oldest chunk |
| `OutputRing.OutputRing.Since` | packages/server/src/output-ring.ts:56-58 | every chunk ever pushed after the number, when that is replayable; every live one otherwise |
| `OutputRing.OutputRing.TrimTo` | packages/server/src/output-ring.ts:61-63 | the base becomes the acked number plus one, and never moves back or past the end |
| `OutputRing.OutputRing.Slice` | packages/server/src/output-ring.ts:66-72 | the bytes of the asked window of the history that is still held, flagged as truncated exactly when the window starts below the base |
| `ViewerRuns.StreamIsExact` | packages/server/src/server.ts:2068-2256 | over all lawful runs of output, batching, flushing, acks, stalls, paused views, deltas and snapshots, each viewer's screen is history through the number it stands at, its batch continues from there, and an unhindered viewer lacks only its batch |
| `ViewerRuns.FlushBringsCurrent` | packages/server/src/server.ts:2068-2085 | flushing an unhindered viewer leaves it with the whole history |
| `ViewerRuns.AckWindowIsSafe` | packages/server/src/server.ts:2201-2212 | in every reachable state the unacked count is the sum of its entries and no recorded ack runs ahead of what was sent |
| `ViewerRuns.TrimSparesCatchUps` | packages/server/src/server.ts:242-252 | trimming to the least ack takes no chunk that an acked viewer's catch-up would send |
| `ViewerRuns.AckEndsTheStall` | packages/server/src/server.ts:2214-2232 | an ack for the last frame sent passes validation, ends the stall, and leaves the viewer with the whole history |
| `ViewerWindow.FlushStallsIff` | packages/server/src/server.ts:2068-2098 | a flush stalls and pauses an acking viewer exactly when more than 256 KiB are unacked then, any other exactly when its socket holds more than 1 MiB, and only that one gets a drain timer |
| `ViewerWindow.HeldIsSpared` | packages/server/src/server.ts:2235-2236 | output leaves a stalled or paused viewer as it is |
| `ViewerWindow.OutputIsBatched` | packages/server/src/server.ts:2235-2247 | output joins an unhindered viewer's batch, and a batch of 64 KiB goes out at once |
| `ViewerWindow.AckSettles` | packages/server/src/server.ts:2201-2232 | an ack changes anything exactly when it is positive, no further than what was sent and not behind the last; it clears what it covers, and a stalled viewer goes on exactly when at most 16 KiB are left |
| `ViewerWindow.CatchUpSends` | packages/server/src/server.ts:2219-2231 | going on, a viewer owes an ack for exactly what it missed when the ring has it and no block is open, and otherwise gets a snapshot |
| `ViewerWindow.RestartedViewer` | packages/server/src/server.ts:2128-2196 | an attached or resumed viewer is unhindered, keeps its acks, and is sent a delta exactly when it is owed at most 64 KiB that the ring still has, in frames of 16 KiB |
| `ViewerWindow.AckTrims` | packages/server/src/server.ts:242-252 | after an ack the live chunks that all acking viewers have acked are gone, and no others |
| `ViewerWindow.DetachTrims` | packages/server/src/server.ts:2444-2454 | so it is after a departure |
| `ViewerWindow.PushKeepsWhatFits` | packages/server/src/output-ring.ts:44-53 | a push drops from the front just as much as the byte cap asks for |
| `ViewerWindow.OthersStayUntouched` | packages/server/src/server.ts:2068-2256 | no other event touches another viewer, and only acks and departures drop output |
| `ViewerWindow.DrainResumes` | packages/server/src/server.ts:2099-2116 | the drain timer leaves the viewer resumed, with a snapshot and nothing to ack |
| `ViewerRuns.DrainIsExactIff` | packages/server/src/server.ts:2099-2116 | the drain timer's snapshot leaves an exact stream exactly when the batch was empty as it fired |
| `ViewerRuns.AckLeavesTheTimer` | packages/server/src/server.ts:2214-2218 | an ack can end a stall and leave the drain timer running over the next batch |
| `ViewerRuns.DrainCanStrikeABatch` | packages/server/src/server.ts:2093-2116 | a lawful run does end with the timer about to fire over a batch |
| `ViewerLoop.Batcher.Flush` | packages/server/src/server.ts:2068-2118 | one frame of the whole batch, booked, with both back-pressure checks: the batcher's fields in place end as the specified step |
| `ViewerLoop.Batcher.EnqueueData` | packages/server/src/server.ts:2235-2247 | batching with the size limit: the batcher's fields in place end as the specified step |
| `ViewerLoop.Batcher.SendResync` | packages/server/src/server.ts:2167-2196 | delta or snapshot: the batcher's fields in place end as the specified step |
| `ViewerLoop.Batcher.ReplayGroups` | packages/server/src/server.ts:2173-2191 | chunks merged into frames, each stamped with its last number: the batcher's fields in place end as the specified step |
| `ViewerLoop.Batcher.TrimWindow` | packages/server/src/server.ts:2205-2212 | counting and cutting the acked entries: the batcher's fields in place end as the specified step |
| `ViewerLoop.Batcher.HandleViewerAck` | packages/server/src/server.ts:2201-2233 | the ack, the resume and the catch-up: the batcher's fields in place end as the specified step |
| `ViewerLoop.Batcher.CatchUpViewer` | packages/server/src/server.ts:2219-2231 | the catch-up: the batcher's fields in place end as the specified step |
| `ViewerLoop.Batcher.OnAck` | packages/server/src/server.ts:2471-2488 | validation of the claim, then the ack: the batcher's fields in place end as the specified step |
| `ViewerLoop.Batcher.OnRestart` | packages/server/src/server.ts:2501-2512 | ATTACH and RESUME_VIEW: the batcher's fields in place end as the specified step |
| `ViewerLoop.MinAck` | packages/server/src/server.ts:243-248 | the loop finds the least recorded ack for the session, and none exactly when nobody acked |
| `SyncModel.TokensAreTheInput` | packages/server/src/sync-block.ts:84-242 | the parser cuts the input into tokens and an unfinished rest without losing or moving a byte |
| `SyncModel.ScanConcat` | packages/server/src/sync-block.ts:84-242 | parsing does not depend on how calls cut the input |
| `SyncProofs.CallInOrderIff` | packages/server/src/sync-block.ts:254-266 | for a call that does not overflow, emitted then held is held then kept in stream order exactly when nothing goes to the viewer while a block closed in the call is still held |
| `SyncProofs.OneByteInOrder` | packages/server/src/sync-block.ts:84-277 | one byte per call keeps the order, overflow included |
| `SyncProofs.CallConserves` | packages/server/src/sync-block.ts:84-277 | in any state, emitted and held bytes of a call are a rearrangement of the held and kept ones |
| `SyncRuns.TokensCoverTheInput` | packages/server/src/sync-block.ts:84-242 | the tokens of a run are its input, cut up, and a token is dropped exactly when its bytes are a marker |
| `SyncRuns.FilterLosesNothing` | packages/server/src/sync-block.ts:64-277 | under any calls, overflows and aborts, emitted and held bytes are as multisets the bytes of all tokens of the input that do not spell a marker |
| `SyncRuns.FilterKeepsOrder` | packages/server/src/sync-block.ts:64-277 | when every call is orderly, or brings a single byte, they are those bytes, each in its place |
| `SyncOrder.AnyCallInOrderIff` | packages/server/src/sync-block.ts:133-277 | for every call, overflow or not, emitted then held is held then kept in stream order exactly when every token keeps its place: no shown control sequence ahead of a held block, and no burst of a block past earlier text that still waits, the one repair being a burst that overtakes later text back |
| `SyncOrder.RunInOrderIff` | packages/server/src/sync-block.ts:64-277 | over any calls, overflows and aborts, what is emitted and held is the wanted stream byte for byte exactly when every call keeps its order; what one call puts out of place no later call mends |
| `SyncOrder.FilterKeepsOrderIff` | packages/server/src/sync-block.ts:64-277 | the same from a fresh filter, with the wanted stream given as all tokens that do not spell a marker |
| `SyncOrder.BurstReorders` | packages/server/src/sync-block.ts:244-251 | an input, text then a block past its limit in one call, for which the viewer gets the block before the text |
| `SyncRuns.EndThenTextReorders` | packages/server/src/sync-block.ts:254-266 | a concrete call in which text behind an end marker reaches the viewer before the block |
| `SyncMarks.TokensEraseMarks` | packages/server/src/sync-block.ts:84-242 | no token that goes on to the viewer spells a marker, nor is a kept text byte ESC; dropped ones spell exactly a marker |
| `SyncMarks.MarkIsErased` | packages/server/src/sync-block.ts:150-190 | a marker that begins between tokens becomes one token, keeps nothing, and leaves the parse of what follows as it was |
| `SyncUnits.TokensAreUnits` | packages/server/src/sync-block.ts:133-242 | an input of whole units, described by byte ranges alone, becomes exactly one token for each: text bytes, two-byte escapes, control sequences, OSC strings up to BEL or ESC and any byte, other strings up to ST |
| `SyncUnits.InputIsUnits` | packages/server/src/sync-block.ts:133-242 | and every input that ends between tokens is whole units |
| `SyncUnits.UnfinishedUnit` | packages/server/src/sync-block.ts:133-242 | an unfinished unit, however long, completes no token and is all kept back |
| `SyncUnits.StringKeepsMarkers` | packages/server/src/sync-block.ts:199-232 | a marker spelled inside a DCS, SOS, PM or APC string is kept with it |
| `SyncHolds.BlocksAreHeld` | packages/server/src/sync-block.ts:84-277 | in a call in which no block bursts, what lies outside blocks is shown at once, and a block is held until an end marker comes and then shown behind it |
| `SyncHolds.LetGoIsClosed` | packages/server/src/sync-block.ts:64-82 | a block that bursts or is aborted is closed and not held on |
| `SyncProofs.FeedInOrder` | packages/server/src/sync-block.ts:84-242 | during a call nothing moves as long as nothing overtakes |
| `SyncBlock.SyncBlockFilter.Process` | packages/server/src/sync-block.ts:84-277 | one call: emitted bytes, start and end flags, coalesced size and overflow are those of the specified filter |
| `SyncBlock.SyncBlockFilter.AbortOpenBlock` | packages/server/src/sync-block.ts:64-82 | the open block is handed out whole and the block closed |
| `SyncBlock.SyncBlockFilter.ParseOne` | packages/server/src/sync-block.ts:133-242 | one byte through the 13 states |
| `SyncBlock.SyncBlockFilter.CheckOverflow` | packages/server/src/sync-block.ts:244-251 | a block past 512 KiB goes out whole |
| `Shares.NormalizeMakesShares` | packages/shared/src/layout-tree.ts:37-43 | whatever sizes come in, non-negative shares that sum to one go out |
| `Shares.NormalizeUndoesScaling` | packages/shared/src/layout-tree.ts:37-43 | shares that all shrank by one factor come back exactly |
| `Shares.AlignMakesShares` | packages/shared/src/layout-tree.ts:46-50 | a list of any length becomes one share for each child |
| `Shares.AlignSizes` | packages/shared/src/layout-tree.ts:46-50 | the copy, the padding loop and the scaling compute the specified alignment, and give shares |
| `Shares.SharesOfJoin` | packages/shared/src/layout-tree.ts:123-131 | an equal part for the newcomer and a proportional cut for the others add up to one |
| `LayoutTree.SplitThenRemove` | packages/shared/src/layout-tree.ts:91-168 | removePane(splitPane(root, ...), s) is root, ratios included, for the same-axis join, the cross-axis nesting and the fallback to insertion |
| `LayoutTree.InsertThenRemove` | packages/shared/src/layout-tree.ts:63-82 | removePane(insertPane(root, s), s) is root, ratios and placeholder included |
| `LayoutTree.RewriteThenPrune` | packages/shared/src/layout-tree.ts:105-165 | below any node the rewrite can be pruned away, also where a target repeats |
| `LayoutShape.OperationsKeepForm` | packages/shared/src/layout-tree.ts:63-196 | every operation, with any arguments, takes a tree of splits with at least two children and shares summing to one to such a tree |
| `LayoutShape.HasIsListed` | packages/shared/src/layout-tree.ts:22-30 | a session is found exactly when it is among the panes |
| `LayoutShape.InsertListsLast` | packages/shared/src/layout-tree.ts:63-82 | an inserted pane comes last, and fills the placeholder instead of joining it |
| `LayoutShape.SplitListsBeside` | packages/shared/src/layout-tree.ts:91-138 | a split puts the new pane directly on the asked side of its target and moves nobody in the order |
| `LayoutShape.RemoveLists` | packages/shared/src/layout-tree.ts:145-168 | a removal takes out that session, keeps the order of the others, and leaves the placeholder when it was the last |
| `LayoutShape.SwapTrades` | packages/shared/src/layout-tree.ts:185-196 | a swap trades two places and keeps everybody else's |
| `LayoutShape.SwapUndoesItself` | packages/shared/src/layout-tree.ts:185-196 | swapping the same pair twice is the identity on the tree |
| `LayoutAreas.CellsTile` | packages/shared/src/layout-tree.ts:37-54 | the panes tile the viewport: their areas sum to the whole |
| `LayoutAreas.NestingCutsTheTarget` | packages/shared/src/layout-tree.ts:105-134 | when the new pane nests, the target alone gives up room, in the asked ratio; every other pane keeps exactly its area |
| `LayoutAreas.JoiningShrinksAlike` | packages/shared/src/layout-tree.ts:115-131 | when the new pane joins a row of n, it takes 1/(n+1) and everybody else in the row shrinks by the same factor |
| `LayoutRows.SplitChangesOneRow` | packages/shared/src/layout-tree.ts:91-138 | in any tree, splitPane along the axis of the target's row changes that one row and leaves everybody outside it with the same area and place |
| `LayoutRows.SplitCutsTheTarget` | packages/shared/src/layout-tree.ts:91-138 | in any tree without such a row, splitPane cuts the target's cell alone |
| `LayoutAreas.CellsOfParts` | packages/shared/src/layout-tree.ts:115-131 | the two sides of a row are together the row, so the joining statement covers everybody in it |
| `Shares.MissingComeInEven` | packages/shared/src/layout-tree.ts:46-50 | children beyond the stored shares come in at an even part before all are scaled to one |
| `Shares.NothingIsEven` | packages/shared/src/layout-tree.ts:37-43 | with no ratio to keep everybody gets the same |
| `Discretize.DiscretizeSizes` | packages/shared/src/layout-tree.ts:208-226 | the pixels sum exactly to the budget, nobody is below the floor, growth goes to the smallest and shrinking to the largest, and without a floor every result is within 3/2 of its exact share |
| `Discretize.HandOut` | packages/shared/src/layout-tree.ts:215-224 | the error always ends at zero, so the guard is never what stops the loop; one round suffices whenever one round could |
| `Discretize.Pass` | packages/shared/src/layout-tree.ts:219-223 | one round serves a prefix of the order, one pixel each, and accounts for every pixel |
| `Discretize.GrowthIsEnough` | packages/shared/src/layout-tree.ts:213-224 | one more pixel for everybody covers the budget, for any budget and floor |
| `Discretize.ShrinkingIsEnough` | packages/shared/src/layout-tree.ts:213-224 | without a floor, one pixel less for everybody who has one fits the budget |
| `Discretize.ShrinkingAdvances` | packages/shared/src/layout-tree.ts:218-224 | while the children exceed the budget somebody stands above the floor, so every round makes progress |
| `Discretize.SortFrom` | packages/shared/src/layout-tree.ts:216 | the order holds every index and ranks them by size |
| `MemberNames.FirstFreeIsFree` | packages/server/src/workspace-store.ts:605-609 | the search ends at the first number whose name nobody uses |
| `MemberNames.SearchFree` | packages/server/src/workspace-store.ts:605-609 | the search loop terminates for every finite set of used names and finds that number |
| `MemberNames.NumberedIsInjective` | packages/server/src/workspace-store.ts:607-608 | two numbers never give the same name |
| `MemberNames.ArrivalName` | packages/server/src/workspace-store.ts:499-501 | the name on arrival is free, and is the old one whenever that is free |
| `MemberNames.NameOnArrival` | packages/server/src/workspace-store.ts:499-501 | the -2, -3 loop computes it |
| `WorkspaceProofs.ReconcileNamesEveryone` | packages/server/src/workspace-store.ts:550-609 | after reconciling any workspace at all, names are non-empty and pairwise distinct |
| `WorkspaceProofs.ReconcileLosesNobody` | packages/server/src/workspace-store.ts:539-598 | the sessions afterwards are exactly the layout's leaves and the old members, and are distinct exactly when the leaves are |
| `WorkspaceProofs.SessionsAfterReconcile` | packages/server/src/workspace-store.ts:569-590 | leaves come first in layout order, members the layout does not show after them |
| `WorkspaceProofs.ReconcileBringsInStepIff` | packages/server/src/workspace-store.ts:550-590 | members and leaves are the same list afterwards exactly when the layout shows every member |
| `WorkspaceProofs.ReconciledIsCoveredIff` | packages/server/src/workspace-store.ts:539-598 | whatever members come in, afterwards everyone shown is a member, each once and under a name of its own, exactly when the layout is a tree of the right form without repeats |
| `WorkspaceNames.ReconcileKeepsEveryone` | packages/server/src/workspace-store.ts:569-587 | the case the mutations need: when every leaf is a member's and names are good, every member keeps name, role, tags and times, members that the layout does not show included |
| `WorkspaceNames.ReconcileKeepsNamesIff` | packages/server/src/workspace-store.ts:550-609 | for distinct leaves and good names, every member keeps its name, and then everything else, exactly when no new leaf is given the name of a member who is met after it |
| `WorkspaceNames.FairKeepsEveryone` | packages/server/src/workspace-store.ts:569-587 | as long as no later member's name is taken, every member comes out whole, unplaced ones included |
| `WorkspaceNames.TakenIsLost` | packages/server/src/workspace-store.ts:558-567 | once a later member's name is taken, that member has another one afterwards |
| `WorkspaceProofs.NewLeafTakesAName` | packages/server/src/workspace-store.ts:558-567 | a concrete layout in which a leaf without a member takes the name of a later member |
| `WorkspaceEntries.ReconcileOnlyRenames` | packages/server/src/workspace-store.ts:569-590 | whatever has to be renamed, every member keeps role, tags and times, and a leaf without a member gets an entry as old as itself |
| `WorkspaceOps.AddChangesOne` | packages/server/src/workspace-store.ts:396-431 | addMember makes the session a member, loses nobody, and with a free name changes no other member, shown or not; members and leaves that were the same list stay so exactly when the session is a real one |
| `WorkspaceOps.SplitChangesOne` | packages/server/src/workspace-store.ts:433-465 | splitRight does the same; an already enrolled session takes the new entry |
| `WorkspaceOps.RemoveChangesOne` | packages/server/src/workspace-store.ts:467-477 | removeMember takes out one session and keeps everyone else whole, shown or not |
| `WorkspaceOps.RemovedIsGone` | packages/server/src/workspace-store.ts:467-477 | a removed session is no member afterwards, whatever repeats in layout or members |
| `WorkspaceOps.RenameChangesOne` | packages/server/src/workspace-store.ts:506-519 | renameMember changes that one entry; nobody comes or goes |
| `WorkspaceOps.RelayoutLosesNobody` | packages/server/src/workspace-store.ts:284-302 | update with a layout makes members of its leaves and keeps everyone; they keep their entries exactly when no leaf without a member is given a later member's name, and members and leaves are one list exactly when it shows everyone |
| `LayoutPresets.PresetPlaces` | packages/shared/src/layout-presets.ts:21-64 | every preset shows exactly the given sessions, in their order, in a tree of the right form |
| `LayoutPresets.TiledIsNearlySquare` | packages/shared/src/layout-presets.ts:37-48 | the tiled grid has as many rows as columns or one fewer, all full but the last |
| `LayoutPresets.CutRows` | packages/shared/src/layout-presets.ts:41-42 | the loop cuts the specified rows |
| `PresetShapes.EvenPresets` | packages/shared/src/layout-presets.ts:11-28 | even-h is a row and even-v a column, both in equal parts |
| `PresetShapes.MainPreset` | packages/shared/src/layout-presets.ts:29-36 | main-v gives the first session six tenths on the left and stacks the others in the rest |
| `PresetShapes.TiledPreset` | packages/shared/src/layout-presets.ts:37-48 | tiled stacks its rows in equal heights, each a row of equal parts |
| `PresetShapes.AutoPreset` | packages/shared/src/layout-presets.ts:60-64 | auto goes by the number of panes: up to two, up to five, more |
| `WorkspaceOps.PresetBringsInStep` | packages/server/src/workspace-store.ts:293-302 | update with a preset shows every member again, lost ones included, and leaves the list of members as it was |
| `WorkspaceSplits.SplitPlaces` | packages/server/src/workspace-store.ts:453-459 | the new pane stands directly after its target for right and down, directly before it for left and up, in a row for right and left, in a column for up and down, and everyone else keeps its order |
| `WorkspaceSplits.SplitHalves` | packages/server/src/workspace-store.ts:456-459 | when it cannot join the target's row the new pane takes half of the target's room and nobody else's |
| `WorkspaceSplits.SplitWithoutTarget` | packages/server/src/workspace-store.ts:457-458 | without a target that the layout shows, the new pane comes last |
| `WorkspaceSplits.AddPlacesLast` | packages/server/src/workspace-store.ts:424 | an added member without a pane gets one at the end; one that has a pane keeps it |
| `WorkspaceSplits.AddToOnePane` | packages/shared/src/layout-tree.ts:63-82 | beside a lone pane it takes half, in a row |
| `WorkspaceSplits.AddSharesAlike` | packages/shared/src/layout-tree.ts:63-82 | at the end of a row of n it takes one part in n + 1, and the others shrink alike |
| `WorkspaceEntries.RenamedEntry` | packages/server/src/workspace-store.ts:506-512 | a rename gives the member that name and the time, and nothing else |
| `WorkspaceEntries.AddedEntry` | packages/server/src/workspace-store.ts:414-421 | a newcomer's entry is what was asked for, as old as itself |
| `WorkspaceEntries.UpdatedEntry` | packages/server/src/workspace-store.ts:408-413 | one who was a member takes the new name and role, and keeps age and, unless new ones are given, tags |
| `WorkspaceEntries.MovedEntry` | packages/server/src/workspace-store.ts:495-502 | a member that moves takes role and tags along, and its name where that is free |
| `WorkspaceEntries.ClashesIff` | packages/server/src/workspace-store.ts:611-614 | a name clashes exactly when somebody else has it |
| `WorkspaceRuns.AddKeepsStore` | packages/server/src/workspace-store.ts:396-431 | addMember keeps every workspace covered, never gives a session to two workspaces, and changes one entry of one workspace |
| `WorkspaceRuns.SplitKeepsStore` | packages/server/src/workspace-store.ts:433-465 | splitRight keeps sessions exclusive exactly when no other workspace has the session, which it does not check |
| `WorkspaceRuns.RemoveKeepsStore` | packages/server/src/workspace-store.ts:467-477 | removeMember takes one entry out of one workspace and keeps the store covered and exclusive |
| `WorkspaceRuns.RenameKeepsStore` | packages/server/src/workspace-store.ts:506-519 | renameMember keeps all memberships and keeps the store covered and exclusive |
| `WorkspaceRuns.BroughtInKeepsStore` | packages/server/src/workspace-store.ts:259-308 | create and update: the store stays covered exactly when the layout is a good tree, in step exactly when that shows every member, and exclusive exactly when no other workspace has any of the sessions brought in |
| `WorkspaceRuns.MoveThrowsIff` | packages/server/src/workspace-store.ts:485-504 | a move throws exactly when a third workspace has the session too, and then the session has already left its source; the name is never the reason |
| `WorkspaceRuns.MoveCanThrow` | packages/server/src/workspace-store.ts:496-502 | a concrete store with one session in two workspaces, whose move throws after the session has left its source |
| `WorkspaceRuns.SplitCanShare` | packages/server/src/workspace-store.ts:433-459 | a concrete split that leaves a session in two workspaces |
| `WorkspaceRuns.ExclusiveMovesSucceed` | packages/server/src/workspace-store.ts:485-504 | when each session is in at most one workspace, no move throws, also where members stand outside the layout |
| `WorkspaceRuns.MoveCarriesOne` | packages/server/src/workspace-store.ts:485-504 | a move changes one entry in the source and one in the destination and nothing anywhere else |
| `WorkspaceRuns.MoveConservesMembership` | packages/server/src/workspace-store.ts:485-504 | a move conserves the total membership: the one session changes hands |
| `WorkspaceRuns.StepKeepsStore` | packages/server/src/workspace-store.ts:259-528 | every mutation keeps the store covered, in step and exclusive, each exactly under a condition on its arguments that a caller can check first |
| `WorkspaceRuns.RunKeepsStore` | packages/server/src/workspace-store.ts:259-528 | over every run of additions, splits, removals, moves, renames, updates, creations and deletions that bring in good trees, everyone shown is a member, once and under a name of its own; members and layouts stay in step and sessions exclusive while each mutation meets its condition |
| `WorkspaceRuns.StepCountsMembers` | packages/server/src/workspace-store.ts:259-528 | for every mutation, who is a member of which workspace afterwards: nobody comes or goes but who is named in it |
| `WorkspaceRuns.RunLosesNobody` | packages/server/src/workspace-store.ts:259-528 | over every such run a session that is a member somewhere stays one until a mutation lets it go, by removal, detaching, a thrown move, a member list without it, or a deletion |
| `WorkspaceStore.WorkspaceStore.Reconcile` | packages/server/src/workspace-store.ts:550-590 | the three loops compute the specified reconciliation |
| `WorkspaceStore.WorkspaceStore.AddMember` | packages/server/src/workspace-store.ts:396-431 | one of the four outcomes, each with exactly the store it leaves |
| `WorkspaceStore.WorkspaceStore.SplitRight` | packages/server/src/workspace-store.ts:433-465 | outcome and store |
| `WorkspaceStore.WorkspaceStore.RemoveMember` | packages/server/src/workspace-store.ts:467-477 | outcome and store |
| `WorkspaceStore.WorkspaceStore.MoveMember` | packages/server/src/workspace-store.ts:485-504 | outcome and store, including what a thrown addition leaves |
| `WorkspaceStore.WorkspaceStore.Create` | packages/server/src/workspace-store.ts:259-282 | the workspace comes in reconciled under its id |
| `WorkspaceStore.WorkspaceStore.Update` | packages/server/src/workspace-store.ts:284-308 | layout, preset and members in that order, then reconciled |
| `WorkspaceStore.WorkspaceStore.RenameMember` | packages/server/src/workspace-store.ts:506-519 | missing workspace, taken name, missing member or done, each with its store |
| `WorkspaceStore.WorkspaceStore.Delete` | packages/server/src/workspace-store.ts:521-528 | exactly that workspace goes |
| `WorkspaceStore.WorkspaceStore.FindHolder` | packages/server/src/workspace-store.ts:399-404 | a holder is reported exactly when another workspace has the session |
| `WorkspaceStore.WorkspaceStore.Clashes` | packages/server/src/workspace-store.ts:611-614 | a clash is found exactly when another session has the name |
| `PassiveInput.ReportsByBytes` | packages/server/src/agent-sleep.ts:209-212 | the reports, byte by byte |
| `SleepEvents.SleepGetsInIff` | packages/server/src/agent-sleep.ts:451-453 | a call of sleep gets in exactly on a live pane that is not asleep and has no sleep in flight |
| `SleepEvents.WakeStartsIff` | packages/server/src/agent-sleep.ts:516-526 | a wake starts exactly for a sleeper of a live pane, by a call or by input that is no report |
| `SleepEvents.WakeEndsEitherWay` | packages/server/src/agent-sleep.ts:539-562 | a wake that fails leaves a mark, a live pane and nothing of the queue; one that succeeds leaves neither mark nor gate, and the queue in its hands |
| `SleepEvents.AgentStartIsNoted` | packages/server/src/agent-sleep.ts:435-444 | an agent's start ends a failure, is noted by a waiting wake, and leaves a sleeper asleep |
| `SleepEvents.GatedInput` | packages/server/src/agent-sleep.ts:645-658 | over a gated sleeper reports are swallowed and the rest is queued while 64 KiB hold it, and counted otherwise |
| `SleepEvents.DeadStaysDead` | packages/server/src/agent-sleep.ts:453-518 | once the session has ended nothing is written and no wake starts, whatever happens |
| `SleepEvents.RestoredPanes` | packages/server/src/agent-sleep.ts:413-431 | after a restart a saved sleeper is gated and frozen and can be woken, a failure is only marked |
| `PassiveInput.PassiveIsThePattern` | packages/server/src/agent-sleep.ts:209-212 | the scan accepts exactly the non-empty texts made of focus and mouse reports |
| `SleepProofs.StepKeepsGuard` | packages/server/src/agent-sleep.ts:434-664 | every stretch between awaits keeps the gate invariant, as long as no sleep acts against another |
| `SleepRuns.SleepersAreGated` | packages/server/src/agent-sleep.ts:446-570 | on such runs, whenever a record sleeps or wakes, the gate is in, the screen frozen, and no viewer input reaches the PTY |
| `SleepSerial.SerialSleepersAreGated` | packages/server/src/agent-sleep.ts:446-570 | if no call of sleep is made while another is under way, the same holds over every run |
| `SleepRuns.ActIsSafeIff` | packages/server/src/agent-sleep.ts:453-478 | on a live pane a call of sleep may act exactly when nothing is in flight and no record or waiting wake can interfere; otherwise some continuation leaves a gate on a live screen |
| `SleepRuns.TwoSleepsRace` | packages/server/src/agent-sleep.ts:453-479 | a run from a cold start in which two calls pass the checks together and break the invariant |
| `SleepQueue.RunIsBalanced` | packages/server/src/agent-sleep.ts:642-659 | over every run, the queue is what fitted, its size is exact and at most 64 KiB, and accepted plus dropped bytes are all non-passive bytes that arrived |
| `SleepQueue.OneWakePerRecord` | packages/server/src/agent-sleep.ts:516-525 | no record starts two wakes |
| `SleepQueue.WakeWritesTheQueue` | packages/server/src/agent-sleep.ts:554-567 | a wake that succeeds writes exactly the accepted chunks in arrival order, as long as no new gate goes in and the session lives |
| `SleepQueue.WakeHandsOverTheQueue` | packages/server/src/agent-sleep.ts:554-567 | whatever happens after, the chunks a wake has handed on and those it has left are the accepted ones in order; each one handed on reached the PTY, was taken by a newer gate, or fell to a dead session |
| `SleepLoop.PaneSleeper.constructor` | packages/server/src/agent-sleep.ts:413-430 | a restart: a pane saved asleep or waking is a gated sleeper again, no other is; gate, books and order of wakes are kept |
| `SleepLoop.PaneSleeper.CallSleep` | packages/server/src/agent-sleep.ts:452-457 | the first checks: admitted only when nobody sleeps here, nothing is in flight and the session lives; gate, books and order of wakes are kept |
| `SleepLoop.PaneSleeper.Act` | packages/server/src/agent-sleep.ts:471-477 | freezing, when it may act: from here until the gate is in nothing can thaw the screen; gate, books and order of wakes are kept |
| `SleepLoop.PaneSleeper.Install` | packages/server/src/agent-sleep.ts:478 | installing: the gate goes in over a frozen screen, with an empty queue; gate, books and order of wakes are kept |
| `SleepLoop.PaneSleeper.GiveUp` | packages/server/src/agent-sleep.ts:501-502 | undoing: no record, no gate, no frozen screen; gate, books and order of wakes are kept |
| `SleepLoop.PaneSleeper.Return` | packages/server/src/agent-sleep.ts:508-512 | the end of a call: no other call is past its checks; gate, books and order of wakes are kept |
| `SleepLoop.PaneSleeper.CallWake` | packages/server/src/agent-sleep.ts:516-526 | accepted exactly for a sleeper of a live session, whose gate and frozen screen stay while its one wake waits; gate, books and order of wakes are kept |
| `SleepLoop.PaneSleeper.Ready` | packages/server/src/agent-sleep.ts:538-560 | the outcome of a wake: gate out, screen thawed, and on success exactly the accepted chunks taken along; gate, books and order of wakes are kept |
| `SleepLoop.PaneSleeper.FlushOne` | packages/server/src/agent-sleep.ts:564-567 | one chunk of the queue: handed on and left over stay the same chunks in order, and none passes a newer gate; gate, books and order of wakes are kept |
| `SleepLoop.PaneSleeper.NoteAgentStart` | packages/server/src/agent-sleep.ts:435-444 | the start hook: a sleeper stays one with its queue, a failure is cleared; gate, books and order of wakes are kept |
| `SleepLoop.PaneSleeper.DismissFailure` | packages/server/src/agent-sleep.ts:577-585 | dismissing: only a failure, never a sleeper; gate, books and order of wakes are kept |
| `SleepLoop.PaneSleeper.Input` | packages/server/src/session.ts:994-1001 | a viewer types: over a sleeper nothing reaches the PTY, real input starts the wake and the queue is what fits of all that was offered; otherwise it is written; gate, books and order of wakes are kept |
| `GeometryModel.RunKeeps` | packages/server/src/session.ts:762-832 | in every reachable live state the remembered size is the owner's, without one the PTY has the owner's size, and a borrow belongs to an attached read-write viewer |
| `GeometryModel.UnwatchedHasTheOwnersSize` | packages/server/src/session.ts:767-788 | without a read-write viewer and without a pending return, the PTY has the last owner-set size, or the creation size |
| `GeometryModel.ReturnRestores` | packages/server/src/session.ts:779-786 | without a writer, the timer's firing is all that is missing |
| `GeometryModel.BorrowImpliesUnwatched` | packages/server/src/session.ts:816-832 | an outstanding borrow implies a remembered size, and that it is the owner's |
| `GeometryModel.LoanIsReturned` | packages/server/src/session.ts:820-832 | whatever happens meanwhile, owner resizes, takeovers, comings and goings included, a loan ends exactly by the holder's return, departure or new attachment or by a re-attaching viewer that takes it over, and its end restores the size from before the first borrow |
| `GeometryModel.ReturnOverridesOwner` | packages/server/src/session.ts:811-832 | a run in which the owner sets a size during a loan and the return overrides it |
| `GeometrySizes.ResizeTakesIff` | packages/server/src/server.ts:2530-2547 | a resize takes effect exactly for an attached read-write viewer and a real size; flag 1 makes the viewer the borrower, any other leaves the loan alone |
| `GeometrySizes.ReturnTakesIff` | packages/server/src/server.ts:2540 | a return takes effect exactly for the borrower |
| `GeometrySizes.AttachTakesIff` | packages/server/src/server.ts:2420-2426 | a newcomer's ATTACH resizes exactly when it is read-write and brings a size |
| `GeometrySizes.DepartureArmsIff` | packages/server/src/session.ts:767-788 | a departure arms the return exactly when a size waits and no writer is left |
| `GeometrySizes.EndedForGood` | packages/server/src/session.ts:1003-1004 | an ended session is never resized again |
| `GeometryModel.ReattachLosesTheLoan` | packages/server/src/server.ts:2420-2426 | a concrete re-attach with a borrow that ends without the loan and at the old size |
| `GeometryModel.AttachBorrowsIffNew` | packages/server/src/server.ts:2263-2270 | a borrow on attaching holds exactly when the viewer was not attached yet |
| `GeometryLedger.Geometry.constructor` | packages/server/src/session.ts:401-402 | the size at creation is the owner's |
| `GeometryLedger.Geometry.Leave` | packages/server/src/session.ts:767-788 | a departure, also within an ATTACH: an unwatched PTY has the owner's size or is on its way back to it |
| `GeometryLedger.Geometry.OnTimer` | packages/server/src/session.ts:779-785 | the pending return: afterwards an unwatched PTY has the owner's size |
| `GeometryLedger.Geometry.ByOwner` | packages/server/src/session.ts:811-814 | the owner's size is taken now and is the one to come back to |
| `GeometryLedger.Geometry.OnAttach` | packages/server/src/server.ts:2407-2440 | one ATTACH: the viewer is attached in its mode, and the books hold |
| `GeometryLedger.Geometry.OnDetach` | packages/server/src/server.ts:2444-2457 | one DETACH: the viewer and a loan it held are gone, and the books hold |
| `GeometryLedger.Geometry.OnResize` | packages/server/src/server.ts:2530-2547 | one RESIZE: only an attached read-write viewer has a say, and the books hold |
| `GeometryLedger.Geometry.HasWriters` | packages/server/src/session.ts:790-793 | the search finds a read-write viewer exactly when there is one |
| `ConfigText.WrittenReadsBack` | packages/server/src/config-file.ts:18 | lines that are written out are read back as they were, with one empty line behind |
| `ConfigText.FormatReadsBack` | packages/server/src/config-file.ts:21-25 | a clean entry is read back as it was written, the empty value included |
| `ConfigFile.ParseConfig` | packages/server/src/config-file.ts:16-28 | the loop computes the specified dictionary |
| `ConfigFile.UpdateConfigText` | packages/server/src/config-file.ts:31-55 | the loops over lines, trailing blanks and appended keys compute the specified text |
| `ConfigStore.ConfigStore.Patch` | packages/server/src/config-file.ts:77-84 | what is handed out is what the file now says: the old values overridden by a clean patch, exactly when no patched key is repeated to another effect |
| `ConfigProofs.RepeatedKeyKeepsTheLast` | packages/server/src/config-file.ts:35-45 | for every key on two lines, a patch to another value than the last is not read back |
| `ConfigProofs.UpdatedValue` | packages/server/src/config-file.ts:31-55 | key by key, a patch is read back as asked unless its key stands on two lines or more, and then the old last value stays |
| `ConfigProofs.UpdateOverridesIff` | packages/server/src/config-file.ts:16-55 | parsing the updated text gives the old values overridden by the patch exactly when every patched key is on one line at most or the patch repeats its value |
| `ConfigProofs.SaysNothingIff` | packages/server/src/config-file.ts:19-22 | a line says nothing exactly when it is blank, a comment or without an equals sign, and such lines survive |
| `ConfigProofs.TrimTakesBlanks` | packages/server/src/config-file.ts:20 | trimming takes exactly the white space at both ends, by code points |
| `ConfigProofs.EndsWithoutBlank` | packages/server/src/config-file.ts:47-55 | the updated text never ends in a blank line |
| `ConfigProofs.OthersSurvive` | packages/server/src/config-file.ts:35-49 | comments, unknown lines and entries of other keys all survive in order; only blank lines at the end may go |

## Left out

- HolderLoop.EventLoop.ProcessFrames: the loop holds the bytes of its two frame readers as sequences; the array-backed reader with its growth and shifting is proved separately as `Frames.FrameReader` and agrees on every buffer.
- HolderLoop.EventLoop.PtyOutput: a failed write to the controller is an input of the event; sockets, poll, forkpty, signals and the linger deadline are not modelled, and PTY input counts as typed when it is queued for the PTY.
- HolderRecovery.RunRecoveryIsExactIff: covers recovery by checkpoint and REPLAY; on the DUMP_RESP path the code never moves the applied offset to the end of the dump, and no claim is made for it. Lost checkpoints, handshake timeouts and socket errors are outside the model.
- ViewerRuns.StreamIsExact: runs are those in which a viewer that is answered by a delta really holds the number it named, and in which the drain timer does not fire over a batch (see above). A frozen session, CMD.SNAPSHOT, the snapshot sent on creation and `onResync` are not modelled; a snapshot stands for the history through its number, the screen being a function of the bytes.
- ViewerLoop.Batcher.EnqueueData: the 4 ms timer and the microtask appear as a later flush at any time; the fan-out over the viewers of a session is part of the step function, not of the class.
- SyncBlock.SyncBlockFilter.Process: states the emitted bytes and their order, not how they are cut into chunks.
- OutputRing.OutputRing.Push: `clear`, used only when a session is killed, leaves the base number alone and is not modelled.
- LayoutShape.SplitListsBeside: requires distinct pane ids; the inverse laws do not. Sizes are exact reals, so floating-point rounding is outside the model, and so are `undefined` or non-finite sizes.
- Discretize.DiscretizeSizes: for integer budgets and non-negative integer floors. The array sort is the stable insertion order.
- WorkspaceOps.AddChangesOne: that nobody else is renamed needs a non-empty, free name, which the store checks but for emptiness; the same holds for splitting and renaming.
- WorkspaceRuns.RunKeepsStore: names of workspaces, which `create` and `update` check first and throw over, and the order in which workspaces are listed are not modelled; an update that throws changes nothing.
- LayoutPresets.PresetPlaces: the number of columns of the tiled grid is the exact square root, rounded up.
- WorkspaceStore.WorkspaceStore.MoveMember: takes the destination already trimmed; change events, diagnostics, timestamps of workspaces and the write to disk are not modelled, and `flush` promises nothing here: `dirty` is cleared after a write even when a change came in during it.
- SleepRuns.SleepersAreGated: runs are those in which a call of sleep acts only when it may (`SleepRuns.ActIsSafeIff` says exactly when), as it always may when calls do not overlap. Whether an agent may be slept at all, the process table, Ctrl-C and the resume command are inputs; one pane is modelled, as panes share no state.
- SleepQueue.WakeWritesTheQueue: for runs in which no new gate goes in and the session lives; `SleepQueue.WakeHandsOverTheQueue` covers all others. Other input may be written between the chunks. A sleep that gives up after input has arrived drops that input with its record.
- GeometryModel.RunKeeps: covers live sessions; the 3-second delay is a timer that is armed and may fire at any time.
- ConfigProofs.UpdateOverridesIff: for keys and values that are trimmed, on one line, without an equals sign or leading `#` in the key; keys that JavaScript objects treat specially, such as `__proto__`, are not modelled.
- Reordering of workspaces and streams, which accepts lists with repeats, and loading and stream tags of the workspace store.
- 64-bit offsets and counters are unbounded integers, except for the 32-bit frame length and sequence number.
- HTTP routes, WebSocket frames, the web and desktop clients, the command line, terminal parsing and serialization, the agent bus, tunnels and launch agents: plumbing, foreign code, or easier parts.
