# Kolkrabbi: journal, diff, compaction, stream framing and undo, in Dafny

Kolkrabbi is a coding agent written in Go. This project models the five of its components that hold state or transform
text, and proves what each of them promises. Code that updates state is a class or a method with loops; what it
computes is specified by functions and predicates, and what those mean is proved in lemmas.

* **Event journal** (`Wrappers`, `Slices`, `Journal`, `Bus` with module `EventBus`, `LateEvents`, `StreamTurn`). A bus
  numbers events, keeps the newest of them in memory within a count and a byte limit, hands every event to bounded
  subscribers, and queues it for a writer that appends to or rewrites a file. `Bus.Valid()` relates the counters, the
  window, the queue, the file, the durable part of the file and every subscription to one ghost journal. Disk failures
  may happen at any step of the writer, and then stay reported until the bus is closed. `StreamTurn` drains the bus to
  an output while everything else goes on around it.
* **Line diff** (`Subsequences`, `LineDiff`, `Texts`, `Patches`, `Hunks`, `Unified`, `Decimals`). Edit scripts, their
  optimality through the trimmed ends, hunks whose headers select the lines they show, and a reader that gets the hunks
  back from the text and applies them (`Patches.ReadPatch`, `Patches.Apply`).
* **Conversation compaction** (`Transcript`, `Items`, `Pairing`, `Utf8`, `Evidence`, `Rounds`, `Stages`,
  `Conversations`). A transcript is read as plain messages and complete tool rounds; every stage rewrites that reading.
* **Stream framing** (`EventNames`, `Framing`, `Streams`). NDJSON and SSE printers and the parser, over bytes that arrive
  in pieces of any size. JSON is an abstract pair of functions with laws (`Framing.Lawful`): a frame is one object on one
  line, as section 7 of RFC 8259 makes possible by escaping control characters, and is read back as it was printed. The
  SSE form is a strict one of section 9.2.5 of the WHATWG HTML standard. What may stand in a stream is
  `Streams.Readable`; the parser accepts exactly that.
* **Checkpoints** (`Undo`, `TurnStack`, `OutsideEdits`, `Checkpoints`, `WholeTurns`). An undo log over a tree of files,
  with ghost `origins`: the turns that can be taken back and the tree each of them goes back to, which is the one it
  started from with every later edit carried over that no recorded turn restores. A git commit is the tree it saved.
* **Inline marker** (`SagaMarker`). The scan for `/saga` against splitting into words.

Strings are sequences of bytes, except in `SagaMarker`, where they are sequences of code points. What a clock, a disk, a
file, an output, git or a model answers is a parameter (`now`, `readable`, `works`, `diskWorks`, `accepts`,
`summarize`) or left open.
UTF-8 is that of section 4 of RFC 3629.

## Where the code and its comments differ

* `internal/diff/diff.go:158` speaks of cutting a hunk where unchanged lines exceed twice the context; the code at line
  188 cuts where they exceed the context once. Neighbouring hunks can share unchanged lines; `Unified.HunksArePatch`
  shows that applying them in order still gives the new text.
* `internal/bus/bus.go:341-343` allows one frame more than the larger of the file cap and the memory limit. After a publish
  the queued log is within that larger limit itself (`EventBus.Bus.Publish`).
* `internal/engine/compact.go:157` adds two rounded estimates, so what fits may be estimated one token over the target.
  `Stages.FitsBound` says exactly when.
* `internal/bus/bus.go:490` sets the writer aside in `Close`, and no later step looks at its error. So a subscription from
  a cursor that is no longer in memory can be served a replay that is not the rest of the journal, without an error, in
  two ways: events were published after `Close` and reach no file (`LateEvents.PublishAfterClose`), or a frame never
  reached the file and later ones did, so that the file ends where the journal does and the gap check, which looks at the
  first event only, passes it (`LateEvents.LostWrite`). `EventBus.Bus.Subscribe` is exact when the cursor is in memory or
  the bus is `Honest`: without a file, still open, or closed without a failure and with nothing published since. For a
  closed bus whose writer never failed it is exact if and only if nothing was published since. In every case it serves
  what the file then holds (`Journal.Served`).
* `internal/engine/compact.go:144-155` reports nothing when the rounded estimate is the same as before, although messages
  may have been shortened, by fewer than four characters in all. `Rounds.ChangesShrink` says exactly when, and
  `Rounds.UnnoticedExcerpt` is an input.
* `internal/diff/diff.go:96` gives up on alignment above a size limit. `LineDiff.DiffLines` is optimal if and only if the
  limit is not exceeded or the middles share no line, and `LineDiff.LoseASharedLine` is a run that is not.

## Model

| member | source | states |
|---|---|---|
| EventBus.Bus.Publish | internal/bus/bus.go:270-333 | accepted exactly when valid, the writer healthy, a number left, the clock not back and the frame within both limits; then the journal grows by exactly that envelope, numbered next, the invariant holds, the writer is handed exactly one operation while the bus is open, the log keeps its beginning unless it is over the file cap and the window is smaller, and is then the window, it is within max(file cap, memory limit), and each live subscriber gets the event or is cut off as slow; otherwise nothing at all changes |
| EventBus.Bus.Admit | internal/bus/bus.go:271-309 | which event is refused for which reason, each exactly: an invalid event, a failed writer, exhausted numbers, a clock that runs back, a frame over a limit, whichever comes first |
| EventBus.Bus.Commit | internal/bus/bus.go:311-332 | retaining, queueing and fanning out together keep memory, log and subscriptions in agreement with the journal |
| EventBus.Bus.Retain | internal/bus/bus.go:311-318 | the retained window stays the longest suffix of the journal within both limits, its size counter exact, and never loses the newest event |
| EventBus.Bus.Trim | internal/bus/bus.go:673-679 | dropping from the front one by one lands on the longest suffix that fits |
| EventBus.Bus.Spill | internal/bus/bus.go:320-322 | file and queue together stay one contiguous end of the journal, of exactly the counted size; a closed writer's log is left alone |
| EventBus.Bus.EnqueueSpill | internal/bus/bus.go:348-358 | a frame is queued unless the log would be over the file cap and the window is smaller, and else a rewrite; either way the log stays a suffix of the journal that contains the window, within its bound, and the whole journal as long as that is within the file cap |
| EventBus.Bus.FanOut | internal/bus/bus.go:324-331 | a live subscriber receives the event if its buffer has room, and else is closed as slow; no other subscriber is affected |
| EventBus.Bus.Subscribe | internal/bus/bus.go:394-442 | refused for a cursor ahead, an expired one or an unreadable file, and as expired never, with a writer that has not failed, while the whole journal is within the file cap; replay plus live events start right after the cursor, exactly, when it is in memory or the bus is honest (no file, open, or closed without a failure and nothing published since); with a writer that has not failed, exactly if and only if the file's end is the journal's; otherwise the replay is what the file yields to the cursor |
| EventBus.Bus.ReplayAfter | internal/bus/bus.go:402-435 | from memory the replay is the rest of the journal; from the file it is what the file yields to the cursor, which with a writer that has not failed is the rest of the journal exactly when the file's end is the journal's; it fails exactly when the file is needed and cannot be read, or the bus is open and its writer has failed |
| EventBus.Bus.ReadSpillAfter | internal/bus/bus.go:444-473 | behind the barrier, while the bus is open, it yields what the file holds after the cursor; a gap before its first event is an error; an unreadable file is reported, and a failed writer while the bus is open, and nothing else; after `Close` the file of a failed writer is read like any other |
| EventBus.Bus.FlushSpill | internal/bus/bus.go:381-389 | the barrier empties the queue into the file |
| EventBus.Bus.FileReplay | internal/bus/bus.go:444-473 | what the file yields is the rest of the journal if and only if the file was not left behind |
| EventBus.Bus.Register | internal/bus/bus.go:436-442 | registration is atomic with the replay, so what follows continues it |
| EventBus.Bus.Close | internal/bus/bus.go:479-494 | when it returns without an error the whole log of the journal is durable under every policy, and every subscription is ended without an error |
| EventBus.Bus.Unsubscribe | internal/bus/bus.go:517-536 | detaching is idempotent and disturbs no other subscription |
| EventBus.Bus.WriterStep | internal/bus/bus.go:561-600 | the writer may move at any moment, with any outcome, without disturbing the invariant, and a failure is never forgotten |
| EventBus.Bus.Deliver | internal/bus/bus.go:508 | a reader receives events in order and disturbs nothing |
| EventBus.Bus.StreamIsContiguous | internal/bus/bus.go:376-442 | replay, received and buffered events together are one stretch of the journal from the cursor, reaching its end while the subscription is live |
| EventBus.Bus.SyncedEventsAreDurable | internal/bus/bus.go:361-373 | every written event up to the last one that must be synced is durable; when nothing is dirty, or every event is synced, all are |
| EventBus.Bus.TurnBoundariesAreDurable | internal/bus/bus.go:361-373 | a written `turn.finished`, `turn.cancelled` or `permission.` event is durable under the default policy, with all before it, and so is any event when every one is synced |
| EventBus.Bus.FileIsStretch | internal/bus/bus.go:561-640 | at every moment, with any operations still queued, the written file is one contiguous stretch of the journal, and so is its durable part |
| EventBus.PowerCut | internal/bus/bus.go:361-373 | when what was not flushed is lost, the next process opens a valid bus whose journal is the durable stretch, with every event in the file that had to be synced |
| EventBus.SpillWriter.Step | internal/bus/bus.go:561-640 | one operation applied in order: append, rewrite or barrier; for every outcome of the disk what the file then holds, and exactly when that is a failure; durability is kept while nothing failed |
| EventBus.SpillWriter.Drain | internal/bus/bus.go:381-389 | all queued operations in queue order |
| EventBus.SpillWriter.Finish | internal/bus/bus.go:590-600 | the last act leaves the durable file equal to the file, whatever the policy |
| EventBus.Subscription.Offer | internal/bus/bus.go:324-331 | a send that never waits: it succeeds exactly when there is room, and a subscription cut off remains a contiguous prefix |
| EventBus.Open | internal/bus/bus.go:165-263 | limits of zero become 10000 events, 8 MiB, a buffer of 256 and 64 MiB, negative ones are refused; recovery succeeds exactly for a readable file of this session, and yields a valid bus when the file is a log on the platter |
| EventBus.Bus.RecoverAll | internal/bus/bus.go:208-236 | replaying the file through the same trim rebuilds the window of the file's events |
| EventBus.Bus.RecoveredIsValid | internal/bus/bus.go:208-263 | the recovered counters, window and size satisfy the whole invariant |
| EventBus.Reopen | internal/bus/bus.go:208-236 | closing and opening again under the same limits gives the same number, clock and window, however often the file was rewritten |
| EventBus.SameWindow | internal/bus/bus.go:673-679 | the window depends only on the journal's end, not on where the file starts |
| EventBus.SuffixIsJournal | internal/bus/bus.go:605-640 | a rewritten file is a journal of its own that starts later |
| Journal.OutsideStaysOutside | internal/bus/bus.go:673-679 | what did not fit before an event does not fit after it, so trimming from the front misses nothing |
| Journal.WindowOfSuffix | internal/bus/bus.go:673-679 | the window of any suffix that contains the window is that window |
| Journal.WindowHoldsLast | internal/bus/bus.go:307-318 | an event that fits on its own is never trimmed away |
| Journal.QueueFrame | internal/bus/bus.go:348-358 | queueing a frame extends the log by it |
| Journal.QueueRewrite | internal/bus/bus.go:348-358 | queueing a rewrite makes the log the window |
| Journal.StretchStep | internal/bus/bus.go:561-589 | the writer finds a stretch of the journal, and its next operation leaves one |
| Journal.StretchDrained | internal/bus/bus.go:561-589 | so does draining the whole queue |
| Journal.QueueGrows | internal/bus/bus.go:348-358 | an operation queued for the newest event continues where the queue ends |
| Journal.ClosedLogStays | internal/bus/bus.go:479-494 | later events do not touch what a closed writer left |
| Journal.AppliedSnoc | internal/bus/bus.go:542-603 | an operation queued last is applied last |
| Journal.ReadBack | internal/bus/bus.go:455-460 | filtering a stretch of the journal by number cuts it at the cursor |
| Journal.SpillRead | internal/bus/bus.go:461-472 | the gap check decides exactly whether the cursor is older than the file |
| LateEvents.PublishAfterClose | internal/bus/bus.go:479-494 | a run of a bus that is not honest: one event, close, two more events; a subscription from the beginning succeeds with a replay that is not the journal |
| LateEvents.LostWrite | internal/bus/bus.go:444-494 | another: three events queued, the second fails without a byte, the third is appended; `Close` reports the failure, and a subscription from the beginning then succeeds with a replay of the first and the third |
| StreamTurn.DrainStream | internal/cli/stream_turn.go:47-106 | over every interleaving the frames written are the first `cursor` events of the journal in order, as long as each subscription began exactly at its cursor, and all did if the file is to be trusted at the end; it succeeds only after the turn was over, and has then written every event up to its last subscription, so every event published by the end of the turn; a write has failed only if there was a next event and the output refused its frame; it reports an ended subscription only if the bus was closed, and an incomplete stream only if its cursor could not be served, with the reason; in every other case it goes on, and has then spent each of its passes waiting, receiving or moving to a new subscription |
| StreamTurn.Follow | internal/cli/stream_turn.go:73-105 | the same through one subscription and its replacement: it is replaced exactly at the cursor and only when cut off as slow and emptied |
| StreamTurn.Select | internal/cli/stream_turn.go:77-104 | one pass of the select: it waits only while the turn goes on and the subscription is live and empty; otherwise a frame is written or refused, a subscription cut off as slow is replaced at the cursor or the stream is incomplete, one ended by closing the bus is reported, or the tail is written |
| StreamTurn.WriteReplay | internal/cli/stream_turn.go:50-76 | writing a replay frame by frame, with anything happening in between, advances the output by the whole replay, or up to the first frame the output refuses |
| StreamTurn.WriteLive | internal/cli/stream_turn.go:87-93 | a live event that is received is the next one to write; if the output refuses it the cursor stays |
| StreamTurn.WriteTail | internal/cli/stream_turn.go:79-86 | after the turn is over, one more subscription from the cursor completes the output up to at least the last event of the turn |
| StreamTurn.Resubscribe | internal/cli/stream_turn.go:97-101 | a replaced subscription continues at the cursor, without gap or repeat, or fails |
| StreamTurn.Interfere | internal/bus/bus.go:270-540 | publishes, writer turns, other readers, the end of the turn and closing only ever extend the journal and keep the bus valid |
| StreamTurn.Pause | internal/cli/stream_turn.go:47-106 | nothing that happens between two writes invalidates what was written |
| Subsequences.LcsIsUpperBound | internal/diff/diff.go:122-154 | no common subsequence is longer than the table's recurrence says |
| Subsequences.TrimmedUpperBound | internal/diff/diff.go:68-93 | setting the shared prefix and suffix aside does not lose optimality |
| LineDiff.DiffLines | internal/diff/diff.go:68-93 | the script turns exactly the old lines into exactly the new ones, always; it keeps as many lines as any alignment can if and only if the size limit is not exceeded or the middles share nothing |
| LineDiff.Trim | internal/diff/diff.go:69-77 | counts the shared lines at both ends without overlap |
| LineDiff.MiddlesAreTight | internal/diff/diff.go:69-77 | what is left between the shared ends shares neither its first nor its last line |
| LineDiff.DiffMiddle | internal/diff/diff.go:96-111 | the alignment of the middles, or wholesale replacement over the limit |
| LineDiff.AllOf | internal/diff/diff.go:113-119 | a run of edits of one kind is a script of its lines |
| LineDiff.LcsEdits | internal/diff/diff.go:122-154 | an exact script that keeps as many lines as a longest common subsequence has |
| LineDiff.FillTable | internal/diff/diff.go:123-135 | every cell of the flat table holds the longest common subsequence of what is left |
| LineDiff.FillCell | internal/diff/diff.go:129-133 | one cell from its three neighbours, the others untouched |
| LineDiff.Walk | internal/diff/diff.go:137-154 | the greedy walk through the table keeps the most lines |
| LineDiff.KeptIsCommon | internal/diff/diff.go:68-154 | what any script keeps is a common subsequence of its two sides |
| LineDiff.TrimmedIsBest | internal/diff/diff.go:68-111 | a script that keeps the ends and the best of the middles is the best of all, exactly within the limit or when nothing is shared |
| LineDiff.OverLimitLosesASharedLine | internal/diff/diff.go:96-111 | the middles of two texts of 2102 lines share a line and exceed the limit |
| LineDiff.LoseASharedLine | internal/diff/diff.go:68-111 | the script for these two texts is one, and does not keep the most lines |
| Hunks.Render | internal/diff/diff.go:161-231 | the hunks are well cut, truthfully located, hold every changed line exactly once and nothing else changed, no more unchanged lines in a row than the context, and end before the script does only where more than that follow; a reader of the text gets exactly these hunks back |
| Hunks.RenderHunk | internal/diff/diff.go:172-228 | one hunk: where it starts, what it spans, and a text from which a reader gets it back |
| Hunks.HunkEnd | internal/diff/diff.go:177-197 | a hunk ends after its last change plus at most `context` unchanged lines, and only at the end of the script or where more than `context` unchanged lines follow that change |
| Hunks.OpeningContext | internal/diff/diff.go:172-175 | a hunk opens with as much unchanged context as there is, up to the limit |
| Hunks.TextReads | internal/diff/diff.go:199-216 | reading undoes printing for every list of hunks whose lines hold no newline: the four numbers of each header, and every line by its mark |
| Unified.TextIsPatch | internal/diff/diff.go:161-231 | the text of a rendering, read and applied to the old lines, matches them everywhere and gives the new ones |
| Unified.HeaderSelects | internal/diff/diff.go:199-215 | start and count of a header select from each text exactly the lines the body attributes to it |
| Unified.HunksArePatch | internal/diff/diff.go:161-231 | the hunks alone, applied in order, turn the old text into the new one |
| Unified.UnifiedDiff | internal/diff/diff.go:26-40 | the output is empty if and only if the texts agree up to a final newline; read as a text and applied to the old lines, it matches them and gives the new ones |
| Texts.SplitLinesTerminated | internal/diff/diff.go:42-52 | splitting loses nothing but a missing final newline |
| Texts.SameLines | internal/diff/diff.go:42-52 | texts have the same lines exactly when they agree up to a final newline |
| Unified.NoChangeAgainstItself | internal/diff/diff.go:68-93 | a text against itself has no change, over the limit too |
| Decimals.DecimalValue | protocol/codec.go:72 | printed numbers read back as themselves, without superfluous zeros |
| Decimals.UInt64Length | protocol/codec.go:146-148 | a 64-bit number has at most 20 digits |
| EventNames.ValidEventType | protocol/envelope.go:63-81 | accepts exactly the non-empty lower-case words joined by single dots |
| EventNames.ValidId | protocol/envelope.go:46-61 | accepts exactly one kind letter, an underscore and 26 Crockford base-32 digits of 128 bits |
| EventNames.EventTypeIsOneLine | protocol/envelope.go:63-81 | a valid type never breaks a line of the stream |
| Framing.EncodeSse | protocol/codec.go:65-81 | prints an id, an event and a data line and a blank one, or refuses an invalid envelope |
| Framing.ReadStreamLine | protocol/codec.go:227-256 | one line of bounded length without carriage returns, the same however the reader's buffer cuts the bytes |
| Framing.ReadPrinted | protocol/codec.go:227-256 | a printed line is read back and leaves what follows unread |
| Streams.DecodeStream | protocol/codec.go:92-125 | yields exactly the envelopes the bytes encode, in order: what is delivered was in the bytes from their start on; it ends without an error only if they are a stream of exactly that, and with one only if they are no stream |
| Streams.DecodeNdjsonEnvelope | protocol/codec.go:128-144 | the next envelope is a function of the unread bytes alone |
| Streams.DecodeSseEnvelope | protocol/codec.go:146-225 | the next block is a function of the unread bytes alone, heartbeats skipped |
| Streams.DecodeSseBody | protocol/codec.go:179-223 | event, data and blank line must follow the id and agree with the frame (`Streams.SseBodyWas`) |
| Streams.PrintedReads | protocol/codec.go:55-125 | parsing undoes printing for every list of valid envelopes in frames that hold them, the encoders' own among them, with heartbeats anywhere between SSE blocks and anything after them |
| Streams.NextWas | protocol/codec.go:128-225 | an envelope that was read was in the bytes: after some heartbeats one line, or the id, event, data and empty lines of one block, with its own number, its own type and a frame that holds it, and it is valid |
| Streams.SseBodyWas | protocol/codec.go:179-223 | what was read after an id is an envelope of that number, printed with its type and a frame that holds it |
| Streams.EndWas | protocol/codec.go:92-164 | a clean end comes after heartbeats only |
| Streams.DecodedWas | protocol/codec.go:92-125 | the first k envelopes that were read are a printed beginning of the bytes |
| Streams.ReadsExactly | protocol/codec.go:92-256 | bytes are read to a clean end if and only if they are a stream, and then as exactly its envelopes |
| Streams.CutStream | protocol/codec.go:92-256 | a stream cut anywhere yields the whole blocks before the cut, and no error exactly when the cut is between blocks |
| Streams.BlockCut | protocol/codec.go:128-256 | a line, a block or a heartbeat cut inside is an error |
| Streams.SseBlockReads | protocol/codec.go:146-225 | one SSE block is read back, whatever follows |
| Streams.NdjsonLineReads | protocol/codec.go:128-144 | one NDJSON line is read back, whatever follows |
| Streams.HeartbeatSkipped | protocol/codec.go:155-164 | a heartbeat is no event |
| Streams.EncodersPrintBlocks | protocol/codec.go:55-81 | the encoders print the blocks these laws are about, readable ones for every sendable envelope |
| Transcript.EstimateTokens | internal/engine/compact.go:204-213 | the sum over all messages and calls, divided once |
| Transcript.CharsOfText | internal/engine/compact.go:204-213 | what counts is the length of contents, reasoning, and the names and arguments of calls |
| Transcript.CharsConcat | internal/engine/compact.go:204-213 | characters add up over concatenation |
| Transcript.CompleteToolRound | internal/engine/compact_rounds.go:13-36 | accepts exactly an assistant's calls with distinct non-empty ids, each answered once by the run of tool messages right after, and no other answers |
| Transcript.RoundIsLocal | internal/engine/compact_rounds.go:13-36 | whether a round is complete does not depend on what follows the next message that is no tool's |
| Transcript.RoundMoves | internal/engine/compact_rounds.go:13-36 | a suffix moved elsewhere keeps its rounds, if only contents changed |
| Transcript.SameRound | internal/engine/compact_rounds.go:13-36 | rounds of the same shape are complete together |
| Items.ParseAll | internal/engine/compact_rounds.go:13-36 | every transcript reads as plain messages and complete rounds, its rounds exactly the complete ones |
| Items.RoundIsItem | internal/engine/compact_rounds.go:77-82 | a complete round found at a position is one of the reading's rounds |
| Items.CollapseParses | internal/engine/compact_rounds.go:90-97 | one message in place of a round leaves every other round complete and every other message as it was |
| Items.ReshapedParses | internal/engine/compact_rounds.go:98-106 | changing contents alone keeps the reading |
| Evidence.ShortenEvidence | internal/engine/compact_rounds.go:40-54 | the two loops find the cuts of the excerpt's definition |
| Evidence.ExcerptFits | internal/engine/compact_rounds.go:40-54 | an excerpt is within its limit if and only if the limit allows excerpts or the text is that short; what is too long gets strictly shorter |
| Evidence.ExcerptKeepsEnds | internal/engine/compact_rounds.go:38-54 | an excerpt is a beginning of the text, the marker and an end of it; each end has half of the room, up to the nearest place where a character starts, in valid text at most three bytes away |
| Evidence.ExcerptIsValidUtf8 | internal/engine/compact_rounds.go:40-54 | valid UTF-8 stays valid UTF-8 |
| Evidence.BoundedEvidence | internal/engine/context_briefing.go:24-50 | within any budget of at least 160 bytes: all rows if they fit, else all rows excerpted if they fit, else as many rows from both ends as there is certainly room for, with a notice from which the number of missing rows is read |
| Evidence.BothEnds | internal/engine/context_briefing.go:43-49 | the rows kept are as many as there is room for, as many in front as at the back up to one, and the printed number of omitted rows is the true one |
| Evidence.NoticeTells | internal/engine/context_briefing.go:46-49 | the notice, read, says first how many rows are missing and then how many there are |
| Evidence.KeepsRoom | internal/engine/context_briefing.go:43-49 | rows and notice fit the budget, and at least one row is really missing |
| Evidence.BriefingBudget | internal/engine/context_briefing.go:14-19 | every briefing's budget leaves room for the notice, and is 32 KiB where no window is known |
| Utf8.CutAtRuneStart | internal/engine/compact_rounds.go:47-52 | valid text may be cut wherever a character starts |
| Utf8.ValidConcat | internal/engine/compact_rounds.go:53 | valid texts join to valid text |
| Rounds.ToolRoundDigest | internal/engine/compact_rounds.go:56-69 | one assistant message: the decision, and per call an excerpt of its arguments and of each of its results |
| Rounds.DigestTells | internal/engine/compact_rounds.go:56-69 | the digest of a complete round tells every call once, each with the one answer that is its own |
| Rounds.ExcerptRound | internal/engine/compact_rounds.go:99-105 | only the outputs of that round change, to excerpts of at most 1024 bytes, and the count of changed messages is exact |
| Rounds.ExcerptParses | internal/engine/compact_rounds.go:98-106 | excerpting a round keeps every round complete and never grows the transcript |
| Rounds.NewestRound | internal/engine/compact_rounds.go:77-82 | finds the newest complete round |
| Rounds.Sweep | internal/engine/compact_rounds.go:85-108 | one pass goes through the items in order up to the first transcript that fits, `latest` still pointing at the newest round while earlier ones shrink |
| Rounds.CompactToolRounds | internal/engine/compact_rounds.go:74-111 | the result is the first transcript that fits in the sequence: older rounds excerpted one by one, then digested one by one, then the newest excerpted; or the last one when none fits; messages outside rounds are untouched, and the report is exact |
| Rounds.NewestGoesLast | internal/engine/compact_rounds.go:71-74 | the newest round is intact whenever shrinking all older ones is enough, and otherwise changes only to excerpts |
| Rounds.OutsideRoundsStays | internal/engine/compact_rounds.go:71-74 | every message outside complete rounds is kept verbatim and in order, wherever the sweeps stop |
| Rounds.NothingRewritten | internal/engine/compact_rounds.go:83-110 | the count the sweeps keep is zero only if nothing was rewritten |
| Rounds.CountIsExact | internal/engine/compact_rounds.go:83-110 | the running count of the sweeps depends on the transcripts before and after alone: the outputs that now differ, and all messages of the rounds that were digested |
| Rounds.SweepsAreCounted | internal/engine/compact_rounds.go:74-111 | what is reported agrees with itself: tokens were freed exactly when messages are reported as rewritten, and exactly when a stage is |
| Rounds.TooLargeIsExhausted | internal/engine/compact_rounds.go:71-111 | a result still over the target is one where nothing is left to shrink: every output is within 1024 bytes, and every complete round but the newest is estimated no larger than its digest |
| Rounds.ChangesShrink | internal/engine/compact_rounds.go:74-111 | the result differs from the transcript exactly when it is shorter; it is reported as unchanged exactly when the estimates are equal, and then fewer than four characters are gone |
| Rounds.UnnoticedExcerpt | internal/engine/compact_rounds.go:74-111 | one call answered by 1025 bytes: for every target below its estimate of 256 the answer is excerpted to 1024 and nothing is reported |
| Pairing.PairingConcat | internal/engine/compact.go:40-43 | calls are answered and answers called for in a whole exactly when they are in its parts, when the cut is not before an answer |
| Pairing.PairingOfShape | internal/engine/compact.go:40-43 | pairing does not depend on contents |
| Pairing.AnsweredItems | internal/engine/compact.go:50-54 | all calls open complete rounds exactly when the reading's plain messages and answers have none |
| Pairing.OwnedItems | internal/engine/compact.go:40-43 | all tool messages belong to complete rounds exactly when none of the reading's plain messages is one |
| Stages.SplitAtRecentTurns | internal/engine/compact.go:163-182 | the backward scan finds the defined boundary |
| Stages.SplitsAtTurns | internal/engine/compact.go:161-182 | the tail is exactly the asked-for number of turns from a user message on; there is no head when nothing is older |
| Stages.DropOutputs | internal/engine/compact.go:61-75 | only tool outputs change, each to a notice of its length, once |
| Stages.OutputsAreGone | internal/engine/compact.go:64-75 | afterwards every tool message is empty or begins like a notice, a dropped one tells how long it was, and nothing else has changed |
| Stages.DroppedCountIsExact | internal/engine/compact.go:62-75 | the count is that of the messages that changed |
| Stages.CollapseToolTraffic | internal/engine/compact.go:187-202 | every complete round becomes its digest, everything else stays in order, and the count is that of the messages replaced |
| Stages.RoundsAreGone | internal/engine/compact.go:187-202 | afterwards there is no complete round left, and every message outside them is there as it was, in order |
| Stages.CollapsedCountIsExact | internal/engine/compact.go:189-201 | every message is counted as collapsed or stands outside the rounds |
| Stages.FitsBound | internal/engine/compact.go:157-159 | what fits is at most one token over, and over exactly when both sums are full and the remainders add up |
| Stages.FitsCanOverrun | internal/engine/compact.go:157-159 | an instance that is one token over |
| Stages.OutputsKeep | internal/engine/compact.go:64-78 | dropping outputs keeps pairing, instructions and requests |
| Stages.CollapseKeeps | internal/engine/compact.go:80-89 | collapsing rounds keeps pairing, instructions and requests |
| Stages.SweepsKeep | internal/engine/compact_rounds.go:71-111 | shrinking rounds keeps pairing, instructions and requests, and accounts exactly |
| Stages.SummaryKeeps | internal/engine/compact.go:112-124 | a summary keeps pairing and the instructions, and of the older requests exactly the first |
| Stages.SummaryIsKept | internal/engine/compact.go:112-125 | the kept older messages, then exactly one new message, an assistant's without calls that ends in the summarizer's text, then the recent turns, also after their rounds were shrunk |
| Stages.SweptPrefix | internal/engine/compact_rounds.go:74-111 | sweeping leaves a beginning without calls and tool messages as it is |
| Stages.CompactRecent | internal/engine/compact.go:128-142 | shrinks the rounds of what a stage left only if that is not enough yet and something is gained |
| Stages.RecentKeeps | internal/engine/compact.go:128-142 | and then keeps what the stage kept, its stage too, with the sum of both gains and a larger count |
| Stages.CompactMessages | internal/engine/compact.go:44-126 | for every summarizer and target: calls stay answered and answers called for, system messages stay in order, user messages all stay or the first older one and all recent ones do, the freed tokens are the difference of the estimates, and the first stage that fits is the one used; a summarizer that is asked and answers with text that is not blank has that text at the end of the one new message between the kept older ones and the recent turns; one that is at hand and not asked was not needed to fit |
| Stages.FittingStaysFit | internal/engine/compact.go:76-89 | no more is given up than needed: the outputs if that fits, else the rounds if that does; the result is at most one token over the target and ends with the recent turns verbatim |
| Stages.TooLargeIsSqueezed | internal/engine/compact.go:90-142 | a result more than one token over the target has nothing left to shrink, or nothing that the estimate would show |
| Stages.GainIsReported | internal/engine/compact.go:44-155 | on every path, freed tokens come with a stage and a positive count of messages |
| Stages.Summarize | internal/engine/compact.go:96-125 | the summarizer is asked exactly when the cheaper stages do not fit, one is at hand and there is more than a system message; its text ends the one new message of the result; a failed or blank summary leaves the cheaper result |
| Conversations.Agent.CompactNow | internal/engine/compact.go:355-373 | the conversation is replaced exactly when the estimate got strictly smaller, the whole of it was archived and the smaller one saved; otherwise neither it nor its file changes; what the summarizer answered is in the result |
| Conversations.Agent.ApplyCompaction | internal/engine/compact.go:263-279 | archive before replacing, and put back what could not be saved |
| Conversations.Agent.RestoreCompaction | internal/engine/compact.go:391-412 | undoing succeeds exactly when the conversation still starts with what compaction left and can be saved, and returns the replaced messages plus all said since |
| Conversations.Agent.CompactThenRestore | internal/engine/compact.go:355-412 | compacting, any number of turns, and undoing lose nothing and reorder nothing |
| Undo.BackupNameInjective | internal/checkpoint/checkpoint.go:146-150 | no two entries share a backup, past six digits too |
| Undo.UndoLeavesAlone | internal/checkpoint/checkpoint.go:189-211 | a path without an entry is left alone |
| Undo.UndoneAlike | internal/checkpoint/checkpoint.go:189-211 | undoing decides every recorded path, whatever the tree holds there, and passes differences elsewhere through |
| TurnStack.LastIsTop | internal/checkpoint/checkpoint.go:161-178 | the turn that is taken back is the newest recoverable one |
| TurnStack.RecordKeeps | internal/checkpoint/checkpoint.go:123-156 | recording a path keeps every turn recoverable |
| TurnStack.SnapshotKeeps | internal/checkpoint/shadow.go:211-234 | a snapshot at the start of a turn makes it recoverable as a whole |
| TurnStack.RewindKeeps | internal/checkpoint/checkpoint.go:161-215 | taking the newest turn back gives the tree it started from and leaves the older turns recoverable |
| TurnStack.LitterKeeps | internal/checkpoint/checkpoint.go:205-209 | a backup that could not be deleted does no harm |
| TurnStack.FirstEntryIsOriginal | internal/checkpoint/checkpoint.go:241-264 | the first entry for a path from a turn on holds it as that turn goes back to it, when only copies were kept in between |
| OutsideEdits.EditKeeps | internal/checkpoint/checkpoint.go:161-215 | whatever becomes of the tree, by whomever and at any time, every recorded turn can still be taken back, with the change carried over to the paths that turn and the later ones do not restore |
| OutsideEdits.OneEdit | internal/checkpoint/checkpoint.go:161-215 | an edit of one path moves the trees to go back to at that path only, and those that restore the path not at all |
| OutsideEdits.OutsideStays | internal/checkpoint/checkpoint.go:161-215 | taking turns back leaves every path alone that none of them recorded |
| OutsideEdits.CoveredMovesNothing | internal/checkpoint/checkpoint.go:121-156 | an edit the current turn can undo moves none of them |
| OutsideEdits.OriginsDetermined | internal/checkpoint/checkpoint.go:161-215 | the log and the tree alone decide what the turns go back to |
| Checkpoints.Store.BeginTurn | internal/checkpoint/checkpoint.go:116-119 | a new turn is recoverable from the start if it can be snapshotted, and the store falls back to copies if not |
| Checkpoints.Store.Record | internal/checkpoint/checkpoint.go:123-156 | the path is covered by a new entry that holds it as it is, or the failure is reported; every turn stays recoverable either way |
| Checkpoints.Store.Change | internal/checkpoint/checkpoint.go:121-123 | any write, removal or outside edit, recorded or not, keeps every turn recoverable: turns that restore the path go back to the same trees, for the others the change is carried over |
| Checkpoints.Store.RewindLastTurn | internal/checkpoint/checkpoint.go:161-215 | a successful rewind puts back the paths the last recorded turn recorded and leaves every other path as it is, outside edits included; it finds nothing exactly when no turn is recoverable, and otherwise succeeds when the file system does, unless that turn has a snapshot and the session has given up snapshots since |
| Checkpoints.Store.RewindSnapshot | internal/checkpoint/shadow.go:296-321 | the whole tree becomes the snapshot's, and exactly the paths that differed are reported |
| Checkpoints.Store.RewindEntries | internal/checkpoint/checkpoint.go:180-215 | the entries of the turn are undone newest first and forgotten: each recorded path is as its first entry holds it, and no other path is touched even when the attempt fails; impossible once one of the backups is gone |
| Checkpoints.Store.RewindTurns | internal/checkpoint/checkpoint.go:161-215 | k successful rewinds give the tree the k-th last recorded turn goes back to, and touch no path that none of these turns recorded; they succeed when the file system does and each of these turns is kept by copies or the session still has snapshots |
| Checkpoints.Store.Original | internal/checkpoint/checkpoint.go:241-264 | the first entry for the path, whose content is what the path held in the tree of every turn from which on only copies were kept until that entry |
| WholeTurns.TurnsThenUndo | internal/checkpoint/checkpoint.go:116-215 | in a session that keeps copies: any list of turns, each of tools and other hands in any order, and then one rewind for every turn in which a tool changed something, leaves the tree as the whole run would have left it without the tools, and without what others did to a path after a tool had changed it; it succeeds when the file system does |
| WholeTurns.RunTurn | internal/checkpoint/checkpoint.go:116-156 | one turn of such a run, whatever was recorded in the turns before it |
| WholeTurns.TurnThenUndo | internal/checkpoint/checkpoint.go:116-215 | in particular one such turn, undone, in a session that keeps copies |
| WholeTurns.ToolStep | internal/checkpoint/checkpoint.go:121-156 | a tool's recorded write does not move what the run goes back to |
| WholeTurns.OtherStep | internal/checkpoint/checkpoint.go:161-215 | anyone else's write to a path no tool has changed in the run is part of what it goes back to |
| Checkpoints.Store.BeginTask | internal/checkpoint/task_snapshot.go:47-62 | the task's snapshot is the tree as it is now |
| Checkpoints.Store.EndTask | internal/checkpoint/task_snapshot.go:65-78 | its paths are exactly what differs from its snapshot, and no other task is touched |
| Checkpoints.Store.RewindTask | internal/checkpoint/task_snapshot.go:95-143 | refused exactly for an unknown or already consumed task or without snapshots; otherwise restores exactly the paths it changed that no standing later task changed, and is then consumed; every turn stays recoverable |
| Checkpoints.RestoredAt | internal/checkpoint/task_snapshot.go:145-166 | restoring touches the listed paths and nothing else |
| Checkpoints.RestoredIsCommit | internal/checkpoint/task_snapshot.go:95-143 | restoring exactly what a task changed gives its snapshot |
| Checkpoints.Store.RunTask | internal/checkpoint/task_snapshot.go:47-78 | tasks run to their end one after another stay a chain of snapshots, and every turn stays recoverable |
| Checkpoints.RewindTasks | internal/checkpoint/task_snapshot.go:95-143 | taking such tasks back in reverse order returns the tree to the first one's snapshot |
| Checkpoints.ChangedSince | internal/checkpoint/shadow.go:247-276 | lists exactly what differs, each path once |
| SagaMarker.InlineSagaPrompt | internal/cli/saga_marker.go:16-40 | a marker is found exactly when `/saga` is one of the words; the result's words are the prompt's without it, in order, and scanning again finds none |
| SagaMarker.IndexMarker | internal/cli/saga_marker.go:20-24 | finds the first occurrence |
| SagaMarker.MarkerWordIsAt | internal/cli/saga_marker.go:42-56 | a word equal to the marker is an occurrence between spaces or ends |
| SagaMarker.NoMarkerBetween | internal/cli/saga_marker.go:18-40 | a stretch without such an occurrence has no marker among its words |
| SagaMarker.CopyMarker | internal/cli/saga_marker.go:26-31 | copying up to a marker and skipping it removes that one word |
| SagaMarker.CopyRest | internal/cli/saga_marker.go:35-39 | what follows the last marker is copied as it is |
| SagaMarker.WordsJoin | internal/cli/saga_marker.go:16-40 | splitting a prompt at a space splits its words |
| SagaMarker.TrimKeepsWords | internal/cli/saga_marker.go:38-39 | trimming changes no word |

## Left out

- EventBus.Bus.Publish: does not model blocking on a full writer queue of 1024 operations, nor redaction, canonical session ids and payload validation, which are the parameter `accepts`.
- EventBus.SpillWriter.Step: a rename counts as durable at once, and a torn append leaves some other content; how bytes reach a disk is not modelled.
- EventBus.Open: says nothing about a file that is not a log on the platter, because the code trusts the numbers it finds there; canonical session ids, the range of the sync policy and errors opening the file for append are not modelled.
- EventBus.Bus.Subscribe: once a failed writer was closed the file is served as it is, as in the code; it need not be the journal's then (`LateEvents.LostWrite`), and nothing bounds how far it is from it.
- StreamTurn.DrainStream: scheduling is any number of atomic steps of the others between two of its own; the number of passes through its loop is a parameter, so nothing is said of when it ends; a short write is a refused frame.
- Framing.ReadStreamLine: the errors for a long line, a carriage return and an unexpected end are one.
- Framing.EncodeSse: JSON text, its escaping and the checks of each event's data are the abstract `Json`.
- Checkpoints.Store.RewindLastTurn: file modes, symbolic links, ignored files and the confinement of restored paths to the project are not modelled; after a rewind by copies that failed half way nothing is promised of the turns, because the backups it used are gone.
- Checkpoints.Store.RewindSnapshot: what a restore that fails half way leaves in the tree is left open.
- Conversations.Agent.CompactNow: the conversation's round trip through the session's own message type and reflect.DeepEqual are equality; an agent without a session is not modelled.
- SagaMarker.InlineSagaPrompt: a prompt is its code points, so ill-formed UTF-8 stands for replacement characters.
- Goroutines and mutexes: each method of a bus is one atomic step.
- `Truncate` of internal/diff/diff.go, `ChangedPaths` and the ordering of listed paths: easier members of the same kind.
- `boundedOutcomes` and `dependencyBriefingWithin`: callers of `boundedEvidence` that add a heading.
- `compactIfNeeded`, `recoverFromOverflow`, `overflowTarget` and session titles: thresholds and messages around `CompactNow`.
- Reopening a checkpoint store or a session from its files, and the command line, models, hooks, servers and user interfaces.
