# Agent response gateway: verified models

The gateway translates between model APIs and keeps resumable, encrypted
sessions for a host that replays its own history. Around it stand host and
release scripts with state of their own. This project models the parts of that
system whose promises span many calls, and proves them for every input, every
run and every reachable state. `dafny verify dfyconfig.toml` checks everything.

| files | part of the system |
|---|---|
| `SseSpec`, `SseDecoder`, `SseFrames`, `SseMeaning` | incremental decoder of section 9.2.6 of the WHATWG HTML Standard against a whole-stream reading, the meaning of every kind of field line in bytes, and the gateway's own frame printer as the decoder's inverse |
| `Json`, `History`, `Resume`, `Tolerance` | what a response publishes, what is recorded about it, how the next request is verified against the recorded chain, and which changes a host may make |
| `Store`, `Lifecycle` | the continuation store: compare-and-set reservations, commits, crashes, and what a session takes next |
| `Sessions` | store, sealed records and host together: when a session of any reachable store resumes |
| `Publication` | order of effects of a managed request: commit, final acknowledgement, visible token, bounded numbered stream |
| `Conversation`, `Messages`, `MessagesProtocol`, `Chat`, `ChatProtocol` | translation of the flat item list into two provider protocols |
| `Utf8` | cutting event text on character boundaries |
| `Continuity` | host continuity records: hash chain, budget, tools at most once |
| `ActivationLock`, `ActivationStore`, `Ordering` | the extension activation lock, its strict reader, its writer and guarded mutations |
| `Licenses`, `SbomGraph`, `SbomRefs`, `Sbom`, `Planning` | greedy licence selection, bill of materials, validation planning |

Loops and updated objects of the source are methods and classes here
(`SseDecoder`, `Attempt`, `Store`), each proved against a specification on
values; the theorems are about those specifications.

## Where the code does less than it promises

Each of these is stated with the exact condition under which the promise holds.

- Resuming (the comment at src/proxy_managed.rs:805-806): a provider plugin's
  response may hold a reasoning item with status `completed`, or one with a
  summary and `encrypted_content: null`; the verifier of such responses admits
  both (src/adapters/responses.rs:427-513). They are published and recorded, and the
  history check then refuses the first for its field and never finds the second
  again, because it drops that field from what the host sends back. The session
  never resumes. A request that repeats the clean input after a turn without
  visible output ends the session in the same way (the store refuses it only if
  the rest of the request is repeated too). `Resume.VerifiedTurnsResumeIff` says
  that nothing else stops it, `Resume.ResumesIff` says so for any response, and
  `Sessions.ReachableSessionResumesIff` shows that in every reachable store only
  the last turn can be the cause.
- Giving up (src/proxy_managed.rs:94-120): a caller that leaves while the
  reservation is awaited leaves it behind. The store's task still carries it out
  (src/continuation/mod.rs:324-335), but the guard that would mark the attempt
  uncertain is never built. `Publication.Respond` says that a run is closed in
  every other case, and `Store.UnsettledBlocksSession` that the session then
  refuses every request and transition until the store is reopened.
- Planning: adding a changed path can remove the `publication` job when the
  policy does not list it (`Planning.JobsGrowIff`).
- Installing: a guarded installation that adds the 129th package, or overruns
  the listing budget, changes the store and then fails towards its caller
  (`ActivationStore.InstallUnreportedIff`).

## Model

| member | source | states |
|---|---|---|
| SseDecoding.NewDecoder | src/adapters/sse.rs:20-33 | a zero limit is refused, any other gives a decoder in the state of the empty stream |
| SseDecoding.SseDecoder.constructor | src/adapters/sse.rs:24-32 | a new decoder is in the state of the empty stream |
| SseDecoding.SseDecoder.EndLine | src/adapters/sse.rs:67-121 | a closed line dispatches, is ignored or extends the open block exactly as the standard's line interpretation; malformed UTF-8 is the only other outcome, because the size test fires only if the buffers already exceed the limit on entry; memory never grows |
| SseDecoding.SseDecoder.Step | src/adapters/sse.rs:38-63 | one byte keeps the decoder equal to the whole-stream reading of all bytes so far, within the limit, or reports exactly the fault that reading assigns to the byte |
| SseDecoding.SseDecoder.NextEvent | src/adapters/sse.rs:37-65 | consumes up to the next event: the events of the longer stream are those of the shorter plus the one returned; the invariant includes line + data + event within the limit and the data flag |
| SseDecoding.SseDecoder.Finish | src/adapters/sse.rs:123-128 | succeeds iff the stream ends between blocks with nothing pending |
| SseDecoding.MemoryIsBounded | src/adapters/sse.rs:46-121 | in every reachable state line + data + event stay within the limit, and the flag is set iff the data buffer is non-empty, which then ends in LF |
| SseDecoding.DrainChunk | src/proxy_managed.rs:639-659 | one chunk yields exactly the events its bytes add, up to the first fault |
| SseDecoding.Drain | src/proxy_managed.rs:639-659 | for every stream and every way of cutting it, events, fault and final state are those of the whole-stream specification |
| SseSpec.DecodesUnique | src/adapters/sse.rs:37-121 | that specification fixes events and fault, so chunking cannot matter |
| SseSpec.LinesAppend | src/adapters/sse.rs:38-63 | how the split on CRLF, LF or CR grows by one byte, a CR at the end of the stream included |
| SseSpec.BlocksAppend | src/adapters/sse.rs:67-121 | how blank-line separated blocks grow by one line |
| SseSpec.BufferIsJoin | src/adapters/sse.rs:67-121 | the data buffer of a block is its data values joined by LF plus one final LF, so removing the last byte removes only that LF |
| SseFrames.ReadFrame | src/proxy_managed.rs:890-899 | a printed frame, read at a block boundary, adds exactly its (type, JSON) event iff it fits the limit |
| SseFrames.PrintedFramesRead | src/proxy_managed.rs:890-899 | the whole-stream reading of printed frames gives back the frames, without fault, iff each needs at most the limit |
| SseFrames.PrintedFramesDecode | src/proxy_managed.rs:890-899 | round trip: whatever drains the printed stream returns the printed (type, JSON) sequence without fault |
| SseFrames.DrainPrinted | src/proxy_managed.rs:890-899 | the printed stream, cut in any way, drains to the printed frames and finishes cleanly iff each frame fits the limit |
| SseMeaning.BlockMeans | src/adapters/sse.rs:67-121 | for every list of field lines, under any of the three terminators: a block with data adds one event, the data values joined by LF, under the last type named or `message` without one; a block without data adds none; comments, other fields and missing spaces make no difference (all in bytes) |
| SseMeaning.DefaultType | src/adapters/sse.rs:83-84 | `data: v` and a blank line add exactly one event of type `message` with data v, byte by byte |
| SseMeaning.EmptyTypeIsDefault | src/adapters/sse.rs:83-101 | so does a block whose last event line is empty, whatever type it named before |
| SseMeaning.MarkIsSkipped | src/adapters/sse.rs:69-74 | a byte order mark before the first line is skipped |
| SseMeaning.EndsWellIff | src/adapters/sse.rs:123-128 | a stream may end behind field lines iff they name neither data nor a type |
| SseMeaning.NotInsideLine | src/adapters/sse.rs:123-128 | and never inside a line |
| SseMeaning.MalformedLineFaults | src/adapters/sse.rs:75 | a line that is not UTF-8 is a fault of the byte that ends it |
| History.ScanInput | src/proxy_managed.rs:153-208 | one pass over the input: refused iff an item is malformed, else the clean items and the tokens in order |
| History.VerifyChain | src/proxy_managed.rs:209-249 | succeeds iff all tokens restore and the records form one parent chain placed in the input with matching digests and output; returns exactly their segments and the last response |
| History.CheckCoverage | src/proxy_managed.rs:250-259 | true iff every public reasoning item lies in a segment |
| History.VerifyHistory | src/proxy_managed.rs:142-288 | accepted iff the tokens are the chain from the root to the session head and all else holds; the result is the clean input and one segment per record |
| History.ChainIsOrdered | src/proxy_managed.rs:209-249 | in an accepted chain each record has the one before it as parent, responses are distinct, spans are increasing, disjoint and in bounds |
| History.SegmentAt | src/proxy_managed.rs:236-245 | each record of the chain has its segment, with recorded end and native value |
| History.SegmentSource | src/proxy_managed.rs:236-245 | and no segment comes from anywhere else |
| History.CoverageAgrees | src/proxy_managed.rs:250-259 | looking through the segment map is the same as looking through the records |
| History.HeadFixesChain | src/proxy_managed.rs:209-249 | the head response id fixes the whole chain below it |
| History.AcceptedHistoriesAgree | src/proxy_managed.rs:142-288 | with an injective digest and one record per response, any two accepted inputs for one head agree, up to normalization, through the last segment |
| Tolerance.NormalizedSame | src/proxy_managed.rs:36-69 | the verifier compares two values as equal iff they agree field by field but for id, status, a null phase or passthrough, the type of a message, and empty annotations of output text |
| Tolerance.ToleratedChanges | src/proxy_managed.rs:142-288 | two requests whose items agree in that sense (reasoning items but for id, null or empty content, null passthrough and null token) get the same verdict, tokens and segments |
| Tolerance.AcceptedPrefixesSame | src/proxy_managed.rs:209-249 | with an injective digest two requests accepted for one head hold the same items through the last segment, in the same sense |
| Tolerance.OtherChangesAreRefused | src/proxy_managed.rs:209-249 | so every other change inside the recorded prefix is refused |
| Tolerance.FieldsMayVary | src/proxy_managed.rs:41-47 | adding, changing or dropping id or status, or a null phase or passthrough, is tolerated |
| Tolerance.TypeMayBeMissing | src/proxy_managed.rs:48-50 | so is leaving out the type of a message |
| Tolerance.NotesMayBeMissing | src/proxy_managed.rs:51-63 | and an empty annotation list on output text |
| Tolerance.AcceptedReasoning | src/proxy_managed.rs:155-204 | exactly which fields an accepted reasoning item can carry, value by value |
| Tolerance.AcceptedReasoningIsCovered | src/proxy_managed.rs:250-259 | every reasoning item of an accepted request lies in a segment |
| Tolerance.AcceptedTurnsStand | src/proxy_managed.rs:213-249 | every recorded turn of an accepted request stands where it was recorded, item by item, behind its parent, the last one the head |
| Tolerance.NoTokenNoHead | src/proxy_managed.rs:247-249 | an accepted request carries no token iff its session has no head |
| Tolerance.FreshEpochAccepts | src/proxy_managed.rs:260-285 | a session that starts from an approved context accepts exactly messages of the host, one and only one of them the approved user message |
| Resume.CleanKeeps | src/proxy_managed.rs:36-69 | the cleaned form of a public item equals it up to normalization iff it has neither private field |
| Resume.PublishedReads | src/proxy_managed.rs:802-837 | a published response reads back as its public output with its token first, iff every item is replayable |
| Resume.UnpublishableIsRejected | src/proxy_managed.rs:802-824 | an output that is refused for publication would have been refused by the history check |
| Resume.EnvelopeMeans | src/proxy_managed.rs:825-837 | the token stands in the first reasoning item and changes nothing else, or in a new item with exactly four fields behind the output |
| Resume.RecordedMeans | src/proxy_managed.rs:802-824 | what is recorded is the output without its first reasoning item if that is empty; any other empty reasoning item refuses the response |
| Resume.TranscriptReads | src/proxy_managed.rs:764-778 | a transcript of replayable turns is accepted item by item, shows one token per turn and ends where the last record says |
| Resume.RecordsLink | src/proxy_managed.rs:331-337 | the records written along a run link up over anything the host sends that starts with the transcript |
| Resume.ReplayableTurnsResume | src/proxy_managed.rs:142-288 | any number of replayable, advancing turns resumes, with exactly the recorded chain |
| Resume.AcceptedTurnsReplayable | src/proxy_managed.rs:142-288 | conversely, a transcript that is accepted consists of replayable turns |
| Resume.AcceptedTurnsAdvance | src/proxy_managed.rs:209-249 | and every turn of it advances |
| Resume.ResumesIff | src/proxy_managed.rs:805-837 | the round trip holds iff every recorded item is replayable and every turn advances |
| Resume.ResumedSegments | src/proxy_managed.rs:236-287 | a session that resumes gets exactly one segment per turn, with the start, end and native value of that turn, in order and disjoint |
| Resume.SurvivorsReplay | src/adapters/responses.rs:427-513 | of the reasoning items the plugin verifier admits, exactly those without `status`, and without `encrypted_content` beside a summary, can be replayed |
| Resume.VerifiedTurnsResumeIff | src/proxy_managed.rs:142-288 | a session of verified responses resumes iff every item survives in that sense and every turn advances |
| Resume.VerifiedItemNeverResumes | src/adapters/responses.rs:427-513 | two items the verifier admits, each the answer to a user message in a turn that is dispatched, published and stored: the next request is refused whatever the host adds |
| Resume.EmptyTurnEndsSession | src/proxy_managed.rs:209-249 | a turn without new items after one without visible output: no later request is accepted, whatever the other turns hold |
| Store.CreateKeeps | src/continuation/sqlite.rs:203-222 | creation keeps the store consistent |
| Store.BeginKeeps | src/continuation/sqlite.rs:227-281 | a reservation (compare-and-set on revision and head, reserve within the limit, no repeated input) keeps it consistent |
| Store.FinalizeKeeps | src/continuation/sqlite.rs:282-320 | a commit keeps the store consistent; the chain of the session's epoch, which ended in the old head, is the same chain with the attempt appended, and the attempt is the new head |
| Store.UncertainKeeps | src/continuation/sqlite.rs:321-332 | giving an attempt up keeps it consistent |
| Store.TransitionKeeps | src/continuation/sqlite.rs:343-398 | compaction and recovery keep the store consistent; starting a compaction keeps epoch and head, every other transition starts the next epoch without a head, bound to the approved context |
| Store.ReopenKeeps | src/continuation/sqlite.rs:146-175 | opening after a crash keeps it consistent |
| Store.RunsStayConsistent | src/continuation/sqlite.rs:203-398 | over every run, crashes included: per session and epoch the finalized attempts are exactly one duplicate-free chain from a parentless root, each the parent of the next, ending in the head if the epoch is current; a reserved attempt holds its session |
| Store.OneReservationPerRevision | src/continuation/sqlite.rs:227-281 | of all requests that saw one revision of a session, at most one is ever reserved |
| Store.OutcomeIsFinal | src/continuation/sqlite.rs:282-332 | a finalized or uncertain attempt never changes again |
| Store.CommitAndDropRace | src/proxy_managed.rs:81-92 | commit against drop of one attempt: whichever comes first decides for good, the other fails or changes nothing |
| Store.EmptyIsConsistent | src/continuation/sqlite.rs:35-145 | a new store is consistent, so every run from it stays so |
| Store.UnsettledBlocksSession | src/continuation/sqlite.rs:227-398 | until a reservation is finalized, marked uncertain or met by a reopening, its session stays as it is and refuses every reservation and transition, whatever else happens |
| Store.ReopenReleasesSession | src/continuation/sqlite.rs:146-175 | reopening marks it uncertain and leaves a session that can be recovered |
| Lifecycle.NewSessionTakesRequests | src/continuation/sqlite.rs:203-222 | a new session takes a reservation at revision one without a head iff there is room for it |
| Lifecycle.ReservationsAreGuarded | src/continuation/sqlite.rs:239-258 | a reservation is taken only at the current revision and head of a ready or compacting session, within the limit, for an input not sent before in the epoch |
| Lifecycle.ReservedSessionWaits | src/continuation/sqlite.rs:259-280 | a reserved session refuses every reservation and transition; the reserve is charged |
| Lifecycle.CommitsWithinReserve | src/continuation/sqlite.rs:291-302 | a held reservation is committed iff its envelope fits the reserve, and the record is stored as given |
| Lifecycle.CommitTakesNext | src/continuation/sqlite.rs:308-316 | after an ordinary commit the session takes the next request behind it wherever there is room, and starts a compaction iff no tools are pending |
| Lifecycle.CompactionCommitWaits | src/continuation/sqlite.rs:308-370 | after the commit of a compaction turn no request is taken, and only an approved context goes on |
| Lifecycle.CompactionTakesRequest | src/continuation/sqlite.rs:358-360 | a started compaction takes one request behind the same head |
| Lifecycle.OrdinaryRequestIsPending | src/continuation/sqlite.rs:271-276 | a request taken by a ready session leaves it pending, not compacting |
| Lifecycle.NewEpochTakesRequests | src/continuation/sqlite.rs:361-383 | a new epoch is bound to the approved context and takes requests without a head |
| Lifecycle.GivenUpNeedsRecovery | src/continuation/sqlite.rs:321-332 | a request given up leaves a session that only an approved recovery brings back |
| Lifecycle.ReopenKeepsTheRest | src/continuation/sqlite.rs:151-173 | reopening touches only what was in flight |
| Lifecycle.OtherSessionsUntouched | src/continuation/sqlite.rs:203-398 | no operation touches another session |
| Lifecycle.ChargesAddUp | src/continuation/sqlite.rs:246-258 | over every run the store charges exactly the reservations that succeeded, within its limit |
| Lifecycle.NoRequestTwice | src/continuation/sqlite.rs:259-270 | over every run no session reserves the same input twice within an epoch |
| Sessions.SealedIsRecord | src/proxy_managed.rs:764-778 | the record sealed with the parent its attempt was reserved against is the one the transcript calls for |
| Sessions.StepKeeps | src/proxy_managed.rs:764-794 | commits, reservations, drops, transitions and crashes keep stored chain, sealed records and transcript in step |
| Sessions.RunsStayInStep | src/continuation/sqlite.rs:146-398 | over every run: for every session the stored chain of its epoch is the host's transcript turn by turn, its head is the last turn, every token opens to the recorded turn, and every turn but the last has been accepted back |
| Sessions.KeptIsStored | src/continuation/sqlite.rs:282-320 | so the distinctness, parent and head hypotheses of the resume theorem hold in every reachable store |
| Sessions.ReachableSessionResumesIff | src/proxy_managed.rs:142-288 | in every reachable store a host that replays what it was shown, with new items behind it, is accepted iff the last turn can be replayed and is not hidden behind the one before it |
| Publication.ManagedFinalEvents | src/proxy_managed.rs:852-889 | the in-place rewrite computes the specified final events |
| Publication.FinalEventsShowPublished | src/proxy_managed.rs:838-889 | whatever events the codec prepared, the completed response and every finished item with a place in the output show what is published, items without a place pass unchanged, and at most a carrier pair is added |
| Publication.PlainFinalEvents | src/proxy_managed.rs:838-851 | without prepared events: one finished-item event per published item, in place and in order, then exactly one completed event with the published output |
| Publication.PreparedFinalEvents | src/proxy_managed.rs:852-888 | prepared events keep their order; if no item carries the token, the new carrier is announced and finished directly before the last of them |
| Publication.EndsCompleted | src/proxy_managed.rs:838-888 | a stream left to the gateway, or ended by the codec with its completed event, ends with the completed response as published |
| Publication.Attempt.constructor | src/proxy_managed.rs:94-120 | an attempt starts unfinalized |
| Publication.Attempt.MarkFinalized | src/proxy_managed.rs:76-80 | sets the flag |
| Publication.Attempt.Drop | src/proxy_managed.rs:81-92 | an unfinalized drop schedules one `uncertain`, a finalized drop none |
| Publication.ReadProgress | src/proxy_managed.rs:636-660 | the read loop completes iff the upstream completes, all progress fits the limit and the downstream stays, from before the first frame to after the last; `written` and the sequence number are exact |
| Publication.ProgressMeans | src/proxy_managed.rs:639-660 | progress is what the steps up to the first completing one produced, in order, and needs each of them accepted and accounted for |
| Publication.Abandon | src/proxy_managed.rs:81-92 | every exit before the commit ends in one `uncertain`, with an error only for a downstream that is still there, and shows no token |
| Publication.Commit | src/proxy_managed.rs:682-696 | saves iff the sealed token, the store, the downstream and the size of the very frames to be sent all permit it |
| Publication.Acknowledge | src/proxy_managed.rs:697-700 | only a successful final acknowledgement releases the token |
| Publication.SendFinal | src/proxy_managed.rs:701-703 | the final frames follow in order, numbered on from the progress, inside the limit |
| Publication.Stream | src/proxy_managed.rs:623-718 | the stream is delivered to its end iff `Publishes`; on every failure point the run is lawful, numbered, bounded and closed; leaving before the first frame gives exactly reservation and `uncertain`, and nothing commits unless the downstream stayed through the progress |
| Publication.ReadBody | src/proxy_managed.rs:725-737 | a buffered body is read iff its chunks fit the limit |
| Publication.Whole | src/proxy_managed.rs:725-799 | the buffered response is published iff `WholePublishes`, shows the published output with its token, and otherwise no token is shown; a caller that leaves before the commit gives exactly reservation and `uncertain` |
| Publication.FailuresStopStream | src/proxy_managed.rs:623-718 | any single failure keeps a stream from being delivered |
| Publication.LeavingStopsStream | src/proxy_managed.rs:639-703 | so does a downstream that leaves at any frame |
| Publication.FailuresStopResponse | src/proxy_managed.rs:725-799 | and any single failure keeps a buffered response from being delivered |
| Publication.OpeningFailuresStop | src/proxy_managed.rs:349-470 | a response is read only when reservation, preparation and dispatch succeed and the caller stays for all three |
| Publication.OrphansExist | src/proxy_managed.rs:94-120 | leaving while the reservation is made leaves it behind, on either route |
| Publication.Respond | src/proxy_managed.rs:349-800 | every managed request is lawful, numbered and bounded; it is delivered iff it reaches the upstream response and that is published; it is closed iff the caller did not leave while the reservation was awaited |
| Publication.Open | src/proxy_managed.rs:349-470 | preparation and reservation in the order of the route: goes on iff both succeed and the caller stays, and otherwise leaves an open reservation only if the caller left while it was awaited |
| Publication.TokenAfterCommitAndAck | src/proxy_managed.rs:661-716 | the barrier: whatever shows a token comes after a successful acknowledgement that comes after the commit of that token |
| Publication.FailedAckHidesToken | src/proxy_managed.rs:697-700 | after a failed acknowledgement nothing shows a token |
| Publication.UncertainOnce | src/proxy_managed.rs:81-92 | `uncertain` at most once, and never beside the mark |
| Publication.DroppedExactlyOnce | src/proxy_managed.rs:70-120 | a finished run schedules `uncertain` exactly once iff it reserved and did not mark |
| Publication.FrameNumbers | src/proxy_managed.rs:890-899 | frames carry 0, 1, 2, … without gaps |
| Publication.NumbersStayBelowLimit | src/config.rs:334-335 | sequence numbers stay below the byte limit, so they cannot overflow |
| Messages.EncodeSpan | src/adapters/messages.rs:190-210 | a replay span opens its public calls and pushes its native blocks, or is refused |
| Messages.EncodeItem | src/adapters/messages.rs:211-288 | one item takes the specified step: instructions only into the envelope, speech only where no call waits for its result, a result only for a pending call |
| Messages.EncodeItems | src/adapters/messages.rs:188-298 | the loop is the fold of items and spans in order |
| Messages.Encode | src/adapters/messages.rs:183-304 | the whole encoding: text or the walk, refusing an empty conversation and calls left open |
| Conversation.PiecesTile | src/adapters/messages.rs:188-298 | the walk covers the items without gap or overlap: single items in place, spans over what they replace, an empty span before its item, one at the end |
| Conversation.OpenedMeans | src/adapters/messages.rs:200-204 | a span marks exactly its calls as waiting and replayed |
| MessagesProtocol.ContentByPart | src/adapters/messages.rs:43-58 | content is sent iff every part is text or a remote image without detail, and then one block per part, in order |
| MessagesProtocol.AppliesIff | src/adapters/messages.rs:190-288 | for each kind of item, exactly when the step succeeds |
| MessagesProtocol.RoundsEncode | src/adapters/messages.rs:183-304 | every conversation of sendable speech and of calls answered in any order is encoded |
| MessagesProtocol.EncodingObeysProtocol | src/adapters/messages.rs:60-304 | for distinct call ids and matching spans every successful encoding alternates roles, and each assistant message's tool calls are exactly the results that open the next user message, each once |
| MessagesProtocol.RunObeysProtocol | src/adapters/messages.rs:183-304 | the same from every state the loop can be in |
| Conversation.DistinctCallsAreNotReissued | src/ir/request.rs:531-536 | in either encoder, distinct call ids never reopen a pending call |
| MessagesProtocol.EncodingKeepsOrder | src/adapters/messages.rs:60-304 | the blocks, flattened with their speakers, are the item translations in order, spans replaced by their native blocks |
| MessagesProtocol.EnvelopeKeepsOrder | src/adapters/messages.rs:213-225 | the envelope holds every instruction of the items, with role, position and text, in order |
| MessagesProtocol.EncodedConversation | src/adapters/messages.rs:183-304 | a whole encoding is the translation of every piece in order, part by part, with its instructions, and nothing else |
| MessagesProtocol.EncodedText | src/adapters/messages.rs:185-186 | a text is one user message, and no input is refused |
| Chat.EncodeSpan | src/adapters/chat.rs:172-199 | a replay span opens its calls and pushes its native message, or is refused |
| Chat.EncodeItem | src/adapters/chat.rs:200-260 | one item; a call joins the assistant message just before it |
| Chat.EncodeItems | src/adapters/chat.rs:170-277 | the loop is the fold of items and spans in order |
| Chat.Encode | src/adapters/chat.rs:151-286 | the whole encoding: a dialect without ranked instructions refused, instructions first, the walk, open calls refused, and with the bridge one system message with all instruction records in front |
| ChatProtocol.ContentByPart | src/adapters/chat.rs:46-72 | content is sent iff every part is text or a remote image of the user with a known detail, and then part by part, in order |
| ChatProtocol.AppliesIff | src/adapters/chat.rs:172-260 | for each kind of item, exactly when the step succeeds |
| ChatProtocol.RoundsEncode | src/adapters/chat.rs:151-286 | every conversation of sendable speech and of calls answered in any order is encoded |
| ChatProtocol.EncodedText | src/adapters/chat.rs:160-168 | a text is one user message behind what opens the conversation |
| ChatProtocol.RankingNeedsEnvelope | src/adapters/chat.rs:153-158 | DeepSeek takes ranked instructions only through the envelope |
| ChatProtocol.EncodingObeysProtocol | src/adapters/chat.rs:151-286 | in every successful encoding, envelope included, every assistant message with calls is followed at once by tool messages answering exactly those calls, each once, before anything else |
| ChatProtocol.RunObeysProtocol | src/adapters/chat.rs:151-283 | the same from every state the loop can be in |
| ChatProtocol.EncodingKeepsOrder | src/adapters/chat.rs:46-283 | speech, calls and answers come out as the item translations in order |
| ChatProtocol.EnvelopeKeepsOrder | src/adapters/chat.rs:202-210 | the envelope holds every instruction of the items, with role and position, in order |
| ChatProtocol.EncodedConversation | src/adapters/chat.rs:151-286 | a whole encoding says the envelope or the request's instructions, then the translation of every piece, in order, and nothing else |
| Utf8.EventTextChunks | src/adapters/json.rs:79-94 | the loop yields the specified chunks of valid text |
| Utf8.ChunksFlatten | src/adapters/json.rs:79-94 | the chunks concatenate to the text |
| Utf8.ChunksBounded | src/adapters/json.rs:79-94 | each chunk is non-empty, valid UTF-8 on its own and within the limit |
| Utf8.CutIsValid | src/adapters/json.rs:84-91 | both sides of a cut on a boundary are valid UTF-8 (section 3 of RFC 3629) |
| Utf8.CutIsLongest | src/adapters/json.rs:84-90 | the cut is the last boundary within the limit |
| Utf8.ValidIffEncoded | src/adapters/sse.rs:75 | the validity test accepts exactly the encodings of Unicode scalar values (section 3 of RFC 3629) |
| Utf8.FourBytesFit | src/adapters/json.rs:79-94 | four bytes are enough for every character |
| Utf8.TerminatesIffFits | src/adapters/json.rs:79-94 | the loop ends iff every character fits the limit |
| Utf8.ThreeBytesAreNotEnough | src/adapters/json.rs:79-94 | with a limit of three no number of calls gets past a four-byte character |
| Continuity.EveryLineageIsAccounted | scripts/continuity_contract.py:100-259 | in every reachable record: revision = 1 + transitions of its thread, requests issued = begins ≤ budget, begins = completions + interruptions + in flight, interruptions = recoveries + open ones (per thread and over the whole lineage) |
| Continuity.StepAccounts | scripts/continuity_contract.py:149-259 | each operation keeps those balances |
| Continuity.ResumesIffSettled | scripts/continuity_contract.py:156-164 | a record of a lineage can be resumed iff its binding is unchanged, its history exists and every request and interruption so far is settled |
| Continuity.StepTools | scripts/continuity_contract.py:177-259 | an operation adds exactly the tools it reports, a completion only new ones, and the list stays free of duplicates |
| Continuity.ToolsAreReported | scripts/continuity_contract.py:177-259 | a tool is on the record iff some earlier completion or recovery of the lineage reported it |
| Continuity.ToolsRunAtMostOnce | scripts/continuity_contract.py:119-259 | a completed tool stays completed and is never admitted or completed again, across switches too |
| Continuity.AdmittedIffUnreported | scripts/continuity_contract.py:194-199 | the gate admits exactly the well-formed calls nobody reported, during an ordinary turn |
| Continuity.StepNamesParent | scripts/continuity_contract.py:149-232 | every record names its predecessor by digest |
| Continuity.LastRecordFixesChain | scripts/continuity_contract.py:149-232 | two lineages ending in the same record are equal, record by record, if their records do not collide |
| Continuity.BeginsWithinBudget | scripts/continuity_contract.py:167-174 | a request starts iff the host has no open work, the record is ready and the budget is not spent |
| Continuity.InterruptsWhenInFlight | scripts/continuity_contract.py:202-209 | an interruption is recorded iff a request is in flight |
| Continuity.CompletesWithNewTools | scripts/continuity_contract.py:177-191 | exactly which completions pass both the direct tests and the closing validation |
| Continuity.RecoveryIsPossible | scripts/continuity_contract.py:235-259 | no interrupted record is a dead end |
| Continuity.CreateWrites | scripts/continuity_contract.py:142-146 | when a record is created and everything it then holds |
| Continuity.ResumeAnswers | scripts/continuity_contract.py:163-164 | a resumed thread is named by its id, the alias and the provider |
| Continuity.BeginWrites | scripts/continuity_contract.py:167-174 | what a started request writes down |
| Continuity.CompleteWrites | scripts/continuity_contract.py:180-191 | a completion writes down the given turn, thread and tools, and which kind of request it was |
| Continuity.InterruptWrites | scripts/continuity_contract.py:202-209 | a closed upstream cancels, an unknown one keeps the request on record |
| Continuity.SwitchWrites | scripts/continuity_contract.py:227-232 | a switch starts afresh and takes along only the completed tools and the digests of its source |
| Continuity.SwitchesWhenPortable | scripts/continuity_contract.py:212-232 | exactly when a switch is possible |
| Continuity.RecoverWrites | scripts/continuity_contract.py:253-259 | a recovery writes down decision, thread, turn and tools |
| Continuity.RecoversWhenReconciled | scripts/continuity_contract.py:235-259 | exactly when a recovery is possible |
| Continuity.RecordHolds | scripts/continuity_contract.py:41-139 | what every written record is bound to hold, limit by limit |
| Continuity.PartsMakeUp | scripts/continuity_contract.py:89-92 | the parts of a reference are free of separators and make it up again |
| ActivationLock.SortedIsOrdered | scripts/extension_manager.py:297-300 | sorting orders the entries by id and keeps them and their recorder count |
| ActivationLock.FileFits | scripts/extension_manager.py:272-276 | the canonical text of a lock with valid fields is within the reader's size limit |
| ActivationLock.CommittedIsReadable | scripts/extension_manager.py:272-308 | a committed lock passes the strict reader, one generation later |
| ActivationLock.EnabledIsReadable | scripts/extension_manager.py:415-445 | enabling writes a readable lock whose entries are the new one and all others, with the binding present iff a recorder is |
| ActivationLock.DisabledIsReadable | scripts/extension_manager.py:448-459 | disabling writes a readable lock without that entry, dropping the binding with the last recorder |
| ActivationLock.ReadableMeans | scripts/extension_manager.py:264-294 | what the strict reader guarantees, limit by limit: at most four, ascending ids, one of three permission sets, one recorder iff bound |
| ActivationLock.FormatsMean | scripts/extension_manager.py:70-79 | names, versions and digests, character by character |
| Ordering.BeforeMeans | scripts/extension_manager.py:289 | the order of ids: proper prefix, or the smaller character at the first difference |
| ActivationStore.Store.constructor | scripts/extension_manager.py:238-243 | a new store is empty |
| ActivationStore.Store.CommitLock | scripts/extension_manager.py:297-308 | replaces the lock by its sorted successor unless generations are exhausted |
| ActivationStore.Store.InstallPackage | scripts/extension_manager.py:390-412 | new store contents and answer, refusals included |
| ActivationStore.Store.EnableExtension | scripts/extension_manager.py:415-445 | new store contents and answer, refusals included |
| ActivationStore.Store.DisableExtension | scripts/extension_manager.py:448-459 | new store contents and answer, refusals included |
| ActivationStore.WrittenLockIsReadable | scripts/extension_manager.py:272-308 | whatever lock file a command writes, its own reader accepts it and its generation is one higher |
| ActivationStore.CommandKeeps | scripts/extension_manager.py:390-459 | every command keeps the lock readable and every activated entry an installed package with exactly its own permissions |
| ActivationStore.RunsStayConsistent | scripts/extension_manager.py:390-459 | over every run from a consistent store that stays so, and the generation counts the commits |
| ActivationStore.EmptyIsConsistent | scripts/extension_manager.py:272-275 | the empty store is consistent, at generation zero |
| ActivationStore.EnablesIff | scripts/extension_manager.py:415-445 | exactly when enabling succeeds: inventory as expected, package intact, grants equal to its permissions, at most three others, a recorder alone and bound to a store configured as it says |
| ActivationStore.DisablesIff | scripts/extension_manager.py:448-459 | exactly when disabling succeeds |
| ActivationStore.InstallsIff | scripts/extension_manager.py:390-412 | exactly when installing succeeds, and what is then in the store |
| ActivationStore.ExpectsMeans | scripts/extension_manager.py:369-379 | a guarded command goes on iff generation and inventory digest are as the caller saw them |
| ActivationStore.ListableMeans | scripts/extension_manager.py:324-358 | exactly when the inventory can be read |
| ActivationStore.OneGuardedCommit | scripts/extension_manager.py:369-379 | of any two activations guarded by the same generation at most one commits, whatever runs in between |
| ActivationStore.CommitsAreReported | scripts/extension_manager.py:382-387 | an activation answers its caller iff it committed |
| ActivationStore.InstallUnreportedIff | scripts/extension_manager.py:324-412 | a guarded installation takes effect without an answer iff it adds the 129th package or the directory entries, left-overs included, exceed the listing budget |
| ActivationStore.FullStoreInstallsUnreported | scripts/extension_manager.py:390-412 | a store with 128 packages and a matching precondition: the installation adds the 129th and the caller gets no answer |
| Licenses.Collect | scripts/license_audit.py:353-364 | unchanged packages carry their selection over, all others start from the allow list |
| Licenses.Adopt | scripts/license_audit.py:371-373 | exactly the new packages whose trial was accepted take it |
| Licenses.Reduce | scripts/license_audit.py:368-374 | the nested loops prune each new package independently and leave the others untouched |
| Licenses.SelectLicenses | scripts/license_audit.py:353-374 | succeeds iff every starting selection is accepted; carried-over selections are untouched, new ones are pruned |
| Licenses.PruneReachesBest | scripts/license_audit.py:368-373 | at every point of the pruning, what was kept is forced and what lies ahead untouched |
| Licenses.GreedyIsOptimal | scripts/license_audit.py:366-374 | for a monotone test the result is accepted, irredundant and lexicographically best from the least preferred end |
| Licenses.ChangedIsSelectedAnew | scripts/license_audit.py:357-374 | a package that is new or changed in source, checksum or declared licence gets the best choice, whatever was selected before |
| Licenses.UnchangedKeepsSelection | scripts/license_audit.py:360-361 | any other package keeps its selection |
| Licenses.PermittedMeans | scripts/license_audit.py:365 | exactly when the selection is refused |
| Licenses.SelectionIsOrdered | scripts/license_audit.py:369 | a selection lists its licences in the order of preference |
| SbomGraph.ExpandOne | scripts/release_package.py:267-270 | the edges of one dependency are pushed with their activity, unknown kinds refused |
| SbomGraph.Expand | scripts/release_package.py:266-270 | the same for all dependencies of a package |
| SbomGraph.Traverse | scripts/release_package.py:252-270 | on every graph, cyclic ones included: succeeds iff every named package is described with known kinds; then `reached` is reachability by non-dev edges through built packages and `runtime` reachability by normal edges through built packages that are no procedural macros |
| SbomGraph.PathVisited | scripts/release_package.py:254-270 | a closed set of visits holds the end of every build path |
| SbomGraph.RuntimePathVisited | scripts/release_package.py:254-270 | and, with the runtime flag, of every runtime path |
| SbomGraph.ReachabilityMeans | scripts/release_package.py:252-270 | both relations step by step: the root, then along their edges through built packages |
| SbomGraph.LinkMeans | scripts/release_package.py:266-270 | an edge is a dependency of any kind but dev |
| SbomGraph.RuntimeLinkMeans | scripts/release_package.py:266-270 | a runtime edge is a normal dependency |
| SbomGraph.CompleteMeans | scripts/release_package.py:259-268 | exactly when the graph is complete |
| SbomRefs.QuoteReads | scripts/release_package.py:272-275 | percent quoting can be read back in front of any `@` |
| SbomRefs.PackageRefsDiffer | scripts/release_package.py:272-275 | two package references are equal iff name and version are |
| SbomRefs.SystemRefsDiffer | scripts/release_package.py:315-319 | numbered references are equal iff their numbers are |
| SbomRefs.FamiliesDiffer | scripts/release_package.py:275-319 | package, toolchain and system references never coincide |
| SbomRefs.RefsAreWritten | scripts/release_package.py:275 | how a reference is written, byte by byte |
| Sbom.CountingDetectsAmbiguity | scripts/release_package.py:272-276 | counting the distinct references detects exactly two built packages with the same name and version |
| Sbom.PackageComponents | scripts/release_package.py:277-309 | one component per package, refused iff one lacks its evidence |
| Sbom.SystemComponents | scripts/release_package.py:315-319 | one numbered component per system library |
| Sbom.DependencyRefs | scripts/release_package.py:322 | the references of exactly the reached targets of non-dev edges |
| Sbom.DependencyOf | scripts/release_package.py:321-325 | the sorted entry of a package; the root also lists the toolchain and all system libraries |
| Sbom.MakeSbom | scripts/release_package.py:245-330 | succeeds iff target and metadata version, root identity, complete graph, build equal to the reachable packages, unambiguous identities and evidence all hold; the document names the released binary and describes exactly the built packages, required iff reachable at runtime |
| Sbom.ReferencesAreUnique | scripts/release_package.py:274-330 | all references a document declares are different |
| Sbom.DependenciesAreDeclared | scripts/release_package.py:320-325 | every reference a dependency entry mentions is declared |
| Sbom.PackageIsDescribed | scripts/release_package.py:278-309 | every built package is listed as required iff it can run, with the project licence or the checksum and licences of its record |
| Sbom.DependencyIsDescribed | scripts/release_package.py:320-325 | its entry lists exactly its built non-dev targets, and for the root the toolchain and numbered system libraries |
| Sbom.AcceptableMeans | scripts/release_package.py:246-276 | what a released build must be, written out |
| Planning.RuleFor | scripts/validation.py:94-95 | the first matching rule, or none iff none matches |
| Planning.Packages | scripts/validation.py:98-122 | the loop terminates with exactly the packages that transitively depend on a directly changed one, sorted |
| Planning.SaturatedHoldsPath | scripts/validation.py:118-122 | any saturated superset of the changed packages holds every dependent, so the result is the least one |
| Planning.RuleJobs | scripts/validation.py:143 | exactly the jobs some matched rule asks for |
| Planning.RuleChecks | scripts/validation.py:144 | exactly the checks some matched rule asks for |
| Planning.AddPrerequisites | scripts/validation.py:145-150 | exactly the jobs that wanted jobs need are added |
| Planning.MakePlan | scripts/validation.py:125-158 | a plan is made iff the policy is valid and, for a reduced plan, lists `boundary`; its reasons, jobs, checks, packages and tools are exactly the specified ones |
| Planning.PlansGrow | scripts/validation.py:125-158 | adding changed paths never removes a check, package, tool or reason, nor a job if the policy lists `publication` |
| Planning.JobsGrowIff | scripts/validation.py:135-150 | jobs grow with the paths iff the plan is always full, `publication` is listed, or no reduced plan exists |
| Planning.RuleForMeans | scripts/validation.py:94-95 | the rule is the first with a matching pattern |
| Planning.FullPlanMeans | scripts/validation.py:135-144 | a plan is full iff asked for, unresolved, or some path is unclassified, marked or one of the planner's own; it then names every job and check |
| Planning.ReducedPlanMeans | scripts/validation.py:143-144 | a reduced plan holds publication, the boundary check, what the rules of its paths name, and what these need |
| Planning.PrerequisitesArePlanned | scripts/validation.py:145-150 | a planned job comes with what it needs |
| Planning.PlanDetails | scripts/validation.py:145-158 | and what only serves others is there for one of them; tools are those of the planned checks |
| Planning.ReasonsMean | scripts/validation.py:134-152 | every cause is given as a reason |
| Planning.PackagesMean | scripts/validation.py:98-122 | a package is planned iff it has a change of its own, the plan is full, or it depends by path on a planned one |
| Planning.PolicyMeans | scripts/validation.py:35-45 | a plan is made only from a policy whose rules name known jobs and checks |

## Left out

- HTTP, headers, timeouts, semaphores and tasks (src/proxy.rs, src/http.rs, src/main.rs): only the order of effects is modelled, and what the outside decides (acknowledgements, store answers, a downstream that leaves) is a parameter.
- Cryptography: digests are functions, assumed injective or free of collisions only where a theorem says so; a sealed token is a string and restoring it a map.
- JSON text: values are a datatype with the fields the code inspects; serialization and parsing of the text, duplicate keys and number formats are not modelled. Frames take their JSON text as given.
- Request and response decoding of the providers, custom tool bridging and the IR: content parts, calls and native replay values are data the encoders receive; src/adapters/interactions.rs and src/adapters/responses.rs repeat the pattern with weaker rules.
- The Messages and Chat theorems take native replay values whose tool calls match the public calls of their span, and distinct call ids, which src/ir/request.rs checks before encoding.
- Integer widths: revisions, epochs and byte counts are unbounded, except the sequence numbers, the saturating byte count of the stream and the 64-bit activation generation.
- Provider records in the older stored format and their repair (src/continuation/sqlite.rs:333-342) are not part of this model.
- Sessions.ReachableSessionResumesIff: hosts that send something other than what they were shown are covered by the history theorems, not by this one; a sealed token is one no other record has.
- Publication.Stream: the frame text of an event is a function of the event and its number; its JSON is not modelled.
- Licenses.SelectLicenses: the SPDX engine is a test per package; that it answers monotonically is an assumption of GreedyIsOptimal, not of the loop.
- Continuity: error texts are not modelled, a refusal is `None`; fields that only have to be well formed are collected in two lists of the identity.
- ActivationStore.Store.EnableExtension: files, permissions, links and the process lock are not modelled; package capabilities and file digests are reduced to the manifest digest, and two commands never overlap because the source holds a lock.
- ActivationStore.RunsStayConsistent: packages on disk change only through installations; tampering in between is outside the model, except that every read is validated as in the source. Interrupted installations may leave any directories behind.
- ActivationLock.FileFits: the text itself is represented by its length.
- Sbom.MakeSbom: free-text properties, toolchain versions and the review of local manifests (a given set of packages) are not modelled.
- Planning.MakePlan: shell pattern matching is a given function, and the Git input, its digest and the reading of manifests are parameters; the dependency tables of a manifest are one list.
- Packaging, provenance, smoke and documentation scripts, configuration and manifest parsing, routing and compatibility tables: single-branch checks or input and output, which would only add easy members.
