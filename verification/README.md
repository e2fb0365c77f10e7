# F2E: chunked reading, the ledger, and publication

F2E turns one large object in a bucket into a stream of events. An organizer cuts
the object into byte ranges, mostly without reading it; workers read overlapping or
padded windows in parallel, publish the records their range owns, and record
everything in a table that only accepts conditional writes. This project models
those parts in Dafny and proves what they are for.

- **Text** (`LineIo`, `Windows`, `Jobs`, `TextPlan`, `TextChunks`, `TextRuns`, with
  `Bytes`, `Utf8`, `Sequences` and `Arithmetic`): the CR/LF/CRLF reader against a positional
  specification of lines, the balanced plan, the widened window of one chunk and its
  checks. Main theorem: if every chunk run of a plan succeeds, the chunks publish
  exactly the lines of the file, with their offsets. Separate lemmas say exactly when a
  run, and all runs of a plan, succeed, and what a run comes to otherwise.
- **Multi-line** (`MultiLine`, `MultiLineRecords`, `MultiLinePlan`, `MultiLineChunks`,
  `MultiLineRuns`): grouping lines into records, what a record is by positions, the
  planner that looks ahead for a break line, and the same theorem. No assumption about
  line tails is needed: a tail that looks like a break makes the chunk in front of it
  fail, so a run that succeeds everywhere cannot have mis-split.
- **JSON** (`JsonScan`, `JsonLexing`, `JsonWindows`, `JsonPlan`, `JsonChunks`,
  `JsonLimits`, `JsonArrays`, `JsonGrammar`, `JsonOffsets`, `JsonExamples`): the
  string-aware scan for named objects, realignment of a window that may begin inside a
  string, and the theorem that every chunk succeeds and the chunks publish each object
  of the array once, in order; what it makes of elements above the limit; and what byte
  offsets it publishes them with.
- **Identities** (`Identities`): no two records of a text or multi-line object share
  what their source record id is a digest of.
- **Ledger** (`States`, `Ledger`, `LedgerRuns`, `LedgerInvariants`, `LedgerHistory`,
  `LedgerTotals`, `LedgerScheduling`, `LedgerProgress`, `Partition`,
  `LedgerOperations`): every conditional write as one atomic step; organizers, workers,
  duplicates and crashes as arbitrary interleavings of steps; an inductive invariant;
  and what it means for whole runs. Reconciliation is a read and, any time later, a
  transaction, so that its optimistic check is proved to be enough. `Partition` is the
  imperative side: one object whose methods are the ledger operations; `LedgerOperations`
  shows that each of them, run without interruption, is a run of the atomic steps.
- **Packing and publishing** (`Greedy`, `Messages`, `BundleIds`, `Packer`, `Answers`,
  `Sender`, `SenderRuns`, `Stream`, `Unpacking`, `BundleReader`, `Publication`): the
  incremental-size bundle packer, a reader of its bundles, the batch splitter, the
  retrying concurrent sender, one conservation law over all of them, and the organizer's
  checkpointed publication.

Arithmetic is unbounded except where the original's 64 bits matter (`Bytes.Wrap64`). A
file is a `seq<byte>`; outgoing bodies are strings of which each character is one byte.
Digests are not computed: an event id is kept as what is digested, and the packer takes
the digest as a parameter of which only the length is used.

## What the model shows about the code

- A text window that stops before the end of the file must stop exactly behind a line
  terminator; otherwise the run fails, because only the last window gets a synthetic LF.
  So a plan can fail on a file whose whole-file read succeeds (`TextRunIff`,
  `ChunkFailsWholeFileSucceeds`).
- The planner of a multi-line object compares the nominal size of its chunks with the
  maximum, the worker the padded size: a plan can have chunks that every worker refuses
  (`PlannedMultiLineRun`, `PaddedChunk`).
- A JSON element above the limit fails its chunk only when it ends in the chunk's window.
  One that reaches further is left out and no chunk fails (`JsonRunIff`, `LostElement`);
  so the chunks publish everything exactly when no element is above the limit
  (`AllPublishedIff`).
- The write that seals a manifest is not guarded by the job's status
  (`SealFollowsTableIff`): it revives a rejected job unless the handler's call order
  prevents it (`SealRevivesRejected`, `NextFollowsTables`).
- A job marked SCHEDULING_FAILED can never complete, fail or notify anyone
  (`OtherEndsAreSilent`); neither can a rejected one. A chunk that was sent and is
  running when the mark is written is stranded (`StrandedChunk`). Nothing else strands
  one: whoever holds a chunk can end it, and a planned job can still be finished,
  exactly when that mark is absent (`CanCompleteIff`, `CanFailIff`, `CanFinishIff`).
- In bundle mode an oversized record is rejected only before the first record that
  fits; after that it fails the chunk (`BundledIff`). In single mode order does not
  matter (`SingleIff`, `OversizedExample`).
- An answer that names an index twice makes the sender confirm more than it was given
  (`AnswerDividesIff`).
- JSON elements are published with a byte offset that is too small by what realignment
  dropped (`OffsetsAreShifted`, `OffsetsExactIff`). Two elements of one array can so get
  the same offset, and with it the same source record id (`TwoElementsOneOffset`).
  Offsets and ids of a job are distinct exactly when no two neighbouring chunks collide,
  which the file and the plan decide (`DistinctOffsetsIff`, `DistinctIdsIff`).

## Model

| member | source | states |
|---|---|---|
| LineIo.ReadLines | internal/domain/lineio/reader.go:41-119 | The byte loop equals the recursive reader: same lines, same offsets, same error, for every input, limit and skip-first flag. |
| LineIo.EmitLine | internal/domain/lineio/reader.go:122-143 | A complete line is checked for UTF-8 before it is skipped or emitted. |
| LineIo.ReadSucceedsIff | internal/domain/lineio/reader.go:41-143 | Reading succeeds exactly when the input is empty or ends in a terminator and every line fits and is valid UTF-8; then it emits all of the lines. |
| LineIo.EmittedIsPrefix | internal/domain/lineio/reader.go:86-117 | Also after an error, what was emitted is a prefix of the recursive splitter's lines. |
| LineIo.ReadStopsAt | internal/domain/lineio/reader.go:41-143 | An error is that of the first line that is too long, unterminated or no UTF-8, at its offset; what was emitted are the lines in front of it. |
| LineIo.SplitIsLinesIn | internal/domain/lineio/reader.go:65-117 | The recursive splitter yields exactly the lines that start at the line starts of the input, in order. |
| LineIo.SplitRebuilds | internal/domain/lineio/reader.go:86-111 | Raws with their terminators rebuild the input. |
| LineIo.LinesInConcat | internal/application/worker/service.go:563-567 | Ownership by first byte cuts the lines of a file anywhere without gap or overlap. |
| Utf8.ValidIffEncoded | internal/domain/lineio/reader.go:126-131 | The check accepts exactly the concatenated encodings of Unicode scalar values (section 3 of RFC 3629). |
| Windows.WindowLinesIn | internal/application/worker/service.go:154-171 | In any window, with or without the synthetic LF, the lines from the second on are the file's own, shifted; also when the cut splits a CRLF. |
| Windows.WindowReadIff | internal/domain/lineio/reader.go:122-143 | A window is read without error exactly when it ends where a line ends and its first fragment and all lines starting in it fit. |
| Windows.FilterOwned | internal/application/worker/service.go:563-567 | The callback's filter keeps the lines whose file offset is in the owned range. |
| Windows.FlattenTiles | internal/application/worker/service.go:563-567 | Parts that each list one stretch of the file's lines make, together, the lines of the whole stretch. |
| Jobs.TextReadRangeIff | internal/application/worker/service.go:254-275 | In 64 bits, the read range of a text job is the widened one exactly when last byte plus overlap fits; otherwise the range is refused. |
| Jobs.OverlapCheckIff | internal/application/worker/service.go:262-265 | The division test detects exactly the overlaps that overflow. |
| TextPlan.TextChunkCount | internal/application/organizer/service.go:168-189 | The count: the desired one where the bounds allow, at least the fewest for the chunk maximum if that is compatible, at most the most for the 5 MiB minimum. |
| TextPlan.VariableJobs | internal/application/organizer/service.go:141-160 | A plan exists exactly for non-empty objects, a positive record length and a usable maximum; it is the balanced cut into the count the configuration asks for. |
| TextPlan.TextPlanTiles | internal/application/organizer/service.go:154-158 | The ranges are non-empty, consecutive, cover the object, and differ by at most one byte. |
| TextPlan.ChunkMaximumIff | internal/application/organizer/service.go:176-187 | All chunks respect the maximum exactly when there are at least ceil(size / maximum) of them. |
| TextPlan.MinimumRespected | internal/application/organizer/service.go:176-187 | Within the upper count, every chunk has at least 5 MiB. |
| TextPlan.BoundsCompatible | internal/application/organizer/service.go:182-187 | From a maximum of 10 MiB on, the two count bounds never conflict. |
| TextPlan.ProductsFit | internal/application/organizer/service.go:155-156 | The planner's products fit 64 bits for every object up to 5 TiB. |
| TextChunks.ValidateTextBoundaries | internal/application/worker/service.go:278-304 | Both boundary checks: a terminator in the left overlap, one in the right overlap, each waived at the ends of the file. |
| TextChunks.ProcessText | internal/application/worker/service.go:154-171 | The whole course of one text chunk equals its specification. |
| TextChunks.TextRunIff | internal/application/worker/service.go:154-171 | A chunk run succeeds exactly when the job is admitted, its overlap fits 64 bits and the file's bytes meet conditions that can be checked beforehand. |
| TextChunks.TextRunOutcome | internal/application/worker/service.go:131-171 | What a run comes to on the job's fields and the file's bytes: each of the five errors, and success, exactly when. |
| TextRuns.PlannedTextRun | internal/application/worker/service.go:314-336 | A planned chunk is refused exactly when it is longer than the worker's maximum; otherwise 64 bits and the file's bytes decide. |
| TextRuns.TextPlanSucceedsIff | internal/application/worker/service.go:154-171 | All runs of a plan succeed exactly when there are enough chunks for the maximum, the last overlap fits 64 bits and every chunk finds the terminators and line lengths it needs. |
| TextRuns.TextPlanReads | internal/application/worker/service.go:154-171 | Then the runs exist and together are the lines of the file. |
| TextRuns.TwoTextChunksSucceed | internal/application/worker/service.go:154-171 | A concrete file and plan of two chunks that both succeed. |
| TextChunks.TextRunPublishes | internal/application/worker/service.go:554-567 | A successful run publishes exactly the lines that start in its range. |
| TextChunks.TextChunksEqualWholeFile | internal/application/worker/service.go:154-171 | If every run of a plan succeeds, the published lists in chunk order are the whole-file line split, offsets included, one LF added at an unterminated end. |
| TextChunks.WholeFileReads | internal/domain/lineio/reader.go:41-119 | One pass over the whole file emits its lines exactly when they all fit. |
| TextChunks.ChunkFailsWholeFileSucceeds | internal/application/worker/service.go:167-169 | A file that reads whole without error and whose first of two chunks fails in the line reader. |
| MultiLine.GroupLines | internal/domain/multiline/multiline.go:35-83 | The callback's grouping equals the recursive grouping; every line is in a record or counted as ignored: a header in front of the first break, a trailer after it. |
| MultiLine.ReadMultiLineLayout | internal/domain/multiline/multiline.go:35-83 | One pass emits the records of the input, or the line reader's error. |
| MultiLine.MatchesExtended | internal/domain/multiline/multiline.go:18-28 | A match survives more bytes on the right, so a cut line cannot hide a break. |
| MultiLine.GroupAtBreak | internal/domain/multiline/multiline.go:53-75 | A break line separates: the records before it and from it on are independent. |
| MultiLine.GroupFromNone | internal/domain/multiline/multiline.go:53-75 | Lines before the first break add nothing. |
| MultiLine.GroupHeaders | internal/domain/multiline/multiline.go:53-75 | Lines without a break make no record. |
| MultiLineRecords.RecordsAreAtBreaks | internal/domain/multiline/multiline.go:40-83 | The records are, in order, one for each break line: it starts where that line does and holds that line and the include lines up to the next break, in order. |
| MultiLineRecords.RecordsOfInput | internal/domain/multiline/multiline.go:35-83 | So it is for one pass over an input: the lines are those of the positional specification. |
| MultiLineRecords.JoinOne | internal/domain/multiline/multiline.go:45-50 | A record of one line is that line. |
| MultiLineRecords.JoinConcat | internal/domain/multiline/multiline.go:45-50 | Joined lines have one separator between any two parts and none elsewhere. |
| MultiLineRecords.MatchesIff | internal/domain/multiline/multiline.go:18-28 | A line matches when there is a field and every field's value stands at its position, byte for byte. |
| MultiLineRecords.HeaderThenDetails | internal/domain/multiline/multiline.go:55-75 | A layout of two break fields on four lines: the record it makes, byte for byte. |
| MultiLinePlan.NextBreakOffset | internal/application/organizer/service.go:219-239 | The scan returns the first break line of the data, or -1 exactly when there is none. |
| MultiLinePlan.NoBreakIff | internal/application/organizer/service.go:268-291 | The look-ahead is exactly the next maxBytesPerRecord bytes. |
| MultiLinePlan.PaddingAfter | internal/application/organizer/service.go:268-296 | The padding reaches the first break ahead, or the end of the file. |
| MultiLinePlan.CutMultiLine | internal/application/organizer/service.go:262-317 | A plan exists exactly when every nominal boundary has a break in reach; its chunks own consecutive nominal ranges to the last byte, each padded to the next break; a failure names the first boundary without one. |
| MultiLinePlan.MultiLineJobs | internal/application/organizer/service.go:243-318 | The plan, with each error exactly when the source reports it. |
| MultiLineChunks.ProcessMultiLine | internal/application/worker/service.go:568-575 | The whole course of one multi-line chunk equals its specification. |
| MultiLineChunks.MultiLineRunIff | internal/domain/multiline/multiline.go:55-83 | A chunk run succeeds exactly when the job is admitted, its range ends behind a terminator and its lines fit. |
| MultiLineRuns.PlannedMultiLineRun | internal/application/worker/service.go:314-336 | A planned chunk is refused exactly when what it owns and its padding together exceed the worker's maximum, which the planner compares with the nominal size only; otherwise it fails in the reader or publishes the records of its range that it owns, as the bytes decide. |
| MultiLineRuns.MultiLinePlanReads | internal/application/worker/service.go:568-575 | If no padded range exceeds the maximum and all are readable, the runs exist and together are the records of one pass. |
| MultiLineRuns.PaddedChunk | internal/application/organizer/service.go:257-260 | A concrete file and plan of two chunks, the first padded: both succeed, and with a maximum of the nominal size the padded one is refused. |
| MultiLineRuns.PaddedChunkPublishes | internal/application/worker/service.go:568-575 | What the two chunks publish. |
| MultiLineChunks.PaddingIsNextBreak | internal/application/organizer/service.go:268-296 | What the look-ahead finds is the file's own next break, whatever the look-ahead cut off. |
| MultiLineChunks.FalseBreakFails | internal/application/organizer/service.go:219-239 | A line tail that looks like a break fails the chunk in front of it. |
| MultiLineChunks.MultiLineChunksEqualWholeFile | internal/application/worker/service.go:568-575 | If planning and all runs succeed, the chunks emit exactly the records of one pass over the whole file, offsets and joined contents included; no break starts inside any padding. |
| MultiLineChunks.FalseBreakExample | internal/application/organizer/service.go:219-239 | A concrete file and cut where the tail of a line looks like a break and the chunk fails. |
| MultiLineChunks.WholeFileIgnoresFalseBreak | internal/domain/multiline/multiline.go:35-83 | One pass over that file succeeds. |
| JsonScan.FindJSONObjectStarts | internal/domain/f2e/json.go:15-65 | The scan with its two flags finds, in order, the objects outside strings whose first key is the name. |
| JsonScan.MatchAt | internal/domain/f2e/json.go:35-61 | The test at one brace: first key, colon, complete object. |
| JsonLexing.MatchIff | internal/domain/f2e/json.go:32-61 | What is found at a brace, by positions: the wanted name as first key with only white space in front of it and of its colon, and an object that ends where its braces balance. |
| JsonLexing.StringEndIff | internal/domain/f2e/json.go:19-31 | A string ends at its first quote with an even number of backslashes in front. |
| JsonLexing.ObjectEndIff | internal/domain/f2e/json.go:56-61 | An object ends where the braces outside strings first balance. |
| JsonLexing.ListedIff | internal/domain/f2e/json.go:15-65 | The scan lists exactly the positions outside strings at which something matches. |
| JsonLexing.ListedInOrder | internal/domain/f2e/json.go:15-65 | In order, each once. |
| JsonWindows.MatchShift | internal/application/worker/service.go:630-644 | Seen through a window, an object is the same object. |
| JsonWindows.MatchWider | internal/application/worker/service.go:241-254 | An object complete in a window is found alike in any wider one, and one that ends within the window is complete in it. |
| JsonWindows.MatchOutside | internal/application/worker/service.go:626-629 | A brace inside a string never looks like the start of an object, when the name has no comma and no colon. |
| JsonWindows.PlainNameIff | internal/domain/f2e/json.go:43-47 | For a decoder that reads unescaped strings as themselves, the condition on the name is that it could not separate two strings; any name without comma and colon meets it. |
| JsonPlan.JsonArrayJobs | internal/application/organizer/service.go:533-577 | The nominal ranges tile the object; each error exactly when the source reports it. |
| JsonChunks.AlignJSONRead | internal/application/worker/service.go:630-644 | Drops the bytes in front of the first complete object, or nothing when there is none. |
| JsonChunks.ReadJSONArray | internal/application/worker/service.go:601-624 | The loop over found objects: ownership, limit and emitted offsets. |
| JsonChunks.ProcessJson | internal/application/worker/service.go:601-624 | The whole course of one JSON chunk equals its specification. |
| JsonChunks.JsonRunPublishes | internal/application/worker/service.go:601-644 | A run succeeds and publishes exactly the objects that start in its range, even when its window begins inside a string. |
| JsonChunks.EveryChunkSucceeds | internal/application/worker/service.go:601-644 | No chunk of a plan fails on a text whose objects are within the limit. |
| JsonChunks.JsonChunksEqualWholeFile | internal/application/organizer/service.go:551-575 | The chunks of a plan publish what one scan of the whole file finds. |
| JsonLimits.JsonRefusedIff | internal/application/worker/service.go:314-336 | When a JSON chunk is refused before anything is read. |
| JsonLimits.JsonRunIff | internal/application/worker/service.go:601-624 | Whatever the lengths: a run publishes the objects it owns that end in its window, or fails exactly when one of these is above the limit. |
| JsonLimits.SeenIff | internal/application/worker/service.go:601-624 | Of what a run owns it sees exactly what ends in its window. |
| JsonLimits.OverlongElement | internal/application/worker/service.go:613-616 | An element above the limit is reported only when it ends in the window; otherwise it is left out. |
| JsonLimits.AllPublishedIff | internal/application/worker/service.go:601-624 | The chunks of a plan succeed and publish what one scan finds exactly when no object is above the limit. |
| JsonChunks.OffsetsAreShifted | internal/application/worker/service.go:433-436 | Every element is published with its offset less the distance from its window's start to the first object there. |
| JsonChunks.OffsetsExactIff | internal/application/worker/service.go:433-436 | A chunk publishes its elements' own offsets exactly when it owns none or an object starts at its window's first byte. |
| JsonChunks.FirstChunkOffsetsLow | internal/application/worker/service.go:433-436 | In a text that does not begin with an object, every element of the first chunk is published with an offset too small. |
| JsonArrays.SeparatedIsWellQuoted | internal/domain/f2e/json.go:11-14 | A text whose strings are separated as in JSON's grammar meets the windows' condition. |
| JsonArrays.ArrayScannable | internal/domain/f2e/json.go:8-14 | The scan of an array of flat objects finds exactly its objects. |
| JsonArrays.ArrayChunksPublishObjects | internal/application/worker/service.go:601-644 | Chunked reading of an array of flat objects publishes each object's text exactly once, in order, wherever the chunks are cut. |
| JsonGrammar.FlatTextIsFlatObject | internal/domain/f2e/json.go:8-14 | Every flat object that a recogniser after JSON's grammar accepts is one of those the array results are about. |
| JsonGrammar.FlatArrays | internal/domain/f2e/json.go:8-14 | So is every array of them with the wanted first name, if that has no comma and no colon. |
| JsonOffsets.RunOffsets | internal/application/worker/service.go:433-436 | The offsets a run publishes, computed from the file. |
| JsonOffsets.FarApart | internal/application/worker/service.go:241-254 | Chunks that are not neighbours never publish one offset twice. |
| JsonOffsets.DistinctOffsetsIff | internal/application/worker/service.go:433-440 | The elements of a job have distinct published offsets exactly when no two neighbouring chunks give one offset twice. |
| JsonOffsets.DistinctIdsIff | internal/domain/f2e/states.go:22-30 | So it is for what their source record ids digest. |
| JsonExamples.NumberArraysAreArrays | internal/domain/f2e/json.go:8-14 | Arrays of any length whose objects end in a number, with a concrete decoder, are among those the result is about. |
| JsonExamples.TwoElementsOneOffset | internal/application/worker/service.go:433-441 | A concrete array two elements of which, in different chunks, are published with one offset. |
| JsonExamples.LostElement | internal/application/worker/service.go:601-624 | A text of one long object: every chunk of the plan succeeds and none publishes it. |
| Identities.SameKeyIffSameOffset | internal/domain/f2e/states.go:22-30 | What a source record id digests is the same exactly for the same offset of a file. |
| Identities.TextRecordsDistinct | internal/domain/f2e/states.go:22-30 | The lines a text job publishes have increasing offsets, across chunks too, and distinct ids. |
| Identities.MultiLineRecordsDistinct | internal/domain/f2e/states.go:22-30 | So do the records of a multi-line job. |
| LedgerRuns.CountBound | internal/platform/aws/ledger.go:464-471 | When completed and failed chunks add up to the manifest, every chunk is terminal. |
| LedgerInvariants.InvKept | internal/platform/aws/ledger.go:178-517 | Every step of every process keeps the invariant. |
| LedgerInvariants.CompleteCounted | internal/platform/aws/ledger.go:353-356 | The completion transaction keeps counters and totals exact. |
| LedgerInvariants.FailCounted | internal/platform/aws/ledger.go:410-413 | So does the failure transaction. |
| LedgerInvariants.PlannersKept | internal/platform/aws/ledger.go:194-238 | What a planner has written so far stays as it wrote it, whatever the others do. |
| LedgerInvariants.NextGrows | internal/platform/aws/ledger.go:199-230 | No single write, in any order of calls, changes a chunk's range, a fixed chunk count, or unseals a manifest. |
| LedgerInvariants.NextRises | internal/platform/aws/ledger.go:339-356 | Counters never fall, and totals change only together with the completed counter. |
| LedgerInvariants.FinishTrue | internal/platform/aws/ledger.go:445-489 | When reconciliation commits, the totals it read earlier are the current ones: comparing the two counters is enough. |
| LedgerHistory.ReachableInv | internal/platform/aws/ledger.go:178-517 | Every reachable state satisfies the invariant. |
| LedgerHistory.CompletedAtMostOnce | internal/platform/aws/ledger.go:353-356 | Over any stretch of any run, a chunk's completion takes effect at most once. |
| LedgerHistory.NothingCountedTwice | internal/platform/aws/ledger.go:314-422 | Counters are the numbers of COMPLETED and FAILED chunks; totals are the sum over the COMPLETED ones and the sum of everything reported. |
| LedgerHistory.StaleAttemptsRefused | internal/platform/aws/ledger.go:353-413 | Only the attempt that started a chunk last can complete, retry or fail it; checkpoints and work come after the send; FAILED comes only at the last attempt. |
| LedgerHistory.NextFollowsTables | internal/domain/f2e/states.go:82-154 | In the handler's order every step stutters or follows an edge of the job and chunk tables, older statuses mapped as documented. |
| LedgerHistory.NothingUndone | internal/platform/aws/ledger.go:540-549 | Over whole runs: sealed manifests, ranges, terminal chunks, ended jobs and the intent's event never change; scheduling never sets back a SCHEDULED or RUNNING job. |
| LedgerHistory.ManifestIsOnePlan | internal/platform/aws/ledger.go:194-238 | Racing planners: a sealed manifest is entirely one plan, its size is the expected count, and it never changes. |
| LedgerHistory.SealedByOne | internal/platform/aws/ledger.go:221-238 | A manifest is sealed only by an organizer that wrote all of its plan. |
| LedgerHistory.IntentIffFinished | internal/platform/aws/ledger.go:444-498 | An intent exists exactly when the job is COMPLETED or FAILED; what each means for the chunks; the event's counts and result are exact. |
| LedgerHistory.DueReadsAreCurrent | internal/platform/aws/ledger.go:444-489 | A read that shows every chunk counted is never out of date; one whose counters have moved is refused. |
| LedgerHistory.OtherEndsAreSilent | internal/platform/aws/ledger.go:745-767 | A rejected job, or one whose scheduling failed, never gets an intent. |
| LedgerHistory.DeliveredAtLeastOnce | internal/application/worker/service.go:209-238 | All completion events sent are one event; a delivered intent was sent; an undelivered one can still be loaded and sent. |
| LedgerHistory.SealFollowsTableIff | internal/platform/aws/ledger.go:228-234 | The seal follows the job table exactly from VALIDATING, PLANNING or PENDING. |
| LedgerHistory.SealRevivesRejected | internal/platform/aws/ledger.go:228-234 | Without the handler's order a rejected job becomes PENDING again. |
| LedgerTotals.ReportAddsUp | internal/domain/f2e/states.go:182-184 | The counts a worker reports of a stream that succeeded add up. |
| LedgerTotals.TotalsAddUp | internal/domain/f2e/states.go:182-184 | If every reported completion adds up, so do the job's totals at every point of every run, and the completion event's counts. |
| LedgerTotals.ChunksAddUp | internal/domain/f2e/states.go:176-182 | With a sealed manifest the expected chunks are the sum of the five states. |
| LedgerTotals.StrandedChunk | internal/platform/aws/ledger.go:293-310 | A concrete run to SCHEDULING_FAILED with a sent, running chunk whose completion is refused. |
| LedgerTotals.NothingEndsAfterwards | internal/platform/aws/ledger.go:353-356 | From SCHEDULING_FAILED on, no chunk of the job ever completes or fails. |
| LedgerScheduling.RunningIffCounted | internal/platform/aws/ledger.go:339-413 | A job is RUNNING exactly from its first counted chunk to its intent. |
| LedgerScheduling.MarksComeTooLate | internal/platform/aws/ledger.go:293-310 | Once a chunk is counted, neither scheduling mark changes the job, at any later point. |
| LedgerScheduling.FirstMarkWins | internal/platform/aws/ledger.go:293-310 | After one of the two marks the other is refused for good. |
| LedgerScheduling.FailedBeforeAnyCount | internal/platform/aws/ledger.go:293-310 | A job whose scheduling is marked as failed has counted nothing and none of its chunks has ended. |
| LedgerProgress.CanCompleteIff | internal/platform/aws/ledger.go:353-356 | The attempt that holds a chunk can complete it exactly when scheduling is not marked as failed. |
| LedgerProgress.CanFailIff | internal/platform/aws/ledger.go:410-413 | At the last allowed attempt it can fail it exactly then. |
| LedgerProgress.CanFinishIff | internal/platform/aws/ledger.go:293-498 | With a sealed manifest, some continuation of the run finishes the job exactly when scheduling is not marked as failed. |
| Partition.LedgerPartition.Admit | internal/platform/aws/ledger.go:640-721 | The write and the three outcomes, by the status found. |
| Partition.LedgerPartition.BeginValidation | internal/platform/aws/ledger.go:724-742 | Advances from RECEIVED; already further is a success that changes nothing. |
| Partition.LedgerPartition.BeginPlanning | internal/platform/aws/ledger.go:770-786 | Advances from VALIDATING; already planning is a success that changes nothing. |
| Partition.LedgerPartition.RejectJob | internal/platform/aws/ledger.go:745-767 | Rejects from RECEIVED or VALIDATING and writes no intent. |
| Partition.LedgerPartition.Plan | internal/platform/aws/ledger.go:178-239 | Accepted exactly when nothing present disagrees; the whole new table either way. |
| Partition.PlanFitsIff | internal/platform/aws/ledger.go:194-220 | Accepted exactly when the file, the count and every range already there agree; the job item afterwards. |
| Partition.LedgerPartition.MarkChunksScheduled | internal/platform/aws/ledger.go:244-255 | Sets the checkpoint of the pending chunks named and touches nothing else. |
| Partition.LedgerPartition.MarkScheduled | internal/platform/aws/ledger.go:285-312 | Only a sealed job that is not yet further becomes SCHEDULED. |
| Partition.LedgerPartition.MarkSchedulingFailed | internal/platform/aws/ledger.go:289-312 | The same for SCHEDULING_FAILED. |
| Partition.LedgerPartition.StartChunk | internal/platform/aws/ledger.go:314-325 | Starts exactly pending or retry-pending chunks and reports a completed one. |
| Partition.LedgerPartition.AcquireChunk | internal/platform/aws/ledger.go:792-830 | Acquires exactly pending chunks; the three outcomes. |
| Partition.LedgerPartition.CompleteChunk | internal/platform/aws/ledger.go:327-378 | The chunk completed and counted, the job RUNNING, or ended with a pending intent when it was the last; refusals and repeats change nothing. |
| Partition.LedgerPartition.FailChunk | internal/platform/aws/ledger.go:380-422 | Below the last attempt the held chunk awaits a retry; at it the chunk fails and is counted, and the last one ends the job FAILED with a pending intent; refusals and repeats change nothing. |
| Partition.LedgerPartition.ReconcileCompletion | internal/platform/aws/ledger.go:444-517 | Job terminal and intent written together, the stored intent, nothing, or an error. |
| Partition.LedgerPartition.MarkIntentDelivered | internal/platform/aws/ledger.go:855-877 | Marks a pending intent and changes nothing else. |
| Partition.LedgerPartition.PublishCompletion | internal/application/worker/service.go:212-238 | An event is marked only after it was sent. |
| Partition.PlanResumes | internal/platform/aws/ledger.go:221-223 | A plan cut short after any write and repeated gives the table of one that ran through. |
| Partition.PlanRepeats | internal/platform/aws/ledger.go:221-238 | A plan repeated after sealing changes nothing. |
| Partition.SecondPlanAcceptedIff | internal/platform/aws/ledger.go:194-220 | After a plan, another is accepted exactly when it is the same. |
| Partition.CompletedChunkIsFinal | internal/platform/aws/ledger.go:331-338 | Completing or failing a completed chunk again succeeds and changes nothing. |
| Partition.FailedChunkIsFinal | internal/platform/aws/ledger.go:327-422 | Failing a failed chunk again succeeds and changes nothing; no attempt can complete it. |
| Partition.ReconcileRepeats | internal/platform/aws/ledger.go:440-443 | Until delivery every reconciliation returns the same event; afterwards none. |
| LedgerOperations.ReconcileIsRun | internal/platform/aws/ledger.go:444-498 | Uninterrupted, reconciliation is a read followed by the transaction, or nothing. |
| LedgerOperations.CompleteIsRun | internal/platform/aws/ledger.go:327-378 | Uninterrupted, a completion is a run of atomic steps that leads to the same table. |
| LedgerOperations.FailIsRun | internal/platform/aws/ledger.go:380-422 | So is a failure or retry. |
| LedgerOperations.PlanIsRun | internal/platform/aws/ledger.go:178-239 | So is an accepted plan, sealed by itself or by somebody else. |
| LedgerOperations.LastChunkFinishesJob | internal/platform/aws/ledger.go:357-378 | Completing the last open chunk makes the job COMPLETED, or FAILED if another chunk failed, and leaves an intent to deliver. |
| LedgerOperations.LastFailureFinishesJob | internal/platform/aws/ledger.go:410-422 | Failing the last open chunk at the last attempt makes the job FAILED and leaves an intent to deliver. |
| Messages.OutboundMessageSize | internal/application/port/ports.go:48-54 | The size, whatever the order in which the attributes are walked. |
| Messages.AttributesBytesWithout | internal/application/port/ports.go:50-52 | The attribute total does not depend on that order. |
| Messages.MessageBytesAdd | internal/application/port/ports.go:48-54 | What the body and each attribute add. |
| Greedy.PackFlatten | internal/application/worker/packer.go:54-93 | Groups and held items are the added items, in order. |
| Greedy.PackFits | internal/application/worker/packer.go:54-93 | When every item fits alone, every group is within both limits. |
| Greedy.GreedyIsOptimal | internal/application/worker/packer.go:54-93 | No order-preserving division within the limits uses fewer groups. |
| BundleIds.SameKeyIffSameEvents | internal/application/worker/packer.go:173-187 | Two bundles digest the same bytes exactly when they carry the same events, in whatever order. |
| Packer.SizeIsExact | internal/application/worker/packer.go:84-122 | Empty size plus items plus commas is the physical size of the serialised bundle, for every id of 64 bytes. |
| Packer.BundlePacker.SizeWithIsExact | internal/application/worker/packer.go:84-98 | The running size and the candidate size are the true sizes. |
| Packer.BundlePacker.Add | internal/application/worker/packer.go:54-82 | Kept, flushed, rejected or failed, each exactly when; what is held afterwards; the size is not rechecked after an inner flush. |
| Packer.BundlePacker.Flush | internal/application/worker/packer.go:147-161 | Emits the held items within the limit, or fails exactly on a lone oversized item and keeps it. |
| Packer.BundlePacker.SerialiseBundle | internal/application/worker/packer.go:102-122 | The body built by the loop. |
| BundleReader.BundleReadsBack | internal/application/worker/packer.go:102-122 | A reader that knows JSON and the names gets each of the job's values back under its own name, and the list behind them. |
| BundleReader.BundleMessageReads | internal/application/worker/packer.go:102-161 | The id in the body is the one in the attributes, and the items are the group's envelopes, in order. |
| Answers.AnswerDividesIff | internal/application/worker/concurrent_sender.go:151-189 | Confirmed and pending divide a request exactly when no index of it is named twice. |
| Answers.AgainInOrder | internal/application/worker/concurrent_sender.go:180-188 | What is sent again stands in the order of the answer. |
| Sender.SplitSendBatches | internal/application/worker/concurrent_sender.go:67-82 | The splitter is the greedy division by bytes and count, an oversized message alone. |
| Sender.SplitIsOptimal | internal/application/worker/concurrent_sender.go:67-82 | Batches hold the messages in order, within both limits, in the fewest calls. |
| Sender.BatchFitsIff | internal/application/port/ports.go:40-43 | A batch is within the limits with at most ten messages and one MiB. |
| Sender.HandleAnswer | internal/application/worker/concurrent_sender.go:154-189 | Counters and the next request, from one answer. |
| Sender.EventsMore | internal/application/worker/concurrent_sender.go:160-170 | A message counts for its events, and for one when it names none. |
| SenderRuns.SenderInvariant | internal/application/worker/concurrent_sender.go:92-200 | In every interleaving: requests within the concurrency, each batch divided into confirmed and pending, counters exact. |
| SenderRuns.NilMeansAllConfirmed | internal/application/worker/concurrent_sender.go:202-217 | When wait returns nil every submitted message was confirmed exactly once. |
| SenderRuns.NilIffAllSent | internal/application/worker/concurrent_sender.go:202-217 | Once no batch is active, wait returns nil exactly when every batch was sent; a real error has cancelled the rest. |
| SenderRuns.CallsAreAnswers | internal/application/worker/concurrent_sender.go:155-160 | The calls counted are the answered requests. |
| SenderRuns.Send | internal/application/worker/concurrent_sender.go:149-200 | One batch's attempts: success exactly when some attempt within the limit was answered without failure after retryable ones; the error is a cancellation exactly when one ended the attempts. |
| Stream.BundledIff | internal/application/worker/service.go:523-538 | Bundle mode succeeds exactly when no record is fatal and oversized ones come first; what is packed and rejected then. |
| Stream.SingleIff | internal/application/worker/service.go:539-549 | Single mode succeeds exactly when no record is fatal; what is sent and rejected then. |
| Stream.GroupsAreKept | internal/application/worker/service.go:429-550 | In both modes the messages carry exactly the records not oversized, in order; read equals carried plus rejected. |
| Stream.FewestBundles | internal/application/worker/packer.go:54-93 | The bundles are the fewest possible. |
| Stream.FatalIff | internal/application/worker/service.go:495-521 | Which records end the chunk with an error, in bytes of the configured and default limits. |
| Stream.BundleFitsIff | internal/application/worker/packer.go:54-93 | Records can share a bundle exactly when the message they make is within the byte limit and their number within the configured one. |
| Stream.BatchesAreFull | internal/application/worker/service.go:371-403 | Messages go to the sender in full batches of the configured size, ten by default, and a last one. |
| Stream.Producer.Publish | internal/application/worker/service.go:497-550 | One record of the loop, with all of its outcomes. |
| Stream.Producer.Flush | internal/application/worker/service.go:405-420 | The last bundle and the last batch. |
| Stream.Outgoing.Enqueue | internal/application/worker/service.go:371-403 | Messages go out in order, in batches of the configured size. |
| Stream.StreamRecords | internal/application/worker/service.go:345-598 | The loop over a chunk's records equals its specification: read, rejected and submitted batches. |
| Stream.PartsWithinLimits | internal/application/worker/concurrent_sender.go:92-101 | Every part submitted is within one request's limits. |
| Stream.StreamConserves | internal/application/worker/service.go:345-598 | Read equals published plus rejected, and the confirmed messages carry exactly the records not rejected, in any mode, batch size, concurrency and failure pattern. |
| Unpacking.UnlistListed | internal/application/worker/packer.go:113-120 | A bundle's list gives back its items. |
| Unpacking.StreamUnpacks | internal/application/worker/service.go:345-598 | The messages of a stream that succeeds unpack to exactly the records not rejected, in order, in either mode. |
| Unpacking.MatchingBraceDelimits | internal/application/worker/packer.go:113-120 | The matching brace delimits every object in a list. |
| Unpacking.ObjectsUnpack | internal/application/worker/service.go:345-598 | With it, messages whose envelopes are objects unpack without anything supposed of a decoder. |
| Unpacking.OversizedAfterFitting | internal/application/worker/packer.go:60-76 | In bundle mode an oversized record behind one that fits fails the chunk; in front of it, it is only rejected. |
| Unpacking.OversizedExample | internal/application/worker/packer.go:60-76 | So it is for a two-byte envelope and one of 1 MiB. |
| Publication.Publisher.Flush | internal/application/organizer/service.go:428-480 | One batch with its retries: success exactly when some attempt within three is answered without failure and saved in full and each before it left something to retry; checkpoints only for confirmed chunks. |
| Publication.Publisher.Publish | internal/application/organizer/service.go:481-512 | Success exactly when every chunk names a queue and every batch gets through; then every chunk was accepted by its own queue and is checkpointed or already running. |
| Publication.BatchesDivide | internal/application/organizer/service.go:481-512 | The batches hold the chunks in order, at most ten and for one queue each; only a full batch or another queue ends one. |
| Publication.Publisher.PublishJob | internal/application/organizer/service.go:386-409 | Over any number of interrupted publications: only unscheduled chunks and controls are sent, each to its own queue; success exactly when their batches get through, and then the whole manifest was accepted. |
| Publication.Publisher.MarkChunksScheduled | internal/platform/aws/ledger.go:244-255 | Checkpoints stop at the first ledger error; which chunks have one then. |
| Publication.WithoutAre | internal/platform/aws/ledger.go:257-283 | The unscheduled chunks are exactly the manifest minus the checkpoints. |

## Left out

- Requests to S3, DynamoDB, SQS and SSM, expression strings, pagination, request tokens, presigned URLs: only the condition and the effect of each ledger write, and the queue's possible replies, are kept.
- SHA-256: identities are compared by what is digested; collisions are not considered.
- Clocks, leases, backoff and jitter: a lease that has run out, the end of a wait and a cancellation are free choices. The lease token is never compared after admission, so no exclusivity is claimed.
- Liveness: a worker killed outright leaves its chunk RUNNING, and a duplicate delivery can push a running chunk to RETRY_PENDING; safety is proved, and what can still be done (`LedgerProgress`), not that it is.
- Requests that plan several files under one job: a ledger partition here has one file, and chunk ids are positions in the plan.
- RejectJob and AcquireChunk have no caller in the handlers; the model lets them happen at any time their condition allows.
- Reason counters, pendingChunks, revisions, histories, error texts, retention and the other attributes of ledger items that no condition reads.
- Failures of the record callback inside the line reader, and read errors of the underlying stream.
- A maximum receive count below one, which means three: the model's is the effective one. So is the worker's chunk maximum, which a job's own configuration can replace.
- Text jobs without a file size, replay auditing, configuration loading and validation, S3 notification parsing, the ledger's query helpers: easy branches.
- The envelope's metadata: a record is its event id, its JSON and its attributes; offsets, and the ids they make, are stated for the readers, not for the envelope.
- Parsing a bundle's JSON beyond its list of items.
- JsonGrammar.FlatTextIsFlatObject: the recogniser takes strings and scalars as values, not arrays, and checks neither the escapes in a string nor the spelling of a number, so it accepts more than the grammar does of these.
- JSON: which strings decode to the name, and which braces enclose a valid object, are parameters (`JsonGrammar` and `JsonExamples` give some); that a decoder which accepts an object stops at its matching brace is taken from RFC 8259. Objects inside objects are excluded in `JsonArrays` only.
- Publish's last write (SCHEDULED or SCHEDULING_FAILED) is modelled as a ledger step, not inside `Publication`.
- JsonChunks.JsonChunksEqualWholeFile: the raw texts only; the published offsets are right exactly as OffsetsExactIff says.
- LedgerHistory.NextFollowsTables: for steps made in the handler's order; the seal alone does not follow the table (SealFollowsTableIff).
- SenderRuns.SenderInvariant: for queues that do not name an index twice; otherwise the division is false (Answers.AnswerDividesIff).
