# elepha, modelled in Dafny

elepha keeps what coding assistants did by reading their transcripts while they grow. This
project models the parts of it that keep state over unbounded input and says, for every
input, what they must not lose or duplicate. `dafny verify dfyconfig.toml` checks all of it.

## The parts

**Turn assembly** (`Framing`, `Reading`, `ChargedLines`, `Turns`, `TurnContext`, `TurnRuns`,
`TurnGrowth`, `TurnResume`, `TurnContents`, `TurnLives`, `Derivation`, `TurnAssembly`, `Codex`,
`CodexTurns`, `Undecided`). A transcript
is a sequence of bytes, an adapter any reader of records, any judge of folded content and any digest. `Frame`
is what the records are, `Run` what a parse does with them; `TurnAssembly.Assembly` is the
parser with its mutable locals, proved to compute `Run` however the file is read. On `Run`
stand the results: pruned context loses nothing, closed turns stay closed, resuming equals not
stopping, a turn holds exactly its own records, closes exactly when they say, and bounded derivation
equals one pass.

**Calls and results** (`TaskStateReport`, `ReportParsing`, `RawGuard`, `JsonText`,
`Correlation`, `McpRuns`, `McpResults`, `McpCoverage`, `ReportRuns`, `ReportHistory`,
`TurnBuilder`). Two protocols share a
turn's state: the task-state report, whose call and result may be recorded in several envelopes and corrected
after a rejection, and the bounded correlation of other Elepha MCP calls. `TurnBuilder` is
that state as the source mutates it.

**Onboarding** (`InitApply`, `Setup`, `JournalOwnership`). One plan crosses config.json and the
consent rows under a journal. `Recovered` is what recovery does; `Setup` runs an apply step by
step with a crash or another writer possible after each.

**OpenCode** (`OpencodeV1`, `OpencodeBounded`, `OpencodeV2`). Rows in key order, folded whole,
from a cursor, as a bounded suffix, or page by page.

**Background work** (`RecoveryReads`, `RecoverySweep`, `Rollup`, `RollupService`). The budgeted
sweep: what one attempt makes of a request's source, on any clock, and the passes over all of
them with their measure; and rollups as steps of any number of callers over one stored row.

## Where the code does not do what its comments say

The model follows the code. Each difference has a condition, checkable beforehand, and a
counterexample or a converse.

- Pruned context (src/adapters/base.ts:1731) keeps "the latest context on either side" only of records
  that do not both set context and move the lifecycle: a context record that also starts a
  turn without being content, or that also ends one and opens the next, can be lost
  (`TurnGrowth.HarmfulLoses`). Codex writes no such record (`Codex.CodexHarmless`).
- An undecided Codex transcript is parsed by "the conservative default"
  (src/adapters/codex.ts:910), and turns closed meanwhile are issued. Once it decides for the
  event envelope, a parse from the start has none of them: exactly then turns do not survive
  growth (`Undecided.DecidingKeepsTurns`, `Undecided.UndecidedTurnIsLost`).
- A derivation step (src/adapters/base.ts:1308) is refused without progress when its allowance does not
  cover the fingerprint of the progress it continues from (`Derivation.DeriveStep`).
- An interrupted apply (src/cli/init-apply.ts:1) cannot always be resolved: with every capture tool
  explicitly off before, the settings writer refuses to put that back; and nothing checks,
  before a journal is published, what recovery reads it by: a thousand roots and a mebibyte at
  most, and none twice, as two names of one directory are, one a link to the other
  (`InitApply.CrashAtomicity`, `InitApply.StuckExample`, `InitApply.OverlongJournalExample`,
  `InitApply.SharedRootExample`).
- A bounded OpenCode suffix counts older user rows whose time is a number but no safe integer,
  which the full parse discards, so its indexes are higher by their number
  (`OpencodeBounded.SuffixIsTail`, `OpencodeBounded.FractionalTimeShifts`).
- The recovery sweep (src/daemon/task-state-manifests.ts:312) is "never reported as done" while work is
  unfinished, but a request whose source closes a turn with refused coverage before its report
  rejects the pass: the position stays, nothing is queued, and the requests behind it are not
  reached. Where single turns fit a pass, the sweep finishes exactly when there is no such
  request (`RecoverySweep.TaskStateManifestPublisher.Sweep`,
  `RecoverySweep.UncoveredStopsTheSweep`). An over-long record does not do the same: no
  pass of the configured length reaches its end (`RecoveryReads.OverlongIsTooLarge`).
- A rollup's read-back (src/daemon/rollup-service.ts:333) trusts that the row is still the one just
  written, and a rebuild stamps the version it found. Coverage holds exactly while no read-back
  finds another watermark, the stamp exactly while no other version takes it over or merges
  into what is read back (`Rollup.CoverageIsWatermark`, `Rollup.StampIsHonest`; failing runs in
  `Rollup.OvertakenReadBackLosesATurn`, `Rollup.OlderVersionTakesTheStamp`).
- A report's first input is kept after a conflicting envelope (src/adapters/base.ts:743 says it becomes
  undefined); the failure recorded beside it is what withholds the report.

## Model

| member | source | states |
|---|---|---|
| Framing.FramePartitions | src/adapters/base.ts:228-314 | framing any range of any file gives records and an end whose byte ranges partition the range: each record one newline-terminated line no longer than the ceiling, then an unterminated rest, or the first over-long record |
| Framing.PartitionUnique | src/adapters/base.ts:228-314 | nothing else partitions the range that way, so the framing does not depend on how it was found |
| Framing.FrameSplit | src/adapters/base.ts:489-570 | framing from the start of any of its records gives exactly the records from there on |
| Framing.FrameGrows | src/adapters/base.ts:1656-1707 | appending bytes keeps every complete record framed so far |
| Reading.SourceReadBudget.ChargeRead | src/adapters/base.ts:438-443 | a read is charged in full or refused, leaving the allowance as it was |
| Reading.SplitChunk | src/adapters/base.ts:1672-1707 | one chunk, joined to the bytes pending from earlier ones, gives the records it completes and the bytes it leaves pending, or the record that outgrew the ceiling |
| Reading.ReadBoundedLines | src/adapters/base.ts:228-314 | for every schedule of short reads, allowances and deadlines: exactly the framed records of the bytes read, each byte charged once; all of them and the tail when finished; all of them before the first over-long record when that stops it; out of budget only when one of the allowances is spent to the byte |
| ChargedReading.ChargedLines.Request | src/adapters/base.ts:489-570 | no read asks past the byte that proves a record over-long or past the allowance, except to finish the first record, by less than one small read; exactly what is asked for is charged |
| ChargedReading.ChargedLines.Next | src/adapters/base.ts:489-570 | each pull gives the next framed record, exhaustion, a stop, or the over-long record, with the reads accounted for |
| ChargedReading.DrainLines | src/adapters/base.ts:489-570 | pulled to its end the generator yields the framed records of the range; with an unlimited allowance and no deadline it ends only when they ran out or at the first over-long one |
| Reading.RecentBytes.Append | src/adapters/base.ts:454-465 | appending keeps the held window: the contiguous tail within capacity, or the new data alone |
| Reading.RecentBytes.FingerprintAt | src/adapters/base.ts:468-477 | a defined fingerprint is the digest of the file window ending there, whenever what was appended are true slices of the file |
| Reading.AppendOf | src/adapters/base.ts:454-465 | appending a true slice to a window of the file keeps it a window of the file |
| Reading.RecentTwoChunks | src/adapters/base.ts:448-477 | after any contiguous appends the held window is the file's, and covers every end within the last two chunks whose own window was appended |
| Reading.FingerprintGrows | src/adapters/base.ts:411-429 | appending bytes to the file changes no fingerprint issued over its old content |
| TurnContext.RetainIs | src/adapters/base.ts:1724-1741 | pruning keeps the answer to "last record ending by an offset": for the new record's field at the cutoff and from its end on, for every other field untouched |
| TurnContext.CommitIs | src/adapters/base.ts:1558-1562 | committing gives, per field, the last record ending at or before the offset |
| TurnContext.EndingAfterIs | src/adapters/base.ts:1563 | dropping what was committed loses no later answer |
| TurnContext.AcceptFaithful | src/adapters/base.ts:1724-1875 | one harmless record keeps committed and pending records answering as the whole history of records would |
| TurnRuns.RunNumbered | src/adapters/base.ts:1567-1590 | on every parse turn indexes are consecutive, cursors are line starts and strictly increase |
| TurnRuns.PruningLosesNothing | src/adapters/base.ts:1553-1565 | every cursor of a parse from byte zero carries, per field, exactly the last context record ending at or before it, which is what deriving it again from the source gives |
| TurnGrowth.HarmfulLoses | src/adapters/base.ts:1724-1875 | the condition on records is necessary: for each record that sets context and also moves the lifecycle or opens a turn the way the condition excludes, a transcript exists whose cursor loses a record |
| TurnGrowth.ClosedTurnsStayClosed | src/adapters/base.ts:1656-1875 | with the decision fixed and no idle close, the turns of a file are a prefix, cursors and contexts included, of the turns of that file followed by any bytes |
| Undecided.DecidingKeepsTurns | src/adapters/codex.ts:867-913 | for Codex, the decision read anew each time: the turns a file has closed come first among those of the file grown, up to the decision they note, if and only if none had been closed or the file does not turn from undecided to the event envelope; a decision once made stays |
| Undecided.UndecidedTurnIsLost | src/adapters/codex.ts:867-913 | the failing input: two prompts in the response envelope close a turn, and an event prompt behind them takes it from the parse |
| TurnResume.MeetingPoint | src/adapters/base.ts:1770-1875 | a parse started at a closed turn's cursor with its context reaches the boundary that closed the turn in the same state as the full parse |
| TurnResume.ResumingEqualsNotStopping | src/adapters/base.ts:1514-1565 | resuming equals not stopping: for any boundary-closed turn its context reads back from the file, and a parse from its cursor emits exactly the remaining turns, idle close included, differing at most in the first one's resume marker |
| TurnAssembly.Assembly.NoteContextField | src/adapters/base.ts:1728-1740 | one context record pruned into the pending list, as the specification of a record says |
| TurnAssembly.Assembly.ContextUpTo | src/adapters/base.ts:1553-1565 | the loop over pending records commits and keeps exactly what the specification says |
| TurnAssembly.Assembly.EmitTurn | src/adapters/base.ts:1567-1652 | a closed turn is numbered, fingerprinted from held bytes or a charged read, and given its context, or its refusal ends the parse |
| TurnAssembly.Assembly.AcceptLine | src/adapters/base.ts:1714-1875 | one complete record moves the parser's mutable state exactly as the specification of a record says |
| TurnAssembly.Assembly.FinishParse | src/adapters/base.ts:1908-1947 | quiet time closes the trailing turn under the lifecycle rules and only then |
| TurnAssembly.ReadTurns | src/adapters/base.ts:1656-1875 | the reading loop, for any schedule of short reads, delivers a prefix of the whole parse's turns and all of them when it reads to the end |
| TurnAssembly.ReadResumeContext | src/adapters/base.ts:1260-1297 | a context is accepted exactly when every record of it still stands in the file, and its values come from the file |
| TurnAssembly.RecordStandsWhenUnchanged | src/adapters/base.ts:1260-1297 | a context record issued over one state of a file is accepted over another exactly when its own bytes are unchanged there, still begin a line and end before the cursor, unless its digest collides with theirs; the value read back is then the one issued |
| TurnAssembly.FingerprintMetWhenUnchanged | src/adapters/base.ts:1466-1485 | a cursor is trusted by its fingerprint exactly when the bytes of its window are unchanged, unless the digest collides |
| TurnAssembly.ParseTurns | src/adapters/base.ts:1419-1947 | whatever the read schedule, allowance and deadline: the turns delivered are a prefix of those the records from the cursor on give, all of them when it finishes or meets an over-long record; each early end is given its cause, a coverage refusal exactly that the whole parse comes to one, a desync only an untrusted cursor, and a spent budget only when too little is left for one longest read |
| Codex.CodexHarmless | src/adapters/codex.ts:1045-1187 | no Codex record both sets context and starts, ends or opens a turn |
| Codex.CodexPruningLosesNothing | src/adapters/codex.ts:1045-1187 | so pruning loses nothing for any Codex transcript, without a condition |
| Codex.CodexResumes | src/adapters/codex.ts:1045-1187 | so any boundary-closed turn of any Codex transcript resumes |
| Codex.IssuedCursorIsTrusted | src/adapters/base.ts:1466-1552 | a later parse handed a closed turn's own cursor and context trusts both, decides the same user boundary and begins in the state the resume theorem starts from |
| Codex.OneEnvelopeOpens | src/adapters/codex.ts:1104-1153 | of the two envelopes one prompt is written in exactly one opens a turn, and nothing else does |
| TurnContents.EmittedTurnHolds | src/adapters/base.ts:1755-1875 | every emitted turn holds exactly its own records: the boundary that opened it and each record up to the one that closed it, once and in order; its times, context, title and external mark are what those records say |
| TurnLives.BoundaryEndsTheTurn | src/adapters/base.ts:1837-1876 | each later boundary ends the open turn, over the records alone: it is delivered exactly when it is worth a turn or must keep its index, with the drop its content calls for; it ends where the start due to the next turn stands, or else at the boundary; it is in the attempt its records say and marked exactly when a marker stood since the boundary before its own; refused coverage ends the parse |
| TurnLives.OthersEndNothing | src/adapters/base.ts:1833-1876 | no other record ends a turn, nor does the first boundary |
| TurnLives.QuietTimeEndsTheTurn | src/adapters/base.ts:1908-1947 | quiet time closes the open turn if and only if the attempt its records put it in is over, or there was none, and it was aborted or is ready; it then comes to one turn that ends with the last record, provisional exactly when no attempt was recorded |
| TurnLives.StartedAttemptBarsQuietTime | src/adapters/base.ts:1770-1832 | a start recorded before a boundary, with no boundary, contribution or end of its own since, puts the turn that boundary opens in that attempt, and quiet time does not close the turn until the transcript records the end of it or of one started since |
| TurnLives.EndedAttemptCloses | src/adapters/base.ts:1774-1832 | a turn of one named attempt is closed by quiet time if and only if the last word the transcript has on that attempt is its end, and it was aborted or is ready |
| TurnLives.NeverStartedCloses | src/adapters/base.ts:1908-1922 | a turn no record ever put in an attempt is closed if and only if it is ready |
| TurnLives.IdleClosesFinishedAttempts | src/adapters/base.ts:1774-1832 | quiet time never closes a turn in the middle of an attempt: once a record put the turn in one, it is closed only when the transcript recorded an end after its boundary, of an attempt neither failed since nor followed by a contribution after another start |
| CodexTurns.CodexTurnStaysOpen | src/adapters/codex.ts:1045-1187 | a Codex turn whose prompt stands behind its task_started stays open until a task_complete without error or a turn_aborted |
| CodexTurns.CodexTurnRecords | src/adapters/codex.ts:1104-1187 | which Codex records open a turn, belong to it, mark it and make it external |
| CodexTurns.CodexContext | src/adapters/codex.ts:1045-1103 | the directory, surface and branch in force are the last non-empty ones a session or turn context record gave |
| Derivation.DecisionStays | src/adapters/codex.ts:867-908 | once the tracker decides, no later record changes the decision |
| Derivation.TrackerDecides | src/adapters/codex.ts:867-908 | what it decides, independently of its state: the event envelope at the first prompt event before any answered response prompt, else the response envelope at the first answered one |
| Derivation.PrescanDecisions | src/adapters/base.ts:1395-1417 | reading only until the decision gives the decision of the whole file |
| Derivation.DeriveStep | src/adapters/base.ts:1314-1390 | one bounded step, from honest progress or over again from any whose bytes no longer match its fingerprint: complete with exactly the single-pass context and decision, or honest progress at a record boundary that is further on unless cancelled, with the allowance spent or no whole record left, passing it by less than the rest of its first record and one small read; refused exactly when the allowance does not cover the fingerprint it must check |
| Derivation.Reconstruction.Step | src/daemon/index.ts:576-602 | kept progress over any sequence of allowances and cancellations: what is returned, once complete, is the single pass's context and decision; every uncancelled step whose allowance covers one fingerprint window leaves fewer records, and one without a bound completes |
| TaskStateReport.SameInputIsEqual | src/adapters/task-state-report.ts:282-308 | two validated inputs compare the same exactly when they are identical |
| ReportParsing.ReportExact | src/adapters/task-state-report.ts:235-280 | a decoded value is accepted as a report if and only if it is that report's encoding, key for key, and the report keeps every bound of its mode |
| ReportParsing.InputExact | src/adapters/task-state-report.ts:235-280 | the same for recorded arguments, JSON text held to the byte bound first |
| ReportParsing.ShapedIsMeasured | src/adapters/task-state-report.ts:94-280 | a report of any length is accepted, or refused as too long, never as malformed; no two reports have one encoding |
| ReportParsing.OversizedIsTooLong | src/adapters/task-state-report.ts:94-280 | a value is refused as too long only when some text or list in it is over its own bound, or it would be accepted but for the bound on the whole |
| ReportParsing.RequestIdIs | src/config/constants.ts:61 | a request id is exactly a number of 128 bits in twenty-six digits of base 32 |
| Correlation.BoundedMcpResult | src/adapters/base.ts:686-704 | adding the parts up until the bound gives the joined text and its exact size, or refuses exactly when text or joined size pass the bound or there is no text |
| McpRuns.RunKept | src/adapters/codex.ts:1189-1364 | on every run of events pending, settled and report ids are disjoint and each names one call; calls, receipts and bytes keep their bounds with the counter equal to the receipts' sum; every unmatched id was recorded |
| McpRuns.NoResultBeforeItsCall | src/adapters/base.ts:719-733 | with no coverage failure, no registered call's result was recorded before it, although unmatched results are tracked in a bounded set |
| McpRuns.CoverageStays | src/adapters/codex.ts:1293-1364 | a coverage failure is never withdrawn, and while there is none no registered id is lost |
| McpRuns.RememberTracks | src/adapters/base.ts:719-733 | a result without a call is remembered, or the tracking is declared incomplete, which only the 65th such id causes: the byte bound never binds first |
| McpRuns.ReceiptCountNeverBinds | src/adapters/codex.ts:1345-1349 | a settling call never meets the bound on receipts |
| McpResults.ReceiptsHoldEveryResult | src/adapters/codex.ts:1189-1364 | while coverage stands, every result recorded for a registered call, in whatever envelope and however often, has exactly the body its receipt keeps |
| McpResults.PendingHadNoResult | src/adapters/codex.ts:1323-1364 | so a call still pending had none recorded |
| McpCoverage.CoverageStandsWhenOrderly | src/adapters/codex.ts:1189-1364 | coverage stands if and only if every record was orderly where it stood, over the records alone: each call under a short id of its own, at most 64 of them, none behind its result; each first result readable and within its bound and the turn's 4 MiB; each further one the same. Then the receipts are exactly the first results in their order and the pending calls those without one; the first disorderly record decides the failure named |
| McpCoverage.BoundedForms | src/adapters/base.ts:649-704 | which recorded results are readable and within the bound, and as what text |
| ReportRuns.FailuresAbsorb | src/adapters/base.ts:752-757 | after any failure but malformed or oversized input, on every continuation, no report is handed on |
| ReportRuns.ReportIsEarned | src/adapters/base.ts:994-1020 | a report means: every recorded call of the turn is answered exactly once in each envelope that recorded it; the calls under its id all carried the identical validated input and were acknowledged; every other call carried invalid input and was explicitly rejected; a retry is reported exactly when there was one |
| ReportRuns.CorrectedReportPasses | src/adapters/base.ts:847-953 | invalid calls, each rejected, then a valid acknowledged one, yield the report exactly when fewer than 64 were rejected |
| ReportHistory.ReportedExactly | src/adapters/base.ts:847-1020 | for every interleaving of envelopes: a report is handed on if and only if every record was proper where it stood, the id called last was called with that valid input and answered in every envelope that recorded it, and every other id was rejected in each of its envelopes; it counts as a retry exactly when there is another id |
| ReportHistory.UnblockedWhenProper | src/adapters/base.ts:847-990 | nothing but an invalid call still to be corrected stands in the way exactly when every record was proper: a new id only when none was, or once the newest was invalid and rejected in each of its envelopes, unguarded and below 64; a repeated call the same arguments in a new envelope; an answer once per envelope, acknowledging the newest or rejecting in the words the arguments call for. What is kept is then what the records say |
| ReportHistory.ImproperRecordFails | src/adapters/base.ts:847-1020 | the first record that is not proper decides what the whole turn fails for: the invalid call still standing, or else that record's own fault |
| ReportHistory.ProperWithoutReport | src/adapters/base.ts:994-1020 | with none, a turn that hands nothing on fails for the invalid call still standing or for a result it misses, or never called |
| ReportHistory.GuardKept | src/adapters/base.ts:847-860 | the guard kept is the strongest any report call had, usable or not |
| TurnBuilding.TurnBuilder.ObserveTaskStateReportCall | src/adapters/base.ts:847-953 | a report call moves the turn's state as the specification of the protocol says |
| TurnBuilding.TurnBuilder.ConsumeTaskStateReportResult | src/adapters/base.ts:957-990 | a result is the report's exactly when its id is, and moves the state as specified |
| TurnBuilding.TurnBuilder.RegisterElephaMcpCall | src/adapters/codex.ts:1293-1321 | a call is registered, or the coverage failure is the specified one |
| TurnBuilding.TurnBuilder.RecordElephaMcpResult | src/adapters/claude-code.ts:645-689 | a result settles its call, is remembered, or fails coverage, as specified |
| TurnBuilding.TurnBuilder.ObserveDesktopItem | src/adapters/codex.ts:1195-1243 | a Desktop item registers and settles at once, or must repeat a receipt |
| TurnBuilding.TurnBuilder.ObserveAll | src/adapters/claude-code.ts:596-689 | any sequence of records leaves the state the run theorems speak about |
| TurnBuilding.TurnBuilder.Outcome | src/adapters/base.ts:994-1020 | the loops over rejected calls and envelopes compute the specified outcome |
| TurnBuilding.CloseBoundsNeverFire | src/adapters/base.ts:1630-1641 | the bounds checked again when a turn closes never fire: a refusal there repeats a failure met on the way |
| TurnBuilding.KeptReportIsEarned | src/adapters/base.ts:1607-1629 | a turn kept with a report holds no other Elepha call, and its report is earned |
| RawGuard.StringContainsReportSentinel | src/adapters/task-state-report.ts:158-172 | the rolling window finds the sentinel exactly when the text with its escapes decoded contains it |
| RawGuard.PlainSentinelIsFound | src/adapters/task-state-report.ts:158-172 | a sentinel written plainly is found too, whatever escapes stand around it |
| RawGuard.EscapesAreRead | src/adapters/task-state-report.ts:158-172 | every unit written as a Unicode escape, its digits in either case, is read back |
| RawGuard.TaskStateReportRawGuard | src/adapters/task-state-report.ts:176-233 | no guard means no string or key reachable from the arguments, shared or cyclic as they may be, holds the sentinel; the sentinel guard means one does; a scan is incomplete only when what there is to reach, a byte a value and every key and string in full, exceeds the bound, and of a plain string exactly when it is too long |
| RawGuard.SentinelInJsonIsFound | src/adapters/task-state-report.ts:155-187 | arguments recorded as JSON text and scanned as text: a string or key whose decoding contains the sentinel is found, however it is escaped in the text, wherever it stands |
| JsonText.TextValues | src/adapters/base.ts:156-194 | the explicit-stack walk gathers exactly what the bounded recursive visit does, in order |
| JsonText.CollectIsPrefix | src/adapters/base.ts:156-194 | that is a prefix of the strings above the depth bound, all of them when the nodes suffice |
| InitApply.MergeSettings | src/config/settings.ts:202-218 | the key-by-key merge gives the merged config, or a refusal when no capture tool would remain |
| InitApply.CrashAtomicity | src/cli/init-apply.ts:187-290 | with no other writer, stopping an apply after any step and recovering leaves everything confirmed or exactly what was there, at every step, if and only if its journal keeps within the bounds recovery reads it by (1000 roots, none twice, paths of 4096, 1048576 bytes) and it leaves one store alone or found some capture tool enabled |
| InitApply.StoppedRecoveriesResolve | src/cli/init-apply.ts:317-385 | however often recovery itself is stopped before it lets go of the journal, between the config write and the release included, the next one still resolves what a recoverable apply left |
| InitApply.StuckExample | src/cli/init-apply.ts:317-385 | one failing input: every capture explicitly off, one turned on, one root revoked; recovery stays stuck |
| InitApply.OverlongJournalExample | src/config/init-apply-journal.ts:261-294 | another: 200 grants of long but accepted paths, every capture enabled, publish a journal longer than recovery reads; it is refused on every run |
| InitApply.SharedRootExample | src/cli/init-apply.ts:97-101 | and a third: two names of one directory granted together give a plan naming its canonical root twice; however short, its journal is refused on every run |
| InitApply.RecoveryIsSafe | src/cli/init-apply.ts:317-385 | from any later config and consent: recovery never writes consent, changes a setting only from this apply's target back to its previous value, releases the journal unless busy, stuck or unreadable, and running it again changes nothing |
| InitApply.UndoIsComplete | src/cli/init-apply.ts:159-178 | after an undo every planned key holds its previous value or one set later |
| InitApply.RowsDecide | src/cli/init-apply.ts:326-385 | what recovery reports of a journal it reads, its owner gone, by the fields of the rows: the plan stands exactly when every changed root's row is another than found and says what was planned, decided here (or, without changes, every setting holds its target); it is undone or stuck exactly when every row is the one found or an undecided one where none was; anything else, a newer decision included, is a conflict |
| InitApply.StandingImports | src/cli/init-apply.ts:340-375 | of a plan that stands, exactly the roots whose directory is still the one confirmed are imported, exactly the others reported, and exactly the keys that lost their target named |
| InitApply.ImportsAreGranted | src/cli/init-apply.ts:340-375 | whatever is imported has a row that grants it, decided here |
| InitApply.ConflictNames | src/cli/init-apply.ts:333-346 | a conflict names exactly the roots whose row is not as the plan found it |
| InitApply.UndoneNames | src/cli/init-apply.ts:159-178 | an undo names exactly the keys that hold neither what was found nor the target; it is stuck exactly when what it would put back leaves no capture tool enabled |
| InitApply.MergeIsExact | src/config/settings.ts:202-218 | a merge is refused exactly when the file is unreadable or every capture tool would be off; else it holds the batch's values, lost what the batch removes, and keeps the rest |
| InitApply.CommittedImports | src/cli/init-apply.ts:187-375 | end to end: of an apply stopped behind its commit, recovery imports exactly the granted roots that still name the directory they named |
| InitApply.StampIsEarliest | src/storage/consent-store.ts:330-345 | a decision is stamped with the earliest time, from now on, that is later than the row's last; the row keeps its id |
| InitApply.StandingPlan | src/cli/init-apply.ts:340-375 | a plan is reported as standing only when every change committed (or, without changes, every setting landed), and only a directory still the one confirmed is imported, all others being reported |
| InitApply.ConclusionFollowsRows | src/cli/init-apply.ts:326-346 | an undo follows only when no change was committed and none met a newer decision; a conflict is reported exactly when some change met a newer decision or only part of them was committed |
| InitApply.PublishedIsValid | src/config/init-apply-journal.ts:156-259 | a published journal is one recovery accepts exactly when it changes at most 1000 roots, none twice, by paths of at most 4096, and takes at most 1048576 bytes |
| InitApply.PendingRowsDoNotDisturb | src/cli/init-apply.ts:326-338 | rows the daemon records meanwhile for new roots change nothing recovery does or reports |
| OnboardingSetup.Setup.RevertOwnSettings | src/cli/init-apply.ts:159-178 | the loop puts back exactly the keys that still hold this apply's target |
| OnboardingSetup.Setup.CommitConsent | src/cli/init-apply.ts:262-281 | the transaction stamps every planned row in order, each over what the ones before it left, only over exactly the decisions previewed, or changes nothing |
| OnboardingSetup.Setup.ApplyInitPlan | src/cli/init-apply.ts:187-290 | stopped anywhere, alone it leaves one of the states crash atomicity starts from, done means confirmed exactly when roots planned twice are planned alike, and failed-and-restored means as before; with other writers in between, each of its own writes is one of the five allowed ones, consent only over the previewed decisions; alone, with nothing failing and the state as previewed, it does apply the plan |
| OnboardingSetup.Setup.Recover | src/cli/init-apply.ts:317-385 | the recovery code computes the specified recovery, always when no write fails and nothing stops it; else it leaves everything when a write fails, or, stopped before the release, has at most put the settings back |
| JournalOwnership.OneOwner | src/config/init-apply-journal.ts:261-294 | for every interleaving of publishing, reading, releasing and dying processes at most one apply owns the journal, and the path names it |
| JournalOwnership.NobodyRemovesAnothers | src/config/init-apply-journal.ts:297-321 | no step of another process removes or replaces the journal of a live apply, not even a release holding an identity read before |
| JournalOwnership.ReleaseRemovesItsOwn | src/config/init-apply-journal.ts:297-308 | on every run, what a release removes is a file its own process published at an earlier step into an empty path, or read there and found its owner gone, and the path has named that file ever since |
| JournalOwnership.FreePathIsTaken | src/config/init-apply-journal.ts:261-294 | where no journal stands, a new process comes to own one, under a file of its own |
| JournalOwnership.LiveOwnerBars | src/config/init-apply-journal.ts:226-294 | a live apply's journal bars every other process from publishing and from reading it |
| JournalOwnership.DeadOwnersJournalIsRead | src/config/init-apply-journal.ts:226-259 | a dead owner's journal is read by any new process, and released, unless its pid is in use again |
| JournalOwnership.ReusedPidBars | src/config/init-apply-journal.ts:310-320 | while another process runs under the owner's pid the journal is not read |
| OpencodeV1.ParseLoadedRows | src/adapters/opencode.ts:1133-1264 | the loops over rows compute the specified turns, numbered from the counted or given index |
| OpencodeV1.ResumingCountsTheSame | src/adapters/opencode.ts:1197-1263 | for rows in strict order, parsing from any turn a user message closed gives exactly the remaining turns with the same indexes and bodies, though the index is counted anew |
| OpencodeV1.EmittedTurnHolds | src/adapters/opencode.ts:1201-1258 | every turn emitted at a user message holds exactly the messages from the user message before it up to that one, with their parts, in order |
| OpencodeV1.TurnsAreStretches | src/adapters/opencode.ts:1133-1264 | the turns of any rows are exactly the stretches from user message to user message whose messages have content, none skipped, and last the trailing stretch if and only if closing on idle is asked for and its messages hold an assistant answer |
| OpencodeBounded.ParseSessionTurnsBounded | src/adapters/opencode.ts:987-1114 | unless interrupted, it keeps turns if and only if there is a suffix to be kept: what is left of the rows that fit, starting at a user row, with few and small enough rows before it; what it keeps is the tail of the full parse, numbered by the user rows found before it |
| OpencodeBounded.KeepsLongest | src/adapters/opencode.ts:1002-1063 | the suffix kept is the longest that starts at a user row and fits the message, row and byte budgets |
| OpencodeBounded.SuffixIsTail | src/adapters/opencode.ts:1065-1113 | such a suffix gives exactly the tail of the full parse's turns, with the same indexes if and only if no older user row has a numeric time that is not a safe integer, or no turn is left to number |
| OpencodeBounded.FractionalTimeShifts | src/adapters/opencode.ts:1065-1113 | with one older user row whose time is a fraction, the one later turn is numbered 1 where the full parse numbers it 0; with no time in that row, both number it 0 |
| OpencodeV2.ReadV2Page | src/adapters/opencode.ts:723-936 | one page folds exactly the rows it read, keeps both budgets, and stops for the stated reasons: more to read only behind closed turns, an omission only past the row budget, a refusal only at a row that is refused or no budget covers; drained, it is pending exactly with a turn open or, skipping, none closed |
| OpencodeV2.ReadPages | src/adapters/opencode.ts:700-936 | parsing again and again from the last emitted cursor gives exactly the turns of the unpaged parse, or stops only at a page that closes no turn within its budgets, with exactly the turns before it |
| OpencodeV2.ParseSessionTurnsV2 | src/adapters/opencode.ts:700-936 | one call delivers all unpaged turns, or exactly those of the rows one page can read; the oldest rows are omitted if and only if the first page fits its bytes, closes no turn and is not the last; then it delivers a run of the turns made only of rows behind the tail's first idle row, to the very end when rows ran out |
| OpencodeV2.EmittedTurnHolds | src/adapters/opencode.ts:838-931 | every turn holds exactly the rows from the first user row since the idle row before it up to the idle row that closed it, which numbers it and is its cursor |
| OpencodeV2.TurnsAreClosed | src/adapters/opencode.ts:838-931 | the unpaged turns are exactly, for each idle row, the rows since the first user row behind the idle row before it, where there is one and they have content |
| OpencodeV2.SoundIs | src/adapters/opencode.ts:795-931 | a session is read without refusal exactly when every row is well-formed, not too long and of a known type with what its type calls for, its content sound when it stands in a turn |
| RecoverySweep.ParseTurns | src/daemon/task-state-manifests.ts:429-462 | the reading loop, charged in chunks and stopped by bytes or by time between turns, ends as the specified parse of the source does, behind the turns that says, or throws |
| RecoverySweep.TaskStateManifestPublisher.RecoverRequest | src/daemon/task-state-manifests.ts:401-518 | one attempt settles its request, leaves it at its next start, or is rejected and changes nothing, as specified by the source, the start, the allowance and the clock |
| RecoveryReads.AttemptMay | src/daemon/task-state-manifests.ts:401-518 | an attempt settles a request as unopenable exactly when its source does not open, and else fails or settles it only as it may; one cut short leaves it where nothing more may come of it than before and, with a whole pass before it, closer to its end: sent back to byte zero once, else behind a later turn |
| RecoveryReads.AttemptHurried | src/daemon/task-state-manifests.ts:437-462 | a clock that runs out behind the turns from which a read may still fail keeps whole passes from ever settling a request that may fail |
| RecoveryReads.AttemptPatient | src/daemon/task-state-manifests.ts:437-462 | a clock that runs out behind the turns from which a request may still be settled keeps whole passes from ever rejecting one that may be settled |
| RecoveryReads.OnlyBlockedFail | src/daemon/task-state-manifests.ts:463-469 | a read fails only where what its source throws at comes before the report, from where it first begins |
| RecoveryReads.BlockedMustFail | src/daemon/task-state-manifests.ts:463-469 | where a whole pass gets from every start at least one turn on, such a read fails whatever the clock |
| RecoverySweep.TaskStateManifestPublisher.Recover | src/daemon/task-state-manifests.ts:316-355 | a pass settles requests in order or brings the first one closer, finishes leaving none, or is rejected, keeping its position and queueing nothing; at a request that must fail it settles nothing more |
| RecoverySweep.TaskStateManifestPublisher.Sweep | src/daemon/task-state-manifests.ts:316-355 | the passes end, after at most the turns there are, two for each request and one more; every request before the one they are stuck at is settled once, each as it may be, and no later one. Where a whole pass gets from every start one turn on, they are stuck at the first blocked request and finish if and only if there is none; otherwise they finish on the most adverse clock if and only if no request may fail, on the kindest if and only if none must |
| RecoverySweep.TaskStateManifestPublisher.Retry | src/daemon/work-queue.ts:17-28 | however many passes are begun again, by whatever clocks, at a request that must fail nothing more is settled |
| RecoverySweep.UncoveredStopsTheSweep | src/daemon/task-state-manifests.ts:463-469 | the failing input: a request whose source holds, behind one turn, a turn closing with refused coverage, before a request whose report is there; on every clock, and in any passes begun later, nothing is ever settled |
| RecoveryReads.OverlongIsTooLarge | src/config/task-state-manifest-recovery.ts:8-11 | no pass up to the record ceiling of 64 MiB, four times the configured one, gets to the end of an over-long record: such a record rejects no pass, and a request that has it before its report is settled as holding a turn too large |
| Rollup.CoverageIsWatermark | src/daemon/rollup-service.ts:133-346 | for every interleaving of calls of any prompt versions, captures, failures and stops, the stored rollup and every call in progress keep accounting for exactly the turns up to their watermark, each once, if and only if no call with batches left reads back a row with another watermark |
| Rollup.StepCovered | src/daemon/rollup-service.ts:330-343 | step by step: coverage survives a step if and only if it reads back no such row |
| Rollup.MisreadReachesTheRow | src/daemon/rollup-service.ts:264-343 | a call that did read one back, for either part, writes next a row that does not cover |
| Rollup.StampIsHonest | src/daemon/rollup-service.ts:311-343 | for every interleaving, a row stamped with a version holds only content merged under it, and calls of that version carry nothing else, if and only if no call of another version takes that stamp over for a batch short of its last and no call of that version reads back what another merged into last |
| Rollup.OneVersionIsHonest | src/daemon/rollup-service.ts:311-343 | with every call of one version, that condition holds of every run |
| Rollup.ResumesWithTheRest | src/daemon/rollup-service.ts:133-146 | a later call builds on a row of its own version and on no other, and is handed exactly the turns that row does not account for, all of them when there is none |
| Rollup.NextRowCovers | src/daemon/rollup-service.ts:264-323 | each batch's write accounts for exactly the turns up to the batch's last, and leaves the call on what follows |
| Rollup.WatermarkAdvances | src/storage/rollup-store.ts:257-319 | a later write lands on the row whose watermark it expects and moves the watermark on |
| Rollup.OnlyOneLands | src/storage/rollup-store.ts:257-319 | of two calls that expect the same row only the first to write lands |
| Rollup.OvertakenCallStops | src/daemon/rollup-service.ts:230-343 | a call the stored row has moved on from stops at its next check or write and changes nothing |
| Rollup.CallAloneCompletes | src/daemon/rollup-service.ts:133-346 | a call with no other and no failure goes through all its batches: the row accounts for every turn it began with, under its version |
| Rollup.OvertakenReadBackLosesATurn | src/daemon/rollup-service.ts:330-343 | the failing input: a run of two processes from three captured turns, nothing rolled up, ends with a row claiming three turns and the decisions of two |
| Rollup.OlderVersionTakesTheStamp | src/daemon/rollup-service.ts:311-319 | the failing input of the stamp: a run from nothing ends with the newer version stamped on content merged under the older |
| RollupService.RollupStore.Write | src/storage/rollup-store.ts:257-319 | a write lands on the watermark it expects, a first write on anything |
| RollupService.RollupSession | src/daemon/rollup-service.ts:133-346 | the batch loop, other calls writing rows of any version between any two of its steps, read-backs included, and accounting for turns captured meanwhile, lands exactly the rows of the protocol's call; all of them cover if and only if every read-back a landed row follows found the watermark just written; then, complete, the last accounts for every turn it began with, stamped with its version; undisturbed, it completes |
| RollupService.MergedOnlyUnderOwn | src/daemon/rollup-service.ts:311-343 | all the rows a call lands were merged under its version alone if and only if every read-back a landed row follows found parts last merged under it |

## Left out

- Cursor strings: cursors are records of offset, index and fingerprint; writing them as text and reading them back, the order contexts are stored in and older cursors without a fingerprint's text form are not modelled.
- Adapters that carry no context across turns (Claude Code): their resume is not stated; their classification and folding enter only as the arbitrary record reader and judge every turn theorem ranges over.
- `onPendingTurn`, `onOpenTail`, compaction and malformed-record callbacks, and the replay of a closing boundary, are not modelled.
- What folding writes into a turn (texts, tool calls, timestamps as text) is the sequence of folded records; blanking a dropped turn's content is its drop reason.
- JSON, regular expressions, dates, digests and Unicode are parameters: any record reader, any judge, any digest. Digests are not assumed collision-free; the two results that need it ask it of the two texts compared.
- TurnResume.ResumingEqualsNotStopping: boundary-closed turns only; a turn closed by quiet time may have its cursor behind a pending start. The resume marker seen before the cursor is not in the cursor, so the first remaining turn may lack it.
- TurnAssembly.ParseTurns: over a file that does not change while it is read; an early end with an error and one without are both outcomes, and a read of an unreadable file is not modelled.
- Derivation.DeriveStep: the fingerprint issued with progress is read outside the allowance when the held bytes do not cover it, as in the source.
- The observation time of a receipt and the rest of a turn's report text are left out of the correlation state; observations are values, each held in one place, so their aliasing is not modelled.
- RawGuard.TaskStateReportRawGuard: for objects, room for everything reachable is enough for a decision, not needed for one; array indexes are counted there too.
- RawGuard.SentinelInJsonIsFound: of the sentinel as it stands in the decoded string; escapes that a string itself spells are a layer further and not promised.
- ReportParsing.ReportExact: the length of a report's JSON text is any function of the report.
- InitApply.CrashAtomicity: how long a journal's JSON text is, is any function of the journal; the ids, times and paths the program itself wrote are taken as well-formed, roots stand for the form paths are compared in, and file modes and ownership are not modelled; settings are compared by their typed values, since an unusable value is removed rather than put back.
- OnboardingSetup.Setup.ApplyInitPlan: root identities, semantic-search setup and failing disks are arbitrary outcomes; vectors deleted with a revoke and the jobs after the commit are not modelled.
- JournalOwnership.OneOwner: a release is one step and a file identity is never reused; the candidate file and its removal are not modelled.
- OpencodeV1.ResumingCountsTheSame: identifiers are taken by rank, as if the database and the cursor comparison ordered them alike; a cursor with a negative time is refused before any of it.
- OpencodeV2.ReadPages: rows are in sequence order and unchanged between pages; a page that stops at a row it refuses delivers what it has and is not followed up.
- The hand-over from OpenCode's first row format to its second, session discovery and the overlap cycle are not modelled.
- RecoverySweep.TaskStateManifestPublisher.Sweep: sources and the pending set stay as they are, the batch is positive, one request is not also recovered by name, and the daemon is not stopping. A source is its turns, what reading on to each costs and where it throws, `Oversize` and `CoverageRefused` of turn assembly alike; a turn costs the same whichever start the read had, up to what beginning there costs. Publishing a report once found is the settling it ends in; that its re-reads of the same bytes might throw is not modelled.
- OpencodeBounded.SuffixIsTail: times are compared exactly, as if the driver never rounded one past 2^53; the byte counts of the queries and of the code are taken as equal.
- Rollup.CoverageIsWatermark: batches are an ordered partition of the fresh turns and turns are only appended; eligibility, source generations, live or final state and a rewrite that only changes that state are not modelled. A first write replaces any row, so a watermark can move back; coverage still equals it.
- RollupService.RollupSession: rows other calls leave are taken to cover, whatever their version. Purging a session, which deletes its turns with its row, is not modelled, here or in `Rollup`.
- Most of the daemon, the MCP server, hooks, installers, wizards and model providers are not modelled.
