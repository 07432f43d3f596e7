# OpenComputer: verified models

Dafny models of the parts of OpenComputer (the control plane, edge and agent of a VM-sandbox
service) whose correctness depends on interleavings, retries and text formats, with proofs of what
they keep. `dafny verify dfyconfig.toml` checks everything.

## What is modelled

- **PostgreSQL to D1 sync** (`TableSync`, `UpsertSql`, `SyncMachine`, `SyncRuns`, `SyncDaemon`): the batched
  table copy against the row-by-row copy, the SQL it sends, and the daemon's ticks as a machine in
  which source writes, half-done copies and drains, lost saves and restarts interleave freely. The
  daemon's code is shown to take steps of that machine only. D1 equals the image of the source after
  an undisturbed tick from every state of a well-behaved run, and from exactly the repairable states
  in general. Four example runs show what each assumption prevents.
- **Child reaping** (`ReapMachine`, `ReapRegistry`): kernel, SIGCHLD reaper and callers of the exec
  paths as interleaved steps.
- **Agent event stream** (`EventStream`, `TurnStream`, `ToolStream`): text deltas held back until the
  type of their part and the role of their message are known, and tool calls reported when their
  status changes.
- **Line protocol** (`JsonText`, `JsonNumber`, `JsonValue`, `Ndjson`): JSON values, one per line, cut into arbitrary
  chunks.
- **Agent manifest** (`AgentId`, `Manifest`): opencomputer.toml, written as text and read with regular
  expressions.
- **Credit account** (`CreditLedger`, `CreditAccount`): the handlers of the durable object, with the
  failures of its D1 reads and writes.
- **Organisation halt and resume** (`OrgHalt`, `OrgServer`): the database calls of the halt worker, the
  resume worker and the users, interleaved one by one.
- **Edge claim of warm boxes** (`EdgeClaim`, `EdgeReap`, `EdgePool`): control plane and edge stock with
  every message between them delayed, lost or, for finalize, repeated; and the reaper of stale
  reservations, which destroys boxes meanwhile.
- **Exec sessions** (`ExecSession`, `OutputView`, `ExitView`, `Scrollback`): attach, detach, the disconnect
  timer, what an attached client sees of the output, and what it has seen when it is sent EXIT.
- **Pull-request checkout** (`Checkout`), **capacity reservations** (`Capacity`) and **usage totals**
  (`Usage`).

State machines are functions `Step` (or `Handle`) over datatypes; the classes beside them follow the
source's methods and are proved to take those steps. Failures of the network, the databases and
processes, clocks and sizes are parameters of the steps. A false property has a run or an input that
shows it and a lemma that says exactly when it holds.

## Where code and comments disagree

The models follow the code.

- credit_account.ts:271-273 says that the next debit retries a failed halt mirror; it does not
  (`CreditLedger.MissedHaltStays`).
- pool_stock.ts:239-241 says that an entry restored after a crash only costs a second claim its
  finalize; an entry discarded before the crash can also be released while handed out
  (`EdgeClaim.BadRestore`).
- pool.go:131-133 says that a box claimed in the meantime is never clobbered; its row is not, but the
  reaper has destroyed the box by then (`EdgeReap.ClaimedWhileReaped`).
- pool.go:145-146 says that stale reservations return to the pool; they are stopped.
- admin_org.go:72-74 and 129-134 promise that the stamp tells credit halts from manual hibernations; it
  does so exactly in orderly runs (`OrgHalt.AttributionExact`, `OrgHalt.LateClearLosesStamp`).
- exec.go:163-164 says that the status is already in the channel when ECHILD is seen; it may still be in
  the hands of the reaper, or never come (`ReapMachine.EchildHasStatus`, `ReapMachine.StuckExactly`).
- reap_registry.go:17-18 asks for registration before the child can exit; the code registers after the
  start. Registration before delivery is enough, and is what is assumed (`ReapMachine.NoneMissed`).

## Model

| member | source | states |
|---|---|---|
| `TableSync.ApplyAt` | cmd/backfill/main.go:283-286 | copying rows one at a time leaves, for each key, the last kept row of that key and the old content elsewhere |
| `TableSync.MaxWmAt` | cmd/backfill/main.go:241-248 | the watermark returned is the largest of the kept rows, and zero if none is above it |
| `TableSync.ReplayConverges` | cmd/backfill/main.go:203-263 | running the copy again after it stopped part-way gives the table of one full run |
| `TableSync.RowsPerBatchIsLargest` | cmd/backfill/main.go:220-222 | the batch size is the largest that keeps a statement within the parameter limit, and one when not even one row fits |
| `TableSync.Flush` | cmd/backfill/main.go:224-234 | a flush brings D1 to exactly the rows seen so far, or fails leaving D1 at an earlier prefix or, when the failed statement ran after all, at this one |
| `TableSync.AddRow` | cmd/backfill/main.go:241-249 | one row more: it is counted as skipped, or joins the batch and the watermark; what batch and table together stand for grows by that row |
| `TableSync.Advance` | cmd/backfill/main.go:236-255 | one iteration keeps the loop in step with the row-by-row copy and never lets a batch reach beyond its size |
| `TableSync.CopyAll` | cmd/backfill/main.go:236-255 | the loop over the rows stays in step with the row-by-row copy up to the last row, a failed read or a failed flush |
| `TableSync.SyncTable` | cmd/backfill/main.go:205-263 | batched copying refines row-by-row copying for every row list, read failure and statement failure: final table, synced + skipped = rows read, maximum watermark; on failure zeroes and a prefix of the rows |
| `TableSync.StatementsFit` | cmd/backfill/main.go:220-222 | no statement binds more parameters than the limit, as long as one row fits |
| `UpsertSql.AddCells` | cmd/backfill/main.go:296-306 | one row of the VALUES list: literals inlined, every other cell a placeholder with its parameter |
| `UpsertSql.AddRow` | cmd/backfill/main.go:291-308 | one more row keeps placeholders and parameters paired |
| `UpsertSql.AddRows` | cmd/backfill/main.go:291-308 | the loop over the batch writes the whole VALUES list |
| `UpsertSql.SetsExactly` | cmd/backfill/main.go:311-321 | the upsert updates every column outside the key, in order, and no other |
| `UpsertSql.BuildSets` | cmd/backfill/main.go:315-321 | the loop that collects those clauses |
| `UpsertSql.BuildUpsert` | cmd/backfill/main.go:286-328 | the statement has exactly one placeholder per bound parameter, and with the parameters filled in it reads as the plain multi-row upsert of the batch |
| `SyncMachine.DeletesKeptStep` | cmd/backfill/forward.go:92-110 | every step, with drains that stop half-way and restarts, keeps all deletions at or below any cursor, and all pruned ones, executed |
| `SyncMachine.NoDeleteLost` | cmd/backfill/forward.go:92-110 | in every run in which deletions become visible in sequence order, no deletion is lost |
| `SyncMachine.AgreeIsEquality` | cmd/backfill/forward.go:66-86 | when assembly skips no row, agreement of D1 with the source is equality with the image of the whole source |
| `SyncMachine.InvStep` | cmd/backfill/forward.go:66-110 | each step of a strict run keeps: rows at or below any cursor ever used have their image in D1, and keys only D1 has await their deletion |
| `SyncMachine.InvRun` | cmd/backfill/forward.go:66-110 | the same over whole runs |
| `SyncMachine.InitInv` | cmd/backfill/forward.go:67-70 | a first start satisfies both invariants |
| `SyncMachine.TickExact` | cmd/backfill/forward.go:74-98 | one undisturbed tick makes D1 agree with the source if and only if the state before it is repairable: rows below the watermark covered, extra keys awaiting deletion, no pending deletion of a live key |
| `SyncMachine.InvIsRepairable` | cmd/backfill/forward.go:74-98 | every state of a strict run is repairable |
| `SyncMachine.TickConverges` | cmd/backfill/forward.go:41-110 | after any strict run from a first start - failed tables, stopped drains, lost saves, restarts from any saved state - one undisturbed tick makes D1 equal the image of the source |
| `SyncRuns.OnTrackStep` | cmd/backfill/forward.go:73-110 | while writes fall between ticks and copies succeed, a tick has copied the current version of every row of the tables it has read |
| `SyncRuns.DrainedAgrees` | cmd/backfill/forward.go:73-110 | at the end of such a tick no row is missed and D1 agrees with the source |
| `SyncRuns.TidyIsStrict` | cmd/backfill/forward.go:73-110 | runs of such ticks are strict, and each commit finds D1 in agreement |
| `SyncRuns.EveryTickAgrees` | cmd/backfill/forward.go:41-110 | from a first start, if writes fall between ticks and every copy and drain succeeds, D1 agrees after every tick, restarts included |
| `SyncMachine.MissedIsLost` | cmd/backfill/forward.go:77-98 | a commit loses exactly the rows its watermark passes and whose image the tick did not bring to D1 |
| `SyncMachine.LostStep` | cmd/backfill/forward.go:73-110 | no step that leaves a lost row alone and does not rewind the watermark brings it back |
| `SyncMachine.LostForever` | cmd/backfill/forward.go:73-110 | a lost row stays lost through any number of ticks |
| `SyncMachine.LateWriteIsLost` | cmd/backfill/forward.go:77-98 | a run in which a write to a table already read is lost although every table sync succeeds |
| `SyncMachine.FailedTableIsLost` | cmd/backfill/forward.go:81-85 | a run in which a failed table loses its rows because the watermark is shared |
| `SyncMachine.ReusedKeyIsLost` | cmd/backfill/forward.go:74-92 | a run in which a key inserted again before its deletion is drained disappears from D1 |
| `SyncMachine.LateDeleteIsLost` | cmd/backfill/forward.go:127-136 | a run in which an outbox row visible only below the cursor is pruned without having been executed |
| `SyncDaemon.ReadRows` | cmd/backfill/main.go:206-214 | the query result, listed in some order: the assembly of every row and of nothing else |
| `SyncDaemon.ApplyIsImages` | cmd/backfill/main.go:236-249 | copying a listing of rows merges the images of their keys into D1 |
| `SyncDaemon.MaxWmIsMax` | cmd/backfill/main.go:241-248 | the watermark of a listing is the maximum the machine expects |
| `SyncDaemon.Least` | cmd/backfill/forward.go:141-143 | the smallest sequence number of a set, as ORDER BY seq yields it |
| `SyncDaemon.DrainDeletes` | cmd/backfill/forward.go:140-177 | deletions after the cursor are executed in sequence order up to the first failure or refused row; the result names the last one executed and D1 lost exactly those keys |
| `SyncDaemon.DeletableExactly` | cmd/backfill/forward.go:182-196 | deletions are refused exactly outside the nine global tables and for a composite key without a slash |
| `SyncDaemon.RefusedBlocksForever` | cmd/backfill/forward.go:182-185 | a refused row stays in the outbox through any ticks, failures and restarts, and no deletion behind it is executed |
| `SyncDaemon.CopyRows` | cmd/backfill/main.go:205-263 | one table: its rows are read, assembled and copied; on failure a subset of them is |
| `SyncDaemon.Daemon.CopyTable` | cmd/backfill/forward.go:81-86 | query and copy of one table are two steps of the machine, with a failure of its own |
| `SyncDaemon.Daemon.SyncOne` | cmd/backfill/forward.go:77-89 | one iteration over the tables extends the run by those steps, or by nothing when the query fails |
| `SyncDaemon.Daemon.SyncTables` | cmd/backfill/forward.go:76-90 | the loop over the tables, each failing in its own way: every newer row of the tables that do not fail is copied, and without failure every newer row |
| `SyncDaemon.Daemon.DrainOutbox` | cmd/backfill/forward.go:92-96 | the drain is one step of the machine, which stops at a refused row; without failure it executes every outbox row after the cursor |
| `SyncDaemon.Daemon.Drain` | cmd/backfill/forward.go:92-96 | that step extends the run of the tick |
| `SyncDaemon.Daemon.CopyAndDrain` | cmd/backfill/forward.go:74-96 | the first half of a tick is a run of the machine; undisturbed, D1 becomes TickD1 and no row is missed |
| `SyncDaemon.Daemon.CommitCursor` | cmd/backfill/forward.go:98-102 | the cursor moves exactly if the watermark or the delete sequence advances, and then the state file holds the new cursor unless saving fails |
| `SyncDaemon.Daemon.CommitRun` | cmd/backfill/forward.go:98-102 | the commit extends the run, and the file holds the cursor whenever it moved and was saved |
| `SyncDaemon.Daemon.constructor` | cmd/backfill/forward.go:66-70 | a first start without a state file begins at --since, or at zero |
| `SyncDaemon.Daemon.Start` | cmd/backfill/forward.go:40-70 | a later start takes the cursor of the state file, and is a Restart of the machine from a cursor that was saved |
| `SyncDaemon.Daemon.PruneOutbox` | cmd/backfill/forward.go:127-136 | outbox rows at or below the cursor are deleted, none when the cursor is zero |
| `SyncDaemon.Daemon.Conclude` | cmd/backfill/forward.go:98-110 | the second half of a tick extends its run by the commit and the prune; a cursor that moved is in the state file unless saving failed |
| `SyncDaemon.Daemon.Tick` | cmd/backfill/forward.go:73-110 | whatever fails, table by table, a tick is a run of the machine whose drains stop at refused rows; the state file holds the cursor if it moved and was saved, and is unchanged otherwise; undisturbed it ends in TickD1 and keeps the invariant and agreement |
| `SyncDaemon.TickKeeps` | cmd/backfill/forward.go:73-110 | an undisturbed tick keeps the invariant |
| `SyncDaemon.TickAgrees` | cmd/backfill/forward.go:73-110 | a state satisfying the invariant ends in agreement after an undisturbed tick |
| `ReapMachine.InvStep` | internal/agent/reap_registry.go:16-58 | every step of kernel, reaper and callers keeps the protocol invariant of every call |
| `ReapMachine.InvRun` | internal/agent/reap_registry.go:16-58 | the same over every interleaving |
| `ReapMachine.RaceIsSafe` | internal/agent/reap_registry.go:16-58 | in every interleaving a reported exit code n means that the child exited with n, or -1 that a signal ended it; a session reports one unless its wait failed without a status, a returned call leaves nothing registered, no channel gets a second send, and the reaper's send finds room |
| `ReapMachine.EchildHasStatus` | internal/agent/exec.go:161-166 | a call that saw ECHILD finds its status in its channel or in the reaper's hands, except exactly when the reaper looked before the call had registered |
| `ReapMachine.ReaperDelivers` | cmd/agent/reaper_linux.go:62-84 | two steps of the reaper's own suffice before a blocked call that was not missed can receive |
| `ReapMachine.NoneMissed` | internal/agent/reap_registry.go:17-18 | if every call registers before its child's status is delivered, none is missed |
| `ReapMachine.NotMissedReturns` | internal/agent/exec.go:161-166 | a blocked call that was not missed returns with the steps of the reaper alone |
| `ReapMachine.StuckForever` | internal/agent/exec.go:161-166 | a missed call that blocks on its channel stays blocked in every continuation |
| `ReapMachine.StuckExactly` | internal/agent/exec.go:161-166 | a call that blocks on its channel after ECHILD is stuck in every continuation if and only if it was missed: no deadline applies there |
| `ReapMachine.MissedNeverReports` | internal/agent/exec.go:135-166 | a missed call never reports a code; it can end only by the deadline of a one-shot exec while its select is open, so never in a session |
| `ReapMachine.RecycledPidLosesStatus` | internal/agent/reap_registry.go:33-42 | if the kernel reuses the pid of a call that has not yet unregistered, some order of steps loses the new call its status |
| `ReapRegistry.Agent.RegisterReap` | internal/agent/reap_registry.go:33-37 | registers an empty channel for the pid, replacing any entry |
| `ReapRegistry.Agent.TryDeliverReap` | internal/agent/reap_registry.go:49-58 | takes the entry out, sends the status and closes; answers whether there was one, and counts the child as an orphan if not |
| `ReapRegistry.Agent.SendAndClose` | internal/agent/reap_registry.go:55-56 | the send finds the slot empty and the channel open |
| `ReapRegistry.Agent.ReapOne` | cmd/agent/reaper_linux.go:64-82 | one wait4 and hand-over is a run of the machine and removes one zombie |
| `ReapRegistry.Agent.DrainZombies` | cmd/agent/reaper_linux.go:62-84 | collects every zombie; then every registered call whose child was collected, and that was not missed, has its status waiting |
| `ReapRegistry.Agent.Return` | internal/agent/exec.go:135-182 | the end of a call reports the code its child exited with, -1 for a signal, whoever won the race; only a one-shot exec times out or fails on a wait error, and a session is left without a status exactly if its failed wait had none |
| `ReapRegistry.Agent.ReceiveStatus` | internal/agent/exec_session.go:189-191 | the code reported from the channel is the one the child exited with, or -1 for a signal |
| `ReapRegistry.ReturnReports` | internal/agent/exec.go:155-182 | the step behind it, as a run of the machine |
| `EventStream.EmitAllTexts` | cli/src/local.ts:310-336 | for one message, the deltas of a part are released all together or not at all, in order |
| `EventStream.KeptTexts` | cli/src/local.ts:309-317 | the deltas kept back are those of blocked messages, in order |
| `EventStream.ConsumeEntryTexts` | cli/src/local.ts:305-339 | one entry moves text from held back to emitted and changes nothing else |
| `EventStream.HandleTexts` | cli/src/local.ts:399-443 | every event: emitted and held back together grow by what is received |
| `EventStream.NothingLostOrReordered` | cli/src/local.ts:301-458 | for every event sequence, part and message: texts emitted followed by texts held back are the texts received, in order, each once |
| `EventStream.ConsumeSettles` | cli/src/local.ts:301-340 | exactly when a call leaves nothing held back that could be shown |
| `EventStream.OthersSettle` | cli/src/local.ts:400-418 | deltas and message updates never leave such text behind |
| `EventStream.PartUpdateSettlesExactly` | cli/src/local.ts:419-439 | a part update leaves none behind if and only if the part holds no text of another message known to be the assistant's |
| `EventStream.SettledRun` | cli/src/local.ts:399-458 | if each part belongs to one message, no run leaves such text behind |
| `EventStream.AssistantsExactly` | cli/src/local.ts:410-414 | the messages taken for the assistant's are exactly those that an event of this session with that role named |
| `EventStream.TypesExactly` | cli/src/local.ts:419-439 | the type of a part is exactly the last that an event of this session gave it |
| `EventStream.HasTypeExactly` | cli/src/local.ts:419-439 | a part has a type exactly if some event of this session gave it one |
| `EventStream.StreamIsComplete` | cli/src/local.ts:399-458 | then all text of a part has been emitted as soon as one event gave the part a type and one called its message the assistant's, however the events arrive |
| `EventStream.RunIsWellShown` | cli/src/local.ts:318-336 | in every run a message is shown only if an event of this session called it the assistant's, a part only if one gave it a type; there is one separator less than text parts, each right before the first text of its part |
| `EventStream.RunIsTyped` | cli/src/local.ts:332-335 | in every run text goes out as text and reasoning as reasoning |
| `TurnStream.Turn.Emit` | cli/src/local.ts:323-335 | one delta with its separator |
| `TurnStream.Turn.Release` | cli/src/local.ts:309-336 | the inner loop is EmitAll, and what remains is Kept |
| `TurnStream.Turn.ConsumePendingDeltas` | cli/src/local.ts:301-340 | the outer loop is Consume |
| `TurnStream.Turn.OnEvent` | cli/src/local.ts:399-443 | the loop body is Handle |
| `TurnStream.Turn.Stream` | cli/src/local.ts:399-458 | the whole loop is HandleAll; only text of messages the events call the assistant's is shown, and shown plus held back is what was received |
| `ToolStream.ReportsAreChanges` | cli/src/local.ts:341-373 | for every event sequence and call, what is reported is the changes of its visible statuses, pending left out, whatever other calls and messages there are |
| `ToolStream.CaughtUp` | cli/src/local.ts:410-443 | once its message is known to be the assistant's, the recorded state of a call is its latest status |
| `ToolStream.Tools.Emit` | cli/src/local.ts:341-373 | the in-place update is EmitTool |
| `ToolStream.Tools.OnMessage` | cli/src/local.ts:410-418 | the loop over the tools of a message is EmitAll |
| `ToolStream.Tools.OnTool` | cli/src/local.ts:440-443 | a tool part is stored and reported |
| `JsonText.ParseEscaped` | cli/src/local.ts:626-626 | reading one written character, in the escapes of section 7 of RFC 8259, gives it back |
| `JsonText.LiteralRoundTrip` | cli/src/project.ts:1070-1073 | a written string reads back, wherever it stands, and reading stops right after it |
| `JsonText.QuotePrintable` | cli/src/local.ts:626-626 | a written string holds no control character, so no newline |
| `JsonText.QuotePlain` | cli/src/project.ts:1070-1073 | a text of printable characters without quotes and backslashes is written as it is |
| `JsonText.HexExactly` | cli/src/local.ts:626-626 | hexadecimal digits are read in either case, and nothing else is |
| `JsonNumber.NumberRoundTrip` | cli/src/local.ts:814-814 | a number of the grammar of section 6 of RFC 8259 is read back, and no further, unless what follows goes on with one |
| `JsonNumber.GrammarIsNumber` | cli/src/local.ts:814-814 | every text of the grammar of section 6 of RFC 8259 - sign, integer without leading zero, fraction, exponent - is read as one number |
| `JsonNumber.NumberHasParts` | cli/src/local.ts:814-814 | and every number consists of those parts |
| `JsonNumber.NumberThen` | cli/src/local.ts:814-814 | the longest number at the start of a text is the same whatever follows that does not go on with one |
| `JsonNumber.NumberCut` | cli/src/local.ts:814-814 | the longest match is itself a number |
| `JsonNumber.NumberChars` | cli/src/local.ts:626-626 | a number consists of digits, signs, point and exponent mark |
| `JsonValue.ValueRoundTrip` | cli/src/local.ts:626-626 | every JSON value reads back, whatever follows it; after a number, whatever does not go on with one |
| `JsonValue.RoundTrip` | cli/src/local.ts:814-814 | parsing a written value gives the value |
| `JsonValue.PrintIsPrintable` | cli/src/local.ts:626-626 | a written value is a single line |
| `Ndjson.SplitIsExact` | cli/src/local.ts:810-811 | splitting cuts a text at its newlines and nowhere else |
| `Ndjson.SplitContinues` | cli/src/local.ts:809-811 | splitting the leftover with the next chunk continues the split of the whole |
| `Ndjson.Reader.Consume` | cli/src/local.ts:812-815 | the lines of a chunk: blank ones skipped, the others parsed, stopping at the first that is not JSON |
| `Ndjson.Reader.ReadAll` | cli/src/local.ts:805-815 | for every split into chunks the events seen are those of the complete lines, and the leftover is the text after the last newline |
| `Ndjson.StreamSplits` | cli/src/local.ts:625-627 | for any parser that reads written values, the stream of any events splits into lines that read back as them |
| `Ndjson.StreamReadsBack` | cli/src/local.ts:625-627 | the text written for any events splits into one line per event that reads back as it |
| `Ndjson.PartialStream` | cli/src/local.ts:805-815 | any prefix of the stream yields a prefix of the events |
| `Ndjson.Deliver` | cli/src/local.ts:625-815 | service to client: the events received are the events emitted, in order, for every chunking |
| `AgentId.IdIsJoinedWords` | cli/src/project.ts:141-150 | the id of a name is its words of letters and digits, joined by hyphens, or an error when it has none |
| `AgentId.IdsAreFixed` | cli/src/project.ts:141-150 | every id is the id of itself |
| `AgentId.LowerAscii` | cli/src/project.ts:141-150 | ASCII text is lowered character by character |
| `AgentId.CaseIsIgnored` | cli/src/project.ts:141-150 | a capital letter anywhere in a name can be replaced by its small one |
| `AgentId.IdOfName` | cli/src/project.ts:141-150 | the result always matches the id pattern, is a fixed point, and is missing exactly for names without a letter or digit of ASCII (or one of the two other characters whose lower case has one) |
| `Manifest.EscapeIsRaw` | cli/src/project.ts:1081-1083 | the literal pattern matches a written string exactly to its closing quote |
| `Manifest.LineMatches` | cli/src/project.ts:1080-1091 | a written line is matched where it stands and reads as its value |
| `Manifest.SchemaAndId` | cli/src/project.ts:1095-1098 | schema and id of a written manifest are read back |
| `Manifest.NameIsRead` | cli/src/project.ts:1099-1099 | so is the name, whatever it contains |
| `Manifest.MatchInName` | cli/src/project.ts:1081-1083 | inside a written name the template pattern can match only at its very end |
| `Manifest.TemplateIsRead` | cli/src/project.ts:1100-1100 | the template is read back unless the name hides it |
| `Manifest.ReadsBack` | cli/src/project.ts:1056-1112 | what reading a written manifest gives, for every manifest that can be written |
| `Manifest.RoundTrip` | cli/src/project.ts:1056-1112 | the round trip holds if and only if not both: the name ends in a line separator, `template` and `=`, and the template starts with a line separator (give or take white space) |
| `Manifest.RereadIsStable` | cli/src/project.ts:1093-1112 | whatever was read can be written, and reads back the same but for that case |
| `Manifest.TemplateCanBeLost` | cli/src/project.ts:1056-1112 | a manifest whose template is lost |
| `CreditLedger.StepKeeps` | cloudflare-workers/shared/credit_account.ts:82-217 | every request keeps the books: balance, plan, status, ids and signals |
| `CreditLedger.RunKeeps` | cloudflare-workers/shared/credit_account.ts:82-217 | the same over every run from a fresh account |
| `CreditLedger.Conservation` | cloudflare-workers/shared/credit_account.ts:109-118 | in every run balance + spent + forfeited = seed (0 or 500) + credited; pro is -1 and active, free is never negative, halted is free at zero |
| `CreditLedger.CheckIsGate` | cloudflare-workers/shared/credit_account.ts:82-86 | a start is allowed unless the account is free with nothing left, so never while halted |
| `CreditLedger.RecordIsLast` | cloudflare-workers/shared/credit_account.ts:255-260 | the ids kept are the last 1024 recorded |
| `CreditLedger.LastIdsExactly` | cloudflare-workers/shared/credit_account.ts:255-260 | the ids kept are the last 1024 of those recorded, or all |
| `CreditLedger.DedupExactly` | cloudflare-workers/shared/credit_account.ts:95-113 | on the free plan a debit is a duplicate exactly if its id is among the last 1024 recorded |
| `CreditLedger.EachChargedOnce` | cloudflare-workers/shared/credit_account.ts:88-144 | at most 1024 events delivered in any order, any number of times each, while D1 reads and writes succeed or fail, cost their prices once each, floored at zero |
| `CreditLedger.Opening` | cloudflare-workers/shared/credit_account.ts:222-253 | a new account follows the plan in its row: 500 cents if free, untracked if pro, active |
| `CreditLedger.DebitExact` | cloudflare-workers/shared/credit_account.ts:109-144 | a new debit takes what is there; it halts an active account if and only if it uses up the balance, and then exactly one halt is sent, the row says so if written, and the response too |
| `CreditLedger.DebitFree` | cloudflare-workers/shared/credit_account.ts:95-107 | a duplicate, or a debit on the paid plan, takes nothing and signals nothing |
| `CreditLedger.CreditExact` | cloudflare-workers/shared/credit_account.ts:146-174 | a credit adds its amount; it resumes exactly a halted account, with one resume, the row if written, and the response |
| `CreditLedger.MarkExact` | cloudflare-workers/shared/credit_account.ts:176-217 | what a change of plan leaves: account, row, signal and response |
| `CreditLedger.ResponseIsTrue` | cloudflare-workers/shared/credit_account.ts:82-217 | the response says a signal was sent exactly if one was, and its balance and plan are those of the account |
| `CreditLedger.SpentStep` | cloudflare-workers/shared/credit_account.ts:201-206 | only the end of a subscription leaves a free account with nothing and not halted |
| `CreditLedger.SpentMeansHalted` | cloudflare-workers/shared/credit_account.ts:115-124 | in every run without one a free account is halted exactly while it has nothing left |
| `CreditLedger.SignalsMatchStatus` | cloudflare-workers/shared/credit_account.ts:115-136 | halt and resume alternate and a halt is in force exactly while halted, if and only if no mark-pro failed to write the row of a halted account; the counts differ by the status plus the number of those |
| `CreditLedger.ResumeIsLost` | cloudflare-workers/shared/credit_account.ts:176-199 | such a mark-pro sends no resume, nor does repeating it, and the next signal is another halt |
| `CreditLedger.NextDebitHalts` | cloudflare-workers/shared/credit_account.ts:201-206 | after a cancelled subscription at zero, the next debit halts the account if and only if its id is not taken for a duplicate |
| `CreditLedger.MirrorKept` | cloudflare-workers/shared/credit_account.ts:262-276 | if its writes succeed, a request leaves plan and halt flag in D1 in agreement with the account |
| `CreditLedger.MirrorRun` | cloudflare-workers/shared/credit_account.ts:262-276 | the same over every run |
| `CreditLedger.MissedHaltStays` | cloudflare-workers/shared/credit_account.ts:269-274 | a halt that D1 missed is not written again by any debit |
| `CreditAccount.State.RecordEvent` | cloudflare-workers/shared/credit_account.ts:255-260 | the in-place id list is Record |
| `CreditAccount.Object.LoadOrInit` | cloudflare-workers/shared/credit_account.ts:229-249 | loads the account, or seeds and stores it; null when the row cannot be read |
| `CreditAccount.Object.MarkHalted` | cloudflare-workers/shared/credit_account.ts:262-276 | writes the halt flag unless the write fails |
| `CreditAccount.Object.Check` | cloudflare-workers/shared/credit_account.ts:82-86 | the handler is the Check step |
| `CreditAccount.Object.Debit` | cloudflare-workers/shared/credit_account.ts:88-144 | the handler is the Debit step |
| `CreditAccount.Object.DebitFree` | cloudflare-workers/shared/credit_account.ts:109-143 | its last part: a new event on the free plan |
| `CreditAccount.Object.Credit` | cloudflare-workers/shared/credit_account.ts:146-174 | the handler is the Credit step |
| `CreditAccount.Object.MarkPro` | cloudflare-workers/shared/credit_account.ts:176-199 | the handler is the MarkPro step: stored before the row is written, signalled after |
| `CreditAccount.Object.MarkFree` | cloudflare-workers/shared/credit_account.ts:201-217 | the handler is the MarkFree step |
| `OrgHalt.HaltUninterrupted` | internal/api/admin_org.go:189-204 | a halt of one session that nothing interrupts adds up to HaltSession |
| `OrgHalt.WakeUninterrupted` | internal/api/admin_org.go:215-271 | a resume of one session that nothing interrupts adds up to WakeSession |
| `OrgHalt.SoundIsAttributed` | internal/api/admin_org.go:72-74 | in a sound state a session with no stamp or clear due to it carries the stamp while hibernated exactly if the halt worker hibernated it |
| `OrgHalt.AttributionExact` | internal/api/admin_org.go:72-74 | a call of either worker or of a user keeps the state sound if and only if it is orderly: no status write falls between the status write of the other worker and its stamp or clear, a status write succeeds exactly if its own stamp or clear does, and no user wakes a session that is stamped or about to be |
| `OrgHalt.DisorderIsWrong` | internal/api/admin_org.go:72-74 | after any call that is not orderly, at most two due writes landing in some order leave a session with nothing due and the wrong stamp |
| `OrgHalt.AttributionRun` | internal/api/admin_org.go:72-74 | so in every orderly interleaving of the single calls of both workers the stamp tells who hibernated a session |
| `OrgHalt.LateClearLosesStamp` | internal/api/admin_org.go:168-178 | every call succeeds and no user acts, and still a clear that lands after a new halt leaves the session hibernated without a stamp |
| `OrgHalt.StaleStampWakesManual` | internal/api/admin_org.go:129-134 | a stamp left on a running session makes resume wake a hibernation of the user |
| `OrgHalt.FailedClearLeavesStamp` | internal/api/admin_org.go:170-178 | a failed clearing after a wake leaves exactly such a stamp |
| `OrgHalt.NoMoveBeforeUpload` | internal/api/admin_org.go:228-250 | in every interleaving a sandbox wakes on its own worker if that is usable, and otherwise on the least loaded one, only from a hibernation whose upload is recorded |
| `OrgHalt.RecordedWhereMoved` | internal/api/admin_org.go:250-262 | in every interleaving the session is recorded on the worker it was last moved to |
| `OrgHalt.WakeExact` | internal/api/admin_org.go:215-258 | the call wakes a sandbox if and only if it is hibernated, its own worker is usable or its upload is recorded and a worker is found, and the call succeeds; otherwise nothing changes |
| `OrgHalt.WakeSessionExact` | internal/api/admin_org.go:215-262 | the same for a session nothing interrupts, and the worker it runs on afterwards |
| `OrgHalt.HaltThenWake` | internal/api/admin_org.go:76-271 | halt and resume with every call succeeding bring a running session back to its worker, without stamp or hibernation |
| `OrgHalt.UploadMovesAway` | internal/api/admin_org.go:240-246 | without a recorded upload and a usable source nothing happens; once the upload is recorded the least loaded worker takes over |
| `OrgHalt.OldHibernationStays` | internal/api/admin_org.go:196-198 | if the old hibernation is not marked restored and the next is not recorded, the old one stays active |
| `OrgHalt.PassShrinks` | internal/api/admin_org.go:113-124 | a pass never adds running sessions; a successful one removes exactly those listed |
| `OrgHalt.PassCount` | internal/api/admin_org.go:94-97 | a successful pass leaves max(0, n - 1000) running |
| `OrgHalt.PassesConverge` | internal/api/admin_org.go:68-71 | after any passes of which k succeed at most max(0, n - 1000k) run; none once that is zero |
| `OrgHalt.PassesAt` | internal/api/admin_org.go:113-124 | what any passes leave of one session: hibernated exactly if it ran and some pass that listed it had its hibernation and its status write succeed; a session that did not run is untouched |
| `OrgHalt.RunningExactly` | internal/api/admin_org.go:68-71 | the sessions still running after any passes are exactly those that ran and that no pass listed with both calls succeeding |
| `OrgHalt.ResumeWakesStamped` | internal/api/admin_org.go:154-178 | a successful resume wakes exactly the stamped hibernations, clears their stamps and leaves the others untouched |
| `OrgHalt.HaltThenResume` | internal/api/admin_org.go:76-180 | halt to zero, then resume restores the running set if and only if no earlier hibernation carried the stamp and every halted session got one |
| `OrgHalt.StampsLandAt` | internal/api/admin_org.go:119-121 | if every hibernation is followed by its stamp, the second condition holds |
| `OrgServer.Slots.constructor` | internal/api/admin_org.go:25-34 | no worker and no slot in use |
| `OrgServer.Slots.AcquireHalt` | internal/api/admin_org.go:36-44 | takes the slot unless it is taken |
| `OrgServer.Slots.HaltOrg` | internal/api/admin_org.go:94-111 | starts a worker exactly if there is something to halt and none is at work; at most one halt worker per organisation |
| `OrgServer.Slots.HaltWorkerDone` | internal/api/admin_org.go:111-114 | the end of a worker frees its slot |
| `OrgServer.Slots.AcquireResume` | internal/api/admin_org.go:52-60 | takes the slot unless it is taken |
| `OrgServer.Slots.ResumeOrg` | internal/api/admin_org.go:150-166 | the same for resume, unless it is to be skipped |
| `OrgServer.Slots.ResumeWorkerDone` | internal/api/admin_org.go:166-169 | the end of a worker frees its slot |
| `OrgServer.Sessions.HibernateForHalt` | internal/api/admin_org.go:189-210 | hibernates over status running only, ignoring failed writes; answers whether the RPC succeeded |
| `OrgServer.Sessions.HaltWorker` | internal/api/admin_org.go:115-124 | the loop is HaltAll |
| `OrgServer.Sessions.WakeForResume` | internal/api/admin_org.go:215-271 | own worker if usable, else the least loaded once uploaded; failures of the two writes are ignored; false changes nothing |
| `OrgServer.Sessions.ResumeWorker` | internal/api/admin_org.go:170-181 | the loop is WakeAll |
| `EdgeClaim.InvStep` | internal/api/edge_claim.go:23-31 | every step keeps: a living box is in one place at the edge at most, and handed or bound to one org at most |
| `EdgeClaim.InvRun` | internal/api/edge_claim.go:23-31 | the same over every interleaving |
| `EdgeClaim.OneTenant` | internal/api/edge_claim.go:23-31 | in every interleaving of reserve, hand-out, release, finalize (late or repeated), reap, drain and destroy, a handed box is reserved, bound to that org or dead: never pooled, never bound to another |
| `EdgeClaim.HandedStays` | cloudflare-workers/api-edge/src/pool_stock.ts:6-8 | a hand-out is never forgotten, so this holds at all later times |
| `EdgeClaim.ClaimPath` | internal/api/edge_claim.go:41-138 | a pooled box can be reserved, received, handed to an org and bound to it |
| `EdgeClaim.ReturnPath` | internal/api/edge_claim.go:71-96 | a box reserved and discarded again is back in the pool, with nothing changed |
| `EdgeClaim.BadRestore` | cloudflare-workers/api-edge/src/pool_stock.ts:236-244 | whenever a crash restores an entry that is handed out, in a message, or no longer reserved, some continuation breaks the safety: the restore condition is exact |
| `EdgeClaim.CurrentStockIsRestorable` | cloudflare-workers/api-edge/src/pool_stock.ts:116-119 | restoring entries the edge still holds is always safe |
| `EdgePool.Partition` | cloudflare-workers/api-edge/src/pool_stock.ts:153-159 | expired and kept entries split the stock |
| `EdgePool.ClaimIsRun` | cloudflare-workers/api-edge/src/pool_stock.ts:153-165 | expiry and hand-out are steps of the machine |
| `EdgePool.PoolStock.constructor` | cloudflare-workers/api-edge/src/pool_stock.ts:112-120 | an empty stock |
| `EdgePool.PoolStock.Expire` | cloudflare-workers/api-edge/src/pool_stock.ts:153-159 | one loop splits the stock by age, keeping the order |
| `EdgePool.FilterPlaces` | cloudflare-workers/api-edge/src/pool_stock.ts:153-159 | the entries kept are exactly those less than ten minutes old, in their order |
| `EdgePool.FilterFirst` | cloudflare-workers/api-edge/src/pool_stock.ts:153-165 | the first of them is the first young entry of the stock |
| `EdgePool.PoolStock.Claim` | cloudflare-workers/api-edge/src/pool_stock.ts:133-181 | hands out the first entry less than ten minutes old, nothing if there is none, and discards the expired ones |
| `EdgePool.PoolStock.Trim` | cloudflare-workers/api-edge/src/pool_stock.ts:223-226 | the first 38 entries are kept, or all if there are fewer, and the rest is discarded |
| `EdgePool.PoolStock.Restock` | cloudflare-workers/api-edge/src/pool_stock.ts:286-303 | the boxes of a response that were not in stock when it came are appended in order and counted; the stock has each box once if and only if the response names no new box twice |
| `EdgePool.RestockExact` | cloudflare-workers/api-edge/src/pool_stock.ts:286-301 | the same about the entries, for every stock and every response |
| `EdgePool.Cell.EdgeReserve` | internal/api/edge_claim.go:41-69 | reserves the oldest pooled boxes, as many as asked for and at most 50, each once; if it returns fewer, no pooled box is left |
| `EdgePool.Cell.EdgeRelease` | internal/db/pool.go:210-223 | re-pools those still reserved and counts them |
| `EdgePool.Cell.WipePooled` | internal/db/pool.go:134-139 | stops a parked box only |
| `EdgePool.Cell.ClaimFinalize` | internal/api/edge_claim.go:130-138 | binds a reserved box to the org; otherwise nobody can claim it any more; no other row changes |
| `EdgePool.Cell.ReapStale` | internal/api/edge_claim.go:207-224 | destroys the listed boxes whose worker obeys and stops the rows still parked, no other row; a destroyed box is lost to an org exactly if its row was bound by then |
| `EdgeReap.ReapExact` | internal/api/edge_claim.go:207-224 | a step keeps every bound box from being destroyed or being about to be, if and only if it binds no box that is listed or destroyed |
| `EdgeReap.NoneLost` | internal/api/edge_claim.go:204-206 | in every run of claims and any number of reapers in which no box is bound after its listing, no bound box is destroyed |
| `EdgeReap.LateBindingLoses` | internal/api/edge_claim.go:213-219 | after any other binding the org loses its box, at once or when the reaper gets to it |
| `EdgeReap.ClaimedWhileReaped` | internal/api/edge_claim.go:213-219 | the run: listed, finalized, destroyed, wiped; every call succeeds and the row stays bound to a box that is gone |
| `EdgeReap.LossStays` | internal/db/pool.go:131-139 | the guard of the wipe and everything else leaves such a row bound until it is stopped |
| `ExecSession.SessionInvariant` | internal/agent/exec_session.go:251-276 | in every run the count is the number of live handlers, an armed or fired timer means nobody attached, cancelling follows firing, and EXIT follows the exit code |
| `ExecSession.AttachGetsIn` | internal/agent/exec_session.go:251-262 | until the timer has fired every attach succeeds and stops it |
| `ExecSession.NoAttachAfterFiring` | internal/agent/exec_session.go:252-258 | once the timer fired no attach ever succeeds |
| `ExecSession.ExitIsStable` | internal/agent/exec_session.go:198-205 | the exit code never changes once set |
| `ExecSession.TimerRunsWhenIdle` | internal/agent/exec_session.go:264-276 | from the first attach on, the timer is unset exactly while somebody is attached, if a limit is set |
| `ExecSession.Exec.constructor` | internal/agent/exec_session.go:104-121 | a new session |
| `ExecSession.Exec.Enter` | internal/agent/exec_session.go:251-262 | the head of an attach call is the Attach step |
| `ExecSession.Exec.Leave` | internal/agent/exec_session.go:264-276 | its deferred end is the Detach step |
| `ExecSession.Exec.Finish` | internal/agent/exec_session.go:198-205 | the exit code is set before the channel is closed |
| `ExecSession.Exec.ReadExit` | internal/agent/exec_session.go:358-366 | a handler that saw the exit finds a code to send |
| `Scrollback.LongestTailIsLongest` | internal/sandbox/scrollback.go:57-62 | a tail of the output fits the limit exactly if it starts no earlier than what is kept |
| `Scrollback.Buffer.constructor` | internal/sandbox/scrollback.go:27-35 | an empty buffer, of 1 MB if no size is given |
| `Scrollback.Buffer.Keep` | internal/sandbox/scrollback.go:46-62 | the buffer always holds the longest tail of all output that fits, numbered without gaps |
| `Scrollback.Buffer.Add` | internal/sandbox/scrollback.go:46-69 | the part of a write under the lock is the Append step of every client, and notes the channels to send to |
| `Scrollback.Buffer.Offer` | internal/sandbox/scrollback.go:72-77 | a send into a full channel of 256 drops the chunk; other channels are untouched |
| `Scrollback.Buffer.OfferTo` | internal/sandbox/scrollback.go:72-77 | the send to a client is its Send step |
| `Scrollback.Buffer.FanOut` | internal/sandbox/scrollback.go:71-78 | the loop over the channels, in any order, offers the chunk to each once |
| `Scrollback.Buffer.Write` | internal/sandbox/scrollback.go:38-78 | a write nothing interrupts: every channel with room gets the chunk, and empty data changes nothing |
| `Scrollback.Buffer.Evict` | internal/sandbox/scrollback.go:57-62 | eviction stops at that tail |
| `Scrollback.Buffer.Snapshot` | internal/sandbox/scrollback.go:81-88 | the snapshot is that tail, and the Snapshot step of the client |
| `Scrollback.Buffer.Subscribe` | internal/sandbox/scrollback.go:99-105 | a new empty channel, and the Subscribe step |
| `Scrollback.Buffer.Unsubscribe` | internal/sandbox/scrollback.go:108-112 | the channel is gone and the others are kept |
| `Scrollback.Buffer.Receive` | internal/agent/exec_session.go:325-339 | the client takes the oldest chunk of its channel: the Receive step |
| `OutputView.InvRun` | internal/sandbox/scrollback.go:38-105 | in every interleaving of appends, sends, snapshot, subscription and receives each chunk since the subscription has arrived, was dropped or is unsent, and arrivals are in order unless a send was overtaken |
| `OutputView.DropExact` | internal/sandbox/scrollback.go:71-78 | a chunk is lost only by a send that finds 256 in the queue; any other send queues it last |
| `OutputView.AttachExact` | internal/agent/exec_session.go:278-302 | over every run, once all is sent and received, the client has seen all output from its first chunk on, in order and once, if and only if nothing was appended between snapshot and subscription, its queue never overflowed and no send overtook an older one |
| `OutputView.OvertakenSend` | internal/sandbox/scrollback.go:64-78 | a run with no such append and no drop in which the client sees two chunks in the wrong order |
| `ExitView.InvRun` | internal/agent/exec_session.go:172-205 | over every run of output and session together: a reader that returned has nothing unsent, an exit code means both returned, and a client sent EXIT has an empty channel with nothing on its way |
| `ExitView.ToldExactly` | internal/agent/exec_session.go:341-366 | in every run a client that was sent EXIT has seen all output from its first chunk to the last, in order and once, if and only if there was no gap, no drop and no overtaking |
| `ExitView.OutputIsFinal` | internal/agent/exec_session.go:172-205 | once the exit code is set nothing more is appended, dropped or overtaken, and the code stays |
| `ExitView.LateAttachComplete` | internal/agent/exec_session.go:278-302 | a client that attaches after the exit and is sent EXIT has seen everything still buffered |
| `ExitView.ExitIsReached` | internal/agent/exec_session.go:341-366 | a subscribed handler of an exited session can always send EXIT, after taking what is queued |
| `Checkout.GithubPages` | cli/src/project.ts:761-777 | the first 1000 items; truncated exactly from 1000 on, so never unreported, and falsely reported exactly at 1000 |
| `Checkout.ChangedComeFirst` | cli/src/project.ts:876-904 | the requested files are distinct and include every changed one exactly if there are at most 100 of those |
| `Checkout.AboveExactly` | cli/src/project.ts:893-902 | the files looked for beside a path are the three guidance files of each directory that ends at one of its slashes |
| `Checkout.CandidatesExactly` | cli/src/project.ts:882-903 | the candidates are the changed files, the ten guidance files of the root and those beside a changed file |
| `Checkout.BuildCandidates` | cli/src/project.ts:876-904 | the loops that fill the set of candidates, in order of first insertion |
| `Checkout.Fetches.constructor` | cli/src/project.ts:904-909 | all requested files outstanding, nothing counted |
| `Checkout.Fetches.Fail` | cli/src/project.ts:944-946 | a failed fetch of a changed file is reported missing |
| `Checkout.Fetches.Arrive` | cli/src/project.ts:933-941 | content is counted first, and refused when over the limit or outside the checkout; what is accepted fits 20 MiB |
| `Checkout.Fetches.Written` | cli/src/project.ts:942-943 | a written file is materialized |
| `Checkout.Fetches.Report` | cli/src/project.ts:951-964 | the complete flag, and what it implies |
| `Checkout.Judge` | cli/src/project.ts:873-964 | complete implies that every file the pull request changed was materialized, whatever the order of completion |
| `Capacity.AlignUpIsLeast` | internal/api/capacity.go:416-426 | rounding up gives the least aligned time not before the argument |
| `Capacity.AlignedApart` | internal/api/capacity.go:416-418 | distinct aligned times are at least a slot apart |
| `Capacity.FaultIsExact` | internal/api/capacity.go:349-364 | one interval passes the checks exactly if it is a good slot, at least 30 minutes away, not seen before |
| `Capacity.Validate` | internal/api/capacity.go:318-374 | accepts exactly 1 to 672 good intervals with distinct starts, returns them in order and disjoint; a refusal names the first at fault and a reason that is true of it |
| `Usage.ClipAdds` | cmd/capacity-shadow-verify/main.go:229-235 | clipped seconds of adjacent windows add up, exactly unless the event ends before it starts around the seam |
| `Usage.SecondsAreCounted` | cmd/capacity-shadow-verify/main.go:229-235 | the seconds of an event are those, counted one by one, at which it ran inside the window |
| `Usage.WeightExactly` | cmd/capacity-shadow-verify/main.go:245-251 | memory counts in whole GB under its own size, disk in MB beyond 20480 |
| `Usage.WindowsAdd` | cmd/capacity-shadow-verify/main.go:227-253 | so do the totals, for every list of events, every memory size and the disk |
| `Usage.GroupingIsExact` | cmd/capacity-shadow-verify/main.go:229-235 | grouping by size gives the totals of going event by event |
| `Usage.LegacyTotals` | cmd/capacity-shadow-verify/main.go:240-251 | the loop over the groups computes those totals: whole GB of memory, disk above 20480 MB |

## Left out

- TableSync.SyncTable: watermarks are integers, because the source only compares its float64 seconds.
- SyncDaemon.DrainDeletes: deletes by row id for every table; the cascade of a user to
  org_memberships and the split of the composite subscription key are not modelled.
- SyncMachine.TickConverges: claims agreement for tables keyed by id only, because the key of
  org_memberships changes with the row.
- Re-encryption of secrets and the assemble functions of the single tables: an image function stands
  for them.
- ReapMachine.RaceIsSafe: covers the one-shot exec and the exec session, which register with the
  reaper; the streaming exec and PTY paths do not register and are not covered.
- EventStream.NothingLostOrReordered: says nothing about the final message.completed text, which mixes
  snapshots with deltas.
- ToolStream.ReportsAreChanges: reports carry the call and its status; titles, inputs and error texts
  are not modelled.
- Ndjson.Reader.ReadAll: works on characters; the UTF-8 decoder before it is not modelled.
- JsonValue.RoundTrip: keeps a number as its text, not as a double, and takes an object as the list of
  its members.
- JsonText.LiteralRoundTrip: strings of Unicode scalar values; lone surrogates are not modelled.
- AgentId.IdOfName: lower case is modelled as far as it can produce a-z; no other mapping can.
- CreditLedger.MirrorRun: claims the plan and halt flag of D1 only, because mark-pro and mark-free do
  not mirror the balance column.
- CreditLedger.EachChargedOnce: amounts are integers; fractional and non-numeric amounts are not
  modelled, nor is a failing write of the object's own storage.
- Delivery of the halt and resume signals to the cells, their signatures and retries.
- OrgHalt.PassesConverge: sessions started between passes are not part of it.
- EdgePool.Cell.ReapStale: which reservations count as stale is the listing's input; the clock behind it
  is not modelled.
- EdgePool.Cell.EdgeReserve: one region and template; locks taken by concurrent reserves are not
  modelled beyond each reserve being one step.
- EdgePool.PoolStock.Claim: restock pacing, alarms and shards are not modelled; all shards together
  are the machine's stock.
- ExitView.ToldExactly: starts at the scrollback buffer; bytes still in a pipe when `cmd.Wait` closes it
  never reach a reader and are not modelled.
- Checkout.Judge: base64 decoding and the file system are not modelled.
- Usage.LegacyTotals: exact arithmetic; floating-point rounding is not modelled.
- Capacity.Validate: parsing of JSON and RFC 3339 times is not modelled, nor the reservation store.
- Everything else: HTTP routing, authentication, billing providers, VM management, migrations, the
  dashboard and the SDKs.
