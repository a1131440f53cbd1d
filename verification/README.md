# A verified model of the benchmark machinery

The benchmarks of this repository rest on a handful of small but delicate mechanisms: workers on different machines
share one task through an object store, a dispatcher feeds bounded lanes and resumes after crashes, histories are kept
in append-only files, scanners must not move a single newline, and a few loops decide what is measured. This project
models those mechanisms and proves what they promise.

| module | models | written as |
|---|---|---|
| `LeaseQueue`, `LeaseExclusion`, `LeaseRecovery`, `LeaseProgress`, `LeaseBudget` | the bakery lease queue of the engine workers and the submitting host | a transition system; one store operation per step |
| `AxSlots` | the two-slot semaphore shared by lane calls and executor sessions | a transition system over all concurrent calls |
| `History`, `BatchState`, `Batch` | `schedule` and `dispatch` of the batch dispatcher | a class with mutable queues, over a specification of its states and histories |
| `Optional`, `Picks` | a value that may be missing; elements picked from a sequence | a datatype, predicates |
| `TextLines`, `Ledger`, `Calendar` | the hash-chained usage ledger | a reader, a file object, and lemmas on texts |
| `Journal` | the sourcing journal and the cached repository lookup | a class with the durable files and one process |
| `Freeze` | the write-once pool freeze | a loop, and a transition system for crashed and overlapping runs |
| `Bisect` | bisection of a draft against a black-box guard | a class with the staging files |
| `SourceLines`, `Lexer`, `Tokens`, `Mask`, `Braces`, `Heads` | offsets, masking and brace matching of the pair harvester | loops over arrays and sequences, against declarative tokens |
| `PhpTurns`, `PhpRegions`, `Php` | `php_code` and `php_functions` | loops over an array, against declarative regions |
| `Stream` | event assembly, rollback and the taint-only retry of the measured backend | a class |
| `Select` | the balanced greedy choice of pilot rows | a loop, over a recursive specification |
| `Metrics` | complete pairs, pair score and pooled AUC of the leak audit | functions over reals; one table-filling loop |
| `Export` | the capped export of sources and the eviction of cached trees | loops |

In the lease queue an action that is not possible leaves the state unchanged, so every sequence of actions is an
interleaving and every interleaving is a sequence of actions. LIST and each READ are separate actions, any operation may
raise with or without having taken effect, workers crash anywhere, a crashed worker's child may go on executing within
its budget, and every clock reading lies within a skew below half of MARGIN of the others. One state is the projection
of the system onto one task. A worker is named by the rank of its claim key.

## What is false in the code, and when it holds

- A worker that finds its own expired lease overwrites it with a choosing marker before the task is safe elsewhere
  (`engine_worker_service.py:110-112`); a failing LIST then deletes that marker (`:131-132`) and nothing in the store
  remembers the task. `LeaseRecovery.ReclaimCanLoseTask` gives the run, `ReclaimKeepsIff` the exact condition.
- A deletion of the pending object that raises although it took effect makes the winner delete its own marker
  (`:129-132`). `LeaseRecovery.UnclearDeleteCanLoseTask` gives the run, `UnclearDeleteKeepsIff` the exact condition.
  Nothing else loses a task: `LeaseRecovery.RunKeptIff`.
- An exception that the handlers for ordinary errors do not catch, raised in a lane's cleanup, releases a slot whose task
  may still run (`batch.py:189-207`): `AxSlots.InterruptedCleanupUncovers` gives the run, `AxSlots.RunSecureIff` says
  exactly in which runs no task loses its slot.
- A freeze artifact torn by a crash refuses every later run on the same input, exactly when what was written does not
  already parse to the payload's value: `Freeze.TornBlocksIff`, `Freeze.ConflictIsForever`.
- `php_code` searches for a heredoc's closing label from offset 0 when no newline follows the label
  (`independent/freeze.py:118`) and then may never end: `PhpTurns.UnclosedHeredocNeverEnds`.
  `PhpTurns.AdvancesUnlessBackward` is exact for a turn, `PhpTurns.EndsIff` for the whole loop.
- `function_bounds_at` bounds the line by `str.splitlines` but indexes the newline offsets, so it raises for some lines
  of a text with other line boundaries (`pairs/harvest.py:494-501`): `Braces.FunctionBoundsAt` says for which lines,
  `Braces.SomeLineRaisesIff` for which texts, and `Braces.RaisingLookup` gives one.
- The session observer splits with `str.splitlines`, which also breaks at characters other than the newline, and stops at
  the first piece that does not end with one (`engine_trace_worker.py:179-182`). Process output is not split there.
  `Stream.ObserverMissesIff`: it sees every complete line exactly when no such character stands inside one.
  `Stream.WaitsForEver`: otherwise no later output frees it. `Stream.MissedLine` gives a text.

## Model

| member | source | states |
|---|---|---|
| LeaseExclusion.MutualExclusion | benchmarks/learn/engine_worker_service.py:107-157 | after any actions of any number of workers at most one executes the task, and inside its own lease minus half the margin |
| LeaseExclusion.LeastTicket | benchmarks/learn/engine_worker_service.py:121-130 | a live contender that passed comes before every other live contender with a ticket in the (ticket, key) order |
| LeaseExclusion.StepInv | benchmarks/learn/engine_worker_service.py:85-157 | every store operation, fault, crash, stop and clock tick keeps the exclusion invariant, stale-read deletions included |
| LeaseExclusion.RunInv | benchmarks/learn/engine_worker_service.py:85-157 | the invariant holds after every run |
| LeaseExclusion.TimelyResultIsFinal | benchmarks/learn/engine_worker_service.py:126-157 | once a result is published within the publisher's lease nobody executes the task again, whatever follows |
| LeaseRecovery.NoTaskLost | benchmarks/learn/engine_worker_service.py:94-161 | after any harmless run an uncancelled task without a result keeps its source and is listed again from some time on |
| LeaseRecovery.RunKept | benchmarks/learn/engine_worker_service.py:107-161 | after any harmless run such a task has a pending object, a lease that will not be withdrawn, or a result |
| LeaseRecovery.StepKeptIff | benchmarks/learn/engine_worker_service.py:94-161 | any action keeps the task if and only if it is neither a claim over the own lease nor an unclear deletion of the only thing that carries the task |
| LeaseRecovery.RunKeptIff | benchmarks/learn/engine_worker_service.py:94-161 | the task is kept in every state of a run if and only if every action of the run is harmless in this sense |
| LeaseRecovery.UnclearReclaimKeeps | benchmarks/learn/engine_worker_service.py:110-112 | a claim over the own lease that raises with its effect always keeps the task |
| LeaseRecovery.ReclaimKeepsIff | benchmarks/learn/engine_worker_service.py:110-112 | writing a claim over the own stored lease keeps the task if and only if something else still carries it |
| LeaseRecovery.UnclearDeleteKeepsIff | benchmarks/learn/engine_worker_service.py:129-133 | a pending deletion that raises and takes effect keeps the task if and only if a result or another lease carries it |
| LeaseRecovery.ReclaimCanLoseTask | benchmarks/learn/engine_worker_service.py:94-135 | one worker and no unclear operation suffice to lose a submitted task for good |
| LeaseRecovery.UnclearDeleteCanLoseTask | benchmarks/learn/engine_worker_service.py:129-133 | one worker and one deletion of unclear effect lose a submitted task for good before any lease expires |
| LeaseRecovery.ForgottenForever | benchmarks/learn/engine_worker_service.py:94-105 | a task that store and workers have forgotten never gets a result |
| LeaseProgress.TaskCanFinish | benchmarks/learn/engine_worker_service.py:94-157 | after every harmless run, for a positive deadline, some continuation stores the result of a submitted task as soon as one worker is idle and not stopping |
| LeaseProgress.KeptCanFinish | benchmarks/learn/engine_worker_service.py:94-157 | the same from any state in which the task is kept, whatever markers, phases and crashed children it holds |
| LeaseProgress.TicketIsNext | benchmarks/learn/engine_worker_service.py:113-118 | a scan nobody disturbs chooses one more than the highest ticket of a live marker |
| LeaseProgress.CleansUp | benchmarks/learn/engine_worker_service.py:153-156 | a cleanup nobody disturbs deletes the input, the own marker and the expired ones, and nothing else |
| LeaseBudget.BudgetIs | benchmarks/learn/engine_worker_service.py:146-149 | whoever starts to execute has read its own lease and gets a positive budget that is the lesser of the task's deadline and what the lease leaves |
| LeaseBudget.StartsIff | benchmarks/learn/engine_worker_service.py:146-149 | it starts if and only if both are positive |
| LeaseBudget.ExecutionsAreInBudget | benchmarks/learn/engine_worker_service.py:146-149 | over every run each execution began at one operation with exactly that budget, keeps its end, and is not past it |
| LeaseBudget.ClaimsAreInTime | benchmarks/learn/engine_worker_service.py:119-130 | over every run whoever is about to delete the pending object found, in the same lap, room for the whole deadline in its lease, and was not stopping then |
| LeaseBudget.GoesOnOnlyIf | benchmarks/learn/engine_worker_service.py:94-130 | a task is sighted only when pending or with its lease expired, a claim starts only without result and stop, and is won only without result |
| AxSlots.SlotsCoverTasks | benchmarks/ax/batch.py:54-78 | over all lane calls and sessions and all outcomes: tasks not proved gone <= held slots <= 2, the held slots are exactly those acquired and not released, and no release is one too many |
| AxSlots.StepSecureIff | benchmarks/ax/batch.py:189-207 | after an operation, no next operation of any user takes the slot of a task not proved gone, if and only if the operation was not an uncaught exception in the cleanup of a lane with such a task |
| AxSlots.RunSecureIff | benchmarks/ax/batch.py:189-207 | in a run no task not proved gone loses its own slot, nor is one operation away from it, if and only if every operation of the run is calm in this sense |
| AxSlots.LaneKeepsSlotIffCleanupFailed | benchmarks/ax/batch.py:189-207 | a lane call that ended still owns its slot exactly when its cleanup reported an error, an unproved task being such a case, if and only if no uncaught exception cut short a cleanup with an error or an unproved task behind it |
| AxSlots.SessionKeepsSlotIffCleanupFailed | benchmarks/ax/batch.py:786-809 | a session that ended owns its slot exactly when its cleanup reported an error or was cut short by an uncaught exception; so exactly when it reported an error, if and only if it was not cut short before any |
| AxSlots.SessionClosesAgain | benchmarks/ax/batch.py:786-809 | a session closed once more owns its slot exactly when it did before and this cleanup failed or was cut short |
| AxSlots.AllSlotsComeBack | benchmarks/ax/batch.py:189-207 | when every lane call and session is over after a whole cleanup without errors, no slot is held |
| AxSlots.ReleasesOwn | benchmarks/ax/batch.py:205-207 | guided by its flag a user releases only a slot it owns, and acquires only when it owns none |
| AxSlots.InterruptedCleanupUncovers | benchmarks/ax/batch.py:189-207 | an interrupted deletion leaves more unproved tasks than held slots |
| AxSlots.StepInv | benchmarks/ax/batch.py:701-809 | each calm operation of a lane or session keeps the semaphore's count exact and every unproved task covered by an owned slot |
| History.FinishedIsNotRepeated | benchmarks/ax/batch.py:511-519 | over any number of sessions a finished item runs again only after a checkpoint of another input was written for it |
| History.Sessions | benchmarks/ax/batch.py:498-552 | legal histories of successive dispatches compose, each starting from what the earlier ones left |
| BatchState.LaunchValid | benchmarks/ax/batch.py:463-472 | a launch keeps every item in exactly one place, lanes within their number, and never increases the weight |
| BatchState.CompleteValid | benchmarks/ax/batch.py:482-488 | writing a popped result keeps all of that and strictly decreases the weight |
| BatchState.CountsAccount | benchmarks/ax/batch.py:455-459 | the counts of active, done and waiting items written to the progress file, with pending and dropped ones, make up the plan; lanes are not overbooked; done items have a finished checkpoint and waiting ones one that awaits docker |
| BatchState.Drained | benchmarks/ax/batch.py:463-491 | with nothing active and no idle lane refusing work, docker drains the fallbacks and any other lane or overflow the pending items |
| BatchState.Budget | benchmarks/ax/batch.py:521-543 | every planned item has at most twice max_attempts executor calls, wherever it stands |
| BatchState.CallTells | benchmarks/ax/batch.py:521-543 | a call is made only on the lane of the calls before it for this checkpoint, after failures in sandbox or instrument, and while attempts remain |
| BatchState.SaveTells | benchmarks/ax/batch.py:543-550 | a checkpoint is written when no further call is due; its status is what the last call returned, its attempts are the earlier ones and exactly these calls in order, and it awaits docker if and only if an ax or kind lane failed in its sandbox or ran out of memory and docker is among the lanes |
| BatchState.NothingOpen | benchmarks/ax/batch.py:478-495 | when nothing is under way every call has its checkpoint |
| Batch.Plan | benchmarks/ax/batch.py:511-519 | pending and fallbacks are together exactly the items without a finished checkpoint of this input, the fallbacks those that await docker |
| Batch.Dispatcher.Launch | benchmarks/ax/batch.py:463-472 | nothing changes once STOP exists; otherwise docker takes a fallback first and any admissible lane the first pending item |
| Batch.Dispatcher.FillIdle | benchmarks/ax/batch.py:474-491 | afterwards no idle lane has work it could take, unless STOP exists |
| Batch.Dispatcher.Collect | benchmarks/ax/batch.py:479-481 | finished futures are popped; one that raises ends the round |
| Batch.Dispatcher.Complete | benchmarks/ax/batch.py:545-550 | the checkpoint is written with its digest, earlier attempts and the tries of this job; the item is requeued for docker if and only if that checkpoint awaits it, and done otherwise |
| Batch.Dispatcher.Round | benchmarks/ax/batch.py:478-492 | a round keeps validity, strictly decreases the queue weight, leaves no idle lane with eligible work, and the progress it writes accounts for every item |
| Batch.Dispatcher.Schedule | benchmarks/ax/batch.py:445-495 | the loop ends; at a normal end nothing is active, the progress written accounts for every item and, without STOP, no lane could take anything left |
| Batch.CompletesAtMostTwice | benchmarks/ax/batch.py:545-552 | in any legal history of one dispatch every item completes at most twice |
| Batch.Dispatch | benchmarks/ax/batch.py:498-552 | whatever crashes: every call and checkpoint is legal and tells what the executors returned, which decides who is called again and who waits for docker, within the call budget and at most two checkpoints per item; at a normal end the items are conserved and the queues drained as their lanes allow |
| TextLines.LinesAppend | benchmarks/unseen/ledger.py:47-47 | the lines of a complete text followed by another are the lines of both |
| TextLines.LastLine | benchmarks/unseen/ledger.py:47-47 | a non-empty text without a boundary is one line |
| Calendar.DateIff | benchmarks/unseen/ledger.py:35-39 | a date is accepted if and only if it is the ISO form of a day that exists in the years 1 to 9999 |
| Ledger.Read | benchmarks/unseen/ledger.py:42-58 | it accepts exactly the texts that are a linked ledger, and returns their rows |
| Ledger.DigestBindsHistory | benchmarks/unseen/ledger.py:42-58 | two accepted histories with the same final digest are equal row by row |
| Ledger.AppendReads | benchmarks/unseen/ledger.py:84-86 | reading after an append gives the old rows and the new one |
| Ledger.TruncationIsPrefix | benchmarks/unseen/ledger.py:45-46 | any truncated text is refused or reads as a prefix |
| Ledger.File.Append | benchmarks/unseen/ledger.py:69-88 | a usage is appended exactly when it is valid, the file is a ledger and the policy admits it; a refused one leaves the file alone |
| Ledger.PolicyExtends | benchmarks/unseen/ledger.py:76-83 | the three checks of an append hold if and only if the longer history obeys the policy |
| Ledger.BuiltObeysPolicy | benchmarks/unseen/ledger.py:69-88 | every history built by appends has one freeze digest, no duplicate, and no qualification after information, and is a chain |
| Journal.Replay | benchmarks/unseen/journal.py:97-113 | it rebuilds the table and latest elapsed time of exactly the rows a file holds, and refuses every text that holds none |
| Journal.PutHolds | benchmarks/unseen/journal.py:148-155 | a completed put adds exactly its row to what the file holds |
| Journal.TornIsRefused | benchmarks/unseen/journal.py:103-105 | a file with a torn last record holds no rows at all |
| Journal.Sourcing.constructor | benchmarks/unseen/journal.py:63-74 | before any session nothing was put and nothing looked up, so an empty directory holds exactly what was put |
| Journal.Sourcing.Open | benchmarks/unseen/journal.py:77-115 | a fresh process refuses other inputs and foreign files, and otherwise mirrors exactly the rows ever put, no later than its elapsed time |
| Journal.Sourcing.Store | benchmarks/unseen/journal.py:145-158 | a unit is stored at most once; a process that dies leaves a whole row, nothing, or a file that will be refused |
| Journal.Sourcing.GetRepo | benchmarks/unseen/journal.py:170-184 | the answer, not-found included, is that of a direct lookup, and a key with a kept answer is never looked up again in any session |
| Journal.Play | benchmarks/unseen/journal.py:77-184 | from an empty directory, over any number of sessions that may die at any put: the files hold exactly what was put or one is refused, every answer is true, a kept answer is never looked up again |
| Freeze.Run | benchmarks/unseen/freeze.py:117-132 | an undisturbed run refuses a differing artifact before writing anything, and otherwise creates exactly the missing ones |
| Freeze.FinishedMeansFrozen | benchmarks/unseen/freeze.py:112-132 | however runs interleave between whole file creations, crash and tear, no artifact is altered and whoever finishes leaves all present and matching |
| Freeze.RunsConverge | benchmarks/unseen/freeze.py:112-132 | with atomic creation, repeated, crashed and overlapping runs on one input end in the state of one undisturbed run |
| Freeze.RecordIsLast | benchmarks/unseen/freeze.py:112-128 | without torn writes the record exists only when the artifacts before it exist and match one run |
| Freeze.TornBlocksIff | benchmarks/unseen/freeze.py:68-131 | a run can die with a torn artifact; a later run on the same input can then be refused if and only if the torn text does not parse to the payload's value, and if so none ever finishes |
| Freeze.ConflictIsForever | benchmarks/unseen/freeze.py:119-131 | a run whose outputs differ from an existing artifact never finishes |
| Bisect.Run.Check | benchmarks/unseen/bisect_guard.py:107-118 | it stages the subset with its private rows, runs the guard once, and fails on anything but exit 0 or 1 |
| Bisect.ChosenPicks | benchmarks/unseen/bisect_guard.py:107-111 | staged beside a subset are exactly the private rows whose id a row of it has, each as often as it occurs, in order |
| Bisect.Run.Retain | benchmarks/unseen/bisect_guard.py:120-126 | for any guard an order-preserving part of the subset; for a stable one exactly the bisection and its number of calls |
| Bisect.Run.Bisect | benchmarks/unseen/bisect_guard.py:101-152 | a success leaves the kept rows staged, accepted by the last guard call and bound by the receipt; a failure leaves nothing; existing staging is untouched |
| Bisect.RetainsPassing | benchmarks/unseen/bisect_guard.py:120-126 | if the guard passes exactly when every row passes alone, exactly the passing rows are kept |
| Bisect.CallBound | benchmarks/unseen/bisect_guard.py:120-126 | then at most 1 + 2 d ceil(log2 n) guard calls are made for d failing rows of n |
| Bisect.LogUpIsCeiling | benchmarks/unseen/bisect_guard.py:125-126 | the depth of halving is the ceiling of the binary logarithm |
| Bisect.RowWiseRun | benchmarks/unseen/bisect_guard.py:135-139 | for such a guard both control calls pass, so the run succeeds within two more calls |
| SourceLines.LineOffsets | benchmarks/pairs/harvest.py:590-595 | the offsets are 0 and one past every newline |
| SourceLines.LineOf | benchmarks/pairs/harvest.py:598-606 | the binary search returns one plus the newlines before the offset, for every offset |
| SourceLines.OffsetsCount | benchmarks/pairs/harvest.py:590-606 | a line start is at or before an offset if and only if its index is below that line number |
| SourceLines.StartOfLine | benchmarks/pairs/harvest.py:590-606 | the start of a line is on that line |
| SourceLines.PiecesExceedIff | benchmarks/pairs/harvest.py:494-494 | str.splitlines sees more lines than there are line starts if and only if there are two boundaries other than a newline, alone or with its carriage return, or one and the text does not end with a boundary |
| Lexer.Masked | benchmarks/pairs/harvest.py:79-149 | equal length, newlines at the same offsets, every other character unchanged or blank |
| Tokens.TokensExist | benchmarks/pairs/harvest.py:79-149 | every source from any offset is a row of tokens: comments, triple and quoted literals from their opener to their first closer, and plain characters |
| Tokens.MaskedIsTokenwise | benchmarks/pairs/harvest.py:79-149 | the recursive lexer blanks a character if and only if one of the tokens holds it inside |
| Mask.MaskCommentsAndStrings | benchmarks/pairs/harvest.py:79-149 | the loops over the output list end; the source has tokens, and for any tokens of it a character is blank if and only if it is not a newline and lies in a comment, in a triple literal with its delimiters, or in the body of a quoted literal |
| Mask.MaskKeepsLines | benchmarks/pairs/harvest.py:79-149 | the masked text has the same line starts and the same line number at every offset |
| Braces.BalancedEnd | benchmarks/pairs/harvest.py:577-587 | it returns the matching brace, and fails if and only if there is none |
| Braces.MatchUnique | benchmarks/pairs/harvest.py:577-587 | an opening brace has at most one match |
| Braces.GroupsNest | benchmarks/pairs/harvest.py:370-404 | a brace that opens inside a matched group closes inside it |
| Braces.PopMatches | benchmarks/pairs/harvest.py:388-391 | the stack pops exactly the match of a closing brace, and is empty only when there is none |
| Braces.InnermostFunctionBounds | benchmarks/pairs/harvest.py:370-404 | the scan returns the span with the largest start line among all callable-looking groups holding the line, and nothing if and only if there is none |
| Braces.DeclaratorStart | benchmarks/pairs/harvest.py:550-574 | the two loops end at the boundary before the anchor, past blank and import lines |
| Heads.StripIs | benchmarks/pairs/harvest.py:570-570 | what is stripped is space on both sides and what is left neither begins nor ends with one |
| Heads.DirectiveIff | benchmarks/pairs/harvest.py:557-560 | the line test is met exactly by lines whose first character other than a space is a number sign |
| Heads.BoundaryIs | benchmarks/pairs/harvest.py:552-562 | the walk back ends behind the last semicolon, closing brace or preprocessor line before the anchor, or at the start |
| Heads.SkipIs | benchmarks/pairs/harvest.py:566-574 | the walk forward passes whole lines that are blank or imports once masked, and stops at the first place where none begins |
| Heads.HeadIff | benchmarks/pairs/harvest.py:393-400 | a head is a callable one if and only if it starts by the target, has both parentheses, no brace at all, and is not a control head |
| Braces.FunctionBoundsAt | benchmarks/pairs/harvest.py:492-517 | it finds the first matched group opened at depth zero that reaches over the line, nothing if and only if there is none, and raises exactly for the lines of str.splitlines beyond the line starts |
| Braces.SomeLineRaisesIff | benchmarks/pairs/harvest.py:494-501 | some line of a text raises if and only if there are two such stray boundaries, or one and the text does not end with a boundary |
| Braces.RaisingLookup | benchmarks/pairs/harvest.py:494-501 | a text of two pieces and one line start whose second line raises |
| Braces.TopCloses | benchmarks/pairs/harvest.py:504-516 | the depth returns to zero with a group open exactly when a top-level group closes, stray braces included |
| Braces.BestIsInnermost | benchmarks/pairs/harvest.py:391-403 | that span contains the line, and no such group starts on a later line |
| Php.PhpCode | benchmarks/independent/freeze.py:84-130 | on every text the loop ends for, the file has regions, and for any regions of it exactly the characters of inline HTML, comments, heredocs and literal bodies are blanked, newlines apart |
| PhpRegions.RegionsIffEnds | benchmarks/independent/freeze.py:96-129 | the loop ends if and only if there are regions, each where the one before it leads, from the start to the end of the file |
| PhpRegions.RegionsAreTurns | benchmarks/independent/freeze.py:96-129 | the loop takes exactly one turn for each region |
| PhpRegions.FinalIsCode | benchmarks/independent/freeze.py:84-130 | what the turns leave is the text with exactly the characters of regions that are not code blanked |
| Php.PhpKeepsLines | benchmarks/independent/freeze.py:84-130 | equal length, newlines in place, other characters unchanged or blank, same line numbers |
| PhpTurns.AdvancesUnlessBackward | benchmarks/independent/freeze.py:96-129 | a turn moves forward if and only if it is not a heredoc whose closing label was found at or before it |
| PhpTurns.NewlineAfterLabelSettles | benchmarks/independent/freeze.py:115-121 | a newline after every heredoc label is enough for that |
| PhpTurns.SettledEnds | benchmarks/independent/freeze.py:96-129 | then the loop ends |
| PhpTurns.EndsIff | benchmarks/independent/freeze.py:96-129 | for any text the loop ends if and only if it has ended after twice as many turns as characters |
| PhpTurns.UnclosedHeredocNeverEnds | benchmarks/independent/freeze.py:115-121 | a concrete text on which the loop runs for ever |
| Php.BodyEnd | benchmarks/independent/freeze.py:140-145 | a body ends at the matching brace, or at the end of the file when there is none |
| Php.PhpFunctions | benchmarks/independent/freeze.py:133-147 | one span per header with a body, in order, with the lines of its header and of its body's end |
| Php.BodiesNest | benchmarks/independent/freeze.py:140-145 | two bodies nest or are apart |
| Php.SpansAreSourceLines | benchmarks/independent/freeze.py:133-147 | spans found in the blanked file are line numbers of the file itself |
| Stream.Backend.Run | benchmarks/learn/engine_trace_worker.py:326-360 | however the output is cut into chunks, asked, answers and counts are a fold over its complete lines |
| Stream.FoldCollects | benchmarks/learn/engine_trace_worker.py:184-196 | the fold of any lines holds their questions in order, for each id the rows of its last answer, and the number of its answers, and no other id |
| Stream.Backend.Feed | benchmarks/learn/engine_trace_worker.py:343-360 | a chunk takes exactly the lines it completes and leaves the rest pending |
| Stream.Backend.Observe | benchmarks/learn/engine_trace_worker.py:176-201 | it takes the newline-terminated pieces not yet consumed, once each |
| Stream.Backend.SessionPayload | benchmarks/learn/engine_trace_worker.py:164-247 | over growing outputs the evidence is a fold of what the last one holds; an unverified attempt leaves no trace |
| Stream.ObserverMissesIff | benchmarks/learn/engine_trace_worker.py:176-201 | the observer sees the complete lines from the first one on, and all of them if and only if no foreign line boundary stands inside one |
| Stream.WaitsForEver | benchmarks/learn/engine_trace_worker.py:179-183 | once a foreign boundary stands inside a complete line, no later output makes the observer consume or see anything more |
| Stream.MissedLine | benchmarks/learn/engine_trace_worker.py:179-183 | a text of one complete line that is never seen, whatever follows |
| Stream.ConsumedAppend | benchmarks/learn/engine_trace_worker.py:179-183 | what is consumed early is what would be consumed from the whole output |
| Stream.Backend.BatchOnce | benchmarks/learn/engine_trace_worker.py:270-312 | at most one retry over any calls, taken exactly for a blocked taint query, and counting on nothing gathered before it |
| Select.Choose | benchmarks/search/pilot_select.py:251-279 | min(count, repositories) rows, one per repository, every language with rows left within one of the largest; a count below one is refused |
| Select.OrderDoesNotMatter | benchmarks/search/pilot_select.py:259-259 | the choice is the same for every order of the input when digests differ |
| Select.ChoiceKeepsBalance | benchmarks/search/pilot_select.py:262-278 | each choice keeps every language with rows left within one of every other |
| Select.BestPrefers | benchmarks/search/pilot_select.py:263-273 | among equally rare languages the choice has a least family count, and among those tests and a manifest if any row does |
| Select.LeastRow | benchmarks/search/pilot_select.py:263-273 | the row chosen by the counters is the first one no other row comes before |
| Select.BestIsFirst | benchmarks/search/pilot_select.py:263-273 | every row before the chosen one has a larger key and none after it a smaller one |
| Select.Best | benchmarks/search/pilot_select.py:263-273 | no remaining row has a smaller key than the chosen one |
| Metrics.CompletePairs | benchmarks/learn/slice_leak_audit.py:32-46 | the table filled row by row gives the pairs of the groups, or the error of the first bad group |
| Metrics.PairOfIff | benchmarks/learn/slice_leak_audit.py:37-45 | a group is a pair if and only if it is two rows with the two labels in one group and fold, crosses if and only if these differ, is nothing if and only if it is one row, and is refused otherwise |
| Metrics.PairsAreComplete | benchmarks/learn/slice_leak_audit.py:32-46 | accepted rows fall into single rows and pairs of one vulnerable and one fixed row of one group and fold; every group of two is reported and nothing else |
| Metrics.AucIsOneIff | benchmarks/learn/slice_leak_audit.py:57-61 | the AUC is one if and only if every vulnerable signal is above every fixed one |
| Metrics.PairScoreIsOneIff | benchmarks/learn/slice_leak_audit.py:51-54 | the pair score is one if and only if the vulnerable signal is higher in every pair |
| Metrics.ScoresInRange | benchmarks/learn/slice_leak_audit.py:49-77 | pair score and AUC lie in [0, 1], best-direction scores in [1/2, 1], and higher + lower + ties is the number of pairs |
| Metrics.SwappingMirrors | benchmarks/learn/slice_leak_audit.py:49-77 | swapping all labels maps each score x to 1 - x, exchanges the counts, and leaves best-direction scores and the flag alone |
| Metrics.RecodingChangesNothing | benchmarks/learn/slice_leak_audit.py:49-77 | any strictly increasing recoding of the signal leaves the whole report unchanged |
| Metrics.TiesAreTheRest | benchmarks/learn/slice_leak_audit.py:53-53 | ties are never negative and zero exactly when no pair is equal |
| Metrics.TotalsShare | benchmarks/learn/slice_leak_audit.py:57-61 | the comparisons won from either side add up to positives times negatives |
| Export.ExportSources | benchmarks/learn/engine_trace.py:500-565 | every labelled file is copied, bytes stay within the cap or are the labelled bytes alone, and the cap is hit if and only if the scope does not fit |
| Export.NearKeepsLabelled | benchmarks/learn/engine_trace.py:533-539 | narrowing an oversized scope keeps every labelled file |
| Export.NearPicks | benchmarks/learn/engine_trace.py:533-539 | narrowing keeps exactly the files that are labelled or near a label, each once per occurrence, in order |
| Export.PrepareCache | benchmarks/learn/engine_trace.py:267-280 | exactly the shortest run of oldest trees is evicted that brings the rest within the limit |

## Left out

- HTTP, S3, presigning, Docker, Kubernetes, AX and Joern calls: atomic steps with nondeterministic outcomes.
- Interleavings of one worker between two tasks: the lease queue is projected onto one task, to which every operation of
  `claim` and `process_one` belongs; other tasks only decide when its next operation happens.
- Killing of child processes: an execution, orphaned or not, is assumed to end within its budget.
- Locks and fsync: holders of a lock exclude each other and completed writes last.
- SHA-256, JSON and TOML: an abstract injective digest and an abstract faithful encoding; nothing is claimed about the hash.
- Universal newlines: ledger texts are taken after their translation, so they contain no carriage return.
- Regular expressions: space, import line, control head, function header and heredoc label are parameters; a heredoc
  match is assumed to end after the offset it is searched from, and the number sign not to be a space.
- The Python block and indentation rules and excerpt extraction: the line-based branches are not part of this model.
- Braces.FunctionBoundsAt: does not claim that the span contains the line, because the declarator walk can step past it
  when the brace stands on an import line.
- The language table of the masker: the three lexer families are modelled, not the extensions that select them.
- `enclosing` and `changed_functions`: the choice of the shortest span is left out.
- Floating point: scores are exact reals, elapsed times and clocks are reals.
- `DockerLane`, presigned uploads and transport records of a lane: they do not touch the slots.
- `make_plan`, `save_pin`, `run_plan` and the partition merge of `worker`: bookkeeping around the same dispatcher.
- Rate limits, the progress file and the reasons for stopping in the journal: only that a stop may come before a lookup.
- Receipt checks and label counts of the freeze: they decide whether a run starts, not what it writes.
- Race on the exclusive reservation of staging files: one bisection runs in a directory.
- Journal.Sourcing.Write: a put that fails ends its process; a caller that catches the error and puts again in the same
  process is outside the model.
- Freeze.FinishedMeansFrozen: a file that a live run has created and is still writing is not visible to another run; a
  run that dies while writing leaves its part visible.
- AxSlots.StepInv: a session's release and the clearing of its flag are one operation.
- Stream.Backend.SessionPayload: whether the time limit was reached and whether the payload was verified are inputs; the
  session itself is not part of this model, and the JSON parser is taken to ignore the end of a line.
- Php.PhpCode: requires that the loop ends, which `PhpTurns.EndsIff` decides; for other texts the code returns nothing.
- Export.PrepareCache: takes the tree sizes in the order of modification time and path; the check of free disk space is left out.
- Export.ExportSources: takes the files in path order; walking the source tree is left out.
