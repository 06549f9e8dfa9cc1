# Durable runs, Tailwind check, gateway transport and base64url, in Dafny

This project models four parts of the repository and proves what they promise.

**The durable run engine** (`Durable*.dfy`, the main part). One run is a database row, an append-only transcript and
job rows. Any number of attempts advance it, users answer and cancel it, workers take, reclaim and drop job rows, and
the clock moves, in any interleaving. `DurableStore` holds the statements as methods that update the tables in place;
`DurableSql` says as functions what each does to one run; `DurableProtocol` is the program of an attempt and the whole
system as a step relation; `DurableEngine` ties the two together: a write executed on the store is the protocol's commit.
Every write of an attempt may be answered, refused, or end for the client in a timeout or a crash; in the last case it may
still commit at any later moment, or never. `DurableInvariant` is the inductive invariant. `DurableOutcomes` says, for each
kind of step of an attempt that holds the lease and from every state that meets the invariant, which row, transcript, lease
and job rows its writes leave; `DurableOrigins` says the converse over behaviours: which event each stored ending stems from.
The other modules draw further conclusions over all behaviours.

**The Tailwind CSS check** (`Tailwind*.dfy`). `TailwindScanner` is the byte scanner as loops over cursors, verified
against `TailwindSpec`, where one round of the loop is a function of the scanner's five pieces of state. On top of it:
where comments and strings end, comment-elided `source(` matching, the exact law of statement starts, a bracket grammar every
accepted file parses under, a grammar of sheets every one of which is accepted with exactly the imports and sources it holds,
UTF-8 (RFC 3629) and its character boundaries, what a path text names from a directory, and the import graph, visited over
mutable state and accepted exactly when it is a tree.

**The gateway transport** (`Transport*.dfy`). The retry loop under one deadline, with the exact outcome of an attempt in terms
of what the network does, the chunked usage scanner, the capped error body and the streamed body with its single completion
event.

**The passkey client's base64url** (`Base64Url.dfy`), RFC 4648 section 5 on top of section 4.

## Results that differ from what the comments suggest

- *No orphan* (the comment above `with_lease_guards`): it holds for every behaviour in which each claim is *covered*: some
  job row is free, the claimer's own, or owned by an attempt that is not driving the run, and its owner has not decided
  to return `Ok`. The condition is exact: after any uncovered claim some continuation orphans the run. A worker that
  stalls between taking its job row and its claim, past the row's expiry, makes an uncovered claim; a concrete run shows it.
- *Errors separated by progress never add up to a dead-letter* (the comment above `retry_or_requeue`): true of error returns
  whose requeue commits, false in general. An attempt that made progress ends in an error exactly when its requeue was not
  seen to commit, when `next_step` and then the terminal write failed (a path that never requeues), or when it panicked; and
  the reclaim of its row after a crash charges it whatever it did. Under every configuration some run loses its only job row
  to the dead-letter table although every attempt on it made progress and none returned an error.
- *Lease refresh period*: a third of the takeover window with 5 s writes keeps the lease fresh exactly when
  `takeover - takeover / 3 >= 10 s` (about 15 s), not for every window above 7.5 s. The default of 90 s is safe. With the
  condition, every behaviour whose refreshes follow the schedule keeps the lease.
- *Balanced parentheses in accepted CSS*: a `)` or `]` directly inside a custom property value needs no partner
  (`--a:)` is accepted). Braces always balance; parentheses balance exactly when no round of the scanner meets a `)` inside
  a value with an empty closer stack.
- *Chunking*: all splits of a stream read alike exactly when every complete line is at most 64 KiB; a longer line is read when
  it arrives whole and forgotten when its newline comes in a later chunk. An unfinished last line may be of any length.
- *Exponential backoff*: the ceiling is `initial * 2^(attempt-1)` exactly while the factor fits 32 bits or the maximum is
  reached anyway.
- *base64url input*: `base64urlToBuffer` also accepts the plain alphabet and some padding; the exact set is stated.

## Model

| member | source | states |
|---|---|---|
| `DurableStore.ProjectRowsLoop` | crates/cja-llm/src/durable/db.rs:415-432 | the rows written are the messages from the mark on, numbered from the mark |
| `DurableStore.FindRecordedCall` | crates/cja-llm/src/durable/mod.rs:625-652 | the first open executable call with the recorded id, in call order |
| `DurableStore.ResolveAsk` | crates/cja-llm/src/durable/mod.rs:617-662 | an answer closes exactly the recorded open `ask` call with the given text but for its NULs; every mismatch is corruption |
| `DurableStore.Store.TryClaim` | crates/cja-llm/src/durable/db.rs:97-140 | claims when queued, released, or running with an expired lease, and then stores holder, time and first start; otherwise nothing changes, and no other run does |
| `DurableStore.Store.ReleaseLease` | crates/cja-llm/src/durable/db.rs:156-170 | clears the lease only for its holder on a running row |
| `DurableStore.Store.Heartbeat` | crates/cja-llm/src/durable/db.rs:173-190 | refreshes the holder's lease and returns the cancel flag; otherwise nothing |
| `DurableStore.Store.InsertMessages` | crates/cja-llm/src/durable/db.rs:368-388 | appends the rows whose seq is not taken; stored rows stay |
| `DurableStore.Store.NextMessageSeq` | crates/cja-llm/src/durable/db.rs:401-411 | one more than the largest stored seq |
| `DurableStore.Store.PersistStep` | crates/cja-llm/src/durable/db.rs:193-237 | one transaction, fenced by the token: new run state, refreshed lease, new rows, or nothing at all |
| `DurableStore.Store.SetWaiting` | crates/cja-llm/src/durable/db.rs:240-289 | parks, or finishes `cancelled` when a cancel was requested, in one fenced decision |
| `DurableStore.Store.Finish` | crates/cja-llm/src/durable/db.rs:292-337 | fenced terminal write with run state and rows |
| `DurableStore.Store.FailUnstorable` | crates/cja-llm/src/durable/db.rs:66-94 | fenced terminal write that keeps the stored run state |
| `DurableStore.Store.EnqueueOn` | crates/cja-llm/src/durable/mod.rs:743-762 | adds one unowned job row with no errors |
| `DurableStore.Store.RequeueWithFreshJob` | crates/cja-llm/src/durable/worker.rs:555-600 | lease release and fresh job row in one transaction; the job row is added even when the lease was already lost |
| `DurableStore.Store.Start` | crates/cja-llm/src/durable/mod.rs:517-577 | a queued row without transcript and one job row |
| `DurableStore.Store.CancelRun` | crates/cja-llm/src/durable/db.rs:459-529 | cancels at once, leaves a request under a live lease, or reports the terminal status, by the stored row alone |
| `DurableStore.Store.Answer` | crates/cja-llm/src/durable/mod.rs:584-692 | success closes the recorded ask with the given text but for its NULs, completes the transcript and adds a job; every refusal leaves the store unchanged |
| `DurableStore.Store.AnswerWaiting` | crates/cja-llm/src/durable/db.rs:341-363 | `waiting` to `running` with the answered state, pending pair and lease cleared |
| `DurableEngine.Execute` | crates/cja-llm/src/durable/worker.rs:534-897 | every write an attempt can issue, executed on the store, is the protocol's commit on that run and leaves all other runs alone |
| `DurableSql.FindCallBounds` | crates/cja-llm/src/durable/mod.rs:625-652 | the recorded-call search finds an executable open call with the id exactly when one exists |
| `DurableSql.NextSeqIsLength` | crates/cja-llm/src/durable/db.rs:401-411 | over contiguous seqs the high-water mark is the length |
| `DurableSql.ProjectionCompletes` | crates/cja-llm/src/durable/db.rs:368-432 | projecting from the stored mark appends exactly the missing rows, drops none by a seq conflict, and changes no stored row |
| `DurableSql.ReplacesNuls` | crates/cja-llm/src/durable/mod.rs:363-369 | the stored text has the length and, but for NULs that become U+FFFD, the characters of the given one; without a NUL it is the same text |
| `DurableInvariant.StepKeeps` | crates/cja-llm/src/durable/worker.rs:257-1275 | the invariant (row shape, fencing, derivation of every write in flight, transcript, queue) is kept by every step of the system |
| `DurableInvariant.AlwaysInv` | crates/cja-llm/src/durable/worker.rs:257-1275 | the invariant holds in every state of every behaviour |
| `DurableInvariant.CommitKeeps` | crates/cja-llm/src/durable/db.rs:97-363 | a write of any attempt, timely or late, committed or not, keeps row shape, history, transcript and the suspension count |
| `DurableOutcomes.DoneSucceeds` | crates/cja-llm/src/durable/worker.rs:717-744 | from every reachable state in which the lease holder finds its run done and no cancel is requested, the row ends `succeeded` with exactly that output and run and the whole run is in the transcript |
| `DurableOutcomes.FailedStepFails` | crates/cja-llm/src/durable/worker.rs:374-481 | a run whose next step fails ends `failed` with the reason the error maps to |
| `DurableOutcomes.UnpreparedFails` | crates/cja-llm/src/durable/worker.rs:915-965 | a model request that cannot be prepared ends the run `failed` with `protocol` |
| `DurableOutcomes.ModelCallIsCheckpointed` | crates/cja-llm/src/durable/worker.rs:915-1031 | the run is stored and projected before the model is called, and that counts as no progress |
| `DurableOutcomes.ModelReplyIsBudgeted` | crates/cja-llm/src/durable/worker.rs:915-1031 | a model reply is stored and counts as progress; the run then ends `failed` with `token_budget` exactly when its tokens exceed the limit, else the attempt returns to the loop |
| `DurableOutcomes.FatalFails` | crates/cja-llm/src/durable/worker.rs:748-781 | a final failure of a model or tool call ends the run `failed` with the reason it maps to |
| `DurableOutcomes.ToolReplyIsStored` | crates/cja-llm/src/durable/worker.rs:1033-1108 | a tool reply closes the call at the head with its text but for NULs, is stored, and counts as progress |
| `DurableOutcomes.ToolsGoOn` | crates/cja-llm/src/durable/worker.rs:1033-1108 | without an open call the attempt returns to the loop, at a call that is no `ask` it runs the tool; neither writes |
| `DurableOutcomes.CorrectionIsStored` | crates/cja-llm/src/durable/worker.rs:1033-1180 | a malformed call, or an `ask` whose arguments do not parse, is closed with corrective feedback and stored; the first goes on with the batch, the second returns to the loop |
| `DurableOutcomes.RefusedCorrectionFails` | crates/cja-llm/src/durable/worker.rs:1033-1180 | a run that refuses the feedback ends `failed` with the reason |
| `DurableOutcomes.AskParks` | crates/cja-llm/src/durable/worker.rs:1110-1180 | an `ask` parks the run as `waiting` with its call id and its question but for NULs, releases the lease, completes the transcript and adds no job |
| `DurableOutcomes.RetryHandsOn` | crates/cja-llm/src/durable/worker.rs:534-600 | after a retryable end the lease is gone, with a fresh job row exactly after progress, else with an error return |
| `DurableOutcomes.RefusalHandsOn` | crates/cja-llm/src/durable/worker.rs:783-890 | the same after a write the database refused |
| `DurableOutcomes.ShutdownHandsOn` | crates/cja-llm/src/durable/worker.rs:1197-1275 | a shutdown under the guard releases the lease and then hands on |
| `DurableOutcomes.UnstorableFails` | crates/cja-llm/src/durable/worker.rs:623-645 | content the database cannot store ends the run `failed` with `unstorable_content`, keeping the last stored run and transcript |
| `DurableOutcomes.HeartbeatGoesOn` | crates/cja-llm/src/durable/worker.rs:1197-1275 | a heartbeat moves the lease time and nothing else, and the guarded step goes on |
| `DurableOutcomes.HeartbeatCancels` | crates/cja-llm/src/durable/worker.rs:1197-1275 | a heartbeat that sees a cancel request ends the run `cancelled` with the run the attempt holds |
| `DurableOutcomes.PersistCancels` | crates/cja-llm/src/durable/worker.rs:783-890 | a persist that sees the request stores its run and ends it `cancelled` |
| `DurableOutcomes.ClaimStarts` | crates/cja-llm/src/durable/worker.rs:257-372 | a claim of a usable run starts at the loop from the stored run |
| `DurableOutcomes.UnusableClaimFails` | crates/cja-llm/src/durable/worker.rs:257-372 | a claim of an unknown kind or a corrupt state ends the run `failed` with that reason and the stored run |
| `DurableOutcomes.MissedClaimBacksOff` | crates/cja-llm/src/durable/worker.rs:257-300 | a claim that matches nothing changes nothing; the attempt returns an error exactly when the run is running, else `Ok` |
| `DurableOutcomes.ErrorsGoOn` | crates/cja-llm/src/durable/worker.rs:486-621 | what an attempt does when a statement is refused or not answered: it leaves the run alone, and releases the lease without a job row, hands on, or returns an error, depending on the statement and on progress |
| `DurableOrigins.EndingsAreNamed` | crates/cja-llm/src/durable/worker.rs:374-781 | over all behaviours: a committed `succeeded` stems from an `AllDone` with exactly that output, each committed fail reason from the event that names it (`token_budget` from a run over the limit), and `cancelled` from a cancel |
| `DurableLifecycle.LifecycleStep` | crates/cja-llm/src/durable/db.rs:66-529 | each step moves the status along the allowed graph only; terminal rows and their transcripts are frozen; stored transcript rows never change; a cancel request is never taken back |
| `DurableLifecycle.TerminalIsFrozen` | crates/cja-llm/src/durable/mod.rs:40-110 | over whole runs: terminal rows and transcripts stay, transcripts and history only grow |
| `DurableLifecycle.CommitsDeriveFromLatest` | crates/cja-llm/src/durable/db.rs:193-337 | every committed run state was derived from the one committed immediately before it, even by a late write: no lost update, no fork |
| `DurableLifecycle.HistoryIsLinear` | crates/cja-llm/src/durable/worker.rs:213-226 | along the commit history messages only grow |
| `DurableLifecycle.LeaseOnlyByClaim` | crates/cja-llm/src/durable/db.rs:97-140 | an attempt comes to hold the lease only by its own claim of a claimable row |
| `DurableLifecycle.DisplacedStep` | crates/cja-llm/src/durable/db.rs:156-337 | a displaced token never matches again: nothing the attempt still sends changes the row or the transcript |
| `DurableLifecycle.DisplacedForever` | crates/cja-llm/src/durable/worker.rs:374-482 | once displaced, displaced for the rest of the behaviour |
| `DurableLifecycle.TranscriptAgrees` | crates/cja-llm/src/durable/db.rs:368-432 | stored seqs are 0..n-1, row i is message i of the stored run state under its own role, and after any run-carrying commit the transcript is all messages |
| `DurableLifecycle.SuspensionConservation` | crates/cja-llm/src/durable/db.rs:240-363 | committed parks = answers + cancels from waiting + (1 if waiting) |
| `DurableLifecycle.AnswerClosesTheAsk` | crates/cja-llm/src/durable/mod.rs:584-692 | a parked run can always be answered; the answer closes exactly the recorded ask with the given text but for its NULs, adds exactly one job and completes the transcript |
| `DurableLifecycle.WaitingIsUntouched` | crates/cja-llm/src/durable/db.rs:240-289 | only an answer or a cancel touches a waiting run |
| `DurableCancel.CancelStep` | crates/cja-llm/src/durable/worker.rs:783-890 | after a cancel request at most one persist commits, and the holder that made it persists no more |
| `DurableCancel.CancelIsNeverLost` | crates/cja-llm/src/durable/worker.rs:287-306 | over all behaviours after a cancel request: it stays, the run never waits, at most one further persist commits, later attempts take no step |
| `DurableCancel.LaterClaimFinishesCancelled` | crates/cja-llm/src/durable/worker.rs:287-306 | a claim under a request goes straight to the cancelled finish, which keeps run state and transcript |
| `DurableProgress.FreshJobsArePaidFor` | crates/cja-llm/src/durable/worker.rs:534-600 | fresh job rows never outnumber committed advancing persists, at most one for each attempt, only for attempts that advanced the run |
| `DurableProgress.ChargeSteps` | crates/cja/src/jobs/worker.rs:337-583 | a job row is charged exactly by an error return or caught panic of its owner and by the reclaim of an expired owner's row |
| `DurableProgress.ChargesArePaidFor` | crates/cja-llm/src/durable/worker.rs:534-621 | over all behaviours, a charge of an attempt with progress is an error return after a requeue not seen to commit or by the direct path, a caught panic, or the reclaim of its expired row |
| `DurableProgress.DecidesErrIffMarked` | crates/cja-llm/src/durable/worker.rs:534-621 | an attempt with progress that decides ends in an error exactly when its requeue was not seen to commit, it took the direct path or it panicked, else in `Ok` |
| `DurableProgress.ChargedRowGoes` | crates/cja/src/jobs/worker.rs:337-583 | a charged job row is dead-lettered exactly at the retry limit, else counts one error more and is free, or the new owner's when it was reclaimed |
| `DurableProgress.UnchargedRowGoes` | crates/cja/src/jobs/worker.rs:337-675 | taking a free row, a heartbeat, completion and unlocking change exactly this of the row, and nothing of the run |
| `DurableRetries.CrashesDeadLetterInSpiteOfProgress` | crates/cja/src/jobs/worker.rs:506-583 | under every configuration some run loses its only job row to the dead-letter table although every attempt made progress and none returned an error: crashes add up |
| `DurableRetries.PanicChargesInSpiteOfProgress` | crates/cja/src/jobs/worker.rs:319-335 | a caught panic charges an attempt with progress |
| `DurableOrphan.ClaimKeepsIffCovered` | crates/cja-llm/src/durable/worker.rs:275-285 | a claim keeps the orphan invariant exactly when it is covered by a job row |
| `DurableOrphan.ThroughItsJobRow` | crates/cja-llm/src/durable/worker.rs:1190-1195 | an attempt that still owns its job row covers its claim |
| `DurableOrphan.KeptStep` | crates/cja-llm/src/durable/worker.rs:534-611 | every step whose claims are covered keeps the strengthened orphan invariant |
| `DurableOrphan.NoOrphanEver` | crates/cja-llm/src/durable/worker.rs:1182-1196 | over every behaviour with covered claims an unfinished, not dead-lettered run has a job row whose owner has not decided `Ok` |
| `DurableOrphan.QueueStepSafe` | crates/cja/src/jobs/worker.rs:319-583 | taking, finishing, failing (error or caught panic), reclaiming and unlocking job rows keeps a safe row or dead-letters it |
| `DurableTraces.DisplacedConcludes` | crates/cja-llm/src/durable/worker.rs:851-857 | a displaced attempt can always come to its silent `Ok`, changing nothing on the way |
| `DurableTraces.StalledClaimOrphansTheRun` | crates/cja-llm/src/durable/worker.rs:275-285 | a concrete run from `start` in which a stalled claim orphans the run |
| `DurableTraces.ChargedInSpiteOfProgress` | crates/cja-llm/src/durable/worker.rs:602-621 | a concrete run in which an attempt with progress is charged without trying to requeue |
| `DurableTraces.UncoveredClaimOrphans` | crates/cja-llm/src/durable/worker.rs:275-285 | after any uncovered claim some continuation reaches a state that meets the invariant and orphans the run: the condition is exact |
| `DurableLease.FreshLeaseExcludes` | crates/cja-llm/src/durable/db.rs:106-116 | under a fresh lease nobody else claims, `cancel` leaves only a request, and no other attempt's step takes the lease |
| `DurableLease.LostOnlyByOwnStep` | crates/cja-llm/src/durable/worker.rs:1197-1275 | a holder whose lease stays fresh loses it only by a step of its own |
| `DurableLease.GuardKeepsLeaseFresh` | crates/cja-llm/src/durable/worker.rs:1206-1235 | heartbeats every third of the window with 5 s writes keep the lease fresh on every schedule exactly when `takeover - takeover/3 >= 10 s` |
| `DurableLease.GuardedLeaseStaysFresh` | crates/cja-llm/src/durable/worker.rs:1206-1235 | in every behaviour whose refreshes follow the guard's schedule, with `takeover - takeover/3 >= 10 s`, the holder keeps the lease and keeps it fresh |
| `DurableLease.GuardExcludes` | crates/cja-llm/src/durable/db.rs:106-116 | in such a behaviour no other claim takes the lease and `cancel` leaves only a request |
| `TailwindLex.MatchIsElided` | crates/cja-build/src/tailwind.rs:110-129 | matching letter by letter through comments is prefix matching on the comment-elided text |
| `TailwindLex.SourceTokenMeansElided` | crates/cja-build/src/tailwind.rs:110-129 | at a token position `source_token` is true exactly when the comment-elided text starts with `source(` ignoring case; it refuses only before an unterminated comment |
| `TailwindLex.StringEndMeans` | crates/cja-build/src/tailwind.rs:497-513 | a string ends behind the first quote of its kind in front of which an even number of backslashes stands |
| `TailwindLex.CommentEndMeans` | crates/cja-build/src/tailwind.rs:434-449 | a comment ends behind the first `*/` whose star no backslash hides |
| `TailwindSources.AlwaysHeadOk` | crates/cja-build/src/tailwind.rs:174-285 | at every loop head an open parenthesis implies content, and a custom property value implies parenthesis depth 0 |
| `TailwindSources.GraphRulesAtParenZero` | crates/cja-build/src/tailwind.rs:327-374 | a statement that adds an import, source or root starts a statement at parenthesis depth 0, so the parenthesis guard never fires |
| `TailwindSources.QuotedOnlyIsLiteral` | crates/cja-build/src/tailwind.rs:515-525 | the accepted literal is one quoted string, not empty, without quote, backslash or line end inside |
| `TailwindSources.AcceptedArgument` | crates/cja-build/src/tailwind.rs:369-409 | every accepted argument is the exact root form or one literal holding a relative path, and what it adds is exactly that |
| `TailwindSources.OnlyRootImportsSpellSource` | crates/cja-build/src/tailwind.rs:162-432 | in an accepted file the `source(` outside strings, comments and escapes are, in number, the counted root imports |
| `TailwindSpec.RootFormReads` | crates/cja-build/src/tailwind.rs:371-373 | the root form is the quoted word and ` source(none)`, byte for byte |
| `TailwindStarts.ContentIsExact` | crates/cja-build/src/tailwind.rs:174-285 | at every loop head outside a custom property value, the content flag is clear exactly when only blanks and comments lie since the file start or since the brace or semicolon that ended a statement |
| `TailwindStarts.FoundOnlyAtStarts` | crates/cja-build/src/tailwind.rs:320-411 | imports, source directories and root imports are found only at such starts |
| `TailwindWords.AllowedRulesRead` | crates/cja-build/src/tailwind.rs:50-68 | the seventeen rule names, spelled out |
| `TailwindWords.MiscasedRulesRead` | crates/cja-build/src/tailwind.rs:451-463 | a name is refused for its case exactly when its lower-case form is an allowed or one of the four excluded names, and differs |
| `TailwindWords.RuleNameMeans` | crates/cja-build/src/tailwind.rs:286-319 | which bytes behind an `@` are read as a rule name |
| `TailwindWords.CssExtensionReads` | crates/cja-build/src/tailwind.rs:530-532 | the extension is `css` exactly when the last component ends in `.css` and has something in front of it |
| `TailwindAccepts.WrittenSheetsAreAccepted` | crates/cja-build/src/tailwind.rs:162-432 | every sheet of comments, imports, sources, root imports, declarations, custom properties, other rules and nested blocks that is written by the rules is accepted, with or without a byte order mark, and yields exactly the imports, sources and roots in it, in order |
| `TailwindNesting.RoundParses` | crates/cja-build/src/tailwind.rs:174-411 | each round keeps the open brackets of the grammar in step with the scanner's counters and closer stack |
| `TailwindNesting.AcceptedIsNested` | crates/cja-build/src/tailwind.rs:162-432 | the plain bytes of an accepted file are the text of a forest: blocks, parentheses without braces inside, values at statement starts, groups closed by their own kind |
| `TailwindNesting.StrayParenthesisAccepted` | crates/cja-build/src/tailwind.rs:212-233 | `--a:)` is accepted |
| `TailwindNesting.AcceptedBalances` | crates/cja-build/src/tailwind.rs:174-274 | braces never close too early and all close; for every parse of the file, parentheses do so exactly when no value holds a stray one |
| `TailwindBalance.RoundLevel` | crates/cja-build/src/tailwind.rs:174-274 | a round keeps what counting parentheses in the rest of the file says, but for a `)` directly inside a custom property value |
| `TailwindBalance.ParenthesesBalanceIff` | crates/cja-build/src/tailwind.rs:212-233 | in an accepted file parentheses balance exactly when no round of the scanner meets a `)` in a custom property value with an empty closer stack |
| `TailwindUtf8.LexemeEndsOnBoundary` | crates/cja-build/src/tailwind.rs:102-108 | comments, strings and accepted escapes end between characters, also when an escape inside lands within one |
| `TailwindUtf8.AlwaysOnBoundary` | crates/cja-build/src/tailwind.rs:162-432 | over valid UTF-8 every loop head is in range and between characters |
| `TailwindUtf8.LiteralOnBoundary` | crates/cja-build/src/tailwind.rs:515-525 | the inside of an accepted literal is cut between characters |
| `TailwindUtf8.ValidIsEncoded` | crates/cja-build/src/tailwind.rs:668-669 | the files read as text are exactly the encodings of sequences of Unicode scalar values |
| `TailwindScanner.SkipComment` | crates/cja-build/src/tailwind.rs:434-449 | ends after the first unescaped end of comment |
| `TailwindScanner.SkipString` | crates/cja-build/src/tailwind.rs:497-513 | ends after the first unescaped matching quote |
| `TailwindScanner.ReadSourceToken` | crates/cja-build/src/tailwind.rs:111-129 | the loop over the letters is `source_token`'s specification |
| `TailwindScanner.SourceFree` | crates/cja-build/src/tailwind.rs:141-160 | no `source(` at a plain position of the statement |
| `TailwindScanner.FindStatementEnd` | crates/cja-build/src/tailwind.rs:339-360 | the statement's semicolon, or an error before it |
| `TailwindScanner.ReadAtRule` | crates/cja-build/src/tailwind.rs:276-334 | the round at `@`, with every slice between characters |
| `TailwindScanner.ReadGraphRule` | crates/cja-build/src/tailwind.rs:320-411 | the import or source statement, with every slice between characters |
| `TailwindScanner.ReadInCustom` | crates/cja-build/src/tailwind.rs:193-234 | the round inside a custom property value |
| `TailwindScanner.ScanDirectives` | crates/cja-build/src/tailwind.rs:162-432 | terminates on every valid UTF-8 input with indices in range and slices between characters, and computes the specification |
| `TailwindImports.WalkIsLinkFree` | crates/cja-build/src/tailwind.rs:534-561 | whatever is pushed and popped, no ancestor of the walked path is a symbolic link |
| `TailwindImports.ConfinedIsSafe` | crates/cja-build/src/tailwind.rs:534-594 | a confined path lies under the root, outside `target`, has the right kind and is reached without symbolic links |
| `TailwindImports.Confine` | crates/cja-build/src/tailwind.rs:534-594 | the loop over the components computes the specification |
| `TailwindPaths.ParentFollows` | crates/cja-build/src/tailwind.rs:534-594 | `../t` from a link-free directory names what `t` names from the directory above |
| `TailwindPaths.DotFollows` | crates/cja-build/src/tailwind.rs:534-594 | `./t`, and `t` behind a repeated slash, name what `t` names |
| `TailwindPaths.NameFollows` | crates/cja-build/src/tailwind.rs:534-594 | `name/t` names what `t` names from the directory `name`, and is refused when that is a symbolic link |
| `TailwindPaths.LastFollows` | crates/cja-build/src/tailwind.rs:534-594 | the last component means the same with and without a slash behind it |
| `TailwindPaths.ConfinedMeans` | crates/cja-build/src/tailwind.rs:534-594 | a path is confined exactly when the walk meets no link and the canonical path lies under the root, has no component `target` below it and is a directory or file as asked |
| `TailwindPaths.SourcesMean` | crates/cja-build/src/tailwind.rs:681-693 | which lists of source directories pass, and exactly what they add to the set and the watch list |
| `TailwindPaths.PageMeans` | crates/cja-build/src/tailwind.rs:646-706 | which files pass on their own, as the root file and as an imported one |
| `TailwindVisit.VisitState.AddSources` | crates/cja-build/src/tailwind.rs:683-696 | adds each named directory once, with its ignore files to watch |
| `TailwindVisit.VisitState.Visit` | crates/cja-build/src/tailwind.rs:646-706 | terminates on every file system; on success `seen` gains exactly the visited files, the chain is restored, sources and watches gain exactly what is named |
| `TailwindVisit.VisitState.VisitImports` | crates/cja-build/src/tailwind.rs:701-704 | the import loop: each import confined, then visited, in order |
| `TailwindVisit.ValidateCss` | crates/cja-build/src/tailwind.rs:604-644 | the whole check of an input file returns the file and its watch list |
| `TailwindVisit.InputMeans` | crates/cja-build/src/tailwind.rs:604-643 | the input passes exactly when it is confined and has none of the four configuration files beside it |
| `TailwindTree.VisitIsTreeCheck` | crates/cja-build/src/tailwind.rs:646-706 | a visit succeeds exactly when the imports unfold to a finite tree without a repeated or already seen file, visited in its order |
| `TailwindTree.AcceptedGraphIsTree` | crates/cja-build/src/tailwind.rs:653-664 | on success exactly the reachable files were seen, each once, each but the root imported exactly once and the root never: no cycle, no sharing |
| `TailwindTree.AcceptedGraphIsConfined` | crates/cja-build/src/tailwind.rs:676-704 | every visited file lies under the root outside `target`; only the root file has sources and the one root import |
| `TransportRetry.RunLoop` | crates/cja-llm/src/transport.rs:682-763 | the loop's attempts, delays and stop are those of a valid run, and it finishes exactly when the exchange of its last attempt was a success in time |
| `TransportRetry.StaleKeyOnce` | crates/cja-llm/src/transport.rs:718-719 | the stale key is retried at most once and never by the last attempt |
| `TransportRetry.PunctualStops` | crates/cja-llm/src/transport.rs:698-763 | without lateness: no attempt exactly when there is no time at all, and the loop stops by its last attempt or for lack of attempts |
| `TransportRetry.DelaysAreBounded` | crates/cja-llm/src/transport.rs:1013-1040 | a `Retry-After` is kept exactly up to the maximum, any other delay is at most the exponential ceiling |
| `TransportRetry.CeilingIsExponential` | crates/cja-llm/src/transport.rs:1025-1035 | exactly when the saturated ceiling is the plain exponential |
| `TransportRetry.AttemptEndsInTime` | crates/cja-llm/src/transport.rs:770-975 | connect, send and body waits, each cut at the deadline, end an attempt that starts in time by the deadline, whatever the network does |
| `TransportRetry.BilledRetry` | crates/cja-llm/src/transport.rs:799-1022 | a request that may have been billed is retried only on a reply complete before the deadline with status 429, 5xx or an available stale key |
| `TransportRetry.RetriedOnlyWhenSafe` | crates/cja-llm/src/transport.rs:682-763 | an attempt after one that may have been billed follows only a complete 429, server error, or the first stale virtual key of the run |
| `TransportRetry.WithinDeadline` | crates/cja-llm/src/transport.rs:691-752 | attempts start and end, and sleeps end, before the deadline |
| `TransportRetry.ReturnsByDeadline` | crates/cja-llm/src/transport.rs:682-763 | the loop returns by the deadline, but for the lateness of its last look at the clock |
| `TransportRetry.DoneExactly` | crates/cja-llm/src/transport.rs:770-929 | an attempt is done exactly when connection, request and head come in time, the status is 2xx, and the call streams or its complete body comes in time |
| `TransportRetry.RetryExactly` | crates/cja-llm/src/transport.rs:770-1002 | an attempt is retried exactly on a failed or late connection, a recovered request, or a reply in time that is 429, 5xx or an available stale key, with the `Retry-After` of the header exactly for 429 and 5xx |
| `TransportRetry.FailsExactly` | crates/cja-llm/src/transport.rs:770-1002 | every other ending, with its error |
| `TransportRetry.EndsExactly` | crates/cja-llm/src/transport.rs:770-975 | when an attempt is over |
| `TransportRetry.RunIsExact` | crates/cja-llm/src/transport.rs:682-763 | how a run goes on and ends, by the exchanges alone: at most the allowed attempts, each but the last retried for one of the reasons, and the outcome that of the last attempt |
| `TransportRetry.GivesUpForTimeOnly` | crates/cja-llm/src/transport.rs:737-752 | a run gives up on a retryable attempt with attempts left only when the delay reaches the deadline or the loop wakes up past it |
| `TransportScan.UsageScanner.Scan` | crates/cja-llm/src/transport.rs:570-598 | one call reads all complete lines, keeps the unfinished one up to 64 KiB, and returns the last usage it found |
| `TransportScan.ScanStream` | crates/cja-llm/src/transport.rs:520-530 | a scanner fed the chunks of a stream ends in the fold of its calls |
| `TransportScan.LatestWins` | crates/cja-llm/src/transport.rs:593-597 | an earlier usage is replaced exactly when the call found one |
| `TransportScan.ChunkingDoesNotMatter` | crates/cja-llm/src/transport.rs:551-610 | for every split of a stream whose complete lines are at most 64 KiB the scanner ends as a plain reading of the lines |
| `TransportScan.ChunkingNeverMattersIffShort` | crates/cja-llm/src/transport.rs:551-610 | all splits of a stream read alike, whatever its lines mean, exactly when every complete line is at most 64 KiB |
| `TransportScan.LongLineDependsOnChunking` | crates/cja-llm/src/transport.rs:590-592 | a longer line is read when it arrives whole and forgotten when its newline comes later |
| `TransportScan.LongLineReadOrForgotten` | crates/cja-llm/src/transport.rs:590-592 | the two readings differ as soon as the line means something |
| `TransportScan.LinesSplit` | crates/cja-llm/src/transport.rs:570-576 | the lines read and the rest kept are the stream, cut behind each newline and nowhere else |
| `TransportScan.StreamMeans` | crates/cja-llm/src/transport.rs:551-610 | fed a stream of short lines in any chunks, the scanner has seen the end marker exactly when some complete line is `data: [DONE]`, and holds the usage of the last complete line that reports one |
| `TransportStream.ReadCapped` | crates/cja-llm/src/transport.rs:374-401 | the first 64 KiB of the body, and whether the deadline passed before they or the end arrived |
| `TransportStream.StreamState.Next` | crates/cja-llm/src/transport.rs:515-552 | trailers are passed over, a chunk is scanned and handed on, and whatever ends the body fires the completion event |
| `TransportStream.StreamState.EmitCompletion` | crates/cja-llm/src/transport.rs:465-489 | the completion event fires at most once |
| `TransportStream.StreamState.Close` | crates/cja-llm/src/transport.rs:492-505 | a stream dropped before the `[DONE]` line fires no event, after it exactly one |
| `Base64Url.Base64urlToBuffer` | crates/cja-passkey/frontend/src/passkey-client.ts:7-16 | the padding loop and the byte loop compute the decoding, or fail as `atob` does |
| `Base64Url.BufferToBase64url` | crates/cja-passkey/frontend/src/passkey-client.ts:18-28 | the byte loop and the replacements compute the encoding |
| `Base64Url.EncodeIsUrlSafe` | crates/cja-passkey/frontend/src/passkey-client.ts:18-28 | the encoding is RFC 4648 section 5 without padding over its alphabet alone, and the padding loop restores exactly what was stripped |
| `Base64Url.RoundTrip` | crates/cja-passkey/frontend/src/passkey-client.ts:7-28 | decoding the encoding of any bytes returns them |
| `Base64Url.DecodeAccepts` | crates/cja-passkey/frontend/src/passkey-client.ts:7-16 | exactly which texts decode |
| `Base64Url.UrlSafeLength` | crates/cja-passkey/frontend/src/passkey-client.ts:24-27 | the length of the encoding and the padding it lacks |
| `Base64Url.EncodingMeans` | crates/cja-passkey/frontend/src/passkey-client.ts:18-28 | the encoding group by group: the base 64 digits of the group's number in the URL alphabet, spelled out, and then the encoding of the rest |
| `Base64Url.DecodingMeans` | crates/cja-passkey/frontend/src/passkey-client.ts:7-16 | the decoding group by group, whatever the spare bits of a last short group are |

## Left out

- rig's run: only its append-only messages, open calls, collected results and token count are modelled; model and tool
  replies are arbitrary.
- Columns no decision reads: usage counters, error texts, model and app names, creation times.
- Job backoff (`run_at`), priorities and worker pools: a job row may be taken whenever it is free or expired, which allows
  more behaviours than the queue does.
- One token for each worker: a worker that takes its own expired job row again owns it under the same token, so a late
  `DELETE` of its earlier attempt could hit the row; with one token for each attempt that cannot happen here.
- Dead-lettering an expired row is one step; in the queue it is a reclaim and then a second transaction, which may fail and
  leave the reclaimed row without a handler until it expires again.
- A database error inside `start`, `answer` or `cancel`: it has committed or rolled back, which is the same as a call or none.
- `advance_run` and `with_lease_guards` are steps of a transition system, not loops in one method: what matters about them
  is that every other attempt may act between two of their statements.
- `NOW()` is the moment a statement commits; in `DurableLease` it is only known to lie between sending and answering.
- Crash-injection counters, tracing, redaction and the wording of errors; in the Tailwind check every error is one value.
- The file system is a set of functions that does not change during a validation; symbolic links below a source directory
  and ignore-file discovery are two of these functions. Windows path prefixes are not modelled.
- UTF-8 and JSON decoding of a stream's lines and of error bodies, TLS, dialing, hyper and connection teardown: parameters
  of the model.
- The jitter is a real fraction of the ceiling, rounded down; the rounding of floating point is not modelled.
- `atob` is RFC 4648 section 4; the whitespace the browser's version skips is not modelled.
- TailwindNesting.AcceptedIsNested: says what accepted files look like, not which files are accepted; strings and escapes are
  not part of the grammar.
- TailwindAccepts.WrittenSheetsAreAccepted: the sheets of its grammar are not all files the check accepts; semicolons and at-rules
  inside parentheses, and closers of custom property values without a partner, are not written by it.
- TransportRetry.ReturnsByDeadline: between two awaited operations no time passes, except that the loop may come late to the
  processor before it looks at the clock.
- DurableOrphan.NoOrphanEver: says nothing once a job row of the run was dead-lettered, as the comment in the source does.
