# Verified models of the hard parts of the repository

A Dafny 4.11 project that models six components and proves properties of the models. `dafny verify dfyconfig.toml`
checks all of it.

| part | modules | what is modelled |
|---|---|---|
| Argon2 | `Argon2Instance`, `ReferenceIndex`, `Blocks`, `Lanes`, `FillSegment`, `Schedules`, `FillMemory`, `CarriedState`, with `Bits` and `Arith` | memory sizing, the reference window, both segment functions, the threaded fill with its joins |
| Argon2 hash strings | `Base64Chars`, `Base64`, `Decimal`, `HashString` | the text codec, its loops and bit accumulators |
| Session repair | `RepairPlan`, `RepairSessions`, `RepairJournal`, `Repair`, `RepairHistories` | planning, applying, resuming and rolling back, over a disk on which the process may stop before any atomic step |
| Host streams | `HostLog`, `StreamReader`, `StreamLane` | the host's log and its pages, the reader, the lane that schedules it |
| Dialog queue | `Outbox`, `OutboxSafety`, `OutboxRuns`, `RestoreHarm`, `RestoreKept`, `RestoreLost`, `RestoreIntent` | the durable outbox as a state machine over its waits, what it keeps, what its calls come to, and when exactly a restore intent survives |
| Smaller cores | `Harness`, `HarnessNames`, `Wire`, `WireMeaning`, `QueryStream`, `Prune` | identity dialects in JSON, the SDK's event queue, the log pruner |

How the sources' own terms are kept:

- C integers are `nat` with every wrap written out (`Wrap32`, `Wrap64`), bit operations included; memory and text
  buffers are arrays changed in place. The Blake2 permutation is a parameter, the same for both segment functions.
- The loops of the Python and TypeScript sources are methods on classes with the same fields. Each is proved against a
  specification, and the results above the methods are about those specifications.
- A stop of the repair is a limit on the number of steps the process lives; every limit is covered. Digests are taken
  to be injective, so contents stand for digests.
- What happens at a host or on a wire is a script about which nothing is known.

Where the code and what is said about it part, the models follow the code:

- A Base64 or hash text with a negative `char` is accepted but does not print back (`Base64.EncodeOfParse`), and one
  without a version field prints with one (`HashString.PrintOfParse`).
- `argon2_encodedlen` is exact for two-digit versions only (`HashString.EncodedLengthIsExact`).
- The pruner's size ceiling is applied after the safety line and the tail that is to be kept (`Prune.SafetyHolds`,
  `Prune.TailIsKept`).
- Every resumption and rollback of a repair makes the list of snapshot dependencies again and refuses when it differs
  from the plan's. A copy the repair itself made can lie where another operation found nothing, and then neither a
  resumption nor a rollback is possible any more (`RepairHistories.ClashIsAccepted`, `RepairHistories.FinishThenUndo`).
- A committed restore intent can be undone by what was there before it: a refresh that has read the storage, a retry
  under way, or a retry or an equal submission that was called and has to wait (`RestoreIntent.PrepareRestoreExactly`,
  with the exact condition).
- `loadOlder` speaks of the turns the transcript has, but counts every turn emitted since the stream was opened, also
  those dropped at a restart (`StreamReader.TestsAgree`, with the exact condition, and
  `StreamReader.ReadsPastAnOlderTurn`).

## Model

| member | source | states |
|---|---|---|
| Argon2Instance.SizingIsValid | src/shared/argon2/argon2.c:53-77 | Inputs that pass `validate_inputs` give an instance whose wrapped 32-bit sizes are the intended ones: four equal segments of at least two blocks per lane, and all but fewer than four blocks per lane of the requested memory, with the version, passes, lanes and type that were asked for and no more threads than lanes. |
| Argon2Instance.AcceptedExactly | src/shared/argon2/core.c:388-513 | The contexts `validate_inputs` accepts, as conditions over the integers: the wrap of the product it compares the memory with lets none in. |
| Argon2Instance.RefusalMeans | src/shared/argon2/core.c:388-513 | A refusal names a condition that does fail. |
| ReferenceIndex.IndexAlphaIsRfc | src/shared/argon2/core.c:189-257 | For every valid instance, position and 32-bit word, no wrap of the C arithmetic shows: `index_alpha` is the RFC 9106 formula over the integers, counted cyclically from the start of the window. |
| ReferenceIndex.IndexAlphaInWindow | src/shared/argon2/core.c:189-257 | The column it returns is one the RFC allows, said without counting: inside the lane, filled already, not the block being built nor its predecessor in the same lane, and outside the running slice of other lanes. |
| ReferenceIndex.WindowIsArea | src/shared/argon2/core.c:189-257 | The allowed columns are exactly the cyclic range whose size the code computes, in both directions, for every pass, slice and index. |
| ReferenceIndex.AreaDoesNotWrap | src/shared/argon2/core.c:199-244 | The reference area is at least 1 and below the lane length, and the `uint32_t` expressions for it and for the start never wrap. |
| Blocks.FillBlockRef | src/shared/argon2/ref.c:39-81 | The reference block function: two rounds of the permutation over the XOR of two blocks, with the old block mixed in on later passes. |
| Blocks.FillBlockOpt | src/shared/argon2/opt.c:110-146 | The optimised one, which keeps the previous block in a state buffer, gives the same block and leaves it in the buffer. |
| Bits.XorBits | src/shared/argon2/core.c:66-71 | The exclusive or that blocks are made of is the bitwise one: a bit is set where exactly one operand has it. |
| FillSegment.FillSegmentRef | src/shared/argon2/ref.c:90-194 | The in-place loop of the simple file equals the step-by-step specification of a segment, for every instance and position. |
| FillSegment.FillSegmentOpt | src/shared/argon2/opt.c:174-283 | The loop of the fast file, which carries the predecessor block in `state` across the `prev_offset` rotation and the XOR passes, leaves the same memory: it meets the very specification the simple one meets. |
| FillSegment.AddressesByKind | src/shared/argon2/ref.c:104-107 | Where addresses come from, by type: Argon2i, and Argon2id in the first half of its first pass, take a word of the address blocks, so that reference lane and column are the same for any two memories; Argon2d, and Argon2id otherwise, take the first word of the predecessor block. |
| FillSegment.InputWords | src/shared/argon2/ref.c:109-119 | The block that addresses are generated from: pass, lane, slice, memory size, passes, type and counter, and zeros. |
| FillSegment.TakeAddress | src/shared/argon2/ref.c:83-88 | In data-independent mode the word used at index i is word i mod 128 of the address block generated with counter i/128 + 1, whether the segment starts at 0 or at 2. |
| FillSegment.SelectReference | src/shared/argon2/ref.c:162-179 | The offset of the reference block is that of the lane and column the specification names, and lies inside the memory. |
| Schedules.NoRace | src/shared/argon2/core.c:292-372 | Two lanes in one slice: neither writes what the other may read or write. |
| Schedules.ScheduleIndependence | src/shared/argon2/core.c:260-372 | Any interleaving of the per-block steps of the lanes of a slice gives the memory of filling the lanes one after the other. It holds of every block function that reads only what it may. |
| FillMemory.Argon2Respects | src/shared/argon2/core.c:189-257 | Argon2 is such a block function, because of the `index_alpha` window. |
| FillMemory.FillMemorySt | src/shared/argon2/core.c:260-276 | The single-threaded loops compute the fill that the other results speak of, with either segment function. |
| FillMemory.Barrier | src/shared/argon2/core.c:333-362 | When the joins let the next slice start, every lane has finished and the memory is the sequential one up to that slice. |
| FillMemory.MultiThreadedIsSequential | src/shared/argon2/core.c:292-372 | Every complete run of the threaded fill - thread starts, per-block steps in any order, joins, slices - ends with the memory of the sequential fill. |
| FillMemory.ThreadBound | src/shared/argon2/core.c:317-362 | Never more threads than `threads` are outstanding, and no thread is joined twice. |
| FillMemory.NoDeadlock | src/shared/argon2/core.c:292-372 | Until the last pass is over something can always happen. |
| FillMemory.EveryRunIsFinite | src/shared/argon2/core.c:292-372 | There is a bound on the number of actions of every run, whatever the interleaving: passes times slices times what a slice can use up. |
| CarriedState.CarryingIsSequential | src/shared/argon2/opt.c:174-283 | The threads of the fast file carry their last block in `state` and do not read it back: every complete run of such threads, under any interleaving of copies and block steps, also ends with the memory of the sequential fill. |
| CarriedState.CarryingIsRun | src/shared/argon2/opt.c:174-283 | Because what a thread carries is at every moment the predecessor of its next block, so that each such run is a run of the threads that reread memory. |
| CarriedState.CarryingGoesOn | src/shared/argon2/opt.c:174-283 | Nor do they get stuck. |
| FillMemory.OldContentIsIrrelevant | src/shared/argon2/core.c:260-372 | Apart from the first two blocks of each lane, what the memory held before has no influence on the result: no block is read before it is written. |
| Base64Chars.ByteToCharIsAlphabet | src/shared/argon2/encoding.c:83-88 | The branch-free character computation is the Base64 alphabet. |
| Base64Chars.CharToByteIsValue | src/shared/argon2/encoding.c:93-102 | Its inverse gives the value of an alphabet character and 0xFF for the other codes, for every signed `char`; a negative one counts as 63. |
| Base64.ToBase64 | src/shared/argon2/encoding.c:111-150 | The accumulator loop writes exactly the specified text and its terminator, or refuses and writes nothing, exactly by the stated room; nothing outside is touched. |
| Base64.FromBase64 | src/shared/argon2/encoding.c:160-199 | The reading loop accepts, stops and stores exactly as the specification says, never beyond the capacity; the unmasked accumulator holds the pending bits throughout. |
| Base64.BytesOfGroups | src/shared/argon2/encoding.c:111-150 | Regrouping bytes into sextets and back is the identity, for every length. |
| Base64.GroupsOfBytes | src/shared/argon2/encoding.c:160-199 | And the other way round for every group sequence with zero leftover bits. |
| Base64.ParseOfEncode | src/shared/argon2/encoding.c:160-199 | Reading what was printed gives the bytes back and stops after them, in any context, exactly when they fit. |
| Base64.EncodeOfParse | src/shared/argon2/encoding.c:160-199 | An accepted text is what its bytes print to exactly when it has no negative `char`. |
| Base64.NegativeCharAccepted | src/shared/argon2/encoding.c:93-102 | An input on which it fails. |
| Decimal.DecodeDecimal | src/shared/argon2/encoding.c:208-240 | The overflow-checked loop accepts exactly the minimal decimals up to the largest `unsigned long` and gives their value. |
| Decimal.ParseOfDec | src/shared/argon2/encoding.c:208-240 | Reading a printed number gives it back exactly when it is in range. |
| Decimal.DecOfParse | src/shared/argon2/encoding.c:208-240 | An accepted number is what its value prints to. |
| Decimal.NumLen | src/shared/argon2/encoding.c:454-462 | `numlen` is the length of the printed number. |
| HashString.EncodeString | src/shared/argon2/encoding.c:372-437 | Writes exactly the specified text for a valid context, fails with the validation error otherwise, and runs out of room exactly when text and terminator do not fit; with a version of two digits it succeeds exactly when the buffer has at least the `argon2_encodedlen` bytes. |
| HashString.PrintedText | src/shared/argon2/encoding.c:372-437 | The printed text, in its own letters: type, `$v=` and the version, `$m=`, `,t=` and `,p=` with the three costs, and salt and output after dollar signs. |
| HashString.DecodeString | src/shared/argon2/encoding.c:257-358 | The reading loops give the status and context the specification gives, for every text and buffer size, also the context a refused text leaves partly overwritten. |
| HashString.ParseOfPrint | src/shared/argon2/encoding.c:257-358 | Every printed string is read back to the same version, costs, lanes, salt and output. |
| HashString.PrintOfParse | src/shared/argon2/encoding.c:257-437 | A text accepted to its end is what its fields print to exactly when it has a version field and no negative `char`. |
| HashString.DecodeOfEncode | src/shared/argon2/encoding.c:257-437 | `decode_string` after `encode_string` of a valid context succeeds and returns the same parameters. |
| HashString.EncodeOfDecode | src/shared/argon2/encoding.c:257-437 | After a successful `decode_string` the context is valid, and prints to the text it came from exactly under that condition. |
| HashString.EncodedLengthIsExact | src/shared/argon2/argon2.c:447-452 | `argon2_encodedlen` is exactly what `encode_string` needs if and only if the version has two digits, and how far off it is otherwise. |
| HashString.NegativeHashAccepted | src/shared/argon2/encoding.c:93-102 | In every accepted hash string each slash may be replaced by any negative `char`: the result is accepted with the same context, and no context prints to it. |
| HashString.SlashInHash | src/shared/argon2/encoding.c:83-88 | There are such strings: a salt of eight bytes of ones prints with a slash. |
| RepairPlan.Accept | scripts/recovery/repair-session-storage.py:663-680 | The two dictionary loops and the filter keep exactly the candidates without a conflict, in order. |
| RepairPlan.AcceptedExactly | scripts/recovery/repair-session-storage.py:663-680 | A candidate is accepted if and only if no other claims its target and no snapshot it needs is wanted with another content. |
| RepairPlan.AcceptedIsConflictFree | scripts/recovery/repair-session-storage.py:601-685 | Accepted operations touch pairwise different directories and want one content per snapshot path. |
| RepairPlan.OrderIsIrrelevant | scripts/recovery/repair-session-storage.py:601-685 | Carrying out accepted operations in any two orders gives the same sessions and snapshots. |
| RepairSessions.AcceptedFits | scripts/recovery/repair-session-storage.py:601-685 | The plan made of what the scan found fits the data that was scanned. |
| RepairSessions.CheckSessions | scripts/recovery/repair-session-storage.py:783-808 | The location, identity, layout and catalog check passes if and only if every session it looks at is where and as the plan says and the catalogs, computed step by step, end up as those of the data; a repair in progress always passes it again, whatever the mixture of moved and unmoved sessions; a first run that passes it has found every session as planned. |
| RepairSessions.ExpectedCatalogs | scripts/recovery/repair-session-storage.py:759-767 | The predicted catalogs are those of the repaired sessions. |
| RepairSessions.TracksNext | scripts/recovery/repair-session-storage.py:783-808 | The invariant of that check: the running expectation follows the actual tree session by session. |
| RepairJournal.ChecksMakePlanned | scripts/recovery/repair-session-storage.py:914-931 | A first run that passes all checks has found exactly the data the plan was made for, so everything after needs no assumption about the disk. |
| RepairJournal.UnderWayIsValid | scripts/recovery/repair-session-storage.py:688-756 | Validation, with the list of snapshot dependencies made again, rejects a repair or rollback in progress if and only if a copy the repair made lies where another of its operations did without a snapshot. |
| RepairJournal.UnderWayIsIntact | scripts/recovery/repair-session-storage.py:878-904 | Nor does the check of the backup. |
| RepairJournal.ExactlyOnePlace | scripts/recovery/repair-session-storage.py:783-800 | At every moment a session to be moved is at exactly one of its two places, with all its files, each as it was or, for identity files, as it will be. |
| Repair.Disk.PrepareBackup | scripts/recovery/repair-session-storage.py:848-875 | The journal appears last, and until then a stop leaves all data as it was. |
| Repair.Disk.CopyAsset | scripts/recovery/repair-session-storage.py:947-963 | A snapshot copy is recorded before it is made; the check never refuses a copy of an earlier attempt. |
| Repair.Disk.RepairSession | scripts/recovery/repair-session-storage.py:964-970 | Moves and rewrites one session from wherever an earlier attempt stopped, keeping the invariant before every step. |
| Repair.Disk.PrepareIndexes | scripts/recovery/repair-session-storage.py:971-981 | The new indexes are rendered from the repaired sessions and recorded before any index is overwritten. |
| Repair.Disk.WriteControls | scripts/recovery/repair-session-storage.py:982-987 | After it every index is the recorded one and the search caches are gone. |
| Repair.Disk.Apply | scripts/recovery/repair-session-storage.py:914-993 | First or resumed application, stopped after any number of steps: the invariant holds; it refuses if and only if one of its checks fails, among them that the backup is not being and has not been rolled back; a refusal changes nothing; once the journal exists and no rollback began it refuses if and only if such a copy has been made; finishing gives the repaired state; a completed repair is left exactly as it is; without a stop it finishes. |
| Repair.Disk.Rollback | scripts/recovery/repair-session-storage.py:996-1043 | From any point of a repair or of an earlier rollback: it refuses if and only if there is no journal or such a copy is there, keeps the invariant if stopped, and when it finishes every session, index, cache and snapshot is what it was. |
| RepairHistories.RunAll | scripts/recovery/repair-session-storage.py:914-1043 | Any history of applications and rollbacks, each stopped anywhere, keeps the invariant. |
| RepairHistories.UndoAnything | scripts/recovery/repair-session-storage.py:996-1043 | After any such history, one rollback left to finish restores the original data exactly, unless such a copy is there; for plans without a clash it always does. |
| RepairHistories.CompleteAnything | scripts/recovery/repair-session-storage.py:914-993 | However often an application is stopped, one left to finish reaches the result of an uninterrupted one, or refuses with nothing changed, or is blocked by such a copy; plans without a clash are never blocked. |
| RepairHistories.FinishThenUndo | scripts/recovery/repair-session-storage.py:688-756 | A first application that finishes can be repeated and rolled back if and only if the plan has no clash: no new copy of one operation lies where another does without. |
| RepairHistories.ApplyToUndone | scripts/recovery/repair-session-storage.py:914-923 | Once a rollback has begun, any number of applications with that backup is refused, and neither data nor backup change. |
| RepairHistories.UndoneForGood | scripts/recovery/repair-session-storage.py:914-1043 | After any history and a finished rollback the data are the original ones, and stay so whatever is applied with that backup. |
| RepairHistories.ValidThroughoutExactly | scripts/recovery/repair-session-storage.py:688-756 | Of any plan that fits the data: validation accepts every moment of every run if and only if the plan has no clash. |
| RepairHistories.ClashIsAccepted | scripts/recovery/repair-session-storage.py:489-548 | A concrete pair of operations that the planner accepts, that fits the data, and that clashes. |
| HostLog.MoveEvolves | src/crates/services/services-integrations/src/remote_connect/host_stream.rs:181-246 | What a host may do on its own: records move up when updated, history is backfilled below everything, events are evicted, epochs restart; whatever it does, a later log relates to an earlier one as stated. |
| HostLog.RangeIs | src/crates/services/services-integrations/src/remote_connect/host_stream.rs:330-388 | A page has exactly the retained events of its range, ascending. |
| HostLog.AnswerIs | src/crates/services/services-integrations/src/remote_connect/host_stream.rs:330-380 | An answer has the retained events of one range that starts or ends where the request says, and `has_more` exactly when there are more beyond it, or history may be. |
| HostLog.AppendMoves | src/crates/services/services-integrations/src/remote_connect/host_stream.rs:181-246 | An update moves its record above everything there was; the other events stay. |
| HostLog.Transport.Read | src/crates/services/services-integrations/src/remote_connect/host_stream.rs:330-388 | An answer is given at one moment between the request and its arrival, while the host keeps moving. |
| StreamReader.Reader.Resync | src/shared/relay-transport/HostStream.ts:156-165 | The latest page starts a replica that covers the log from its first event on. |
| StreamReader.Reader.CatchUp | src/shared/relay-transport/HostStream.ts:167-183 | Reading forward page by page keeps the coverage while records move between pages, hands nothing over twice, and ends no earlier than the newest event there was at the start. It fails if and only if a read brought no page; otherwise the last page decides: another epoch means a restart, its own without more to come means success, and what was handed over are the events of the pages of its own epoch. |
| StreamReader.Reader.Refresh | src/shared/relay-transport/HostStream.ts:184-188 | It succeeds if and only if every page arrived. Within an epoch the cursor never decreases and what was shown stays; what was shown is dropped if and only if a page shows a restart, once, and that leads to another epoch. |
| StreamReader.Reader.LoadOlder | src/shared/relay-transport/HostStream.ts:189-214 | Reading backward keeps the coverage; it succeeds if and only if every page arrived and none shows a restart; it reads on exactly while there is more history and no page has shown a turn not emitted before, up to four pages, and reports what the last page said. While every emitted turn is in the transcript that stays so, and the promise about turns the transcript has is kept. |
| StreamReader.TestsAgree | src/shared/relay-transport/HostStream.ts:195-203 | The promise of `loadOlder` speaks of turns the transcript has, its test of turns ever emitted: the two agree on every page if and only if every turn ever emitted is in the transcript, as before the first restart. |
| StreamReader.PageTestsAgree | src/shared/relay-transport/HostStream.ts:195-203 | On one page they agree if and only if not all its turns were emitted or all are in the transcript. |
| StreamReader.ReadsPastAnOlderTurn | src/shared/relay-transport/HostStream.ts:195-210 | A run in which they do not: after a restart the first page of history shows a turn the transcript lacks, and `loadOlder` reads on past it. |
| StreamReader.ForwardPageKeeps | src/shared/relay-transport/HostStream.ts:167-183 | One forward page, for any page size: coverage and single delivery up to the next cursor. |
| StreamReader.BackwardPageKeeps | src/shared/relay-transport/HostStream.ts:189-214 | One backward page, for any page size: coverage down to the new oldest mark, and nothing is retained below it when the host reports no more. |
| StreamReader.EvolvingKeeps | src/shared/relay-transport/HostStream.ts:131-145 | Nothing the host does on its own breaks the coverage. |
| StreamReader.EmittingKeeps | src/shared/relay-transport/HostStream.ts:146-152 | Of every record the host still retains, handing over a page leaves the consumer with the retained version if it was in the page or was what the consumer had. |
| StreamReader.FullReplica | src/shared/relay-transport/HostStream.ts:156-214 | Caught up and with all history read, the consumer has every retained event, and of every record the version the host has. |
| StreamReader.IgnoredHint | src/shared/relay-transport/HostStream.ts:215-218 | Ignoring a hint that is not new loses nothing. |
| StreamReader.PresentHint | src/shared/relay-transport/HostStream.ts:215-218 | A hint of what the host has at present is ignored exactly by a reader that has caught up with it. |
| StreamReader.Follow | src/shared/relay-transport/HostStream.ts:156-214 | All of this for a reader over its whole life, in any order of requests, with anything happening on the host and on the wire. |
| StreamLane.Lane.Invalidate | src/shared/relay-transport/HostStream.ts:261-262 | Whatever wakes an open stream leads to a drain or to an armed retry. |
| StreamLane.Lane.LoadOlder | src/shared/relay-transport/HostStream.ts:282-285 | A request accepted by an open stream is queued behind the others, with a drain running or a retry armed; a closed one accepts none. |
| StreamLane.Serve | src/shared/relay-transport/HostStream.ts:236-260 | An accepted request is served: the lane always has a next piece to run or an answer or timer to wait for, and after a number of pieces that grows by four with each request ahead and by five with each failed refresh it is settled, whatever else comes in meanwhile. |
| StreamLane.Happen | src/shared/relay-transport/HostStream.ts:229-286 | Each piece brings every waiting request closer to its end, and no hint, wake-up or later request moves it further away. |
| StreamLane.ComesToRest | src/shared/relay-transport/HostStream.ts:229-262 | No busy loop: each wake-up and request costs the lane seven pieces at most and each failed refresh five; a lane without a next piece has nothing left to do. |
| StreamLane.Lane.OlderEnds | src/shared/relay-transport/HostStream.ts:243-245 | Whatever its outcome, a served request is settled, once. |
| StreamLane.Lane.Handle | src/shared/relay-transport/HostStream.ts:250-256 | Success resets the delay and leaves the rest alone; failure marks the stream dirty, arms the timer and doubles the delay up to its bound, unless the stream was closed. |
| StreamLane.Lane.Finally | src/shared/relay-transport/HostStream.ts:256-259 | What came in after the loop had ended starts the next drain. |
| StreamLane.Lane.Close | src/shared/relay-transport/HostStream.ts:272-280 | Closing rejects every queued request, once, disarms the timer, and leaves what was settled. |
| StreamLane.Run | src/shared/relay-transport/HostStream.ts:229-286 | For every sequence of hints, requests, answers, failures, timer events and closing: at most one drain, nothing forgotten while open, every request settled at most once and none left waiting when closed. |
| OutboxSafety.InvNext | src/shared/dialog-queue/HostDialogQueue.ts:98-265 | The invariant of all interleavings of refresh, the chain of mutations with the calls that wait in it, receipts, the pending list, restore intents and dismissals: acknowledged records name messages the host took over at a revision the view has reached. |
| OutboxSafety.NeverLost | src/shared/dialog-queue/HostDialogQueue.ts:147-172 | A message stored before it was sent stays stored until the host has taken it over, has refused it, or the user has dismissed it - over any interleaving and any closing and reopening of the page. |
| OutboxSafety.LeavesOnly | src/shared/dialog-queue/HostDialogQueue.ts:147-172 | The only steps that remove a submission are a collection of an acknowledged record of the same epoch that the snapshot no longer lists, a definite refusal, and a dismissal. |
| OutboxSafety.CurrentIsFresh | src/shared/dialog-queue/HostDialogQueue.ts:123-135 | The snapshot a refresh compares a record with is no older than that record's acknowledgement. |
| OutboxSafety.ViewNeverDecreases | src/shared/dialog-queue/HostDialogQueue.ts:108-116 | Within a page the published snapshot never goes back to an earlier epoch or a lower revision. |
| OutboxRuns.SubmissionBegins | src/shared/dialog-queue/HostDialogQueue.ts:173-192 | A submission sends a new message under its own key; one equal to a pending message is that message again, the first of them; and one prepared with another queue is refused. |
| OutboxRuns.Delivered | src/shared/dialog-queue/HostDialogQueue.ts:147-172 | A transmission with nothing in between: an acknowledged message is stored as accepted and the host has it, an acknowledged request of another kind is stored no more, and nothing else in the storage changes. |
| OutboxRuns.Refused | src/shared/dialog-queue/HostDialogQueue.ts:162-166 | A definite refusal leaves neither record nor message. |
| OutboxRuns.Unanswered | src/shared/dialog-queue/HostDialogQueue.ts:153-172 | Without an answer, or when the queue is another one, the record stays stored as it was sent. |
| OutboxRuns.RetryGoesOn | src/shared/dialog-queue/HostDialogQueue.ts:222-241 | A retry works on the record it was called with, and only while its queue is there. |
| OutboxRuns.RetryFindsReceipt | src/shared/dialog-queue/HostDialogQueue.ts:230-239 | A retried message that the host has is stored as accepted and not sent again. |
| OutboxRuns.RetryFindsNone | src/shared/dialog-queue/HostDialogQueue.ts:230-241 | Any other is sent again as it is stored. |
| OutboxRuns.RefreshCollects | src/shared/dialog-queue/HostDialogQueue.ts:117-135 | A refresh with nothing in between, on any storage: it takes the acceptance back from exactly the messages of a queue that is gone, forgets exactly those that this queue accepted and has no more, and leaves all other records, drafts being restored and requests in flight as they are. |
| OutboxRuns.RefreshPublishes | src/shared/dialog-queue/HostDialogQueue.ts:101-107 | And then shows exactly the stored requests that are doubtful or being restored and not in flight. |
| OutboxRuns.Dismisses | src/shared/dialog-queue/HostDialogQueue.ts:261-265 | A dismissal forgets its record and nothing else, and asks nothing of the host. |
| OutboxRuns.ReceiptShown | src/shared/dialog-queue/HostDialogQueue.ts:108-116 | An answer to `receipt` is shown unless it is of another queue or older than what is shown. |
| OutboxRuns.StoresIntent | src/shared/dialog-queue/HostDialogQueue.ts:242-248 | The restore intent is stored with the whole record, and nothing else changes. |
| RestoreIntent.KeptExactly | src/shared/dialog-queue/HostDialogQueue.ts:98-265 | In every state the invariant holds of, so in every reachable one: a stored restore intent survives every run in which the caller makes no new call to dismiss the record, or to send it or an equal message from a copy without the intent, and the host does not refuse it, if and only if nothing harmful is under way or waiting: in the refresh, in the mutation at the head of the chain, in a call made before that waits for its turn or its refresh, in a dismissal. |
| RestoreIntent.PrepareRestoreExactly | src/shared/dialog-queue/HostDialogQueue.ts:242-248 | `prepareRestore` keeps its promise if and only if nothing of that kind is under way or waiting when the intent is stored. |
| RestoreIntent.QuietPage | src/shared/dialog-queue/HostDialogQueue.ts:242-248 | What a caller can look at: with no refresh under way, and no mutation, waiting call or dismissal about that record, nothing does harm. |
| RestoreIntent.WaitingRetryBreaksPromise | src/shared/dialog-queue/HostDialogQueue.ts:222-248 | A run: `retry` waits for its refresh when the intent is stored, and then stores the record without it, although the caller did nothing more. |
| RestoreIntent.QueuedRetryBreaksPromise | src/shared/dialog-queue/HostDialogQueue.ts:142-146 | The same from a retry queued behind the mutation of another record, with no refresh under way. |
| RestoreIntent.EqualMessageBreaksPromise | src/shared/dialog-queue/HostDialogQueue.ts:173-192 | And from a waiting submission of an equal message that finds the record in the published pending list. |
| RestoreIntent.RefreshBreaksPromise | src/shared/dialog-queue/HostDialogQueue.ts:123-135 | A concrete state in which a refresh breaks the promise: it has read an acknowledged record that the host lists no more. |
| RestoreIntent.RetryBreaksPromise | src/shared/dialog-queue/HostDialogQueue.ts:242-248 | A concrete state in which a retry breaks it: it is about to store its copy once more. |
| Harness.IdentityLastWins | src/shared/agent-harness/wire.ts:5-9 | On identities: translating to one dialect and then to another is translating to the other. |
| Harness.DialectsAgree | src/shared/agent-harness/wire.ts:5-9 | Two identities are one in a dialect exactly when they are one in every dialect. |
| HarnessNames.RecognisedExactly | src/shared/agent-harness/contract.generated.ts:5-36 | Which identities are recognised: exactly the listed words, in any mixture of capital and small letters and with any white space around them. |
| HarnessNames.IdentityIsNameIn | src/shared/agent-harness/wire.ts:5-9 | Every identity, agent or profile, in both dialects: the translation is the name the tables have for it, `coding_shared` and the standard names exchange for profiles, and any other identity stays. |
| HarnessNames.OnlyName | src/shared/agent-harness/wire.ts:5-9 | A translated identity is no name of the other dialect. |
| Wire.MergeProfileRecords | src/shared/agent-harness/wire.ts:22-34 | The recursive merge with its insertion-ordered map computes the specified merge, or fails exactly where that does. |
| Wire.TranslateProfileMap | src/shared/agent-harness/wire.ts:41-50 | So does the loop over a profile map. |
| Wire.MergeAgrees | src/shared/agent-harness/wire.ts:22-34 | Merging two profiles succeeds in one dialect exactly when it does in the other, with results that are translations of each other. |
| WireMeaning.MergeExactly | src/shared/agent-harness/wire.ts:22-34 | Two configurations merge if and only if there is no path at which they set different values, and then the result has every setting of both and no other. |
| WireMeaning.ProfileMapMeans | src/shared/agent-harness/wire.ts:41-50 | A profile map is translated to one profile for each name in the dialect, in order of first appearance, with everything that was configured under any alias of it; it fails only when the configurations of a name cannot be merged. |
| WireMeaning.TranslateExactly | src/shared/agent-harness/wire.ts:72-91 | Every JSON tree, without reference to the code: the translation has the names of the tables for every agent field, catalog id, id list, profile id and profile map outside foreign records and text, and changes nothing else; it fails if and only if the configurations of some profile cannot be merged. |
| WireMeaning.TranslatedSpeaks | src/shared/agent-harness/wire.ts:72-91 | So what was translated to a dialect has no name of the other anywhere in it. |
| Wire.ProfileMapLastWins | src/shared/agent-harness/wire.ts:41-50 | Profile maps with any number of colliding aliases: both dialects fail alike, and the last dialect wins. |
| Wire.TranslateLastWins | src/shared/agent-harness/wire.ts:72-91 | The same for every JSON tree. |
| Wire.DialectRoundTrips | src/shared/agent-harness/wire.ts:72-91 | Canonical after legacy is canonical, legacy after canonical is legacy, and both are idempotent, on every tree. |
| QueryStream.Query.Push | sdk/typescript/src/query.ts:350-376 | An item goes to the first waiting call or else to the end of the buffer; it is refused exactly when no call waits and an item or byte cap would be exceeded, and then nothing changes but the abort. |
| QueryStream.Query.OnEvent | sdk/typescript/src/query.ts:171-230 | An event is accepted if and only if it is of this query, in time, next in sequence and no repeated permission request; it is handed on exactly if a call waits or the buffer has room, and otherwise nothing the consumer sees changes. |
| QueryStream.Query.OnResult | sdk/typescript/src/query.ts:298-332 | The result is accepted if and only if it is of this query and the first; if there is room it ends the stream and releases every waiting call. |
| QueryStream.Query.Next | sdk/typescript/src/query.ts:378-393 | A call gets the oldest buffered item, or the end, or waits its turn. |
| QueryStream.Query.OnConnectionFailure | sdk/typescript/src/query.ts:395-407 | A failure rejects every waiting call and leaves the buffered items to be read, unless the stream was over. |
| QueryStream.Run | sdk/typescript/src/query.ts:171-407 | Any stream and any consumer: the k-th call gets the k-th item, a call beyond the items waits or learns how the stream ended, and the rest of the items is in the buffer. The query refuses something if and only if the host goes out of order - sequence, identity, repeated permissions, anything after the end, or more than the consumer has room for - and otherwise hands over exactly what the host sent. |
| Prune.BoundarySeq | deploy/relay-v1/prune-legacy-message-log.py:55-77 | The binary search over a log with a pruned prefix finds the exact boundary. |
| Prune.PruneSession | deploy/relay-v1/prune-legacy-message-log.py:80-157 | One session: the batches delete exactly the messages that have `max_msgs` newer sequences or are outside both windows and the tail, and change nothing else; an old message outside the tail is gone, and nothing of a session that is all tail. |
| Prune.SizeCeiling | deploy/relay-v1/prune-legacy-message-log.py:80-101 | At most `max_msgs` messages are left. |
| Prune.NewerOnesStay | deploy/relay-v1/prune-legacy-message-log.py:80-101 | A message within a window or the tail goes only if the newest `max_msgs` all stay. |
| Prune.SafetyHolds | deploy/relay-v1/prune-legacy-message-log.py:16-16 | The description says that nothing newer than the safety line is deleted: that holds if and only if the newest message with `max_msgs` newer ones is older than the line, or the session is all tail. |
| Prune.SafetyFails | deploy/relay-v1/prune-legacy-message-log.py:97-98 | An input on which it does not. |
| Prune.TailIsKept | deploy/relay-v1/prune-legacy-message-log.py:17-17 | It says too that every session keeps its newest `min_keep` messages: that holds if and only if the newest `max_msgs` reach back to that tail, or the messages between are gone already, or the session is all tail. |
| Prune.TailFails | deploy/relay-v1/prune-legacy-message-log.py:97-98 | An input on which it does not. |

## Left out

Argon2 and hash strings:

- The Blake2 rounds, the initial hash, the first two blocks of each lane and the final tag: the first is a parameter,
  the others come before and after the fill.
- Allocation, wiping of memory, callbacks and the thread library; a thread is a sequence of steps.
- The branch that joins again after a failed thread creation: the runs covered are those in which creation succeeds.
- `ARGON2_MAX_MEMORY` is the value of a 64-bit host.
- The bytes a refused text leaves in the salt and output buffers.
- Positions inside a lane are sums (`SliceStart`, `LaneBase`) that lemmas show to be the products of the source.

Session repair:

- The workspace registry, the inference of identities and owners, link checks, the detection of open hosts and the
  lock file: the repaired documents are inputs.
- Reading session histories to find snapshot references: an operation comes with the snapshots it needs and with the
  places that were looked at and empty. The rest of what `snapshot_assets` reads is among the copied files.
- Creation and removal of empty parent directories, and temporary files inside an atomic write.
- Directories are maps of files; empty subdirectories, such as one a stopped write leaves behind, are not seen.
- The full session copies in the backup are made and checked, but no step restores from them.
- Lists of journal entries are maps, so the results hold for every order in which they are worked through.
- Changes to the data by others between two runs.
- Repair.Disk.Apply: takes plans as the planner makes them, with one content per snapshot path and catalog entries equal
  to the metadata before; `RepairSessions.AcceptedFits` and `RepairSessions.PlannedIsWellMade` show that they are.

Host streams:

- Parsing of pages and hints, error texts, and the stream identity check, which ends a read like any other failure.
- The host's page limits: a page may be cut anywhere. Its eviction policy: any event may be evicted.
- Epochs of a host are never reused; the source draws them from clock and random bits.
- Emission to a stream that was closed while a page was on its way, and callbacks that call back into the lane before
  the first wait of a drain.
- StreamLane.Serve: counts pieces and answers, not time, because an answer may never come.

Dialog queue:

- IndexedDB, several pages or clients on one storage, and drafts. What two messages have in common when they are equal
  is an abstract value (`body`).
- Which of its own pending requests `act` takes up again, and the checks of `act` and `reorder` before they send.
- Ids of turns and of other operations are told apart, as both are random.

Smaller cores:

- Paths, commands and replies around the tree translation (`configPath`, `configValue`), which only select what to
  translate.
- Lower case beyond ASCII, which leads to no alias, and the order JavaScript gives integer-like keys, the same in both
  dialects.
- Requests of the SDK for cancelling and closing, the request that answers a permission, and the mapping of results.
- The database, vacuum and reports around the pruner; batches of fewer than one row, on which the source does not end.
- The easing of tail offsets: a case expression over two numbers.
