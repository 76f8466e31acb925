# A verified model of the Feldera/DBSP core protocols

This project models the parts of the repository in which correctness hangs on the order of
updates, on bit positions or on a fixed point, and proves what those parts are for. All
main results are for-all statements: over every run, every input, every layout.

- **I/O controller** (`Controller*.dfy`). The input probes, the circuit thread, the output
  threads, the backpressure thread, a client and a caller of `pipeline_complete` are one
  state machine. A step is one access to an atomic, a queue or a parker token, so a run is
  any interleaving. `ControllerInvariant` proves one invariant over all runs;
  `ControllerTheorems` draws the guarantees from it; `ControllerWitnesses` builds the runs
  that break the two promises the code does not keep, and shows exactly when it keeps them;
  `ControllerCompletion` proves that every run completes once all inputs have ended, and
  `ControllerStranded` that this needs the condition of the first of the two promises.
  `ControllerAnswers` proves that every answer of `pipeline_complete` is the truth, and
  `ControllerBatching` when the circuit takes a step.
- **CSV adapter** (`Csv*.dfy`). Incremental parser, buffered handle, probe and encoder as
  classes, specified by functions about which chunking and round-trip laws are proved. The
  csv crate is taken as: split at newlines, skip empty lines, decode each line or fail.
- **JIT rows** (`Memory.dfy`, `JitLayout.dfy`, `JitRow.dfy`). Layout computation from a
  row type, packed null flags, writing a literal into uninitialised bytes, reading it back.
- **Recursive queries** (`ZSets.dfy`, `Galen.dfy`, `Paths.dfy`). The Galen join plan and the path query
  over Z-sets, closed through `distinct`, against their Datalog rules.
- **Consolidation** (`Consolidation.dfy`), **Nexmark channels, collector and generators**
  (`BatchedChannel.dfy`, `Collector.dfy`, `NexmarkSource.dfy`, `NexmarkOrder.dfy`) and the
  **compile-job loop** (`Compiler*.dfy`).

`Basics.dfy` and `Sums.dfy` hold what several modules share.

## What the code does not do as documented

- `ControllerStatus::eoi` wakes the circuit thread only when the minimal batch size is
  crossed (stats.rs:334-338). `input_batch` also does so when the counter was 0, and the
  untimed park relies on that: `LostWakeupExactly` gives the exact condition, and
  `RestIsCompleteExactly` the harm: the pipeline then can come to rest with records left.
- The two functions also disagree on the threshold: `input_batch` wakes the circuit thread
  when the counter exceeds the minimum, `eoi` when it reaches it. So an end of input can
  exceed the minimum while the thread sleeps out its delay: `OversleepsExactly`.
- The module documentation of stats.rs accepts a small difference between the global and
  the per-endpoint counters. If one batch can fill an endpoint, the difference can leave it
  paused with nothing to reset it: `StarvationExactly`.
- `cancel_project` tests `status != Pending || !is_compiling()`, which always holds, so it
  never cancels anything: `CancelDoesNothing`. Hence the status test of the loop's wake-up
  never decides: `PollCancelsExactly`.
- `next_job` selects all pending projects with the smallest `status_since`, in whole
  seconds, and gets nothing when there are two: `TieBlocksQueue`, `TieHappens`.
- A guarded status write for a deleted project is an error that ends the compile loop for
  good: `EndsExactly`, `EndedForGood`; some run from every start with a project gets there:
  `EndHappens`.
- The Nexmark collector counts failed reads, not finished receivers, so it can stop early:
  `LosesNothingExactly`. It does so with `out_of_order_group_size` 10, two generators and
  nine events: `BrokenGroupLoses`. Two events share an id exactly when that size is a
  multiple of 953: `DistinctExactly`. A generator without events flushes an empty batch, on
  which the receiver panics: `NexmarkSource.Source`.
- `padding_bytes` is documented as all padding (layout.rs:328-329); the bytes behind the
  last field are not in it. `AllPaddingListedExactly` says when that matters,
  `UnlistedPadding` gives a row with seven such bytes.
- `CsvParser::eoi` keeps the leftover, so a second `eoi` delivers its record again:
  `EoiRepeatsExactly`, `EoiRepeats`.

## Model

| member | source | states |
|---|---|---|
| ControllerInvariant.InvInit | crates/adapters/src/controller/mod.rs:375-386 | The state in which all threads start, paused and with all counters 0, satisfies the whole invariant. |
| ControllerInvariant.InvStep | crates/adapters/src/controller/mod.rs:265-371 | Every step of every thread, from any state, keeps the whole invariant: counting, progress labels, output accounting, drift, wake-ups, completion reads, commands. |
| ControllerInvariant.InvRun | crates/adapters/src/controller/mod.rs:265-448 | The invariant holds in every state of every interleaving. |
| ControllerCounting.ProbeCounted | crates/adapters/src/controller/stats.rs:73-78 | Total before buffered: with every access of a probe, flushed = total + not yet totalled, and what was drained plus what is buffered accounts for what was added. |
| ControllerCounting.ResetCounted | crates/adapters/src/controller/stats.rs:234-239 | Erasing the global counter loses no record of the count. |
| ControllerProgress.ProgressCircuit | crates/adapters/src/controller/mod.rs:305-322 | Reset before reading the label: no step of the circuit thread makes a label exceed what its circuit step will have consumed. |
| ControllerOutputs.OutputMoveKeeps | crates/adapters/src/controller/mod.rs:776-796 | Each access of an output thread keeps its counter equal to queued plus held records, its batches in production order, and its label that of the last batch encoded. |
| ControllerOutputs.OutputsAnnounce | crates/adapters/src/controller/mod.rs:334-336 | Raising the statistics before queueing keeps every output endpoint's accounting. |
| ControllerOutputs.OutputsPush | crates/adapters/src/controller/mod.rs:338-342 | The push turns announced into queued records and keeps the queue in production order. |
| ControllerDrift.ProbeMoveKeeps | crates/adapters/src/controller/stats.rs:281-305 | With every access of a probe, its endpoint counter exceeds what it added to the global counter since the reset by at most one straddling batch. |
| ControllerWakeups.WakeableProbe | crates/adapters/src/controller/stats.rs:281-288 | A probe's accesses never leave a parked circuit thread with counted records and no pending unpark (given that end-of-input counts are safe). |
| ControllerWakeups.WakeableOutput | crates/adapters/src/controller/stats.rs:354-367 | An output thread's accesses never leave a parked circuit thread behind an output that has room again. |
| ControllerMonitor.TotalIsFinal | crates/adapters/src/controller/stats.rs:328-333 | Once every endpoint has its eoi flag, the total is exactly what was ever flushed. |
| ControllerMonitor.LabelMeansDelivered | crates/adapters/src/controller/mod.rs:338-341 | An endpoint labelled with the final record count has had the batch of every record-consuming step encoded. |
| ControllerBackpressure.ObeyKeeps | crates/adapters/src/controller/mod.rs:407-438 | Acting on one scanned endpoint keeps its commands alternating and the thread's local flags equal to what was commanded. |
| ControllerTheorems.CompleteIsSound | crates/adapters/src/controller/stats.rs:412-437 | In every interleaving, if `pipeline_complete` answers true, all inputs have ended, flushed = consumed = total, and at every endpoint the batch of every step that consumed a record was encoded, in its place. |
| ControllerAnswers.CompleteStays | crates/adapters/src/controller/stats.rs:412-437 | A completed pipeline stays completed, with the same total, at every later moment of the run, whatever the threads, the client and the transports do. |
| ControllerAnswers.TrueIsTrue | crates/adapters/src/controller/stats.rs:412-437 | In every interleaving, an answer true of `pipeline_complete` holds at the moment it is given: all inputs have ended, and the processed count and every label equal the total. |
| ControllerAnswers.FalseIsTrue | crates/adapters/src/controller/stats.rs:412-437 | In every interleaving, an answer false held at the read that gave it: some endpoint had not ended, or the processed count or some label differed from the total of that moment. |
| ControllerAnswers.CompleteAnswersTrue | crates/adapters/src/controller/stats.rs:412-437 | After completion no call answers false, in any order of its reads and between any steps of the other threads. |
| ControllerAnswers.CallIsShort | crates/adapters/src/controller/stats.rs:412-437 | The reads made by a call and the reads it has left are together at most one per endpoint and two more, whatever runs beside it. |
| ControllerAnswers.ReadsLower | crates/adapters/src/controller/stats.rs:412-437 | Every read leaves fewer reads, and none exactly when it answers. |
| ControllerAnswers.CanRead | crates/adapters/src/controller/stats.rs:412-437 | A call that has not answered is never blocked. |
| ControllerAnswers.AnswerAlone | crates/adapters/src/controller/stats.rs:412-437 | From every reachable state a call by itself leads to the answer true if and only if the pipeline is complete, and changes nothing else. |
| ControllerAnswers.EveryRunAnswersTrue | crates/adapters/src/controller/stats.rs:412-437 | Every run of the threads with ended inputs reaches a state in which a call answers true. |
| ControllerBatching.DecisionExactly | crates/adapters/src/controller/mod.rs:295-356 | In every run, a look at the counter that finds more than the minimum starts a step, one that finds none parks without a deadline, and any other starts a step only if the delay was started since the last step by a look that found records, but not more than the minimum. |
| ControllerBatching.ArmedSince | crates/adapters/src/controller/mod.rs:295-356 | The delay counts from a look that found too few records, with no step since. |
| ControllerBatching.ProbeUnparksExactly | crates/adapters/src/controller/stats.rs:281-305 | A probe goes on to unpark the circuit thread exactly if the counter left 0 or exceeded the minimum (at the end of input: reached it), and the backpressure thread exactly if its endpoint reached its limit. |
| ControllerBatching.OutputUnparksExactly | crates/adapters/src/controller/stats.rs:354-367 | An output thread goes on to unpark the circuit thread exactly if its counter came down to the limit or below from the limit or above. |
| ControllerBatching.OversleepsExactly | crates/adapters/src/controller/stats.rs:334-338 | The circuit thread can sleep out its delay, with no wake-up on its way, although the minimum is exceeded, if and only if outputs have room, there is a minimum and some endpoint that is ever started may end with records. |
| ControllerTheorems.StuckMeansComplete | crates/adapters/src/controller/mod.rs:265-363 | If no thread can move and all inputs have ended, `pipeline_complete` is true: the threads never come to rest with work left. |
| ControllerTheorems.StuckMeansStarted | crates/adapters/src/controller/mod.rs:405-440 | If no thread can move in state Running, every endpoint whose batches are below its limit has ended or was told to run. |
| ControllerTheorems.CircuitCanMove | crates/adapters/src/controller/mod.rs:284-363 | A circuit thread that is not parked without a token always has an enabled step. |
| ControllerTheorems.NoLostWakeup | crates/adapters/src/controller/mod.rs:288-293 | A circuit or output thread parked without a token has its reason to park intact, or another thread is between its update and its unpark. |
| ControllerTheorems.DriftIsOneBatch | crates/adapters/src/controller/stats.rs:234-252 | With the global counter at 0 and no reset under way, an endpoint's counter holds at most one batch. |
| ControllerTheorems.OutputAccounting | crates/adapters/src/controller/stats.rs:601-622 | An output counter equals queued + held + announced records, its subtraction never underflows, and it stays below its limit plus the latest batch. |
| ControllerTheorems.NothingStranded | crates/adapters/src/controller/mod.rs:295-324 | Outside the reset-to-read window total <= label + buffered + mid-update records; circuit steps never outnumber input records; labels never exceed what was consumed. |
| ControllerTheorems.LabelsNeverDecrease | crates/adapters/src/controller/stats.rs:608-611 | Between any two states of a run the processed count and every endpoint's label only grow, and stay at most what was consumed. |
| ControllerTheorems.CommandsAlternate | crates/adapters/src/controller/mod.rs:375-448 | Commands to each endpoint alternate from start, and after a scan an endpoint runs exactly when the scan saw Running and the endpoint not full. |
| ControllerTheorems.BackpressureIsFresh | crates/adapters/src/controller/stats.rs:299-304 | When the backpressure thread sleeps with no unpark on its way, what its last scan saw is still true. |
| ControllerWitnesses.LostWakeupExactly | crates/adapters/src/controller/stats.rs:334-338 | A reachable state with a lost wake-up exists if and only if outputs have room and some endpoint that is ever started may end with records that do not reach the minimal batch size. |
| ControllerWitnesses.StarvationExactly | crates/adapters/src/controller/stats.rs:267-306 | An endpoint can be left full and paused with nothing to reset it if and only if one of its batches may reach its limit. |
| ControllerWitnesses.StarvedStays | crates/adapters/src/controller/mod.rs:405-446 | A starved endpoint stays starved under every step but new data (another endpoint's, or what trails the pause on its own) or a client request. |
| ControllerBackpressure.LimitsMove | crates/adapters/src/controller/mod.rs:407-440 | An endpoint with limit 0 always reads as full and is never sent a command. |
| ControllerCompletion.StepLowers | crates/adapters/src/controller/mod.rs:265-448 | Once no probe is at work, every step of every thread lowers one lexicographic rank, unless it finds the armed buffering delay unexpired. |
| ControllerCompletion.EveryRunCompletes | crates/adapters/src/controller/stats.rs:412-437 | Every run of the threads from a reachable state with ended inputs, in which the delay is found unexpired only finitely often, reaches a state at rest in which `pipeline_complete` is true. |
| ControllerCompletion.ComesToRest | crates/adapters/src/controller/mod.rs:265-448 | From every reachable state with no probe at work some run brings all threads to rest. |
| ControllerCompletion.CanComplete | crates/adapters/src/controller/stats.rs:412-437 | No reachable state with ended inputs is a dead end: some run reaches `pipeline_complete`. |
| ControllerStranded.Strands | crates/adapters/src/controller/stats.rs:334-338 | If some end of input may fail to wake the circuit thread, a run comes to rest with all inputs ended and `pipeline_complete` false. |
| ControllerStranded.RestIsCompleteExactly | crates/adapters/src/controller/stats.rs:334-338 | For configurations whose inputs can all end and whose outputs have room, rest with ended inputs always means completion if and only if no end of input can fail to wake the circuit thread. |
| CsvLines.SplitOnNewline | crates/adapters/src/format/csv.rs:89-98 | The cut is behind the last newline: what precedes it ends with one, what follows has none. |
| CsvLines.LinesAppend | crates/adapters/src/format/csv.rs:115-119 | Text that ends with a newline can be split off without changing the lines. |
| CsvLines.LinesAreLines | crates/adapters/src/format/csv.rs:69-71 | No line of any text is empty, and none holds a newline. |
| CsvLines.NoEmptyLine | crates/adapters/src/format/csv.rs:69-71 | A newline by itself is no line. |
| CsvHandle.DecodeAllExactly | crates/adapters/src/format/csv.rs:71-84 | Decoding yields the records of the lines in front of the first that does not decode, each in its place, and succeeds if and only if there is no such line. |
| CsvHandle.DeZSetHandle.Insert | crates/adapters/src/deinput.rs:235-240 | Appends the decoded record with weight 1, or leaves the buffer alone and reports failure. |
| CsvHandle.DeZSetHandle.Delete | crates/adapters/src/deinput.rs:242-247 | Appends the decoded record with weight -1, or leaves the buffer alone and reports failure. |
| CsvHandle.DeZSetHandle.Flush | crates/adapters/src/deinput.rs:253-256 | Moves the whole buffer, in order, to the circuit's handle and empties it. |
| CsvHandle.DeZSetHandle.ClearBuffer | crates/adapters/src/deinput.rs:258-261 | Empties the buffer; nothing reaches the circuit. |
| CsvHandle.DeZSetHandle.Fork | crates/adapters/src/deinput.rs:263-266 | A fresh handle on the same stream with an empty buffer. |
| CsvInput.CsvParser.ParseFromReader | crates/adapters/src/format/csv.rs:62-85 | Inserts exactly the records before the first line that does not decode, counts them, and succeeds if and only if every line decodes. |
| CsvInput.CsvParser.Input | crates/adapters/src/format/csv.rs:102-131 | The loop meets `InputOutcome`: the completed lines are parsed and the incomplete one is kept, on failure as on success. |
| CsvInput.CsvParser.Eoi | crates/adapters/src/format/csv.rs:133-142 | Parses the leftover as a last line; an empty leftover is no record; the leftover is kept. |
| CsvInput.FedIsPrefix | crates/adapters/src/format/csv.rs:102-131 | However a stream is cut, parsed text and leftover together are the stream, the border is behind a newline, and the leftover has none. |
| CsvInput.ChunkingDoesNotMatter | crates/adapters/src/format/csv.rs:102-142 | For every stream whose lines all decode and every cutting, the records of all `input` calls and the final `eoi` are the decoded lines of the whole stream, in order. |
| CsvInput.ParseStream | crates/adapters/src/format/csv.rs:102-142 | Calling `input` chunk by chunk and then `eoi` leaves in the handle's buffer the decoded lines of the whole stream, if all of them decode. |
| CsvInput.InputProbe.Input | crates/adapters/src/controller/mod.rs:926-949 | A chunk is delivered as a whole or not at all, counts follow delivery, and the handle's buffer is empty between calls. |
| CsvInput.InputProbe.Eoi | crates/adapters/src/controller/mod.rs:951-970 | The same for the end of input; the leftover stays. |
| CsvInput.EoiRepeatsExactly | crates/adapters/src/format/csv.rs:133-142 | A second `eoi` delivers the record of the leftover again if and only if the leftover is not empty and decodes; otherwise both deliver nothing. |
| CsvInput.EoiRepeats | crates/adapters/src/format/csv.rs:133-142 | The leftover byte 65 is delivered twice by two `eoi` calls. |
| CsvInput.FeedProbe | crates/adapters/src/controller/mod.rs:926-949 | Any sequence of `input` calls on a new probe leaves the state that `AllOrNothing` speaks of. |
| CsvInput.AllOrNothing | crates/adapters/src/controller/mod.rs:926-949 | Over any chunks, chunk k contributes if and only if every line it completes decodes, and then all of them; the total counts exactly those records, and failed chunks leave the leftover that good ones would. |
| CsvOutput.CsvEncoder.WriteRow | crates/adapters/src/format/csv.rs:222-235 | One row more is written; a buffer is pushed exactly when it holds max(1, buffer_size_records) rows. |
| CsvOutput.CsvEncoder.Encode | crates/adapters/src/format/csv.rs:214-250 | The pushed buffers hold all rows in cursor order, none is empty and all but the last hold max(1, buffer_size_records) rows. |
| CsvOutput.TextIsRowLines | crates/adapters/src/format/csv.rs:222-228 | The written text is the encoded rows one after the other, each followed by a newline. |
| CsvOutput.EncodeDecode | crates/adapters/src/format/csv.rs:89-250 | Feeding the encoder's bytes to the parser under any re-chunking gives back the rows, for every invertible newline-free row codec. |
| JitLayout.Bitsets | crates/dataflow-jit/src/codegen/layout.rs:903-962 | Every flagged column gets one bit of one bitset in column order, no bitset overflows its width, and the widths are fixed by the number of flags: as many of 64 bits as fit, then of 32, of 16, and the rest in bytes. |
| JitLayout.PaddingAligns | crates/dataflow-jit/src/codegen/layout.rs:966-970 | The wrapping 32-bit formula pads less than the alignment and aligns, for all 32-bit sizes. |
| JitLayout.SortKeeps | crates/dataflow-jit/src/codegen/layout.rs:763-784 | Reordering ranks the fields and keeps them apart. |
| JitLayout.SortInOrder | crates/dataflow-jit/src/codegen/layout.rs:763-784 | An optimised row has its unit columns first and the other columns by falling size, pointers ahead of other columns of eight bytes, equals in column order; bitsets of more than eight bits precede all sized columns and those of eight bits follow the columns of eight bytes, as the sort key counts their size in bits. |
| JitLayout.SortPermutes | crates/dataflow-jit/src/codegen/layout.rs:763-784 | Reordering loses and repeats no field. |
| JitLayout.PlaceField | crates/dataflow-jit/src/codegen/layout.rs:800-872 | Placing one field keeps all placed ones, without overlap, aligned, with its padding listed; it fails only on 32-bit overflow. |
| JitLayout.FromRow | crates/dataflow-jit/src/codegen/layout.rs:727-898 | Every computed layout is valid (disjoint, aligned, every column and flag placed, tables agree); its fields are the listed columns and bitsets, in that order or, optimised, sorted; they are packed in their order, the padding is listed and the size is their end rounded up; one is computed for every row of fewer than 2^27 columns. |
| JitLayout.OptimisedHasNoPadding | crates/dataflow-jit/src/codegen/layout.rs:800-811 | An optimised row without nullable columns has no padding in front of any column: its list of padding bytes is empty. |
| JitLayout.UniformRow | crates/dataflow-jit/src/codegen/layout.rs:800-872 | A row of columns of one type without nulls is as large as its columns, with the width of each type by constructor. |
| JitLayout.AllPaddingListedExactly | crates/dataflow-jit/src/codegen/layout.rs:809-811 | `padding_bytes` lists all padding if and only if the last field ends at a multiple of the alignment. |
| JitLayout.UnlistedPadding | crates/dataflow-jit/src/codegen/layout.rs:874-876 | A U64 and a U8 column make a row of 16 bytes whose bytes 9 to 15 are neither covered nor listed. |
| JitRow.SetNullRead | crates/dataflow-jit/src/row.rs:91-143 | A flag just written is read back, for all bitset widths, shared or not, and for string pointers. |
| JitRow.SetNullOther | crates/dataflow-jit/src/row.rs:91-143 | Writing one column's flag leaves every other column's flag as it reads. |
| JitRow.OneFlagEntry | crates/dataflow-jit/src/codegen/layout.rs:448-456 | The occupant count of a column is that of the one bitset that holds its flag. |
| JitRow.FlagsRefineMap | crates/dataflow-jit/src/row.rs:157-183 | After any sequence of flag writes every column reads the value last set for it, or what it read before. |
| JitRow.FlagsKeepData | crates/dataflow-jit/src/row.rs:91-143 | No flag write changes a data byte of any column. |
| JitRow.ConstantRoundTrip | crates/dataflow-jit/src/facade.rs:310-339 | A constant written to a column of its type is read back from it, and by its constructor: a date as I32, a timestamp as I64, any other scalar as its own type, a string as text, a unit as unit. |
| JitRow.ScalarRanges | crates/dataflow-jit/src/facade.rs:310-339 | A scalar column accepts exactly the constants it is read as, by constructor, with the bit patterns of its width. |
| JitRow.ColumnRoundTrip | crates/dataflow-jit/src/row.rs:406-425 | A column written with its flag reads back, whatever the bytes were before. |
| JitRow.OtherColumn | crates/dataflow-jit/src/row.rs:406-425 | Writing one column changes what no other column reads. |
| JitRow.UninitRow.SetColumnNull | crates/dataflow-jit/src/row.rs:91-143 | The in-place update of the bytes is the specified flag write. |
| JitRow.UninitRow.WriteConstantTo | crates/dataflow-jit/src/row.rs:430-458 | The in-place write stores the constant's word at the offset and no other byte. |
| JitRow.RowFromLiteral | crates/dataflow-jit/src/row.rs:399-428 | The row reads as the literal, for every valid layout, well-typed literal and garbage in fresh memory. |
| JitRow.RowLiteralFromRow | crates/dataflow-jit/src/facade.rs:289-307 | Column by column, the literal is what the bytes and flags say, a date being an I32, a timestamp an I64, any other scalar of its own type, a string a text. |
| Memory.LoadByte | crates/dataflow-jit/src/row.rs:430-458 | Words are little-endian: byte i of a loaded word is the i-th byte in memory. |
| JitRow.RoundTrip | crates/dataflow-jit/src/facade.rs:289-339 | Layout, write, read: the literal comes back, for every row type of fewer than 2^27 columns. |
| Galen.Ir1IsRule1 | crates/dbsp/benches/galen.rs:182-184 | The first join chain holds exactly the first rule's body. |
| Galen.Ir2IsRule4 | crates/dbsp/benches/galen.rs:189-191 | The same for the fourth rule. |
| Galen.Ir3IsRule2 | crates/dbsp/benches/galen.rs:197-202 | The same for the second rule. |
| Galen.Ir4IsRule3 | crates/dbsp/benches/galen.rs:207-216 | The same for the third rule. |
| Galen.Ir5IsRule5 | crates/dbsp/benches/galen.rs:221-223 | The same for the fifth rule. |
| Galen.Ir6IsRule6 | crates/dbsp/benches/galen.rs:228-235 | The same for the sixth rule. |
| Galen.StepP | crates/dbsp/benches/galen.rs:167-247 | One round derives a pair exactly when it is given or follows by one rule. |
| Galen.StepQ | crates/dbsp/benches/galen.rs:167-247 | The same for triples. |
| Galen.Solve | crates/dbsp/src/operator/recursive.rs:255-293 | Rounds repeated until nothing changes terminate in a fixed point below every model that contains the start. |
| Galen.ResultIsLeastModel | crates/dbsp/benches/galen.rs:38-43 | For all finite inputs the result is the least p, q that contain the inputs and are closed under the six rules. |
| Paths.StepFollows | crates/dbsp/benches/path.rs:105-111 | One round derives the edges and all known paths prolonged by an edge, and nothing else. |
| Paths.PathsAreChains | crates/dbsp/benches/path.rs:83-111 | The recursion ends for every finite graph with exactly the pairs joined by a nonempty chain of edges. |
| ZSets.HasJoin | crates/dbsp/benches/galen.rs:182-184 | A join of indexed Z-sets holds exactly the combinations that agree on the key. |
| ZSets.JoinWeight | crates/dbsp/benches/galen.rs:182-184 | The weight of a joined element is the product of the weights of the two elements it joins. |
| ZSets.WeightAppend | crates/dbsp/benches/galen.rs:240-242 | `plus` adds weights. |
| ZSets.MapWeight | crates/dbsp/benches/galen.rs:170-180 | Re-indexing under a function that keeps elements apart keeps their weights. |
| ZSets.DistinctPositive | crates/dbsp/src/operator/recursive.rs:283-288 | On positive weights `distinct` keeps exactly the elements present. |
| ZSets.DistinctExactly | crates/dbsp/src/operator/recursive.rs:283-288 | For all weights, `distinct` keeps exactly the elements whose weights add up to something positive. |
| Consolidation.Unique | crates/dbsp/src/trace/consolidation/mod.rs:28-32 | Equal weights make equal canonical lists: there is one consolidated form. |
| Consolidation.WeightPermutation | crates/dbsp/benches/consolidation.rs:47-52 | Sorting changes no key's weight. |
| Consolidation.DedupBy | crates/dbsp/benches/consolidation.rs:53-60 | The in-place dedup yields the runs merged into their first records. |
| Consolidation.RetainNonZero | crates/dbsp/benches/consolidation.rs:61-61 | The in-place retain drops exactly the zero weights, in order. |
| Consolidation.ConsolidateSorted | crates/dbsp/src/trace/consolidation/mod.rs:32-52 | After its sort, `consolidate` leaves strictly increasing keys, no zero weight, and each key's sum of weights. |
| Consolidation.ConsolidateSliceInner | crates/dbsp/src/trace/consolidation/mod.rs:117-174 | The swapping compaction of a sorted slice returns the length of a prefix that is its consolidated form. |
| Consolidation.AbsorbAt | crates/dbsp/src/trace/consolidation/mod.rs:146-162 | One turn merges or swaps in one record and leaves the unread records alone. |
| Consolidation.VariantsAgree | crates/dbsp/benches/consolidation.rs:47-80 | Stable or unstable sort, vector or slice: all variants produce the one consolidated form of the input. |
| Consolidation.TwiceIsOnce | crates/dbsp/benches/consolidation.rs:47-63 | Consolidating again, its sort included, changes nothing. |
| BatchedChannel.BatchesFlatten | crates/nexmark/src/lib.rs:84-102 | The batches of a sender hold exactly the sent items, in order. |
| BatchedChannel.BatchesFull | crates/nexmark/src/lib.rs:84-96 | All batches but the last are full. |
| BatchedChannel.BatchesClean | crates/nexmark/src/lib.rs:84-102 | No batch is empty exactly when the batch size is positive and something was sent; otherwise the first one is empty. |
| BatchedChannel.BatchesSnoc | crates/nexmark/src/lib.rs:84-94 | One more item extends the last batch or opens a new one when that is full. |
| BatchedChannel.BatchedSender.Send | crates/nexmark/src/lib.rs:84-94 | The sender then carries the items before and the new one, in reference batches. |
| BatchedChannel.BatchedSender.Flush | crates/nexmark/src/lib.rs:96-102 | The channel then holds the reference batches of all items sent. |
| BatchedChannel.SendAll | crates/nexmark/src/lib.rs:155-160 | A generator thread puts exactly the batches of its events on its channel. |
| BatchedChannel.BatchedReceiver.Recv | crates/nexmark/src/lib.rs:53-61 | Items come out one by one in order; it fails exactly at the end and panics exactly on an empty batch. |
| Collector.RoundRobinTakes | crates/nexmark/src/lib.rs:169-178 | After r rounds the output holds exactly the first r items of every channel. |
| Collector.Collect | crates/nexmark/src/lib.rs:166-182 | The collector terminates; it panics exactly when a channel starts with an empty batch, and otherwise forwards whole rounds until the failed reads reach the number of channels, which fixes the number of rounds. |
| Collector.LosesNothingExactly | crates/nexmark/src/lib.rs:167-176 | No event is lost if and only if the channels together fall short of the longest less one by fewer events than there are channels. |
| Collector.EvenListsLoseNothing | crates/nexmark/src/lib.rs:166-182 | Channels whose lengths differ by at most one lose nothing. |
| NexmarkSource.WholeGroups | crates/nexmark/src/generator/config.rs:100-106 | If the maximum is a number of whole groups, an adjusted id is in range exactly when its event number is. |
| NexmarkSource.IdsAt | crates/nexmark/src/generator/mod.rs:45-49 | With whole groups, generator i has an event r, with the adjusted id of number i + r * n, exactly while that number is below the maximum. |
| NexmarkSource.SharesEven | crates/nexmark/src/generator/mod.rs:45-49 | With whole groups (size 1 included) the generators' event counts differ by at most one. |
| NexmarkSource.CollectedInOrder | crates/nexmark/src/lib.rs:164-182 | With whole groups, when the collector stops it has forwarded every event number below the maximum, in order. |
| NexmarkSource.BrokenGroupLoses | crates/nexmark/src/generator/config.rs:100-106 | Two generators, groups of ten, nine events: five events on one channel, one on the other, and the collector stops after three rounds with two events unread. |
| NexmarkSource.Drain | crates/nexmark/src/lib.rs:53-61 | Reading a channel to its end gives exactly what was sent, unless the first batch is empty. |
| NexmarkSource.Source | crates/nexmark/src/lib.rs:122-186 | For every group size: a receiver panics if and only if there is no generator, the batch size is 0 or some generator's first id is out of range; otherwise the consumer sees every generated event if and only if the shares are nearly even, and with whole groups it sees all event numbers in order. |
| NexmarkOrder.FirstOffset | crates/nexmark/src/generator/config.rs:100-106 | Event number 1 gets the id 953 in every group of more than 953. |
| NexmarkOrder.OffsetsAdd | crates/nexmark/src/generator/config.rs:100-106 | The place of a sum of event numbers in its group is the sum of their places, modulo the size of the group. |
| NexmarkOrder.DistinctExactly | crates/nexmark/src/generator/config.rs:100-106 | All events have different ids if and only if the size of a group is not a multiple of 953. |
| NexmarkOrder.EveryIdOnce | crates/nexmark/src/generator/config.rs:100-106 | With whole groups of such a size, the source forwards every id below the maximum exactly once. |
| CompilerInvariant.CodesKept | crates/pipeline_manager/src/db/mod.rs:429-469 | No request and no step of the loop changes the code of a version. |
| CompilerInvariant.InvStep | crates/pipeline_manager/src/compiler.rs:138-266 | Every request and every step of the loop keeps the invariant on versions, processes, statuses, executables and status writes. |
| CompilerInvariant.InvRun | crates/pipeline_manager/src/compiler.rs:138-266 | The invariant holds in every state of every interleaving. |
| CompilerTheorems.SuccessIsReal | crates/pipeline_manager/src/db/mod.rs:550-567 | A stored Success means that both stages passed on the code of the stored version and that the executable was built from that code. |
| CompilerTheorems.VerdictIsLast | crates/pipeline_manager/src/compiler.rs:178-236 | In every run a stored verdict is that of the last stage that ended on the stored version and its code: Success and RustError of the Rust compiler, CompilingRust of the SQL compiler, SqlError of one that failed with readable messages, SystemError otherwise. |
| CompilerTheorems.ExitExactly | crates/pipeline_manager/src/compiler.rs:178-236 | In every run, the end of a stage stores CompilingRust, Success, SqlError, RustError or SystemError as stage and outcome say, if and only if the project still has the version of the job; a passed SQL stage goes on as Rust job on the same code, anything else ends the job. |
| CompilerTheorems.CompilingExactly | crates/pipeline_manager/src/compiler.rs:170-207 | While the loop lives, a project shows as compiling exactly while the job of its current version runs, and shows that job's stage. |
| CompilerTheorems.OneProcess | crates/pipeline_manager/src/compiler.rs:160-199 | At most one compiler process runs, and it is the job's. |
| CompilerTheorems.PollCancelsExactly | crates/pipeline_manager/src/compiler.rs:146-165 | The wake-up cancels the job if and only if its project was deleted or has a new version. |
| CompilerTheorems.StatusWords | crates/pipeline_manager/src/compiler.rs:180-236 | The status writes of any run are job words one after the other: CompilingSql, then an error or CompilingRust, then an error or Success, cut short anywhere, each with one project and version. |
| CompilerTheorems.EndsExactly | crates/pipeline_manager/src/db/storage.rs:23-27 | The loop ends exactly by a failure of its own or when it writes the status of a deleted project. |
| CompilerTheorems.EndedForGood | crates/pipeline_manager/src/compiler.rs:131-136 | Once ended, the loop starts no process, writes no status and touches no file, for the rest of the run. |
| CompilerTheorems.DeletionEnds | crates/pipeline_manager/src/compiler.rs:174-236 | From every reachable state with a running job, deleting its project and letting its process finish ends the loop. |
| CompilerTheorems.JobStarts | crates/pipeline_manager/src/compiler.rs:240-262 | From every reachable idle state, a request for an idle project can lead to a job for its current version. |
| CompilerTheorems.CompileSucceeds | crates/pipeline_manager/src/compiler.rs:178-262 | From every reachable idle state, a request and two passing compilers lead to a stored Success and an executable of the stored code. |
| CompilerTheorems.NoStaleProgram | crates/pipeline_manager/src/compiler.rs:324-330 | While the SQL compiler runs on a project there is no Rust program of it, and when it ends there is one if and only if it succeeded. |
| CompilerTheorems.EndHappens | crates/pipeline_manager/src/compiler.rs:138-266 | From every start with a project, some run ends the loop. |
| CompilerTheorems.CancelDoesNothing | crates/pipeline_manager/src/db/storage.rs:77-94 | A request to cancel changes nothing, in any state. |
| CompilerTheorems.RequestExactly | crates/pipeline_manager/src/db/storage.rs:51-71 | A request queues the project if and only if it is idle and the version is current, and moves no project that is queued or compiling. |
| CompilerTheorems.NewProjectExactly | crates/pipeline_manager/src/db/mod.rs:402-425 | A new project gets an id that no project has or had, version 1 and no status. |
| CompilerTheorems.UpdateExactly | crates/pipeline_manager/src/db/mod.rs:429-469 | An update makes a new version, without status, if and only if the code differs; no other project changes. |
| CompilerTheorems.NextJobExactly | crates/pipeline_manager/src/db/mod.rs:593-605 | `next_job` has exactly one answer for every set of projects, and it is nothing if and only if no project waits or two have waited longest. |
| CompilerTheorems.TieBlocksQueue | crates/pipeline_manager/src/db/mod.rs:593-605 | Two projects tied at the head of the queue block it: nothing is picked until one of them is changed or deleted. |
| CompilerTheorems.TieHappens | crates/pipeline_manager/src/db/storage.rs:51-71 | From every reachable state with an empty queue, requests for two idle projects within one second lead to such a tie. |
| CompilerTheorems.TieHappensAtOnce | crates/pipeline_manager/src/db/storage.rs:51-71 | In particular, from every start with two projects. |

## Left out

- Controller: wrap-around of 64-bit counters, memory orderings (atomics are sequentially consistent), `stop` and the Terminated state, profiling, forked probes and several threads per endpoint, byte and batch counters, endpoints connected while running.
- Controller: `CollectionHandle::append` hands records to the workers one by one; in the model a flush is one step.
- ControllerCompletion.EveryRunCompletes: speaks of runs without requests from clients and without reads of the monitor; the buffering delay is a bound on unexpired looks, not a clock.
- ControllerTheorems.CompleteIsSound: assumes that circuit steps succeed; a step that fails still publishes its label (mod.rs:312-320), with nothing known about what it consumed.
- ControllerTheorems.NoLostWakeup: assumes safe end-of-input counts, which `LostWakeupExactly` shows to be necessary.
- CSV: quoting and line breaks in quotes, carriage returns, serializer errors; the weight is part of the row that the codec handles.
- CSV: the handles of sets and maps (`DeSetHandle`, `DeMapHandle`), which differ in what they buffer.
- JIT: code generation, vtables, allocation, string internals, `Ptr` columns, targets other than 64-bit, the layout cache; the standard library's stable sort is modelled by insertion.
- Queries: the incremental operators of the engine; a round is computed from whole relations. Weights of the inputs are positive, as the files give them.
- Consolidation: the standard library's sorts (any sorted permutation is allowed), the paired-slice variants and the quicksort; keys and weights are unbounded integers.
- Nexmark: the bound of three batches per channel, which only delays; a group size of 0, on which the generators divide by zero; wrap-around of 64-bit event numbers; the collector hands its output to its sender as a list.
- Compile loop: project names and configurations, the schema column, the text of error messages; a failed wait for a process counts as its end.
- Controller and compile loop: both are state machines over values and not classes, since other threads (or requests) interleave between any two accesses to the shared state.
- Transports, HTTP servers, the pipeline runner, the Python client and the web interface.
