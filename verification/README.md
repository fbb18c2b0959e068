# Model of the kernel-tuning, transfer and training-data core of gfaas

The project models the state machines of the gfaas SDK in Dafny and proves their
properties for every schedule, every server and every input. What runs elsewhere
(a GPU worker, an HTTP server, a factory of inputs, the operating system) is an
arbitrary function or an arbitrary choice; where a property needs more of it, the
assumption has a name and is stated beside the property.

| module | models |
|---|---|
| `Replication`, `Pruning` | `benchmark_shards`: waves of GPU jobs, merging in completion order, the global prune, retries until every survivor has its replicas |
| `Measurement` | `measure_entries` and `measure_candidates`: pilot, prune, refine, validate, prune, final |
| `InputRing` | the ring of input sets, interleaved trials and the final benchmark with CUDA graphs |
| `KernelCompilation` | `compile_shards`: job counts, strided chunks, bounded fail-fast dispatch, one row per variant |
| `Uploads` | `run_uploads`: a bounded window that drains on error |
| `Transfers` | `_receive` and `retry_request`: a download that resumes after any stop |
| `PartUploads` | `_transfer_artifact_parts`: parts, receipts, reconciliation and counters |
| `EventWatching`, `EventStream` | `EventWatcher` and its stream decoder |
| `TensorTransport` | `capture_inputs`, `snapshot_result`, `apply_result`, `apply_writes` |
| `TreeManifests` | the sorted entries of an upload, the validator of a manifest, the creation of a tree |
| `ChatRecords` | the encoder and the renderer of training conversations |
| `CheckpointBudget` | checkpoint intervals, numbered markers, publication |
| `RecordPreparation` | preparing one record and a corpus of them, and the errors that nothing handles |
| `WeightExpansion` | qualification of a corpus and the expansion of weights |
| `Outcomes`, `Sequences`, `Strings`, `Sorting`, `Arithmetic`, `Divisibility` | what these share |

Objects and loops that the SDK updates in place are classes and methods; each
method is proved against a specification whose own properties are lemmas. Runs of
concurrent code are recorded as sequences of events, and a predicate says which
sequences are lawful; completion order, cancellation and interruption are
nondeterministic choices inside the methods, so that what is proved holds for all
of them. Floating-point timings are real numbers, digests are functions that are
injective where a property says so, clocks only move forward, and JSON is a codec
that reads back what it writes.

## Where code and documentation differ

- `qualify_training_data` says that it represents weights with the smallest exact
  integer number of copies. The scale is the smallest that makes all copies whole,
  but the copies are the smallest exactly if the numerators of the weights have no
  common divisor (`WeightExpansion.FewestCopies`, `WeightExpansion.NotAlwaysFewest`).
- The command line qualifies a corpus with `maximum_samples` before it uploads it,
  and the remote function qualifies the result with the same maximum again. The
  first pass counts records and the second one counts their copies, so the second
  pass drops copies exactly if their total exceeds the maximum
  (`WeightExpansion.SecondPassKeeps`, `WeightExpansion.SecondPassDrops`).
- `qualify_training_data` counts records that it cannot prepare, but handles only type
  and value errors. A tool call without an id or a function name misses a key, and a
  record already in training format with a message or a call that has no fields asks
  for an attribute that is not there; either error ends the whole qualification
  (`RecordPreparation.Qualify` and `RecordPreparation.UnhandledExactly` say exactly
  when, `ChatRecords.MissingFieldExactly` for which conversations;
  `RecordPreparation.MissingIdAborts` and `RecordPreparation.FieldlessAborts` are
  examples).
- The encoder for chat records accepts conversations that the renderer refuses: a
  last group of calls of which only a part is answered, a tool without a name,
  arguments that are not an object (`ChatRecords.RoundTrip` gives the exact
  condition). Calls by other roles come back on an inserted assistant message.
- A download that stops after recording an empty artifact and before creating its
  body cannot be resumed: every further attempt fails on the missing file until the
  workspace expires (`Transfers.Workspace.Receive` says that exactly these states
  fail so, `Transfers.EmptyArtifactStuck` that they are reached).
- A server that answers a range request with the complete body makes a download
  start over; the bytes that were kept are discarded
  (`Transfers.CompleteAnswerDiscards`).
- The tuning guide says that the default checkpoint interval divides a run into
  four parts; it divides it into at most four, and into four exactly for runs of four,
  seven, eight, or ten and more steps (`CheckpointBudget.DefaultMayUseFewer`,
  `CheckpointBudget.DefaultUsesFour`).
- With one compile job the rows are in the worker's order, not in the caller's;
  only batches of several jobs are put in order (`KernelCompilation.OrderGuaranteed`,
  `KernelCompilation.ExchangedRows`).
- An input ring whose sets differ in allocated bytes can pass the check that graphs
  fit and then fail to be padded; `InputRing.Ring.Pad` gives the exact condition and
  `InputRing.PaddingMayExceed` an example.
- A returned tensor without elements is refused if its offset lies beyond its
  storage, although it addresses nothing; for all other views the check is exact
  (`TensorTransport.AcceptedIffInside`, `TensorTransport.EmptyViewRefused`).

## Model

| member | source | states |
|---|---|---|
| Replication.MergeRowSafe | src/gfaas/triton_replication.py:158-197 | However one reported row is merged, a configuration keeps at most the requested number of replicas, on distinct GPUs, each of them a positive timing that a worker reported; it never becomes measured again once it is not; and without a fault a measured one has no failed evaluation on any GPU |
| Replication.TimingsRecorded | src/gfaas/triton_replication.py:158-197 | What a run holds, in terms of the rows that the workers reported: whatever goes wrong, a measured row with a positive timing counts, unless there are enough, its GPU has one already or some evaluation failed; and without a fault the replicas of a configuration are exactly its first measured rows, and its status is the last that a row gave it before it had enough, or a measured one was pruned |
| Replication.FaultlessExactly | src/gfaas/triton_replication.py:158-200 | A run is without a fault exactly if every job was accepted, and no row was a reason for one: a failed evaluation after a timing, a measured row when the last status was a failed evaluation, or, while more timings are needed, a measured row whose timing is not positive or from a GPU that has one |
| Replication.MeanMeaning | src/gfaas/triton_replication.py:48-55 | The mean of a configuration times the number of its replicas is the sum of their timings |
| Replication.TotalMeaning | src/gfaas/triton_replication.py:53 | The sum over the replicas counts every timing once |
| Replication.LeastMeanIsLeast | src/gfaas/triton_replication.py:48-56 | The best that reduce compares against is attained by a measured configuration and exceeded by none; there is none exactly when nothing is measured |
| Replication.ReduceKeepsBest | src/gfaas/triton_replication.py:56-61 | The global prune never removes a configuration that has the best mean, and removes only slower ones |
| Replication.ReducedLater | src/gfaas/triton_replication.py:48-61 | Reducing leaves exact means on what stays measured, and touches neither replicas nor attempts nor other statuses |
| Replication.ReducedExactly | src/gfaas/triton_replication.py:48-61 | Reducing keeps a measured configuration exactly if its mean exceeds the best one by at most the share of it, or by at most the allowance, and prunes it otherwise |
| Replication.Tuning.Reduce | src/gfaas/triton_replication.py:48-61 | The loops over the states compute the reduction; no mean divides by zero, since every measured configuration has a replica |
| Replication.FaultBacked | src/gfaas/triton_replication.py:163-188 | A fault is raised only with evidence in the reports: a failed and a passed evaluation of the configuration, a timing that is not positive, or two timings from one GPU |
| Replication.GroupsPartition | src/gfaas/triton_replication.py:216-224 | Grouping by already measured GPUs loses no pending configuration and repeats none |
| Replication.GroupPending | src/gfaas/triton_replication.py:216-224 | The groups that the loop builds are those of the pending configurations, keyed by exactly the GPUs they were measured on |
| Replication.PlanJobs | src/gfaas/triton_replication.py:225-229 | The jobs of a retry wave partition the pending set, hold between one configuration and the job size, and exclude exactly the GPUs that their members were measured on |
| Replication.Tuning.Merge | src/gfaas/triton_replication.py:158-197 | One row is merged in place exactly as specified; the invariants of all configurations and the evidence of all faults survive |
| Replication.Tuning.MergeShard | src/gfaas/triton_replication.py:147-199 | One completed job extends the history by exactly what it answered, and the variables become those that the reply determines |
| Replication.Tuning.Wave | src/gfaas/triton_replication.py:140-201 | For every order of completion: the history grows by exactly the replies to the jobs of the wave, each once, the variables are those that the replies determine in that order, the invariants hold, and the wave succeeds exactly if there was no fault |
| Replication.JobObserved | src/gfaas/triton_replication.py:112-126 | An accepted reply to a job that excludes no GPU reports every variant of the job |
| Replication.DispatchMeaning | src/gfaas/triton_replication.py:99-138 | A reply is accepted as it is exactly if it has reports, each with a GPU, duplicates only of excluded GPUs, and otherwise one row for every variant of the job and no other |
| Replication.NextWave | src/gfaas/triton_replication.py:209-223 | What is pending after a wave was pending before it, with exactly one more attempt |
| Replication.WavesPartitionPending | src/gfaas/triton_replication.py:204-230 | Over any run: the history is the replies to the first jobs, then those to the jobs of each retry wave, every job once; the k-th wave retries exactly what the replies before it left pending, all of it on its k-th attempt, and its jobs partition that and exclude exactly the GPUs measured by then; what is pending only shrinks, and there are never more waves than allowed attempts |
| Replication.WinnerFound | src/gfaas/triton_replication.py:231-238 | A complete configuration of a run without faults has the exact mean of its replicas and no failed evaluation on any GPU |
| Replication.Tuning.Best | src/gfaas/triton_replication.py:231-238 | The winner is complete and minimal among the complete configurations; there is none exactly when none is complete |
| Replication.ServedRun | src/gfaas/triton_replication.py:204-230 | Whatever the order of completion, a run whose jobs are all answered with positive timings from at least so many new GPUs has no fault and something measured, and what is pending after k retry waves holds at least k + 1 times as many timings |
| Replication.Tuning.Run | src/gfaas/triton_replication.py:204-248 | The first jobs slice the variants, the history is the replies to them and to those of the retry waves, and it determines the results, of which `Replication.TimingsRecorded` holds; a run that passes has a winner with exactly the requested replicas from distinct GPUs, no failed evaluation anywhere, its exact mean reported, and no measured configuration faster; every other outcome has its cause (a fault with evidence in what the workers answered, a pending configuration after the last allowed wave, or nothing measured); and a run whose workers answer every job with positive timings from new GPUs, enough over all attempts, passes |
| Pruning.Limit | src/gfaas/triton_quick_runner.py:478-481 | The slowest timing that a valid rule retains is never below the best one |
| Pruning.Retains | src/gfaas/triton_quick_runner.py:478-481 | A rule retains exactly the timings that exceed the best one by at most the relative share of it, or by at most the absolute allowance |
| Measurement.KeepMeans | src/gfaas/triton_quick_runner.py:484-491 | A row is kept exactly if it is measured and within the limit that the fastest measured row sets |
| Measurement.PilotKeep | src/gfaas/kernel_benchmark_runner.py:55-57 | The pilot limit is the one of a row that passed evaluation, and keeps that row |
| Measurement.RefinedKeep | src/gfaas/kernel_benchmark_runner.py:93-98 | The refined limit is the one of the validated proposal, and keeps it |
| Measurement.Stages.Survives | src/gfaas/kernel_benchmark_runner.py:38-105 | With a deterministic evaluator that accepts some entry, some row is proposed and survives both prunings |
| Measurement.RefinementTrialsMeaning | src/gfaas/kernel_benchmark_runner.py:64-70 | There are just enough refinement trials to fill their budget, up to the maximum |
| Measurement.RefinesExactly | src/gfaas/kernel_benchmark_runner.py:64-74 | The count reaches the least number of refinement trials exactly if all of these but one would not fill the budget, and the maximum allows them |
| Measurement.Session.Check | src/gfaas/kernel_benchmark_runner.py:23-35 | One more evaluation is made of the row's candidate, and its verdict is the one recorded, also for an evaluator that changes its mind; a verdict that is no boolean is an error |
| Measurement.World.HeardMeans | src/gfaas/kernel_benchmark_runner.py:23-35 | A candidate counts as accepted or rejected exactly if some evaluation of it, at its place in the order of all evaluations, had that verdict |
| Measurement.Session.Pilot | src/gfaas/kernel_benchmark_runner.py:39-56 | For any group size every entry gets the least of its own pilot timings, and the best measured one passed evaluation when it was evaluated; with boolean verdicts and positive timings it does not fail |
| Measurement.Session.PrunePilots | src/gfaas/kernel_benchmark_runner.py:57-61 | Exactly the measured rows beyond the pilot limit are marked, and exactly the others go on |
| Measurement.Session.Refine | src/gfaas/kernel_benchmark_runner.py:62-91 | Every survivor whose count of refinement trials is enough gets the least of that many trials of its own, and every other one keeps its pilot timing; nothing else changes |
| Measurement.Session.ValidateBest | src/gfaas/kernel_benchmark_runner.py:92-97 | Survivors are evaluated from the fastest on until one passes; none of those not evaluated is faster than it |
| Measurement.Session.MarkRefined | src/gfaas/kernel_benchmark_runner.py:98-105 | Each measured survivor that is not kept is pruned, each kept one that was not evaluated yet is evaluated, and no row is evaluated twice |
| Measurement.Session.Narrow | src/gfaas/kernel_benchmark_runner.py:38-105 | The whole narrowing: measured rows are validated and within the refined limit, pruned rows are beyond the limit of a row that an evaluation accepted, rejected rows failed one |
| Measurement.Session.FinishRow | src/gfaas/kernel_benchmark_runner.py:106-134 | A row that stays measured has the final timing of its candidate that was measured with its own refined timing, which is positive; a final-only run validates the row first and takes the supplied estimate, or the least of its estimate trials if none are supplied |
| Measurement.Session.MeasureEntries | src/gfaas/kernel_benchmark_runner.py:11-134 | After all stages every measured row passed evaluation and has a positive final timing, all timings are those of the row's own candidate, and the narrowing still holds; it fails only if a verdict is no boolean, a timing is not positive or an estimate is missing |
| Measurement.Session.MeasureCandidates | src/gfaas/kernel_benchmark_runner.py:137-160 | The reported best has the least final timing of the measured rows; with a deterministic evaluator that accepts some entry there is one |
| InputRing.Describe | src/gfaas/triton_quick_runner.py:544-576 | A generated set is accepted exactly if it has the captured layout and its tensors share storage exactly where the captured ones did |
| InputRing.LayoutMeaning | src/gfaas/triton_quick_runner.py:568-577 | The footprint counts every storage once, with the largest tensor that lives in it |
| InputRing.Inspect | src/gfaas/triton_quick_runner.py:530-583 | A set may join exactly if it is faithful, not empty, on storages the ring does not hold, of the common footprint and within the bytes left |
| InputRing.JoinsIndependently | src/gfaas/triton_quick_runner.py:578-587 | Adding such a set keeps all sets independent and all totals exact |
| InputRing.PairwiseIndependent | src/gfaas/triton_quick_runner.py:578-587 | Any two sets of a ring live on disjoint storages |
| InputRing.EqualFootprints | src/gfaas/triton_quick_runner.py:577-581 | All sets of a ring have the captured layout and one positive footprint |
| InputRing.Ring.Append | src/gfaas/triton_quick_runner.py:523-587 | Succeeds exactly for a usable candidate within the limits, which it adds; a failure leaves the ring as it was |
| InputRing.Ring.Ensure | src/gfaas/triton_quick_runner.py:589-593 | With a factory that works, padding to a count succeeds exactly if the sets and bytes allow it |
| InputRing.Ring.Start | src/gfaas/triton_quick_runner.py:507-521 | One set with a flush before every call if the limits forbid more, otherwise the number of sets given by the division; a factory of uniform sets within the limits never fails, and what a working one makes first avoids all storages held elsewhere |
| InputRing.JustExceeds | src/gfaas/triton_quick_runner.py:515 | That number of sets is the least whose total footprint is strictly above the cache |
| InputRing.Ring.Fresh | src/gfaas/triton_quick_runner.py:600-607 | Evaluation inputs are a faithful set on storages that the ring does not hold; with a working factory they never overlap, and with uniform sets within the limits they are always there |
| InputRing.WindowUsesEachOnce | src/gfaas/triton_quick_runner.py:595-598 | Any run of consecutive turns as long as the ring uses every set exactly once |
| InputRing.ReuseExceedsCache | src/gfaas/triton_quick_runner.py:595-598 | Between two uses of one set, more bytes are touched than the cache holds |
| InputRing.ReplayExceedsCache | src/gfaas/triton_quick_runner.py:717-720 | The same between two replays of one graph |
| InputRing.Ring.Interleave | src/gfaas/triton_quick_runner.py:609-635 | Every candidate is called exactly as often as asked, round by round in order, each call on the set whose turn it is; a ring that requires it is flushed before every call, and each timing is attributed to its own call |
| InputRing.PaddedMeaning | src/gfaas/triton_quick_runner.py:657 | The padded size is the least multiple of the calls per graph that holds the ring |
| InputRing.CallsPerGraphMeaning | src/gfaas/triton_quick_runner.py:650-656 | A graph holds as many calls as fit its duration, at least one and at most the maximum |
| InputRing.TrialsMeaning | src/gfaas/triton_quick_runner.py:670-672 | There are just enough trials to fill the final duration, within the least and the greatest number |
| InputRing.GraphCountMeaning | src/gfaas/triton_quick_runner.py:708-711 | There are just enough replays for all their calls to fill the final duration, within the least and the greatest number |
| InputRing.Ring.UsesGraphsMeaning | src/gfaas/triton_quick_runner.py:657-668 | Graphs are captured exactly if they are long enough and supported, no flush is needed, and the next multiple of their length is a number of sets that both limits allow at the average size |
| InputRing.UniformFits | src/gfaas/triton_quick_runner.py:658-664 | With sets of one size, the bytes expected from the average are the bytes that padding takes |
| InputRing.PaddingMayExceed | src/gfaas/triton_quick_runner.py:657-685 | A working factory of ten and then eleven bytes: graphs of two calls are found to fit into twenty bytes, and the second set exceeds them |
| InputRing.FullSlices | src/gfaas/triton_quick_runner.py:696-697 | Slices of a padded ring are all full, and as many as the quotient |
| InputRing.Ring.Pad | src/gfaas/triton_quick_runner.py:685 | Once graphs were found to fit, padding by a working factory fails exactly if the sets still to be made exceed the bytes left, hence never with uniform allocations |
| InputRing.Ring.FinalBenchmark | src/gfaas/triton_quick_runner.py:638-735 | Events: one call per trial on the sets in turn. Graphs: full slices that make up the padded ring, replayed in a cycle, and each trial times the calls of a graph is the time of its replay. The least trial is reported; the decision, the counts and the failures are exact |
| KernelCompilation.JobCountMeaning | src/gfaas/triton_kernel.py:134-142 | Enough jobs that none exceeds the configured size, or 256, never more jobs than variants, and none only without variants |
| KernelCompilation.JobCountLeast | src/gfaas/triton_kernel.py:134-142 | The number of jobs is the least for which no job exceeds the limit and, by default, none exceeds 128 variants before the dispatch window is full |
| KernelCompilation.ChunksBounded | src/gfaas/kernel_compilation.py:28 | Every strided chunk is nonempty and within that size |
| KernelCompilation.ChunkOf | src/gfaas/kernel_compilation.py:27-28 | Every variant is in a chunk |
| KernelCompilation.ChunksDisjoint | src/gfaas/kernel_compilation.py:27-28 | With distinct ids no two chunks share one |
| KernelCompilation.Settle | src/gfaas/kernel_compilation.py:46-66 | Whatever a job does, its outcome has one row for every variant of its chunk and no other; rows are passed through only if the worker's row set is complete |
| KernelCompilation.SettleMeaning | src/gfaas/kernel_compilation.py:46-66 | A complete answer, one row that compiled or failed for every variant and none besides, is recorded as it is; anything else fails every variant in order and stops the batch; the call is named whenever there was one |
| KernelCompilation.SubmitMeaning | src/gfaas/triton_kernel.py:503-527 | A single job is believed exactly if its answer is complete or its call failed, and otherwise its error propagates with the call |
| KernelCompilation.Bounded | src/gfaas/kernel_compilation.py:35-71 | At every moment of a run the outstanding jobs are within the limit |
| KernelCompilation.FailFast | src/gfaas/kernel_compilation.py:66-71 | No job is submitted after a failed one was observed |
| KernelCompilation.WaitsWhenFull | src/gfaas/kernel_compilation.py:41-72 | The dispatcher waits only with a full window, with every job submitted, or after an observed failure |
| KernelCompilation.Dispatcher.Submit | src/gfaas/kernel_compilation.py:69-71 | The next job in order becomes outstanding, within the limit |
| KernelCompilation.Dispatcher.Observe | src/gfaas/kernel_compilation.py:45-66 | One outstanding job is recorded with its outcome, and stops the run if it failed |
| KernelCompilation.Dispatcher.Run | src/gfaas/kernel_compilation.py:35-91 | For every order of completion: a prefix of the jobs is submitted, all of them are awaited, jobs are left out only after a failure, and outcomes are in the order of the jobs |
| KernelCompilation.VariantHasRow | src/gfaas/kernel_compilation.py:92-97 | Every variant finds a row by its id |
| KernelCompilation.RowFromItsChunk | src/gfaas/kernel_compilation.py:92-97 | With distinct ids that row is from the job that had the variant |
| KernelCompilation.ExchangedRows | src/gfaas/kernel_compilation.py:20-22 | The answer of a single job with two rows exchanged is accepted as it is |
| KernelCompilation.OrderGuaranteed | src/gfaas/kernel_compilation.py:20-28 | Whatever the jobs do, rows come in the caller's order exactly if there is more than one job, or the ids are all the same |
| KernelCompilation.CompileShards | src/gfaas/kernel_compilation.py:21-107 | No variants fail; one job answers or raises for itself; several jobs always give exactly one row per variant in the order of the caller, each from its own job, for every pattern of failures |
| Uploads.AlwaysSound | src/gfaas/uploads.py:28-62 | At every moment the outstanding tasks are within the concurrency, only succeeded tasks were reported, and nothing was cancelled or dropped before the run stopped |
| Uploads.WaitsWhenFull | src/gfaas/uploads.py:33-53 | The scheduler waits only with a full window, or once every item was submitted |
| Uploads.NothingStops | src/gfaas/uploads.py:22-62 | Without a task, a report or an iterator that raises and without an interruption, nothing stops a run |
| Uploads.NothingAfterStop | src/gfaas/uploads.py:54-62 | After the error nothing is submitted |
| Uploads.ReportedOnce | src/gfaas/uploads.py:50-53 | No task is reported twice |
| Uploads.CauseJustified | src/gfaas/uploads.py:44-54 | The error that stops a run is that of a task that was submitted, of a report that was made, of the iterator at its end, or an interruption |
| Uploads.Drained | src/gfaas/uploads.py:54-62 | When the run ends, the reported tasks are exactly those that succeeded and were not cancelled, once each; if nothing stopped it, all items |
| Uploads.Uploader.Drain | src/gfaas/uploads.py:55-61 | Every pending task is cancelled, or awaited and reported if it succeeded; the first error is kept |
| Uploads.Uploader.Run | src/gfaas/uploads.py:22-62 | For every order of completion, every cancellation and every interruption: nothing is outstanding at the end, the first error propagates, and a normal return has submitted every item |
| Transfers.RetryRequest | src/gfaas/transfers.py:45-59 | At most four attempts, all but the last retryable; the last one is the outcome, and is retryable only if it is the fourth; cancellation is honoured before each attempt and in each pause |
| Transfers.RetryableMeaning | src/gfaas/transfers.py:30-34 | Exactly a lost connection and ten listed statuses are worth another attempt |
| Transfers.Announced | src/gfaas/transfers.py:215-263 | A response is accepted only if it matches the requested range and the recorded identity |
| Transfers.AnnouncedExactly | src/gfaas/transfers.py:211-263 | A body is accepted exactly if it is unencoded, has a length and a digest, is everything or the bytes from the requested offset on, at most eight MiB, and announces what is recorded if anything is |
| Transfers.AcceptedExtends | src/gfaas/transfers.py:244-283 | An accepted response of a true server continues the representation on disk |
| Transfers.TruncationSafe | src/gfaas/transfers.py:272-281 | Losing any tail of the body keeps it within the recorded size and a prefix of the representation |
| Transfers.Workspace.Resumable | src/gfaas/transfers.py:163-172 | After a stop at any state of the disk, with or without a body, and the loss of any tail of it, whoever resumes finds a body within the recorded size and, from a true server, a prefix of one representation; it cannot go on exactly if it stopped between recording an empty artifact and creating the body |
| Transfers.Workspace.ReceiveBody | src/gfaas/transfers.py:271-285 | The chunks are appended; every state on the way is safe, and success means exactly the announced length |
| Transfers.Workspace.GrowingKeeps | src/gfaas/transfers.py:272-281 | What was kept at some state of such a download is a prefix of what is kept at any later one |
| Transfers.CompleteAnswerDiscards | src/gfaas/transfers.py:236-240 | A true server may answer with the complete body, and what was kept is then discarded |
| Transfers.Workspace.Open | src/gfaas/transfers.py:264-272 | Opening the body for an accepted reply creates or clears exactly what the reply asks for: what was kept stays exactly if the reply is partial or nothing was kept |
| Transfers.Workspace.Receive | src/gfaas/transfers.py:163-294 | Every state of the disk is safe whatever the server does; a returned body has the recorded length and digest; the download gives up exactly at the fourth temporary failure (no connection, one of ten listed statuses, an accepted body that came short), and fails at once, with that error, on any other; a server with at most three temporary failures and full answers otherwise gives exactly its representation, an empty one included, to whoever does not start from the refused state; with a true server it never fails for a wrong digest or an overlong body, and with one that answers ranges the body only grows; an empty artifact without a body file is refused, exactly then; it terminates |
| Transfers.LoggedMeaning | src/gfaas/transfers.py:163-294 | The log that these failures are counted in is the server's reply to every request in order, and only its last reply may end the download |
| Transfers.Workspace.HealthyExchange | src/gfaas/transfers.py:199-285 | No reply of such a server ends the download, its temporary failures are at the excepted requests, and every body announces what it serves |
| Transfers.EmptyArtifactStuck | src/gfaas/transfers.py:163-179 | A fresh download of an empty artifact passes through a state from which every later attempt fails on the missing file |
| PartUploads.PartsAdjoin | src/gfaas/client.py:460-461 | Parts are nonempty, adjoin, and end with the file |
| PartUploads.PartsMakeFile | src/gfaas/client.py:460-462 | The parts put together are the file |
| PartUploads.LoadReceipts | src/gfaas/client.py:438-449 | The receipts of a session are accepted exactly if they are of distinct parts of the file |
| PartUploads.SendMeaning | src/gfaas/client.py:469-505 | An attempt gets a part through exactly if it was accepted, or after a temporary failure the first receipt of the part is of its bytes; it is worth another one exactly if both requests failed temporarily or there is no receipt of the part, so that a receipt of other bytes ends it |
| PartUploads.Upload.TransferPart | src/gfaas/client.py:454-515 | A part counts as transferred only if it was read in full and its receipt matches the local bytes, or a send or a reconciled receipt of exactly these bytes answers for it; it does succeed if nothing stands against it |
| PartUploads.UploadedIsStored | src/gfaas/client.py:466-514 | With an honest server and an injective digest, such a part is stored |
| PartUploads.CountsNext | src/gfaas/client.py:524-531 | In whichever order parts complete, the counters are the bytes of the parts reported, split into transferred and reused, and never exceed the file |
| PartUploads.Upload.Account | src/gfaas/client.py:524-531 | The counters follow any run of the scheduler, and every progress report adds up |
| PartUploads.Upload.Run | src/gfaas/client.py:543-560 | Publication is reached only with every part accounted for, all bytes counted once, and exactly the receipts reused; it is reached whenever every part can be transferred, no progress report raises and no wait is interrupted |
| PartUploads.Upload.PublishedIsFile | src/gfaas/client.py:428-560 | What is published is the local file |
| PartUploads.Open | src/gfaas/client.py:436-449 | A session is usable exactly with a part size of 1 byte to 64 MiB and valid receipts |
| EventWatching.RequestsWithinBudget | src/gfaas/events.py:77-101 | In a record that keeps the budget: however requests, answers and deliveries mix, between two moments of progress at most five failures are followed by another request, each without a connection or with one of six listed statuses, and that request comes not before the doubled backoff of each of them, nor before the Retry-After of any, within sixty seconds of each, and before the deadline |
| EventWatching.FailuresAccounted | src/gfaas/events.py:77-101 | The budget computed along the record accounts for every failure since the last progress: their number, the first, and the delay of each |
| EventWatching.RaisedForCause | src/gfaas/events.py:60-101 | An error that may be raised has its cause in the record: the deadline has passed, a failure since the last progress is sixty seconds old, or the error is the last answer and cannot be retried, is the sixth failure without progress, or would be retried only sixty seconds after one of them |
| EventWatching.BackoffDoubles | src/gfaas/events.py:93 | The backoff doubles from half a second up to eight seconds |
| EventWatching.EventWatcher.Remaining | src/gfaas/events.py:60-70 | The time that is left is exact, and an error means that a deadline has passed |
| EventWatching.EventWatcher.Retry | src/gfaas/events.py:84-101 | One retry more is counted, and its backoff and its Retry-After are waited out before it returns, without any request; an error is raised only if it cannot be retried, the budget is spent or a deadline has passed |
| EventWatching.EventWatcher.Deliver | src/gfaas/events.py:130-136 | The consumer takes exactly the next event of the log, the cursor moves by one position and the budget is full again |
| EventWatching.EventWatcher.PollOnce | src/gfaas/events.py:166-185 | A poll that completes has reached the end of what was durable, and of a follow run everything up to the terminal state |
| EventWatching.EventWatcher.Poll | src/gfaas/events.py:165-185 | The same for the polling loop, with any failures in between |
| EventWatching.EventWatcher.StreamOnce | src/gfaas/events.py:142-160 | A stream that may be cut anywhere delivers a contiguous piece of the log; it counts as complete only after a terminal status |
| EventWatching.EventWatcher.Iterate | src/gfaas/events.py:138-185 | Over any interleaving of streams, cuts, errors and polls: the events that the consumer took are exactly the log from the starting cursor to the current one; every request that the service received was within the budget that its own record leaves; a follow run that returns has delivered all that was there when the Call became terminal; and an error is raised only if the record justifies it |
| EventStream.DecodeEventStream | src/gfaas/events.py:199-221 | The decoder yields exactly the events that section 9.2.6 of the WHATWG HTML Living Standard dispatches, up to the first that is not a JSON object |
| EventStream.FrameDispatches | src/gfaas/events.py:199-221 | The lines of one event, data fields in any of their forms mixed with comments and other fields, dispatch exactly the text of the data, if there is any |
| EventStream.CutStream | src/gfaas/events.py:219-221 | A stream of such events that is cut after any line yields exactly the texts of those that were complete by then |
| TensorTransport.AcceptedIsInside | src/gfaas/kernel_results.py:54-68 | Every multi-index of an accepted view of any rank addresses an element wholly inside its storage |
| TensorTransport.AcceptedIffInside | src/gfaas/kernel_results.py:54-68 | For every shape the bounds check agrees with all addressed elements being inside exactly if the view has elements or its offset is within the storage |
| TensorTransport.AcceptedForm | src/gfaas/kernel_results.py:58 | What is accepted has as many strides as dimensions, and nothing in it is negative |
| TensorTransport.EmptyViewRefused | src/gfaas/kernel_results.py:54-68 | Rows from the fourth on and columns from the third on of a matrix of three by four floats: the view addresses nothing and is refused |
| TensorTransport.GroupsMeaning | src/gfaas/triton_inputs.py:14-30 | Groups are the distinct storages of the tensors, and only those |
| TensorTransport.CaptureAliases | src/gfaas/triton_inputs.py:20-30 | Two tensors are in one group exactly if they share a storage |
| TensorTransport.CaptureInputs | src/gfaas/triton_inputs.py:13-38 | The loop with its growing map computes that description |
| TensorTransport.EncodesExactly | src/gfaas/kernel_results.py:14-27 | A value can be returned exactly if no part of it at any depth is an object of another kind or a dictionary with a key that is neither text nor integer |
| TensorTransport.DecodeEncode | src/gfaas/kernel_results.py:14-27 | Decoding what was encoded gives the same nested containers, with every tensor on the storage that its own one maps to |
| TensorTransport.RoundTripTree | src/gfaas/kernel_results.py:10-111 | A result whose views are accepted is rebuilt as the same tree |
| TensorTransport.RoundTrip | src/gfaas/kernel_results.py:10-111 | After a run that wrote any bytes and returned any containers, the caller has the same tree, tensors share storage locally exactly when they did remotely, and every storage, the caller's own included, holds the remote bytes |
| TensorTransport.RoundTripRefused | src/gfaas/kernel_results.py:54-68 | A result with a view that its own storage does not accept is refused as a whole |
| TensorTransport.CloneCapture | src/gfaas/triton_inputs.py:91-107 | Clones of the arguments have the metadata of the arguments |
| TensorTransport.CloneRun | src/gfaas/triton_inputs.py:91-107 | Any run on clones is a run that the round trip is about |
| TensorTransport.CheckViews | src/gfaas/kernel_results.py:54-68 | All views are checked before anything is written |
| TensorTransport.Process.ApplyWrites | src/gfaas/triton_inputs.py:128-154 | Every input storage is overwritten once with its returned bytes and nothing else changes, or sizes differ and nothing is written |
| TensorTransport.Process.ApplyResult | src/gfaas/kernel_results.py:37-111 | The new memory and the result are those of the specification, and another result can follow; any refusal leaves every storage of the caller unchanged |
| TreeManifests.SplitJoin | src/gfaas/client.py:1527 | Parts without slashes can be read back from their path |
| TreeManifests.Validate | src/gfaas/client.py:1532-1591 | A manifest is accepted exactly if it is within the limit and every entry is canonical, after its predecessor, below an earlier directory and well-formed |
| TreeManifests.CanonicalMeaning | src/gfaas/client.py:1549-1560 | A path is canonical exactly if it has no backslash, takes at most 16384 bytes, and leads, part by part from the root, exactly to its own parts |
| TreeManifests.AcceptedStaysInside | src/gfaas/client.py:1549-1560 | On its way every accepted path goes one level down with each part, and never leaves the root |
| TreeManifests.Utf8LengthMeaning | src/gfaas/client.py:1552 | The bytes of a path are those of its characters, each the fewest that hold its code point |
| TreeManifests.ArtifactIdMeaning | src/gfaas/client.py:1578 | An artifact id is the prefix and a name of one to 128 letters, digits, hyphens and underscores |
| TreeManifests.FieldsMeaning | src/gfaas/client.py:1566-1587 | Directories have mode 0555, files a valid id, size and digest and mode 0444 or 0555, and both exactly their fields |
| TreeManifests.PathsIncrease | src/gfaas/client.py:1557-1560 | Paths of an accepted manifest strictly increase |
| TreeManifests.AncestorsEarlier | src/gfaas/client.py:1561-1563 | Every ancestor of every entry is an earlier directory |
| TreeManifests.NoFileAbove | src/gfaas/client.py:1561-1563 | No file is an ancestor of an entry |
| TreeManifests.CreateTree | src/gfaas/client.py:1026-1051 | Creating directories in order and files in any order, from any server and over the remains of any earlier attempt, never lacks a parent or meets a path of another kind; it completes exactly if every file is there already or is answered with the described size and digest, and then holds exactly what the manifest describes; an attempt that stops leaves what another one can start from |
| TreeManifests.Receive | src/gfaas/client.py:1037-1049 | A file that is in place is kept, anything else is removed and downloaded again, and a download that fails or differs from the manifest leaves nothing |
| TreeManifests.WholeIsUnique | src/gfaas/client.py:1037-1051 | Two completed downloads of one manifest are equal, whatever was there before and whoever sent the files |
| TreeManifests.HonestAnswers | src/gfaas/client.py:1037-1049 | A server that answers with the uploaded bytes lets every file be received, whatever is there already |
| TreeManifests.Seal | src/gfaas/client.py:1055-1061 | Every path has the mode of its entry; all directories are made read-only, each once, in reverse order |
| TreeManifests.ChildrenSealedFirst | src/gfaas/client.py:1059-1061 | A directory is made read-only after every directory below it |
| TreeManifests.WalkLeads | src/gfaas/client.py:687-712 | Every local entry is what its path leads to |
| TreeManifests.Listed | src/gfaas/client.py:687-712 | Whatever a path leads to is a local entry |
| TreeManifests.WalkDistinct | src/gfaas/client.py:687-712 | No path is listed twice |
| TreeManifests.LocalEntries | src/gfaas/client.py:686-715 | A directory is refused exactly if it has too many entries, or one that is a symbolic link, special, hard-linked or at a path that is not canonical |
| TreeManifests.WalkSorts | src/gfaas/client.py:715 | Sorted by path, the entries strictly increase |
| TreeManifests.UploadIsAccepted | src/gfaas/client.py:684-715 | The validator accepts the manifest of every tree that can be uploaded |
| TreeManifests.RoundTrip | src/gfaas/client.py:1026-1061 | Downloading what was uploaded gives the same tree: at every path the same directory, or a file with the same bytes and the mode of an executable exactly if it was one, or nothing |
| ChatRecords.Encode | examples/nemotron_lightning_lora.py:310-352 | The loop computes the encoding, or the first error |
| ChatRecords.EncodedExactly | examples/nemotron_lightning_lora.py:310-352 | A conversation is encoded exactly if every message is the next answer that is due, or a message of the system, the user or the assistant when none is due, and has its content and the ids and names of its calls |
| ChatRecords.Render | examples/nemotron_lightning_lora.py:362-452 | The loops compute the rendering, or the first error |
| ChatRecords.FlatMeaning | examples/nemotron_lightning_lora.py:374-443 | What a single message in training format is read as: its kind by its role; empty or missing content of a call as an empty object; of a response and a spoken message as empty text; a spoken message is accepted exactly with one of three roles and text or no content, and keeps reasoning exactly if it is an assistant's text |
| ChatRecords.RoundTrip | examples/nemotron_lightning_lora.py:310-452 | Of what the encoder accepts, the renderer accepts exactly the conversations whose spoken texts are strings, whose tools have names and object arguments and whose last calls are all answered or not at all; it then gives the expected messages |
| ChatRecords.Preserved | examples/nemotron_lightning_lora.py:310-452 | The expected messages are the original ones, one by one, with their roles, texts, tool names and arguments, exactly if only assistants call tools |
| ChatRecords.AnswersMatchCalls | examples/nemotron_lightning_lora.py:316-326 | The j-th response after a message answers its j-th call |
| ChatRecords.AnswersCarryIds | examples/nemotron_lightning_lora.py:409-428 | After rendering, the j-th response after a message carries the id of its j-th call |
| ChatRecords.CallsNumbered | examples/nemotron_lightning_lora.py:389-390 | Rendered calls are numbered in the order of the conversation |
| ChatRecords.IdsDistinct | examples/nemotron_lightning_lora.py:389-398 | No two calls of a conversation get the same id |
| ChatRecords.PartlyAnsweredFails | examples/nemotron_lightning_lora.py:429-430 | A conversation that ends with part of its last calls answered is encoded but cannot be rendered |
| ChatRecords.UnnamedToolFails | examples/nemotron_lightning_lora.py:381-383 | A call of a tool with an empty name is encoded but cannot be rendered |
| ChatRecords.MissingFieldExactly | examples/nemotron_lightning_lora.py:316-344 | The encoder misses a key exactly if some message, all before it encoded, is the next answer or a spoken one in its turn, and has no content, or a call without an id or a function name |
| ChatRecords.MissingIdFails | examples/nemotron_lightning_lora.py:336 | A user message followed by a call without an id: the encoder misses a key |
| RecordPreparation.RenderErrorIs | examples/nemotron_lightning_lora.py:362-452 | Whether and with which error a rendering fails depends neither on what was rendered before nor on the ids |
| RecordPreparation.ReachesExactly | examples/nemotron_lightning_lora.py:374-430 | The renderer gets to look at what follows some messages exactly if they can be continued to a list that it renders |
| RecordPreparation.WrittenRendersSame | examples/nemotron_lightning_lora.py:606-640 | An encoded conversation that was written and is read again, now in training format, renders as the conversation does |
| RecordPreparation.FieldlessFrom | examples/nemotron_lightning_lora.py:379-386 | The renderer asks a value without fields for one exactly if some call reads as such a value and everything before it is rendered |
| RecordPreparation.UnhandledExactly | examples/nemotron_lightning_lora.py:606-640 | Preparing a record raises an error that is not counted exactly if its encoding misses a key, or, in training format, its messages are missing or an object that is not empty, or rendering comes to a message or a call without fields, or the tokenizer raises such an error |
| RecordPreparation.AbortsExactly | examples/nemotron_lightning_lora.py:606-640 | A line ends the scan that reaches it exactly if its weight is accepted and preparing its record raises such an error |
| RecordPreparation.Qualify | examples/nemotron_lightning_lora.py:541-696 | The qualification of a corpus of records fails with an error that nothing handles exactly if some record ends it before enough are selected; otherwise it fails exactly if nothing fits, and else writes the expansion of what fits |
| RecordPreparation.MissingIdAborts | examples/nemotron_lightning_lora.py:336 | The conversation with the call without an id is one of these records |
| RecordPreparation.FieldlessAborts | examples/nemotron_lightning_lora.py:376-382 | So are records in training format whose only message is a text, or is a call whose text reads as a list, with no key missing |
| CheckpointBudget.IntervalAccepted | examples/nemotron_lightning_lora.py:906-923 | The default interval is always accepted, and is the least that four of cover the run; a requested one exactly if it is positive, within the run, and four of it cover the run |
| CheckpointBudget.DefaultUsesFour | examples/nemotron_lightning_lora.py:910 | The default interval makes four parts exactly for runs of four, seven, eight, or ten and more steps |
| CheckpointBudget.DefaultMayUseFewer | examples/nemotron_lightning_lora.py:910 | The default interval does not always make four parts: nine steps make three |
| CheckpointBudget.BudgetSuffices | examples/nemotron_lightning_lora.py:842-845 | A checkpoint below the last step that is due never needs a fifth version |
| CheckpointBudget.Publisher.Mark | src/gfaas/artifacts.py:221-252 | Generations are numbered without gaps from one, and refused exactly at the limit |
| CheckpointBudget.Publisher.PublishLatest | examples/nemotron_lightning_lora.py:828-852 | The latest checkpoint is published exactly if it is new, not the restored one, recognized, available and at or after the next interval |
| CheckpointBudget.Run | examples/nemotron_lightning_lora.py:828-852 | Over every sequence of observations below the last step: each observation is published exactly if it was due after the publications before it and available; each name is published at most once, the g-th not before g intervals, at most four in all, and the limit error does not occur |
| WeightExpansion.RecordWeight | examples/nemotron_lightning_lora.py:517-529 | A weight is accepted exactly if it is a positive number with a denominator up to 100 |
| WeightExpansion.ScaleIsLeast | examples/nemotron_lightning_lora.py:672 | The scale is the least positive integer that makes every weight whole |
| WeightExpansion.CopiesExact | examples/nemotron_lightning_lora.py:687-689 | The division leaves no remainder, and every record has a copy |
| WeightExpansion.CopiesProportional | examples/nemotron_lightning_lora.py:687-689 | Copies are in the proportion of the weights |
| WeightExpansion.FewestCopies | examples/nemotron_lightning_lora.py:553-555 | Some positive whole numbers in the proportions of the weights have a smaller member exactly if the numerators have a common divisor; without one every member is at least the number of copies |
| WeightExpansion.NotAlwaysFewest | examples/nemotron_lightning_lora.py:553-555 | Two records of weight two get two copies each, where one each has the same proportions |
| WeightExpansion.Select | examples/nemotron_lightning_lora.py:595-665 | The records that fit are selected in order up to the maximum, every line read is counted under its own verdict, and the scan stops exactly at the end, at the maximum or at a record whose preparation raises an error that nothing handles |
| WeightExpansion.ReadsOnce | examples/nemotron_lightning_lora.py:595-597 | The lines alone determine how far a scan reads |
| WeightExpansion.TallyBalances | examples/nemotron_lightning_lora.py:595-665 | The lines of a scan that completes are those selected, invalid, without labels and too long, and those selected are the records that fit |
| WeightExpansion.Expand | examples/nemotron_lightning_lora.py:672-693 | The loops write every selected record in order, as often as its weight times the scale |
| WeightExpansion.Qualify | examples/nemotron_lightning_lora.py:541-696 | The whole qualification over lines with the outcomes of their preparation: it fails exactly if a line that it reaches raises an error that nothing handles, or nothing fits (`RecordPreparation.Qualify` states the same over the records) |
| WeightExpansion.SecondPassKeeps | examples/nemotron_lightning_lora.py:553-600 | Qualifying again what was written, with the same sequence length and maximum, has scale one and writes the first lines of it once each, as many as the maximum allows: all of it exactly if there is no maximum or the copies together do not exceed it |
| WeightExpansion.SecondPassDrops | examples/nemotron_lightning_lora.py:595-597 | With a maximum of one, a record of weight two is written twice and the second pass keeps one line of it |

## Left out

- `EventWatching.EventWatcher.Iterate`: the number of turns is bounded by a parameter, because an iterator that is never closed need not end; the properties hold for every bound, and what an unbounded run does beyond all of them (whether it ends) is not stated.
- `EventWatching.EventWatcher.Iterate`: the service is honest, that is, all its answers come from one append-only log and pages reach the end of what is durable; a service that invents or reorders events is not modelled.
- `EventWatching.EventWatcher.Retry`: no time passes between an answer and the decision about its retry.
- `EventWatching.EventWatcher.Remaining`: checks between the chunks of one response are merged into one check after it.
- `InputRing.Ring.FinalBenchmark`: what a CUDA graph captures, warm-up calls and the reset of inputs are not modelled; floating-point division by the average set is real division.
- `InputRing.Ring.Start`: further sets of a ring are checked against the ring itself and not against storages held elsewhere; evaluation inputs, which are one set, are checked against both.
- `KernelCompilation.CompileShards`: identities and timings in the report of a batch (`call_ids`, `batch_wall_seconds`) and the clamping of worker resources are left out.
- `Measurement.Session.MeasureEntries`: the ring and the interleaving behind the timings are modelled in `InputRing`; here timings are functions of the candidate, so that failures of the ring and of fresh inputs are outside the failure condition, and `statuses` of rows that could not be prepared stay as they are.
- `PartUploads.Upload.Run`: what becomes of every part is computed before the scheduler runs, since a part does not depend on the others; a part that is stopped because another one failed is a part whose sending fails.
- `Replication.Tuning.Wave`: how many jobs of a wave run at the same time is left out; they complete in an arbitrary order.
- `Replication.Tuning.Run`: bookkeeping of call identities and the choice of handler and GPU count are left out; excluded GPUs are a set where the source sorts a tuple.
- `TensorTransport.Process.ApplyResult`: views of the caller's storages are built before the sizes of the returned storages are compared; the model assumes that building a view does not resize the storage it is of.
- `TensorTransport.RoundTrip`: keyword arguments, gradient and conjugation checks, devices, and floating-point scalars that differ from themselves are left out; PyTorch storages are byte sequences.
- `Transfers.Workspace.Receive`: file locks, fsync and pauses are left out; a write is atomic per chunk, and losing any tail of the body is covered by `Transfers.Workspace.Resumable`.
- `TreeManifests.LocalEntries`: which of several defects is reported first, and files that change between listing and upload, are left out.
- `TreeManifests.RoundTrip`: the service puts the size and the digest of an uploaded file into the manifest; copying the received tree to its destination, and symbolic links in a damaged cache, are left out.
- `TreeManifests.Validate`: the fields and the schema of the manifest around its entries, and media types, are left out.
- `ChatRecords.Render`: the option that drops reasoning from earlier messages and the record fields around the messages are left out.
- `WeightExpansion.Qualify`: parsing of JSON and of numbers, repair counters and temporary files are left out.
- `RecordPreparation.UnhandledExactly`: the normalization of a conversation, which raises only errors that are counted, is a parameter, either its messages or a rejection; the tokenizer and its chat template are a function with three outcomes; JSON that is nested too deeply for the interpreter is left out.
- `EventStream.DecodeEventStream`: it starts from lines; how the bytes of a response are split into lines is foreign code, and the events that it yields are not connected to the stream of `EventWatching`, whose items are events.
- `Replication.Tuning.MergeShard`: every reported output has a status; one without it, which raises a missing key outside the wave, is not modelled.
- `CheckpointBudget.Run`: markers of an earlier process in the same output and the directory entries behind a checkpoint name are left out.
- `Uploads.Uploader.Run`: an interruption can strike while waiting, not between two statements.
- `collect_artifact_ids`, the compression and packing of directories, and upload sessions before their parts: they would add easy members.
- HTTP, TLS, serialization by cloudpickle, source bundling, the command line, configuration validation and progress display: foreign code or user interface.
