# Verification model of the robotics runtime's protocols

This project models the parts of the repository whose correctness is a matter of protocol, counting or
set matching, and proves what they promise.

| module | what it models |
|---|---|
| `IsaacEpisode` | The finite Isaac episode: a host provider and a native worker that coordinate only through create-once markers and fact files. A transition system with one action per file read, file write, poll, physics step, host await, failure and kill; results hold over every finite run. |
| `RetainedExport` | The export of an admitted inventory while other writers change the sources: admission, chunked copy, read-back, manifest, failure marker. The outside world is a history of the file system, one instant per look; every write gives a file a new stat identity. |
| `LegacyInventory` | Building, sealing and retrying the inventory of a completed assessment. |
| `Measurements` | Sequence accounting of one observed channel. |
| `DerivedMetrics` | Offline histograms and counters derived from the same kind of rows. |
| `QualificationPackage` | The portable layout of qualification subjects, and what the destination holds on success and failure. |
| `ReceiptInputs` | Binding a receipt to a registration, reloading it, and the inventory of a finalized index. |
| `SimulationControl` | The clock-gated simulator conformance run over a trace of time readings, polls and service calls, and the consumer that judges its report. |
| `EngineOwnership`, `GazeboProvider` | Ownership of a compose project, and the provider whose teardown depends on it: one startup and any number of cleanup and observation calls, interleaved at their awaits. |
| `RetentionUri` | The canonical S3 URI of a retained artifact, on byte strings. |
| `PlaybackSelection` | The selection of one complete finalized bag for playback. |
| `IsaacLaws`, `GazeboLaws`, `EngineLaws`, `LegacyLaws`, `ExportLaws`, `ReceiptLaws`, `SimulationLaws`, `QualificationLaws`, `RetentionLaws`, `PlaybackLaws` | What each of these does, and refuses, as two-sided statements about runs, traces, files or inputs. |
| `Paths` | Relative POSIX paths, file suffixes, decimal numbers, lists without repetitions. |

Conventions. A digest is a datatype that wraps the bytes it was computed from, so two digests are equal
exactly when the bytes are. Python exceptions, rejected promises and refused inputs are an `Option`, an
outcome datatype or a failure state. Latencies and times are integer nanoseconds: the bucket comparisons of
the histogram agree with the original's millisecond floats, because division rounds correctly and the bounds
are themselves rounded quotients. Classes carry the state that the source updates in place, and their methods
are tied to functions of the input about which the lemmas speak. The two asynchronous providers are state
machines over their steps, since their interleaving is the point.

## Where the code does less than it promises

Each of these is a lemma with a concrete run or input, next to the condition under which the promise holds.

- **A cancellation can be lost** (`IsaacEpisode.ReleasedCancelIsLost`, `IsaacEpisode.LateCancelIsLost`).
  `cancel()` returns at once in phase `released` (host/src/plugins/isaac-provider/index.ts:189). The clean-up may
  release between the registration of the resource and the launch of the container, or its last `down` may take
  effect before `up` and return after the container was listed. The phase is then `released` although the episode
  goes on, and `start` and `measured` still happen. Before `start` this is possible exactly when `CanStillRun`
  holds: the worker gets the host's identity and step count, and either the container is yet to be started, or
  runs and is yet to be listed, while nobody asked to cancel before and `measure` has not got past the launch;
  or it was listed and runs, `cancel` is not on disk, and `measure` has begun and waits on its way to `start`.
  When the episode is not open in this sense, no continuation completes it on either side
  (`ReleasedCancelExactly`). Issued in any other phase `cancel()` is final (`CancelIsFinal`).
- **An admitted export can be impossible, and its failure unmarked** (`RetainedExport.MarkerCanBeBlocked`,
  `RetainedExport.UnmarkedFailure`). Admission reserves the names `export-manifest.json` and
  `export-incomplete.json` only as whole output paths. An output `export-manifest.json/x` is admitted, its
  directory takes the manifest's name, and such an inventory never completes; neither does one with an empty
  output or with an output inside another. With `export-incomplete.json/x` the directory takes the marker's
  name, and a failure can stay unmarked. `Export` says exactly when an export is refused and, in a world that is
  calm once the inventory is admitted, when it completes and when its failure is marked. In any world an
  unmarked failure needs either that writing the marker fails, or an output below `export-incomplete.json`
  with everything before it laid out apart (`Blockable`); and with such an output it is enough that its source
  cannot be opened once the directories have been made (`FailUnmarked`). A failure after the manifest was
  created leaves both files.
- **A bound registration may not load again** (`ReceiptInputs.BoundOverDependency`). `bind` accepts more
  dependencies than `registered_paths` does, and a destination that is one of the receipt's own inputs.
  `BindReloads` is the exact condition.
- **A passed conformance report can be refused** (`SimulationControl.FallingClockIsRefused`). `verify` never
  compares the paused with the playing clock; `ReportAccepted` is the exact condition, which a clock that never
  goes back always meets.
- **A startup can outlive its clean-up** (`GazeboProvider.UncoveredStart`, `GazeboProvider.UncoveredLastStart`).
  A clean-up called while startup still connects finds nothing acquired; startup then starts the application.
  A clean-up called while a starting command is in flight can observe an owned project, tear it down and return
  before that command starts its container; an abort does not prevent it. In general a returned clean-up covers
  every container start of every continuation if and only if, at its call, no starting command was in flight
  and startup was aborted or settled (`CleanupCoversExactly`). Settled means ready, failed, past the exclusive
  clock owner's `up`, which is the last starting command, once that has returned, or past an incomplete
  inspection, which ends startup.

## Model

| member | source | states |
|---|---|---|
| IsaacEpisode.ApplyKeepsInv | host/src/plugins/isaac-provider/index.ts:55-216 | each host, worker, failure and kill step keeps the invariants about files, launch, episode log, cancellation and clean-up |
| IsaacEpisode.WorkerKeepsLog | workers/isaac/native-observe.py:226-393 | the worker's history stays the exact prefix of one episode that its program point implies, and no result is on disk before it got there |
| IsaacEpisode.WorkerKeepsOrder | workers/isaac/native-observe.py:145-155 | nothing past `start` happens before `start` is on disk, and a worker that passed the check after stepping was promised no cancellation |
| IsaacEpisode.PollAccepts | host/src/plugins/isaac-provider/index.ts:140-160 | the host accepts a result only if the complete result of its own owner and token is on disk |
| IsaacEpisode.MeasuredHasResult | host/src/plugins/isaac-provider/index.ts:210-216 | in every run, phase `measured` implies this owner's and token's completed result on disk, written after `start` was read and after exactly the planned steps |
| IsaacEpisode.WorkerFollowsEpisode | workers/isaac/native-observe.py:226-249 | in every run the worker's history is a prefix of one whole episode that begins by reading `start` |
| IsaacEpisode.CleanShutdownIsWholeEpisode | host/src/plugins/isaac-provider/index.ts:71-114 | a clean-up that found a worker and reports no error implies exit 0, the result on disk, and `release` read after it |
| IsaacEpisode.CancelIsFinal | host/src/plugins/isaac-provider/index.ts:188-192 | once a `cancel()` issued outside `released` has returned before `start`, then in every continuation `cancel` is on disk no later than `start`, no result is written, the worker never exits 0 and the host never reaches `measured` |
| IsaacEpisode.ReleasedCancelIsLost | host/src/plugins/isaac-provider/index.ts:189 | for every episode whose worker has the host's identity and step count, a reachable run in which a clean-up releases before `up`, a `cancel()` issued in `released` before `start` has no effect and the episode is measured |
| IsaacEpisode.LateCancelIsLost | host/src/plugins/isaac-provider/index.ts:106-127 | the same with a launch that has resolved: the last `down` took effect before `up` and returned after the container was listed |
| IsaacLaws.CancelBoundsHistory | workers/isaac/native-observe.py:142-156 | once `cancel` is on disk, whatever happens the worker only adds what its program point still allows: nothing where it looks for a cancellation first |
| IsaacLaws.CancelStopsEpisode | workers/isaac/native-observe.py:229-243 | from every reachable state with `cancel` on disk and the worker in stepping, at the check after it, or with frames left, no continuation writes a result, exits 0 or is measured, and at most one more step is taken |
| IsaacLaws.CancelStopsExactly | workers/isaac/native-observe.py:230-292 | after `start` and before the result, some continuation still writes the result if and only if the worker has passed its last check |
| IsaacLaws.CancellationIsReported | workers/isaac/native-observe.py:393-400 | a cancelled episode that is left to itself ends with the error fact and exit 1 |
| IsaacLaws.ForeignWorkerNeverStarts | workers/isaac/native-observe.py:105-118 | a worker with another identity follows no `start` of this episode: its history stays empty in every run |
| IsaacLaws.StaleMarkerStops | workers/isaac/native-observe.py:52-61 | a worker that finds any marker on starting publishes nothing, takes no step and exits with an error |
| IsaacLaws.ReleaseEndsWaiting | workers/isaac/native-observe.py:151-152 | with `release` on disk a worker that waits for `start` does not wait another round |
| IsaacLaws.CancelBeforeLaunch | host/src/plugins/isaac-provider/index.ts:55-66 | a `cancel()` before the launch has checked for it leaves no directory and no container in any continuation |
| IsaacLaws.StartFollowsObservations | host/src/plugins/isaac-provider/index.ts:161-178 | `start` is on disk only for the host's own worker, which has booted and shown itself paused at least twice |
| IsaacLaws.GoneWorkerStops | host/src/plugins/isaac-provider/index.ts:129-138 | an exited worker is never started, and an episode whose worker exits before the host confirmed its end is never measured |
| IsaacLaws.ErrorFactStopsPolling | host/src/plugins/isaac-provider/index.ts:140-160 | with an error fact on disk no poll that looks for it accepts another fact |
| IsaacLaws.CleanupFindsWorker | host/src/plugins/isaac-provider/index.ts:71-114 | a clean-up that looks for a worker when there is one cannot return without an error unless it has seen the whole episode |
| IsaacLaws.WholeEpisodeCanRun | host/src/plugins/isaac-provider/index.ts:55-216 | for every matching configuration: a run that is measured, and then shut down without an error |
| IsaacLaws.FailedCleanupReports | host/src/plugins/isaac-provider/index.ts:100-114 | whichever step of a clean-up fails, it does not return without an error |
| IsaacEpisode.ReleasedCancelExactly | host/src/plugins/isaac-provider/index.ts:71-216 | a `cancel()` issued in `released` before `start` changes nothing; some continuation measures the episode with no `cancel` on disk if and only if it is open and the worker matches, and one with no request at all if and only if moreover there was none before; and if it is not open, no continuation writes a result, exits the worker with 0 or measures |
| RetainedExport.SameStampUnchanged | host/workers/legacy-finalization/export_retained.py:34-41 | if every write takes a new stat identity, equal identities at two instants mean that the bytes did not change in between |
| RetainedExport.Admit | host/workers/legacy-finalization/export_retained.py:68-103 | the admission loop accepts exactly the inventories with distinct nonempty names, distinct unreserved outputs, regular sources of the declared sizes and a total within the bound |
| ExportLaws.AdmissibleExactly | host/workers/legacy-finalization/export_retained.py:68-103 | admissible means: each item fine on its own, no name or output twice, and all sizes together within the bound |
| ExportLaws.ItemExactly | host/workers/legacy-finalization/export_retained.py:72-98 | and an item is fine: named, a relative output other than the reserved names, a relative source that is a regular file of the declared size |
| RetainedExport.Transfer | host/workers/legacy-finalization/export_retained.py:116-137 | one entry read in chunks: success means the count and digest are those of the bytes written and, with new identities on write, of one snapshot since admission |
| RetainedExport.CopyOne | host/workers/legacy-finalization/export_retained.py:113-150 | one entry copied: success adds the payload the row describes, failure adds no row, and no existing path changes |
| RetainedExport.CopyAll | host/workers/legacy-finalization/export_retained.py:113-150 | the rows are the verified prefix of the admitted entries, in order |
| RetainedExport.Export | host/workers/legacy-finalization/export_retained.py:51-188 | refused exactly when the plan, the inventory or the destination is not acceptable, and then nothing changed; complete: every entry retained, each a consistent snapshot as admitted, the total within the bound, a manifest and no marker; in a world that is calm once the inventory is admitted, complete if and only if no output is empty, inside another or below the manifest's name, no source was touched since its admission and every declared digest is right, and what is retained is byte for byte its source; failed: the verified prefix, ending in such a world at the first entry that does not fit, and a marker listing exactly it, which such a world lacks if and only if an output tried so far lies below its name, and any other only if its write failed or such an output can be reached |
| RetainedExport.MarkerCanBeBlocked | host/workers/legacy-finalization/export_retained.py:81-84 | below either reserved name an output is admitted, and its directory takes that name |
| RetainedExport.UnmarkedFailure | host/workers/legacy-finalization/export_retained.py:103-188 | a concrete export that fails with both payloads retained, the manifest's name and the marker's name taken by directories, and no marker |
| RetainedExport.FailUnmarked | host/workers/legacy-finalization/export_retained.py:103-188 | for every plan with an output below the marker's name and everything before it laid out and intact: if only the opening of that output's source fails, the export fails there, unmarked, though no write of the handler fails |
| LegacyInventory.Collector.Add | host/workers/legacy-finalization/collect_inventory.py:31-80 | one `add` appends to entries, both argument lists and identities consistently, skips a duplicate, or is refused |
| LegacyInventory.Collect | host/workers/legacy-finalization/collect_inventory.py:82-190 | the scan accepts a plan exactly when the specification does, with the same inventory and argument lists |
| LegacyLaws.AcceptedIffUsable | host/workers/legacy-finalization/collect_inventory.py:31-190 | a plan is collected if and only if it is complete and every file it asks for is there under a known flag |
| LegacyLaws.CompleteExactly | host/workers/legacy-finalization/collect_inventory.py:87-143 | what makes a plan complete: mandatory subjects, core flags, a known data source with its own document, as many recordings as summaries, and no recording that is the playback source |
| LegacyLaws.BindingsHaveRoles | host/workers/legacy-finalization/collect_inventory.py:82-86 | binding by binding, both argument lists hold flag, subject and file, products last, and the inventory the file's digest and size |
| LegacyLaws.MandatoryIsNamed | host/workers/legacy-finalization/collect_inventory.py:87-138 | every mandatory subject and core flag is among the arguments, for a file of the inventory |
| LegacyLaws.MetadataHasRole | host/workers/legacy-finalization/collect_inventory.py:136-139 | every bag metadata file is capture evidence under its path below the bags directory, and is in the inventory |
| LegacyLaws.PairsHaveRoles | host/workers/legacy-finalization/collect_inventory.py:139-151 | position by position, the scanned summary is the recording summary `primary-i`, followed by the scanned recording as evidence `recording:primary-i.mcap`, both in the inventory |
| LegacyLaws.PlaybackHasRole | host/workers/legacy-finalization/collect_inventory.py:159-173 | a payload that playback adds is a scanned file, a recording if it is an `.mcap` and other evidence if not, or a playback binding |
| LegacyLaws.PlaybackIsNew | host/workers/legacy-finalization/collect_inventory.py:51-61 | and no earlier payload can stand in for it |
| LegacyLaws.PlaybackBindingsRetained | host/workers/legacy-finalization/collect_inventory.py:172-173 | every playback binding keeps an inventory entry of its bytes, a recording as a recording |
| LegacyLaws.UniqueKeepsFirst | host/workers/legacy-finalization/collect_inventory.py:178-181 | deduplication keeps exactly the first entry of every output path, in order |
| LegacyInventory.AddEachRepresents | host/workers/legacy-finalization/collect_inventory.py:51-61 | every requested payload is represented by an accepted one of the same bytes, a recording by a recording |
| LegacyInventory.UniqueKeepsPaths | host/workers/legacy-finalization/collect_inventory.py:178-181 | deduplication by output path keeps one entry for every path and adds none |
| LegacyInventory.PlaybackFilesRetained | host/workers/legacy-finalization/collect_inventory.py:152-173 | every file below the plan's playback directory keeps an inventory entry of its digest and size, an `.mcap` one in the role of a recording |
| LegacyInventory.InventoryIsAdmissible | host/workers/legacy-finalization/collect_inventory.py:62-72 | a faithful list of payloads over unchanged sources and within the byte bound gives an inventory that passes every item check of the export |
| LegacyInventory.CollectedIsAdmitted | host/workers/legacy-finalization/collect_inventory.py:82-190 | a collected plan over unchanged sources passes the item checks of the export if and only if it is within its byte bound, and the plan checks if and only if it has at most 4096 entries and a bound the export takes |
| LegacyInventory.RetainCollected | host/workers/legacy-finalization/collect_inventory.py:235-241 | what a completed export of a collected plan leaves passes the payload check; while nothing changes or fails and no file lies below another, a collected plan completes if and only if its destination is new and it is within the export's bounds |
| LegacyInventory.ExportedPayloadsMatch | host/workers/legacy-finalization/collect_inventory.py:235-241 | admitted entries and their retained rows pass the payload check against the sealed inventory |
| LegacyInventory.CollectedAligns | host/workers/legacy-finalization/collect_inventory.py:73-79 | source and retained arguments agree position by position: same flag, same subject, same payload under the other root |
| LegacyInventory.VerifySeals | host/workers/legacy-finalization/collect_inventory.py:244-292 | a verified result seals aligned arguments, a verdict that agrees with the exit code, and a result among the retained payloads |
| LegacyLaws.VerifyExactly | host/workers/legacy-finalization/collect_inventory.py:244-277 | a result is sealed if and only if the plan is collected within its bound, the singular bindings are there once, the document is of the run and domain, its verdict agrees with the exit code, and the tools have validated it |
| LegacyLaws.VerifySays | host/workers/legacy-finalization/collect_inventory.py:277-292 | and then the seal holds just that verdict, digest, place, inventory and both argument lists |
| LegacyInventory.RetryKeepsSeal | host/workers/legacy-finalization/collect_inventory.py:417-444 | one issued retry changes the destination and the arguments aligned with it, nothing else |
| LegacyLaws.RetryExactly | host/workers/legacy-finalization/collect_inventory.py:417-444 | a retry is issued if and only if collecting again gives the sealed inventory but for its destination, and the validated arguments; onto the sealed file only if nothing differs |
| LegacyLaws.SealedCanBeRetried | host/workers/legacy-finalization/collect_inventory.py:405-444 | a sealed assessment can always be retried with another destination, which changes only that and the arguments naming it |
| LegacyInventory.ChainKeepsSeal | host/workers/legacy-finalization/collect_inventory.py:405-444 | over any chain of retries, run id, verdict, result seal, source arguments and entries never change, and the arguments stay aligned with the current destination |
| Measurements.MessageStream.Observe | ros_ws/src/robotics_observability/robotics_observability/measurements.py:24-63 | one report: received exactly when the number exceeds all offered before, losing the numbers since the last accepted one |
| Measurements.ReportedFacts | ros_ws/src/robotics_observability/robotics_observability/measurements.py:24-48 | when an age is reported, and when a number is offered |
| Measurements.TotalsCount | ros_ws/src/robotics_observability/robotics_observability/measurements.py:40-63 | over every trace: received counts the strict running maxima, received and errors the observations, lost the numbers between first and last accepted that never were |
| Measurements.ReceivedAndLostFillTheRange | ros_ws/src/robotics_observability/robotics_observability/measurements.py:50-63 | received and lost together are the whole range from the first to the last accepted number |
| DerivedMetrics.FindBucket | examples/nav2-turtlebot3/derive-otlp.py:111-113 | the search finds the first bound that the age does not exceed, or the overflow bucket |
| DerivedMetrics.LastDecides | examples/nav2-turtlebot3/derive-otlp.py:85-92 | comparing with the previous row of a kind is the same as comparing with all earlier ones |
| DerivedMetrics.Next | examples/nav2-turtlebot3/derive-otlp.py:73-180 | one loop iteration refuses exactly the rows that do not follow, and otherwise keeps the running state equal to the counts over all rows so far |
| DerivedMetrics.Derive | examples/nav2-turtlebot3/derive-otlp.py:40-181 | accepts exactly the derivable rows, and emits for each row the counts over all rows up to it |
| DerivedMetrics.HistogramCounts | examples/nav2-turtlebot3/derive-otlp.py:67-129 | buckets sum to the count, and those up to a bound hold exactly the ages at most that bound |
| DerivedMetrics.SeriesIsCumulative | examples/nav2-turtlebot3/derive-otlp.py:107-129 | within a kind, later points have later times and are nowhere smaller |
| DerivedMetrics.TimesInWindow | examples/nav2-turtlebot3/derive-otlp.py:50-62 | every point starts at the window start and lies inside the window |
| DerivedMetrics.CountersBalance | examples/nav2-turtlebot3/derive-otlp.py:140-163 | the lost counter, summed step by step, and the steps between odometry rows together are last minus first sequence; received is one short of the rows exactly when the first odometry row opens the window |
| DerivedMetrics.OfflineAgreesWithStream | examples/nav2-turtlebot3/derive-otlp.py:151-158 | the lost counter equals the sum of the stream's lost deltas on the same rows, of which the stream receives all |
| QualificationPackage.Plan | scripts/qualification/package_artifacts.py:73-109 | the layout loop and its two collision checks accept exactly the specified layouts |
| QualificationLaws.EntryExactly | scripts/qualification/package_artifacts.py:73-94 | a specification is accepted if and only if its label is safe, its value names a regular file below the root, and an artifact's label names a subject; the entry is that label, source and digest |
| QualificationLaws.UnlabelledIsRefused | scripts/qualification/package_artifacts.py:74 | a specification without a label is refused |
| QualificationLaws.EntryStored | scripts/qualification/package_artifacts.py:82-93 | an artifact is stored for the subject after the first colon, with a suffix only if the parser mode needs one; a schema under its digest |
| QualificationLaws.LayoutExactly | scripts/qualification/package_artifacts.py:98-109 | a layout is accepted if and only if every specification is, no two artifacts share a place and none lies inside another entry |
| QualificationLaws.PortableLines | scripts/qualification/package_artifacts.py:94-97 | the written arguments are, entry by entry, its option and its label with its stored file |
| QualificationPackage.ArtifactPlace | scripts/qualification/package_artifacts.py:88-93 | for a normalized subject the stored file lies under `subjects` and has the parser mode of its source |
| QualificationPackage.SchemaPlace | scripts/qualification/package_artifacts.py:86-87 | a schema is stored under its digest, by its own name |
| QualificationPackage.LayoutIsSound | scripts/qualification/package_artifacts.py:98-109 | of an accepted layout no stored file lies inside another, and two entries share a file only as schemas of one digest |
| QualificationPackage.Destination.CopyOne | scripts/qualification/package_artifacts.py:117-128 | one staged copy: success means that the stored file has the admitted digest; nothing stored before changes |
| QualificationPackage.Destination.Package | scripts/qualification/package_artifacts.py:66-137 | success: exactly the target files, each with its digest, and the arguments file; any failure: the destination as before; with frozen inputs, no write failure and equal statements it always succeeds |
| ReceiptInputs.BindReloads | docker/evidence-sink/receipt-inputs.py:77-124 | once its receipt is written to a destination that can be written, a bound registration reloads to the same digests and paths, with the receipt at its destination, if and only if there are at most 4096 dependencies and the receipt replaced no other file of its chain |
| ReceiptInputs.BoundOverDependency | docker/evidence-sink/receipt-inputs.py:80-99 | an accepted binding to a writable destination that does not reload |
| ReceiptLaws.BindExactly | docker/evidence-sink/receipt-inputs.py:39-99 | a binding is accepted if and only if the registration is confirmed and of the receipt's run and the files are there and close; it records the digest of the receipt's bytes, the destination and the other names |
| ReceiptLaws.BindRefuses | docker/evidence-sink/receipt-inputs.py:85-91 | an unconfirmed registration, or one of another run, is never bound |
| ReceiptLaws.BindThenInventory | docker/evidence-sink/receipt-inputs.py:77-159 | bind, write the receipt, take the inventory: an index of that run expecting exactly that receipt is accepted, and lists the destination, the verification and the sorted dependencies |
| ReceiptLaws.RegisteredExactly | docker/evidence-sink/receipt-inputs.py:102-124 | a recorded name is used if and only if it is what a file below the root is called |
| ReceiptLaws.AcceptedExactly | docker/evidence-sink/receipt-inputs.py:134-150 | a confirmed registration is accepted if and only if its files are there and close, its receipt has the recorded digest, which the index expects, and both are of the index's run |
| ReceiptLaws.ClosureExactly | docker/evidence-sink/receipt-inputs.py:132-153 | the closure of an index is what its confirmed registrations need |
| ReceiptLaws.CoveredExactly | docker/evidence-sink/receipt-inputs.py:132-158 | an index is covered if and only if all of them are accepted, their receipts are the expected ones, and the digests are at most 4096 |
| ReceiptInputs.SortedKeeps | docker/evidence-sink/receipt-inputs.py:159 | sorting keeps the paths and orders distinct ones strictly |
| ReceiptInputs.Inventory | docker/evidence-sink/receipt-inputs.py:127-159 | accepts exactly the covered indexes, and then lists, for every digest in the closure of the retained receipts, exactly the first path registered for it |
| SimulationControl.SimulationControl.WaitForQuiescentClock | ros_ws/src/robotics_runtime_infra/robotics_runtime_infra/simulation_control.py:155-168 | the polling loop returns what its specification on the trace gives |
| SimulationControl.SimulationControl.WaitForClockAfter | ros_ws/src/robotics_runtime_infra/robotics_runtime_infra/simulation_control.py:142-153 | the same for the wait for an advance |
| SimulationControl.SimulationControl.WaitForClockAtLeast | ros_ws/src/robotics_runtime_infra/robotics_runtime_infra/simulation_control.py:170-176 | the same for the wait for a target |
| SimulationControl.SimulationControl.WaitForState | ros_ws/src/robotics_runtime_infra/robotics_runtime_infra/simulation_control.py:109-122 | the same for the confirmation of a state |
| SimulationControl.SimulationControl.StepAndWait | ros_ws/src/robotics_runtime_infra/robotics_runtime_infra/simulation_control.py:130-140 | the same for one exact step |
| SimulationControl.SimulationControl.Verify | ros_ws/src/robotics_runtime_infra/robotics_runtime_infra/simulation_control.py:178-228 | the same for a whole conformance run |
| SimulationControl.SimulationControl.StepPeriodically | ros_ws/src/robotics_runtime_infra/robotics_runtime_infra/simulation_control.py:281-286 | the same for pausing the simulator and stepping it periodically, for any number of rounds |
| SimulationControl.QuiescentIsQuiet | ros_ws/src/robotics_runtime_infra/robotics_runtime_infra/simulation_control.py:155-168 | a quiescent value was the only value of the clock between two readings of the time at least the stable time apart, with a poll in between |
| SimulationLaws.WaitQuiescentLaw | ros_ws/src/robotics_runtime_infra/robotics_runtime_infra/simulation_control.py:155-168 | the wait settles at a value if and only if some poll is the first after which the clock has been the same for the stable time, with no reading at the deadline up to then; it fails if and only if a poll cannot happen in time before that |
| SimulationLaws.WaitAfterLaw | ros_ws/src/robotics_runtime_infra/robotics_runtime_infra/simulation_control.py:142-153 | the same two-sided law for an advance beyond the earlier clock or the first one heard |
| SimulationLaws.WaitAtLeastLaw | ros_ws/src/robotics_runtime_infra/robotics_runtime_infra/simulation_control.py:170-176 | the same for the first poll that finds the clock at or above the target |
| SimulationLaws.WaitStateLaw | ros_ws/src/robotics_runtime_infra/robotics_runtime_infra/simulation_control.py:109-122 | the same for the first answer that reports the requested state |
| SimulationLaws.VerifiedLaw | ros_ws/src/robotics_runtime_infra/robotics_runtime_infra/simulation_control.py:178-228 | a conformance run finishes with given values if and only if the simulator offers the four features, and the fifth exactly for several steps, accepts every request, and every wait ends as its law says |
| SimulationLaws.PeriodicLaw | ros_ws/src/robotics_runtime_infra/robotics_runtime_infra/simulation_control.py:130-140 | the same for a periodic run and its rounds |
| SimulationLaws.CheckedExactly | scripts/ci/foundation/create-simulation-provider.py:49-67 | which reports the consumer accepts, and the advance it takes from them |
| SimulationControl.AfterAdvances | ros_ws/src/robotics_runtime_infra/robotics_runtime_infra/simulation_control.py:142-153 | an advance is proved against an earlier value, never by a first sample alone |
| SimulationControl.WaitStateConfirms | ros_ws/src/robotics_runtime_infra/robotics_runtime_infra/simulation_control.py:109-122 | a confirmed state is the requested one, reported by the last state call, with the deadline not yet reached |
| SimulationControl.VerifiedMeans | ros_ws/src/robotics_runtime_infra/robotics_runtime_infra/simulation_control.py:192-214 | a finished run: exact step, resumed clock beyond it, the playing clock observed before two quiet intervals in order, and, if no message goes back, a paused clock not before the playing one |
| SimulationControl.PeriodicIsExact | ros_ws/src/robotics_runtime_infra/robotics_runtime_infra/simulation_control.py:281-286 | a periodic run starts at a quiet clock and after every round m the clock is at exactly m times the requested advance beyond it, with the simulator reported paused; if no message goes back, during round m it never leaves the interval between m - 1 and m times the advance |
| SimulationControl.ReportAccepted | scripts/ci/foundation/create-simulation-provider.py:49-67 | the consumer accepts a returned report if and only if the clock at the end of the quiet paused interval is not before the one observed while playing and neither is negative; always, when the clock never goes back |
| SimulationControl.FallingClockIsRefused | scripts/ci/foundation/create-simulation-provider.py:63-66 | a concrete run that passes and whose report is refused |
| EngineOwnership.ProjectOwnership | host/src/engine-metadata.ts:114-163 | the observation throws exactly on a missing owner, an abort or a failed inspection, reports every finding in order, and is complete exactly when the project is owned |
| EngineLaws.FindingsLaw | host/src/engine-metadata.ts:114-163 | an observation throws if and only if an inspection it needs fails, and otherwise reports exactly the absent listings, the labels at fault, each as missing or mismatch, and the faults of the containers |
| EngineLaws.ContainerLaw | host/src/engine-metadata.ts:137-159 | the same for one container and the namespace parent it names |
| EngineOwnership.CompleteIffOwned | host/src/engine-metadata.ts:122-162 | no finding if and only if every listed container, network and volume is owned and every shared namespace names the expected, owned, direct parent |
| EngineOwnership.ContainerIffOwned | host/src/engine-metadata.ts:137-159 | the same for one container, in the listing and inspected |
| EngineOwnership.SelectsHighestShared | host/src/engine-metadata.ts:50-58 | the selected API version is the highest in both ranges; none is selected exactly when they share none |
| GazeboProvider.ApplyKeeps | host/src/plugins/gazebo-ros-v1/index.ts:28-103 | each step of startup, clean-up and observation keeps the invariants about bindings, observations, teardowns, starting commands and container starts |
| GazeboProvider.DownFollowsOwnership | host/src/plugins/gazebo-ros-v1/index.ts:29-51 | in every run a teardown follows an observation by the same call of a completely owned project, whose namespace parent had been bound before |
| GazeboProvider.BindingFollowsInspection | host/src/plugins/gazebo-ros-v1/index.ts:52-103 | in every run the simulation container is bound only after a complete inspection of it, and readiness implies a bound one |
| GazeboLaws.BoundWasOnlyCandidate | host/src/plugins/gazebo-ros-v1/index.ts:52-72 | in every run a container that a call has bound was the only candidate of that call's own inventory, had an exact identifier, and was then inspected completely, as the simulation, by that call |
| GazeboLaws.AmbiguityStops | host/src/plugins/gazebo-ros-v1/index.ts:62-65 | a call whose inventory names several candidates, or an inexact one, inspects, binds, observes and tears down nothing in any run |
| GazeboLaws.ParentlessWasEmpty | host/src/plugins/gazebo-ros-v1/index.ts:53-63 | a call that observes without a namespace parent has found no candidate |
| GazeboLaws.CandidateCanBeBound | host/src/plugins/gazebo-ros-v1/index.ts:64-72 | the only candidate can be bound |
| GazeboLaws.OnlyCleanupsTearDown | host/src/plugins/gazebo-ros-v1/index.ts:29-51 | only a clean-up tears down, a plain observation never does |
| GazeboLaws.FailureEndsCall | host/src/plugins/gazebo-ros-v1/index.ts:45-72 | a call whose connection, inventory, inspection, retention, ownership or teardown fails does nothing more in any continuation and never returns well |
| GazeboLaws.FailureEndsStartup | host/src/plugins/gazebo-ros-v1/index.ts:78-158 | a startup whose version check, connection, command, listing, inspection, retention or later check fails starts and binds nothing more and is never ready |
| GazeboLaws.AbortPreventsReadiness | host/src/plugins/gazebo-ros-v1/index.ts:78-158 | a startup aborted before it is ready never becomes ready |
| GazeboLaws.StartupCanFinish | host/src/plugins/gazebo-ros-v1/index.ts:84-158 | and one that nothing stops can become ready |
| GazeboProvider.CleanupCoversStarts | host/src/plugins/gazebo-ros-v1/index.ts:28-51 | if no starting command was in flight and startup was aborted or settled when a clean-up was called, then in every continuation in which it returned every container start is followed by its teardown |
| GazeboProvider.CleanupCoversExactly | host/src/plugins/gazebo-ros-v1/index.ts:84-158 | from every reachable state: the clean-up called there covers the container starts of every continuation if and only if no starting command is in flight and startup is aborted or settled |
| GazeboProvider.UncoveredStart | host/src/plugins/gazebo-ros-v1/index.ts:29-32 | without the abort, a clean-up during connection returns and the application starts afterwards |
| GazeboProvider.UncoveredLastStart | host/src/plugins/gazebo-ros-v1/index.ts:84-143 | a run in which the exclusive clock owner's `up` is in flight, startup is aborted, a clean-up called then tears down an owned project and returns, and the command then starts its container |
| RetentionUri.UnquoteUndoesQuote | docker/evidence-sink/retained-artifact.py:94-95 | decoding undoes encoding on every byte string |
| RetentionLaws.QuoteByte | docker/evidence-sink/retained-artifact.py:94-95 | an unreserved byte or slash stands for itself, any other is a percent sign with two upper-case digits |
| RetentionLaws.PlainIsUnquoted | docker/evidence-sink/retained-artifact.py:94-95 | a key is its own quotation if and only if all its bytes are such |
| RetentionLaws.Utf8Exactly | docker/evidence-sink/retained-artifact.py:94-95 | a key is well-formed text if and only if it is the encoding of a sequence of Unicode scalar values |
| RetentionLaws.BucketExactly | docker/evidence-sink/retained-artifact.py:83-90 | which bucket names are valid |
| RetentionUri.CanonicalSplits | docker/evidence-sink/retained-artifact.py:86-93 | the canonical URI of a valid bucket splits into that bucket and the encoded key, with no query or fragment |
| RetentionUri.AcceptedIffCanonical | docker/evidence-sink/retained-artifact.py:83-96 | a URI is accepted for a bucket and key if and only if it is their canonical URI, the bucket is valid, and the key is nonempty and well-formed |
| RetentionUri.CanonicalInjective | docker/evidence-sink/retained-artifact.py:94-96 | different objects have different canonical URIs; with `AcceptedIffCanonical` this makes accepted URIs and objects correspond one to one |
| PlaybackSelection.SourcesByDigest | scripts/ci/integration/prepare-playback-inputs.py:215-224 | the summaries are refused exactly when two share a source digest; otherwise the map has exactly their digests, each leading to its summary |
| PlaybackLaws.MemberNameExactly | scripts/ci/integration/prepare-playback-inputs.py:197-208 | a member name is accepted if and only if it is the printed form of a path of file names, without backslash or control character, ending in `.mcap` |
| PlaybackSelection.SortedIsExpected | scripts/ci/integration/prepare-playback-inputs.py:279-318 | the sorted segments are the expected ones if and only if the lists are equally long and every expected segment is recorded |
| PlaybackSelection.FinalizedIffComplete | scripts/ci/integration/prepare-playback-inputs.py:323-393 | selection succeeds if and only if metadata members, MCAP entries on disk, summaries, signed digests and index segments correspond one to one, each segment index being its member's position |
| PlaybackSelection.SelectedInOrder | scripts/ci/integration/prepare-playback-inputs.py:355-358 | the selected members are the metadata members in order, each with the summary of its own segment |
| PlaybackSelection.ScanRecording | scripts/ci/integration/prepare-playback-inputs.py:56-117 | the scan accepts exactly the recordings in which neither clock nor recording time goes back and both advance, and reports their ends and counts |
| Paths.RelativeIsPortable | host/workers/legacy-finalization/export_retained.py:20-31 | an admitted relative path has only portable components |
| Paths.RelativeExactly | host/workers/legacy-finalization/export_retained.py:20-31 | which path texts are admitted, and which components are kept |
| Paths.RelativeUndoesRender | host/workers/legacy-finalization/export_retained.py:20-31 | reading a printed path gives the path back, unless a name holds a control character |

## Left out

- Symbolic links, directory inodes, permissions and path resolution through links: all trees are link-free.
- `PurePath.suffix` is that of Python up to 3.13, where a trailing dot starts no suffix.
- Hash collisions: a digest determines its bytes.
- JSON, YAML, protobuf and MCAP syntax, and the external contract validators: documents are datatypes, and what a validator or reader decides is a parameter.
- Partial writes of a marker or fact file: each appears in one step.
- The Isaac worker's rendering, streaming and scene facts, and its phase deadlines: a failure may happen at any step, and the number of cancellation checks while rendering is a parameter.
- The compose commands of the Isaac launch and clean-up each take effect at one instant between issue and return, with other steps before and after it, and a command that has failed has no later effect.
- Worker restarts, and a worker killed with exit code 0 by an outside signal.
- The clean-up of the Isaac episode may start at any time after the resource is registered, and runs once.
- `exportEvidence`, `diagnosticEvidence` and the log reader of the host: file lists without further protocol.
- `verify_aggregate` and the public validation tools it calls: the verdict of those tools is a parameter of `LegacyInventory.Verify`.
- RetainedExport.Export: an existing file is one entry of the tree; times, permissions and the calls to fsync are not in it, but any of them may fail.
- `validateObservation`: a field-by-field comparison; its status is a parameter of the provider's steps.
- GazeboProvider.ApplyKeeps: the compose commands between binding and the exclusive clock owner are one repeated step that only checks and one that starts containers, those after it one that only checks, and the stepper container is not followed.
- GazeboProvider.CleanupCoversExactly: a compose command that has returned starts nothing more; what the Engine still does for a client that was killed, and compose commands of other components on the same project, are not modelled.
- `verifyCleanup` of both providers: a conjunction over an observation and an inventory.
- Connection, retention of evidence files, and abort signals of single Engine reads appear in the Gazebo model only as steps that may fail.
- DerivedMetrics.Derive: the digest and size of the source file are not checked; a refused derivation leaves lines behind that the model does not show; protobuf attributes and the summary file are not modelled.
- QualificationPackage.Destination.Package: a subject with empty, `.` or `..` components is kept as it stands; what the operating system makes of `..` is not modelled, and the parser-mode and layout lemmas ask for normalized subjects.
- QualificationPackage: removing the destination after a failure always succeeds.
- ReceiptInputs: home-directory expansion and the size limit of the printed document.
- SimulationControl: the pause between periodic rounds and the request that ends them are not modelled, only the number of rounds; features, states and results are the numbers the repository's tests use; the physics step size of the SDF world is not compared.
- A trace that ends early makes a wait fail; that a wait reaches its deadline in finite time is not a statement of this model.
- `require_object_version` and the range check of `download_version`: flat comparisons of response fields; the other fields of a registration likewise.
- RetentionUri.AcceptedIffCanonical: URIs are byte strings; text that has no UTF-8 encoding is refused by the original and is not a byte string here.
- Bracketed and non-ASCII network locations, which the splitter refuses earlier: here the bucket pattern refuses them.
- `recording_identity` of a playback member is a parameter, and directories whose names end in `.mcap` count as entries.
- Nav2 workloads, inference and motion probes, launch files, deployment descriptions and provider document builders: flat projections and plumbing.
