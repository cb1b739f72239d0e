# Verified model of the spikesort batch orchestrator

This project models the bookkeeping around recursive spike sorting in
`sort_electrodes_recursive.py`. The clustering itself is out of scope. The
modelled parts are:

- **Batch partitioning.** The ordered list of recording labels (`mcd_labels`)
  is cut into contiguous chunks of at most `batch_size` labels. One worker input
  is built per chunk, and every input carries the same fitted noise model and
  classification tree (module `Batching`, `Worker.WorkerInputs`).
- **The per-chunk worker `categorize`.** It has three outcomes: `Failed` (the
  Python sentinel `-1`) for any fault, `Empty` (`0`) when at most one cluster
  is left after noise removal, or one spike-time array per cluster, where entry
  `i` is cluster `i` (`Worker.Categorize`).
- **Result aggregation.** Outputs are walked in batch order and each neuron's
  arrays are accumulated, then concatenated into one spike train per neuron.
  A neuron with no contribution gets the placeholder `[0]` (module
  `Aggregation`). The code as written is modelled separately, in module
  `AsWritten`.
- **The orchestrator `sort_electrode`.**
  - If the coarse fit finds a single cluster, it returns `([], 0)` at once.
  - Otherwise it chunks the labels, runs the workers one after the other, and
    aggregates their outputs (module `Orchestrator`).

The Electrode collaborator is represented by `Worker.ElectrodeOps`, a pair of
total functions. Each one either faults (`None`) or reports what the electrode
object holds afterwards: the remaining cluster count, or the cluster count with
the spike times per cluster. The calibration fit on the resampled electrode is
the value `Orchestrator.Calibration`. It holds the coarse cluster count, the six
fitted parameter objects and the neuron count.

The model follows the code on these points:
- The placeholder for a neuron without contributions is the one-element array
  `[0]` (`np.array([0])` at line 160), not an empty array.
- A neuron gets the placeholder only when no batch succeeded. If some batch
  succeeded and all of its arrays for that neuron are empty, the neuron's array
  is empty (`np.hstack` of empty arrays).

It departs from the code in two places, both listed under "## Findings":
`0` outputs are skipped during aggregation, and the placeholder goes into
`spike_time_arrays` rather than the undefined `spike_times_arrays`.

## Model

| member | source | states |
|---|---|---|
| `Batching.ChunksFrom` | sort_electrodes_recursive.py:135-136 | every chunk the comprehension produces is non-empty and holds at most `batch_size` labels |
| `Batching.Chunks` | sort_electrodes_recursive.py:135-136 | a negative `batch_size` gives no chunks, as Python's `range` does; every chunk is non-empty and holds at most `batch_size` labels |
| `Batching.PartitionRoundTrip` | sort_electrodes_recursive.py:135-136 | concatenating the chunks in order gives back exactly the label list: nothing dropped, duplicated or reordered |
| `Batching.ChunkAt` | sort_electrodes_recursive.py:135-136 | chunk `k` is the slice `labels[k*B : k*B+B]`, clamped at the end of the list, and starts inside the list |
| `Batching.ChunkSizes` | sort_electrodes_recursive.py:135-136 | there are `ceil(len/B)` chunks (none for an empty list); each holds 1 to `B` labels; all but the last hold exactly `B` |
| `Worker.WorkerInputs` | sort_electrodes_recursive.py:137-139 | one worker input per chunk, in chunk order, each with the same electrode name, path and fitted noise and tree parameters |
| `Worker.ChunkOutcome` | sort_electrodes_recursive.py:57-86 | the worker's result is `-1` exactly when a step faults: a collaborator fault, or a missing cluster key after a successful tree sort. It is `0` exactly when at most one cluster remains after noise removal. Otherwise it is `num_clusters` arrays, entry `i` being cluster `i`'s spike times |
| `Worker.Categorize` | sort_electrodes_recursive.py:57-86 | the loop that preallocates one slot per cluster and fills slot `i` from cluster `i` computes exactly the worker's result `Worker.ChunkOutcome`, `-1` included when a cluster key is missing |
| `Orchestrator.BatchOutcomes` | sort_electrodes_recursive.py:135-145 | one output per chunk, in chunk order; output `k` is the worker's result on chunk `k` with the electrode name, path and fitted parameters shared by all chunks |
| `Orchestrator.RunBatches` | sort_electrodes_recursive.py:142-145 | workers run sequentially; exactly one output per input, and `outputs[k]` is the worker's result on `inputs[k]` |
| `Orchestrator.SortElectrode` | sort_electrodes_recursive.py:108-194 | if the coarse fit has one cluster, returns `([], 0)` whatever the labels and collaborator. Otherwise a zero batch size faults. Otherwise succeeds exactly when every successful output covers all neurons, and then returns `neuron_count` trains, train `i` being the intended aggregate of the chunk outputs |
| `Orchestrator.WorkersCoverLabels` | sort_electrodes_recursive.py:135-139 | the workers together receive every label exactly once, in the original order |
| `Orchestrator.TwentyThreeLabelsInBatchesOfTen` | sort_electrodes_recursive.py:135-136 | 23 labels in batches of 10 give chunks of sizes 10, 10, 3 |
| `Orchestrator.FailedMiddleBatchIsDropped` | sort_electrodes_recursive.py:148-158 | with outputs success, `-1`, success, each neuron's train is its first-batch array followed by its third-batch array |
| `Orchestrator.AllEmptyBatchesGivePlaceholders` | sort_electrodes_recursive.py:148-160 | when every batch found only noise, every neuron gets the placeholder `[0]` |
| `Aggregation.Aggregate` | sort_electrodes_recursive.py:148-160 | succeeds exactly when every successful output has at least `neuron_count` arrays. On success, returns `neuron_count` trains, train `i` being the in-order concatenation of the contributions, or `[0]` if there are none. On a fault, names the first short batch |
| `Aggregation.AppendArrays` | sort_electrodes_recursive.py:151-154 | for one successful output, appends its array `i` to accumulator `i` for every neuron, and succeeds exactly when the output has an array for every neuron |
| `Aggregation.ConcatenateAccumulators` | sort_electrodes_recursive.py:155-160 | one train per accumulator, in neuron order: the in-order concatenation of a non-empty accumulator, the placeholder `[0]` for an empty one |
| `Aggregation.ContributionsStep` | sort_electrodes_recursive.py:149-154 | walking one more output appends exactly its array `i` to neuron `i`'s accumulator if it succeeded, and nothing otherwise |
| `Aggregation.ContributionsConcat` | sort_electrodes_recursive.py:149-154 | contributions from later batches come after all contributions from earlier batches |
| `Aggregation.SkippedOutputContributesNothing` | sort_electrodes_recursive.py:149-150 | a `-1` or `0` output contributes nothing to any neuron |
| `Aggregation.ContributionsEmptyIff` | sort_electrodes_recursive.py:155-160 | a neuron's accumulator is empty exactly when no batch succeeded, which is the same for every neuron |
| `Aggregation.ContributedLengthIsSum` | sort_electrodes_recursive.py:152-158 | the accumulated arrays hold as many spikes as the batch-by-batch count over successful batches |
| `Aggregation.TrainLength` | sort_electrodes_recursive.py:155-160 | a neuron's final array is as long as the sum of its contributions from successful batches; without contributions it is exactly `[0]` |
| `SpikeTypes.FlattenLength` | sort_electrodes_recursive.py:158 | `hstack` keeps every element: the result is as long as all parts together |
| `AsWritten.AppendOutput` | sort_electrodes_recursive.py:149-154 | as written, one batch succeeds exactly when it is `-1`, or `0` with no neuron, or a success covering all neurons; a success appends its array `i` to accumulator `i`, anything else leaves the accumulators as they were; a fault names that batch (TypeError for `0`, IndexError otherwise) |
| `AsWritten.Accumulate` | sort_electrodes_recursive.py:148-154 | as written, the outer loop keeps one accumulator per neuron, and any fault is TypeError or IndexError at one of the batches it walked |
| `AsWritten.Finish` | sort_electrodes_recursive.py:155-160 | as written, the final loop succeeds exactly when no accumulator is empty, then returns one array per neuron; otherwise it raises NameError |
| `AsWritten.AggregateAsWritten` | sort_electrodes_recursive.py:148-160 | as written, aggregation returns `neuron_count` arrays on success; a fault is NameError or an indexing fault at one of the batches |
| `AsWritten.AccumulateOverFailures` | sort_electrodes_recursive.py:149-150 | in the code as written, `-1` outputs leave every accumulator untouched |
| `AsWritten.EmptyOutputFaultsAsWritten` | sort_electrodes_recursive.py:148-154 | as written, when there is a neuron and batch `k` is `0`, and every earlier batch is `-1` or a success covering all neurons, aggregation raises TypeError at batch `k` |
| `AsWritten.AccumulateFaultsAtEmpty` | sort_electrodes_recursive.py:148-154 | as written, with a neuron, the loop walked from batch `j` raises TypeError at the first `0` batch `k` when the batches from `j` to `k` are `-1` or successes covering all neurons |
| `AsWritten.SilentNeuronFaultsAsWritten` | sort_electrodes_recursive.py:155-160 | as written, when every batch failed and there is a neuron, aggregation raises NameError |
| `AsWritten.AccumulateMeaning` | sort_electrodes_recursive.py:148-154 | as written, on a run without `0` outputs and without short lists, the accumulators equal the intended contributions |
| `AsWritten.AsWrittenAgreesOtherwise` | sort_electrodes_recursive.py:148-160 | apart from the two defects, the code as written returns exactly the intended trains |
| `AsWritten.AsWrittenSucceedsOnlyOtherwise` | sort_electrodes_recursive.py:148-160 | as written, aggregation succeeds only when every success covers all neurons and, if there is a neuron, some batch succeeded and no output is `0`; with `AsWritten.AsWrittenAgreesOtherwise` this is an if-and-only-if |
| `AsWritten.AccumulateOkMeans` | sort_electrodes_recursive.py:148-154 | as written, an outer loop that does not fault met no short success and, with a neuron, no `0` output; without successes it leaves the accumulators unchanged |

## Findings

| source | as written | input that shows it | evidently intended | confidence | as-written member | corrected member |
|---|---|---|---|---|---|---|
| sort_electrodes_recursive.py:150 | only `-1` outputs are skipped, so a `0` (noise-only chunk) output is indexed and raises TypeError | `neuron_count = 2`, outputs `[0]` | a `0` output contributes nothing, like `-1` | high, not executed | `AsWritten.EmptyOutputFaultsAsWritten` | `Aggregation.SkippedOutputContributesNothing` |
| sort_electrodes_recursive.py:160 | the placeholder is appended to `spike_times_arrays`, an undefined name, so it raises NameError | `neuron_count = 1`, outputs `[-1]` | the neuron gets the placeholder `[0]` in `spike_time_arrays` | high, not executed | `AsWritten.SilentNeuronFaultsAsWritten` | `Aggregation.TrainLength` |

The code as written is the function `AsWritten.AggregateAsWritten`. The
corrected aggregation is `Aggregation.Aggregate`, which `Orchestrator.SortElectrode`
uses.

## Left out

- Child-process isolation (`child_categorize`, lines 37-45) exists only to bound memory. A worker call is modelled as a direct call to `categorize`.
- Electrode internals are foreign code involving PCA, GMM and floating point: `Electrode.Electrode`, `sort_spikes`, `remove_noise_cluster`, `fit_gmm`, `recursive_fit_gmm`, `recursive_sort_spikes` and `load_array_data`. Stacking waveform matrices (`vstack`, lines 70 and 124) is left out too. They appear only as the results carried by `Worker.ElectrodeOps` and `Orchestrator.Calibration`.
- Routing spikes through the classification tree is not visible in this code, since it happens inside `recursive_sort_spikes`. So is the determinism of applying the tree twice.
- `Orchestrator.SortElectrode`: faults raised by the calibration steps on `full_ele` (lines 109-132) are not modelled. The calibration is taken as given.
- Saving arrays and plots (lines 164-192), module-level file listing (lines 25-33) and the `__main__` script (lines 199-294) are left out. They are file I/O, plotting and process control.
- The cluster keys `str(i)` of `neuron_spike_times` are modelled by integer keys `i`. A missing key still raises, as in the code.
- Spike times are `real` values, without numpy dtypes.
- `Batching.PartitionRoundTrip` and `Batching.ChunkSizes` hold only for positive batch sizes. A negative `batch_size` produces no chunks, as Python's `range` does. A zero batch size is reported as `ZeroBatchSize`.
