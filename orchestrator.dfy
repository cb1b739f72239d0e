/**
 `sort_electrode`: the per-channel orchestrator. The calibration steps on the
 resampled electrode (`fit_gmm`, `sort_spikes`, `remove_noise_cluster`,
 `recursive_fit_gmm`, `recursive_sort_spikes`) belong to the Electrode
 collaborator; their outcome is the `Calibration` parameter. Saving arrays and
 plots is left out.
 */
module Orchestrator {
  import opened SpikeTypes
  import opened Batching
  import opened Worker
  import opened Aggregation

  /** What the calibration fit yields: the coarse `num_clusters` after
      `fit_gmm`, the fitted noise model and tree, and `neuron_count`, the
      `num_clusters` after the recursive sort. */
  datatype Calibration<M> = Calibration(clusterCount: nat, params: FittedParams<M>, neuronCount: nat)

  /** The pair `(spike_time_arrays, neuron_count)` that `sort_electrode` returns. */
  datatype Sorted = Sorted(trains: seq<seq<SpikeTime>>, neuronCount: nat)

  /** The worker outputs of a channel: one per chunk, in chunk order, output
      `k` being the worker's result on chunk `k` with the shared parameters. */
  function BatchOutcomes<M>(ops: ElectrodeOps<M>, ename: string, dbpath: string,
                            labels: seq<Label>, batchSize: int, params: FittedParams<M>)
    : (r: seq<ChunkResult>)
    requires batchSize != 0
    ensures |r| == |Chunks(labels, batchSize)|
    ensures forall k :: 0 <= k < |r| ==>
              r[k] == ChunkOutcome(ops, WorkerInput(ename, dbpath, Chunks(labels, batchSize)[k], params))
  {
    var inputs := WorkerInputs(ename, dbpath, Chunks(labels, batchSize), params);
    seq(|inputs|, k requires 0 <= k < |inputs| => ChunkOutcome(ops, inputs[k]))
  }

  /** Runs the workers strictly one after the other: `outputs[k]` is the
      result of the worker on `inputs[k]`. */
  method RunBatches<M>(ops: ElectrodeOps<M>, inputs: seq<WorkerInput<M>>)
    returns (outputs: seq<ChunkResult>)
    ensures |outputs| == |inputs|
    ensures forall k :: 0 <= k < |inputs| ==> outputs[k] == ChunkOutcome(ops, inputs[k])
  {
    outputs := [];
    for k := 0 to |inputs|
      invariant |outputs| == k
      invariant forall j :: 0 <= j < k ==> outputs[j] == ChunkOutcome(ops, inputs[j])
    {
      var output := Categorize(ops, inputs[k]);
      outputs := outputs + [output];
    }
  }

  /** Sorts one electrode. A coarse fit with a single cluster means there is
      only noise: the result is `([], 0)` and no chunk is built or processed.
      Otherwise the labels are chunked (a zero batch size makes `range` raise),
      each chunk is categorized in order, and the outputs are aggregated into
      one spike train per neuron of the calibration. */
  method SortElectrode<M>(ename: string, dbpath: string, labels: seq<Label>, batchSize: int,
                          fit: Calibration<M>, ops: ElectrodeOps<M>)
    returns (r: Result<Sorted, Fault>)
    ensures fit.clusterCount == 1 ==> r == Ok(Sorted([], 0))
    ensures fit.clusterCount != 1 && batchSize == 0 ==> r == Err(ZeroBatchSize)
    ensures fit.clusterCount != 1 && batchSize != 0 ==>
              var outputs := BatchOutcomes(ops, ename, dbpath, labels, batchSize, fit.params);
              && (r.Ok? <==> Covers(outputs, fit.neuronCount))
              && (r.Ok? ==>
                    && Covers(outputs, fit.neuronCount)
                    && r.value.neuronCount == fit.neuronCount
                    && |r.value.trains| == fit.neuronCount
                    && forall i :: 0 <= i < fit.neuronCount ==> r.value.trains[i] == Train(outputs, i))
              && (r.Err? ==> r.error.IndexOutOfRange?)
  {
    if fit.clusterCount == 1 {
      return Ok(Sorted([], 0));
    }
    if batchSize == 0 {
      return Err(ZeroBatchSize);
    }
    var chunks := Chunks(labels, batchSize);
    var inputs := WorkerInputs(ename, dbpath, chunks, fit.params);
    var outputs := RunBatches(ops, inputs);
    assert outputs == BatchOutcomes(ops, ename, dbpath, labels, batchSize, fit.params);
    var trains := Aggregate(outputs, fit.neuronCount);
    match trains
    case Err(e) => r := Err(e);
    case Ok(arrays) => r := Ok(Sorted(arrays, fit.neuronCount));
  }

  /** The workers of a channel together receive every label exactly once, in
      the original order. */
  lemma WorkersCoverLabels<M>(ename: string, dbpath: string, labels: seq<Label>,
                              batchSize: int, params: FittedParams<M>)
    requires batchSize > 0
    ensures Flatten(ChunksOf(WorkerInputs(ename, dbpath, Chunks(labels, batchSize), params))) == labels
  {
    var chunks := Chunks(labels, batchSize);
    assert ChunksOf(WorkerInputs(ename, dbpath, chunks, params)) == chunks;
    PartitionRoundTrip(labels, batchSize);
  }

  /** 23 recording files in batches of 10 give three chunks of 10, 10 and 3 labels. */
  lemma TwentyThreeLabelsInBatchesOfTen(labels: seq<Label>)
    requires |labels| == 23
    ensures |Chunks(labels, 10)| == 3
    ensures |Chunks(labels, 10)[0]| == 10 && |Chunks(labels, 10)[1]| == 10
    ensures |Chunks(labels, 10)[2]| == 3
  {
    ChunkSizes(labels, 10);
    ChunkAt(labels, 10, 2);
  }

  /** When the middle of three batches fails, each neuron's train is its
      array from the first batch followed by its array from the third. */
  lemma FailedMiddleBatchIsDropped(a: seq<seq<SpikeTime>>, c: seq<seq<SpikeTime>>, n: nat, i: nat)
    requires i < n <= |a| && n <= |c|
    ensures Covers([Success(a), Failed, Success(c)], n)
    ensures Train([Success(a), Failed, Success(c)], i) == a[i] + c[i]
  {
    var outputs := [Success(a), Failed, Success(c)];
    assert outputs[..0] == [] && outputs[..3] == outputs;
    ContributionsStep(outputs, 0, n);
    ContributionsStep(outputs, 1, n);
    ContributionsStep(outputs, 2, n);
    assert Contributions(outputs, i) == [a[i]] + [c[i]];
    FlattenAppend([a[i]], [c[i]]);
    assert Flatten([a[i]]) == a[i] by {
      assert [a[i]][..0] == [];
    }
    assert Flatten([c[i]]) == c[i] by {
      assert [c[i]][..0] == [];
    }
  }

  /** When every batch found only noise, every neuron gets the placeholder and
      the neuron count is unaffected. */
  lemma AllEmptyBatchesGivePlaceholders(outputs: seq<ChunkResult>, n: nat)
    requires forall k :: 0 <= k < |outputs| ==> outputs[k].Empty?
    ensures Covers(outputs, n)
    ensures forall i :: 0 <= i < n ==> Train(outputs, i) == Placeholder
  {
    forall i | 0 <= i < n
      ensures Train(outputs, i) == Placeholder
    {
      TrainLength(outputs, i);
    }
  }
}
