/**
 The per-chunk worker `categorize` and the construction of its inputs.
 The Electrode collaborator (loading a chunk, EM sorting with the noise model,
 noise-cluster removal, recursive tree sorting) is not modelled: it is a pair of
 total functions that either fault (`None`) or report what the electrode object
 holds afterwards. Spawning a child process per call only bounds memory, so a
 worker call is a direct call.
 */
module Worker {
  import opened SpikeTypes

  /** The fitted parameters every worker receives: the noise model
      (`pca_data_noise`, `gmm_data_noise`, `precalc_std`) and the classification
      tree (`pca_tree`, `gmm_tree`, `std_tree`). `M` stands for the
      collaborator's parameter objects, which this model never inspects. */
  datatype FittedParams<M> = FittedParams(
    pcaNoise: M, gmmNoise: M, noiseStd: M,
    pcaTree: M, gmmTree: M, stdTree: M)

  /** One worker input: electrode name, database path, the chunk of labels and
      the shared fitted parameters. */
  datatype WorkerInput<M> = WorkerInput(
    ename: string, dbpath: string, chunk: seq<Label>, params: FittedParams<M>)

  /** What the electrode object holds after `recursive_sort_spikes`: its
      `num_clusters` and `neuron_spike_times`, whose keys `str(i)` are modelled
      by the integers `i`. */
  datatype TreeSort = TreeSort(numClusters: nat, spikeTimes: map<nat, seq<SpikeTime>>)

  /** The Electrode collaborator as seen by the worker.
      `noiseSort` covers construction, `sort_spikes` and `remove_noise_cluster`
      and yields the remaining `num_clusters`; `treeSort` covers the stacking of
      the noise-free data and `recursive_sort_spikes`. `None` is a raised fault. */
  datatype ElectrodeOps<!M> = ElectrodeOps(
    noiseSort: WorkerInput<M> -> Option<nat>,
    treeSort: WorkerInput<M> -> Option<TreeSort>)

  /** One worker input per chunk, in chunk order, all carrying the same
      electrode, path and fitted parameters. */
  function WorkerInputs<M>(ename: string, dbpath: string, chunks: seq<seq<Label>>,
                           params: FittedParams<M>): (r: seq<WorkerInput<M>>)
    ensures |r| == |chunks|
    ensures forall k :: 0 <= k < |r| ==>
              r[k].chunk == chunks[k] && r[k].params == params
              && r[k].ename == ename && r[k].dbpath == dbpath
  {
    seq(|chunks|, k requires 0 <= k < |chunks| => WorkerInput(ename, dbpath, chunks[k], params))
  }

  /** The labels handed to the workers, in worker order. */
  function ChunksOf<M>(inputs: seq<WorkerInput<M>>): seq<seq<Label>>
  {
    seq(|inputs|, k requires 0 <= k < |inputs| => inputs[k].chunk)
  }

  /** Whether every cluster index below `numClusters` has spike times; when one
      is missing, the lookup `neuron_spike_times[str(i)]` raises KeyError. */
  predicate AllKeysPresent(ts: TreeSort)
  {
    forall i :: 0 <= i < ts.numClusters ==> i in ts.spikeTimes
  }

  /** The result `categorize` returns for one input: `Failed` (`-1`) exactly
      when a step raises, `Empty` (`0`) exactly when at most one cluster
      remains after noise removal, and otherwise one array per cluster left by
      the tree sort, entry `i` being the spike times of cluster `i`. */
  function ChunkOutcome<M>(ops: ElectrodeOps<M>, input: WorkerInput<M>): (r: ChunkResult)
    ensures r.Failed? <==>
              ops.noiseSort(input).None?
              || (ops.noiseSort(input).value > 1
                  && (ops.treeSort(input).None? || !AllKeysPresent(ops.treeSort(input).value)))
    ensures r.Empty? <==> ops.noiseSort(input).Some? && ops.noiseSort(input).value <= 1
    ensures r.Success? ==>
              ops.treeSort(input).Some?
              && |r.arrays| == ops.treeSort(input).value.numClusters
              && forall i :: 0 <= i < |r.arrays| ==>
                   i in ops.treeSort(input).value.spikeTimes
                   && r.arrays[i] == ops.treeSort(input).value.spikeTimes[i]
  {
    match ops.noiseSort(input)
    case None => Failed
    case Some(count) =>
      if count <= 1 then Empty
      else match ops.treeSort(input)
        case None => Failed
        case Some(ts) =>
          if AllKeysPresent(ts)
          then Success(seq(ts.numClusters, i requires 0 <= i < ts.numClusters && AllKeysPresent(ts) => ts.spikeTimes[i]))
          else Failed
  }

  /** `categorize` as the code runs it: after a successful tree sort it
      preallocates one slot per cluster and fills slot `i` from cluster `i`,
      giving up with `-1` at the first missing cluster key. */
  method Categorize<M>(ops: ElectrodeOps<M>, input: WorkerInput<M>) returns (r: ChunkResult)
    ensures r == ChunkOutcome(ops, input)
  {
    var noise := ops.noiseSort(input);
    if noise.None? {
      return Failed;
    }
    if noise.value <= 1 {
      return Empty;
    }
    var tree := ops.treeSort(input);
    if tree.None? {
      return Failed;
    }
    var ts := tree.value;
    var result := new seq<SpikeTime>[ts.numClusters](_ => []);
    var i := 0;
    while i < ts.numClusters
      invariant 0 <= i <= ts.numClusters
      invariant forall j :: 0 <= j < i ==> j in ts.spikeTimes && result[j] == ts.spikeTimes[j]
    {
      if i !in ts.spikeTimes {
        return Failed;
      }
      result[i] := ts.spikeTimes[i];
      i := i + 1;
    }
    r := Success(result[..]);
  }
}
