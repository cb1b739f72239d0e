/**
 The aggregation loops of `sort_electrode` exactly as the Python code writes
 them, faults included. Two behaviours differ from the intended aggregation of
 module `Aggregation`:
 - the loop only skips outputs equal to `-1`, so an `Empty` output (`0`) reaches
   `output[neuron_index]` and raises TypeError whenever there is a neuron;
 - the placeholder for a neuron without contributions is appended to
   `spike_times_arrays`, a name that is never defined, which raises NameError.
 The lemmas below exhibit both faults and show that on every other run the code
 computes exactly the intended trains.
 */
module AsWritten {
  import opened SpikeTypes
  import opened Aggregation

  /** One pass of the outer loop body for batch `k`: a `-1` output is passed
      over; anything else is indexed at every neuron below `|acc|`. On success
      each accumulator gains the output's own array if it is a `Success`, and
      nothing otherwise; a fault names batch `k`. */
  function AppendOutput(acc: seq<seq<seq<SpikeTime>>>, output: ChunkResult, k: nat)
    : (r: Result<seq<seq<seq<SpikeTime>>>, Fault>)
    ensures r.Ok? <==> output.Failed? || (output.Empty? && |acc| == 0)
                       || (output.Success? && |acc| <= |output.arrays|)
    ensures r.Ok? ==> |r.value| == |acc|
    ensures r.Ok? && output.Success? ==>
              forall i :: 0 <= i < |acc| ==> r.value[i] == acc[i] + [output.arrays[i]]
    ensures r.Ok? && !output.Success? ==> r.value == acc
    ensures r.Err? ==> r.error == (if output.Empty? then NotIndexable(k) else IndexOutOfRange(k))
  {
    match output
    case Failed => Ok(acc)
    case Empty => if |acc| == 0 then Ok(acc) else Err(NotIndexable(k))
    case Success(arrays) =>
      if |arrays| < |acc| then Err(IndexOutOfRange(k))
      else Ok(seq(|acc|, i requires 0 <= i < |acc| => acc[i] + [arrays[i]]))
  }

  /** The outer loop from batch `k` on, with accumulators `acc`. It keeps one
      accumulator per neuron, and a fault names a batch it walked. */
  function Accumulate(outputs: seq<ChunkResult>, acc: seq<seq<seq<SpikeTime>>>, k: nat)
    : (r: Result<seq<seq<seq<SpikeTime>>>, Fault>)
    requires k <= |outputs|
    ensures r.Ok? ==> |r.value| == |acc|
    ensures r.Err? ==>
              (r.error.NotIndexable? || r.error.IndexOutOfRange?)
              && k <= r.error.batch < |outputs|
    decreases |outputs| - k
  {
    if k == |outputs| then Ok(acc)
    else match AppendOutput(acc, outputs[k], k)
      case Err(e) => Err(e)
      case Ok(acc') => Accumulate(outputs, acc', k + 1)
  }

  /** The final loop: a non-empty accumulator is concatenated; an empty one
      reaches the misspelt name and raises NameError. */
  function Finish(acc: seq<seq<seq<SpikeTime>>>): (r: Result<seq<seq<SpikeTime>>, Fault>)
    ensures r.Ok? <==> forall i :: 0 <= i < |acc| ==> acc[i] != []
    ensures r.Err? ==> r.error == UndefinedName
    ensures r.Ok? ==> |r.value| == |acc|
  {
    if exists i :: 0 <= i < |acc| && acc[i] == [] then Err(UndefinedName)
    else Ok(seq(|acc|, i requires 0 <= i < |acc| => Flatten(acc[i])))
  }

  /** The aggregation as written, for `n` neurons: one train per neuron on
      success; a fault is either NameError or an indexing fault at one of the
      batches. */
  function AggregateAsWritten(outputs: seq<ChunkResult>, n: nat)
    : (r: Result<seq<seq<SpikeTime>>, Fault>)
    ensures r.Ok? ==> |r.value| == n
    ensures r.Err? ==>
              r.error == UndefinedName
              || ((r.error.NotIndexable? || r.error.IndexOutOfRange?) && r.error.batch < |outputs|)
  {
    match Accumulate(outputs, seq(n, _ => []), 0)
    case Err(e) => Err(e)
    case Ok(acc) => Finish(acc)
  }

  /** `-1` outputs leave the accumulators of the as-written loop untouched. */
  lemma {:induction false} AccumulateOverFailures(outputs: seq<ChunkResult>,
                                                  acc: seq<seq<seq<SpikeTime>>>, k: nat, m: nat)
    requires k <= m <= |outputs|
    requires forall j :: k <= j < m ==> outputs[j].Failed?
    ensures Accumulate(outputs, acc, k) == Accumulate(outputs, acc, m)
    decreases m - k
  {
    if k < m {
      AccumulateOverFailures(outputs, acc, k + 1, m);
    }
  }

  /** From batch `j` on, with at least one neuron: if batch `k` is the sentinel
      `0` and every batch from `j` up to it is `-1` or a `Success` covering all
      neurons, the loop raises TypeError at batch `k`. */
  lemma {:induction false} AccumulateFaultsAtEmpty(outputs: seq<ChunkResult>,
                                                   acc: seq<seq<seq<SpikeTime>>>, j: nat, k: nat)
    requires |acc| > 0 && j <= k < |outputs| && outputs[k].Empty?
    requires forall l :: j <= l < k ==>
               !outputs[l].Empty? && (outputs[l].Success? ==> |acc| <= |outputs[l].arrays|)
    ensures Accumulate(outputs, acc, j) == Err(NotIndexable(k))
    decreases k - j
  {
    if j < k {
      var next := AppendOutput(acc, outputs[j], j).value;
      AccumulateFaultsAtEmpty(outputs, next, j + 1, k);
    }
  }

  /** Defect at the `-1` test: when there is at least one neuron and batch `k`
      is the empty sentinel `0`, while every earlier batch is `-1` or a
      `Success` covering all neurons, the code raises TypeError at batch `k`,
      although the chunk only meant "no signal". */
  lemma EmptyOutputFaultsAsWritten(outputs: seq<ChunkResult>, n: nat, k: nat)
    requires n > 0 && k < |outputs| && outputs[k].Empty?
    requires forall j :: 0 <= j < k ==>
               !outputs[j].Empty? && (outputs[j].Success? ==> n <= |outputs[j].arrays|)
    ensures AggregateAsWritten(outputs, n) == Err(NotIndexable(k))
  {
    AccumulateFaultsAtEmpty(outputs, seq(n, _ => []), 0, k);
  }

  /** Defect at the placeholder line: when every batch failed and there is at
      least one neuron, the code raises NameError instead of returning
      placeholders. */
  lemma SilentNeuronFaultsAsWritten(outputs: seq<ChunkResult>, n: nat)
    requires n > 0
    requires forall j :: 0 <= j < |outputs| ==> outputs[j].Failed?
    ensures AggregateAsWritten(outputs, n) == Err(UndefinedName)
  {
    var empty: seq<seq<seq<SpikeTime>>> := seq(n, _ => []);
    AccumulateOverFailures(outputs, empty, 0, |outputs|);
    assert empty[0] == [];
  }

  /** On a run where the as-written loop does not fault, it keeps neuron `i`'s
      accumulator equal to the intended `Contributions`. */
  lemma {:induction false} AccumulateMeaning(outputs: seq<ChunkResult>, n: nat,
                                             acc: seq<seq<seq<SpikeTime>>>, k: nat)
    requires k <= |outputs| && |acc| == n && Covers(outputs, n)
    requires n > 0 ==> forall j :: 0 <= j < |outputs| ==> !outputs[j].Empty?
    requires forall i :: 0 <= i < n ==> acc[i] == Contributions(outputs[..k], i)
    ensures Accumulate(outputs, acc, k).Ok?
    ensures |Accumulate(outputs, acc, k).value| == n
    ensures forall i :: 0 <= i < n ==> Accumulate(outputs, acc, k).value[i] == Contributions(outputs, i)
    decreases |outputs| - k
  {
    if k == |outputs| {
      assert outputs[..k] == outputs;
    } else {
      assert Covers(outputs[..k], n);
      ContributionsStep(outputs, k, n);
      var next := AppendOutput(acc, outputs[k], k);
      assert next.Ok?;
      AccumulateMeaning(outputs, n, next.value, k + 1);
    }
  }

  /** Apart from the two defects the code computes the intended trains: when no
      output is the sentinel `0` and some batch succeeded (or there are no
      neurons), it returns `Train(outputs, i)` for every neuron `i`. */
  lemma AsWrittenAgreesOtherwise(outputs: seq<ChunkResult>, n: nat)
    requires Covers(outputs, n)
    requires n > 0 ==> HasSuccess(outputs) && forall j :: 0 <= j < |outputs| ==> !outputs[j].Empty?
    ensures AggregateAsWritten(outputs, n).Ok?
    ensures |AggregateAsWritten(outputs, n).value| == n
    ensures forall i :: 0 <= i < n ==> AggregateAsWritten(outputs, n).value[i] == Train(outputs, i)
  {
    var empty: seq<seq<seq<SpikeTime>>> := seq(n, _ => []);
    assert outputs[..0] == [];
    AccumulateMeaning(outputs, n, empty, 0);
    var acc := Accumulate(outputs, empty, 0).value;
    forall i | 0 <= i < n
      ensures acc[i] != []
    {
      ContributionsEmptyIff(outputs, i);
    }
  }

  /** Conversely, the code as written succeeds only on such runs: every
      `Success` output covers all neurons and, when there is a neuron, no output
      is `0` and some batch succeeded. */
  lemma AsWrittenSucceedsOnlyOtherwise(outputs: seq<ChunkResult>, n: nat)
    requires AggregateAsWritten(outputs, n).Ok?
    ensures Covers(outputs, n)
    ensures n > 0 ==> HasSuccess(outputs) && forall j :: 0 <= j < |outputs| ==> !outputs[j].Empty?
  {
    var empty: seq<seq<seq<SpikeTime>>> := seq(n, _ => []);
    AccumulateOkMeans(outputs, empty, 0);
    assert n > 0 ==> empty[0] == [];
  }

  /** A run of the as-written loop from batch `k` that does not fault has met
      every `Success` output with enough arrays and, when there is a neuron, no
      `0` output; if none of those batches succeeded, it leaves `acc` as it was. */
  lemma {:induction false} AccumulateOkMeans(outputs: seq<ChunkResult>,
                                             acc: seq<seq<seq<SpikeTime>>>, k: nat)
    requires k <= |outputs|
    ensures Accumulate(outputs, acc, k).Ok? ==>
              forall j :: k <= j < |outputs| ==>
                (outputs[j].Success? ==> |acc| <= |outputs[j].arrays|)
                && (|acc| > 0 ==> !outputs[j].Empty?)
    ensures Accumulate(outputs, acc, k).Ok? && (forall j :: k <= j < |outputs| ==> !outputs[j].Success?) ==>
              Accumulate(outputs, acc, k).value == acc
    decreases |outputs| - k
  {
    if k < |outputs| {
      var step := AppendOutput(acc, outputs[k], k);
      if step.Ok? {
        AccumulateOkMeans(outputs, step.value, k + 1);
      }
    }
  }
}
