/**
 The result aggregation of `sort_electrode`: the worker outputs are walked in
 batch order, every contributing output hands its array `i` to neuron `i`'s
 accumulator, and each accumulator is then concatenated into one spike train.

 This is the intended behaviour. Two lines of the Python code deviate from it
 (see module `AsWritten`): an `Empty` output (`0`) is not skipped and faults
 when indexed, and the placeholder for a neuron without contributions is
 appended to a misspelt list, which faults. Here `Empty` outputs are skipped
 like `Failed` ones, and the placeholder `[0]` is appended to the result.
 A `Success` list shorter than the neuron count still faults, as in the code.
 */
module Aggregation {
  import opened SpikeTypes

  /** The one-element array `np.array([0])` given to a neuron without contributions. */
  const Placeholder: seq<SpikeTime> := [0.0]

  /** Every `Success` output holds at least `n` arrays, so indexing it at any
      neuron below `n` is defined. */
  predicate Covers(outputs: seq<ChunkResult>, n: nat)
  {
    forall k :: 0 <= k < |outputs| && outputs[k].Success? ==> n <= |outputs[k].arrays|
  }

  /** Whether some batch produced a `Success` output. */
  predicate HasSuccess(outputs: seq<ChunkResult>)
  {
    exists k :: 0 <= k < |outputs| && outputs[k].Success?
  }

  /** Neuron `i`'s accumulator after walking `outputs`: array `i` of every
      `Success` output, in batch order. */
  function Contributions(outputs: seq<ChunkResult>, i: nat): seq<seq<SpikeTime>>
    requires Covers(outputs, i + 1)
  {
    if outputs == [] then []
    else
      var prefix := Contributions(outputs[..|outputs| - 1], i);
      match outputs[|outputs| - 1]
      case Success(arrays) => prefix + [arrays[i]]
      case _ => prefix
  }

  /** Neuron `i`'s final spike train: its contributions concatenated in order,
      or the placeholder when there are none. */
  function Train(outputs: seq<ChunkResult>, i: nat): seq<SpikeTime>
    requires Covers(outputs, i + 1)
  {
    var parts := Contributions(outputs, i);
    if parts == [] then Placeholder else Flatten(parts)
  }

  /** Number of spikes neuron `i` receives, counted batch by batch from the
      first: the length of array `i` of each `Success` output, zero otherwise. */
  function ContributedLength(outputs: seq<ChunkResult>, i: nat): nat
    requires Covers(outputs, i + 1)
  {
    if outputs == [] then 0
    else
      (if outputs[0].Success? then |outputs[0].arrays[i]| else 0)
      + ContributedLength(outputs[1..], i)
  }

  /** Contributions of later batches come after all contributions of earlier
      batches: the accumulator of two runs of outputs is the concatenation of
      their accumulators. */
  lemma {:induction false} ContributionsConcat(xs: seq<ChunkResult>, ys: seq<ChunkResult>, i: nat)
    requires Covers(xs + ys, i + 1)
    ensures Covers(xs, i + 1) && Covers(ys, i + 1)
    ensures Contributions(xs + ys, i) == Contributions(xs, i) + Contributions(ys, i)
  {
    assert forall k :: 0 <= k < |xs| ==> (xs + ys)[k] == xs[k];
    assert forall k :: 0 <= k < |ys| ==> (xs + ys)[|xs| + k] == ys[k];
    if ys == [] {
      assert xs + ys == xs;
    } else {
      var zs := xs + ys;
      var ys' := ys[..|ys| - 1];
      assert zs[..|zs| - 1] == xs + ys';
      assert zs[|zs| - 1] == ys[|ys| - 1];
      assert Covers(xs + ys', i + 1) by {
        forall k | 0 <= k < |xs + ys'| ensures (xs + ys')[k] == zs[k] { }
      }
      ContributionsConcat(xs, ys', i);
    }
  }

  /** Walking one more output extends every accumulator by at most that
      output's own array. */
  lemma ContributionsStep(outputs: seq<ChunkResult>, k: nat, n: nat)
    requires k < |outputs| && Covers(outputs[..k], n)
    requires outputs[k].Success? ==> n <= |outputs[k].arrays|
    ensures Covers(outputs[..k + 1], n)
    ensures forall i :: 0 <= i < n ==>
              Contributions(outputs[..k + 1], i)
              == Contributions(outputs[..k], i)
                 + (if outputs[k].Success? then [outputs[k].arrays[i]] else [])
  {
    assert outputs[..k + 1][..k] == outputs[..k];
  }

  /** A `Failed` (`-1`) or `Empty` (`0`) output contributes nothing to any
      neuron: removing it from the batch sequence leaves every accumulator as it was. */
  lemma SkippedOutputContributesNothing(xs: seq<ChunkResult>, skipped: ChunkResult,
                                        ys: seq<ChunkResult>, i: nat)
    requires skipped.Failed? || skipped.Empty?
    requires Covers(xs + ys, i + 1)
    ensures Covers(xs + [skipped] + ys, i + 1)
    ensures Contributions(xs + [skipped] + ys, i) == Contributions(xs + ys, i)
  {
    var all := xs + [skipped] + ys;
    assert Covers(all, i + 1) by {
      forall k | 0 <= k < |all| && all[k].Success?
        ensures i + 1 <= |all[k].arrays|
      {
        if k < |xs| {
          assert all[k] == (xs + ys)[k];
        } else if k > |xs| {
          assert all[k] == (xs + ys)[k - 1];
        }
      }
    }
    ContributionsConcat(xs + [skipped], ys, i);
    ContributionsConcat(xs, [skipped], i);
    ContributionsConcat(xs, ys, i);
    assert Contributions([skipped], i) == [] by {
      assert [skipped][..0] == [];
    }
  }

  /** A neuron's accumulator is empty exactly when no batch succeeded; this
      does not depend on the neuron, so either every neuron receives the
      placeholder or none does. */
  lemma {:induction false} ContributionsEmptyIff(outputs: seq<ChunkResult>, i: nat)
    requires Covers(outputs, i + 1)
    ensures Contributions(outputs, i) == [] <==> !HasSuccess(outputs)
  {
    if outputs != [] {
      var prefix := outputs[..|outputs| - 1];
      ContributionsEmptyIff(prefix, i);
      if HasSuccess(prefix) {
        var k :| 0 <= k < |prefix| && prefix[k].Success?;
        assert outputs[k].Success?;
      }
      if HasSuccess(outputs) && !outputs[|outputs| - 1].Success? {
        var k :| 0 <= k < |outputs| && outputs[k].Success?;
        assert prefix[k].Success?;
      }
    }
  }

  /** The front-to-back count of contributed spikes equals the total length of
      the accumulator. */
  lemma {:induction false} ContributedLengthIsSum(outputs: seq<ChunkResult>, i: nat)
    requires Covers(outputs, i + 1)
    ensures SumLengths(Contributions(outputs, i)) == ContributedLength(outputs, i)
  {
    if outputs != [] {
      var head, tail := [outputs[0]], outputs[1..];
      assert outputs == head + tail;
      ContributionsConcat(head, tail, i);
      SumLengthsAppend(Contributions(head, i), Contributions(tail, i));
      ContributedLengthIsSum(tail, i);
      assert head[..0] == [];
    }
  }

  /** Neuron `i`'s final array holds exactly the spikes contributed by the
      `Success` batches, so its length is the sum of their array `i` lengths;
      a neuron without any contribution gets the one-element placeholder. */
  lemma TrainLength(outputs: seq<ChunkResult>, i: nat)
    requires Covers(outputs, i + 1)
    ensures HasSuccess(outputs) ==> |Train(outputs, i)| == ContributedLength(outputs, i)
    ensures !HasSuccess(outputs) ==> Train(outputs, i) == Placeholder
  {
    ContributionsEmptyIff(outputs, i);
    ContributedLengthIsSum(outputs, i);
    FlattenLength(Contributions(outputs, i));
  }

  /** Walks the worker outputs in batch order and builds one spike train per
      neuron. A `Success` output with fewer than `n` arrays faults at the first
      such batch; otherwise neuron `i` gets `Train(outputs, i)`. */
  method Aggregate(outputs: seq<ChunkResult>, n: nat) returns (r: Result<seq<seq<SpikeTime>>, Fault>)
    ensures r.Ok? <==> Covers(outputs, n)
    ensures r.Ok? ==>
              Covers(outputs, n) && |r.value| == n
              && forall i :: 0 <= i < n ==> r.value[i] == Train(outputs, i)
    ensures r.Err? ==>
              r.error.IndexOutOfRange? && r.error.batch < |outputs|
              && outputs[r.error.batch].Success? && |outputs[r.error.batch].arrays| < n
              && Covers(outputs[..r.error.batch], n)
  {
    var firingTimes := new seq<seq<SpikeTime>>[n](_ => []);
    var k := 0;
    while k < |outputs|
      invariant 0 <= k <= |outputs|
      invariant Covers(outputs[..k], n)
      invariant forall i :: 0 <= i < n ==> firingTimes[i] == Contributions(outputs[..k], i)
    {
      // `Failed` and `Empty` outputs are passed over
      if outputs[k].Success? {
        var appended := AppendArrays(firingTimes, outputs[k].arrays);
        if !appended {
          r := Err(IndexOutOfRange(k));
          return;
        }
      }
      ContributionsStep(outputs, k, n);
      k := k + 1;
    }
    assert outputs[..k] == outputs;
    var trains := ConcatenateAccumulators(firingTimes[..]);
    r := Ok(trains);
  }

  /** The inner loop for one `Success` output: array `i` of the output is
      appended to accumulator `i`, neuron by neuron. It succeeds exactly when
      the output holds an array for every neuron; otherwise it stops at the
      first missing index. */
  method AppendArrays(firingTimes: array<seq<seq<SpikeTime>>>, arrays: seq<seq<SpikeTime>>)
    returns (appended: bool)
    modifies firingTimes
    ensures appended <==> firingTimes.Length <= |arrays|
    ensures appended ==>
              forall i :: 0 <= i < firingTimes.Length ==>
                firingTimes[i] == old(firingTimes[i]) + [arrays[i]]
  {
    var i := 0;
    while i < firingTimes.Length
      invariant 0 <= i <= firingTimes.Length && i <= |arrays|
      invariant forall j :: 0 <= j < i ==> firingTimes[j] == old(firingTimes[j]) + [arrays[j]]
      invariant forall j :: i <= j < firingTimes.Length ==> firingTimes[j] == old(firingTimes[j])
    {
      if i >= |arrays| {
        return false;
      }
      firingTimes[i] := firingTimes[i] + [arrays[i]];
      i := i + 1;
    }
    return true;
  }

  /** The final loop: each neuron's accumulated arrays are concatenated in
      order, and a neuron without any gets the placeholder `[0]`. */
  method ConcatenateAccumulators(firingTimes: seq<seq<seq<SpikeTime>>>)
    returns (trains: seq<seq<SpikeTime>>)
    ensures |trains| == |firingTimes|
    ensures forall i :: 0 <= i < |firingTimes| ==>
              trains[i] == if firingTimes[i] == [] then Placeholder else Flatten(firingTimes[i])
  {
    trains := [];
    var i := 0;
    while i < |firingTimes|
      invariant 0 <= i <= |firingTimes|
      invariant |trains| == i
      invariant forall j :: 0 <= j < i ==>
                  trains[j] == if firingTimes[j] == [] then Placeholder else Flatten(firingTimes[j])
    {
      if |firingTimes[i]| > 0 {
        trains := trains + [Flatten(firingTimes[i])];
      } else {
        trains := trains + [Placeholder];
      }
      i := i + 1;
    }
  }
}
