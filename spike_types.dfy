/**
 Shared vocabulary of the spike-sorting orchestrator: recording labels, spike
 times, the tri-state result of one chunk worker, the faults the Python code
 can raise, and `Flatten`, which stands for numpy's `hstack` on 1-D arrays.
 */
module SpikeTypes {

  /** One recording file name of the experiment (an entry of `mcd_labels`). */
  type Label = string

  /** A spike timestamp. The source holds them in float arrays. */
  type SpikeTime = real

  datatype Option<+T> = None | Some(value: T)

  datatype Result<+R, +E> = Ok(value: R) | Err(error: E)

  /** The exceptions the modelled code can raise, with the batch index where one
      arises while walking the worker outputs. */
  datatype Fault =
    | ZeroBatchSize            // `range(0, len, 0)` raises ValueError
    | NotIndexable(batch: nat) // indexing the integer sentinel `0` raises TypeError
    | IndexOutOfRange(batch: nat) // a result list shorter than `neuron_count`: IndexError
    | UndefinedName            // the misspelt `spike_times_arrays`: NameError

  /** What one worker call returns. The Python code encodes `Failed` as `-1`,
      `Empty` as `0` and `Success` as a list with one spike-time array per cluster. */
  datatype ChunkResult = Failed | Empty | Success(arrays: seq<seq<SpikeTime>>)

  /** Concatenation of a list of 1-D arrays, in order (numpy `hstack`). */
  function Flatten<T>(ss: seq<seq<T>>): seq<T>
  {
    if ss == [] then [] else Flatten(ss[..|ss| - 1]) + ss[|ss| - 1]
  }

  /** Total number of elements in a list of arrays. */
  function SumLengths<T>(ss: seq<seq<T>>): nat
  {
    if ss == [] then 0 else |ss[0]| + SumLengths(ss[1..])
  }

  lemma {:induction false} FlattenAppend<T>(xs: seq<seq<T>>, ys: seq<seq<T>>)
    ensures Flatten(xs + ys) == Flatten(xs) + Flatten(ys)
  {
    if ys == [] {
      assert xs + ys == xs;
    } else {
      var zs := xs + ys;
      assert zs[..|zs| - 1] == xs + ys[..|ys| - 1];
      FlattenAppend(xs, ys[..|ys| - 1]);
    }
  }

  /** hstack keeps every element: the result is as long as all parts together. */
  lemma {:induction false} FlattenLength<T>(ss: seq<seq<T>>)
    ensures |Flatten(ss)| == SumLengths(ss)
  {
    if ss != [] {
      assert ss == [ss[0]] + ss[1..];
      FlattenAppend([ss[0]], ss[1..]);
      assert Flatten([ss[0]]) == ss[0] by {
        assert [ss[0]][..0] == [];
      }
      FlattenLength(ss[1..]);
    }
  }

  lemma {:induction false} SumLengthsAppend<T>(xs: seq<seq<T>>, ys: seq<seq<T>>)
    ensures SumLengths(xs + ys) == SumLengths(xs) + SumLengths(ys)
  {
    if xs == [] {
      assert xs + ys == ys;
    } else {
      assert (xs + ys)[1..] == xs[1..] + ys;
      SumLengthsAppend(xs[1..], ys);
    }
  }
}
