/** Batches of records on their way to the database. */
module Batches {
  import opened Models

  type Batch = seq<TelemetryData>

  /** Capacity of the store's flush channel. */
  const CAPACITY: nat := 100

  function Concat(batches: seq<Batch>): Batch {
    if batches == [] then [] else Concat(batches[..|batches| - 1]) + batches[|batches| - 1]
  }

  lemma ConcatAppend(batches: seq<Batch>, batch: Batch)
    ensures Concat(batches + [batch]) == Concat(batches) + batch
  {
    assert (batches + [batch])[..|batches|] == batches;
  }

  lemma {:induction false} ConcatSplit(a: seq<Batch>, b: seq<Batch>)
    ensures Concat(a + b) == Concat(a) + Concat(b)
  {
    if b == [] {
      assert a + b == a;
    } else {
      ConcatSplit(a, b[..|b| - 1]);
      assert (a + b)[..|a + b| - 1] == a + b[..|b| - 1];
    }
  }

  lemma ConcatFirst(batches: seq<Batch>)
    requires batches != []
    ensures Concat(batches) == batches[0] + Concat(batches[1..])
  {
    var one := [batches[0]];
    assert one[..0] == [] && Concat(one) == batches[0];
    assert one + batches[1..] == batches;
    ConcatSplit(one, batches[1..]);
  }

  lemma {:induction false} ConcatEmpty(batches: seq<Batch>)
    requires forall i :: 0 <= i < |batches| ==> batches[i] != []
    ensures Concat(batches) == [] <==> batches == []
  {
    if batches != [] {
      assert batches[|batches| - 1] != [];
    }
  }
}
