/** Splitting a turn's tool calls into batches (internal/agent/partition.go). */
module Batches {

  datatype Batch<C> = Batch(calls: seq<C>, safe: bool)

  function Flatten<C>(batches: seq<Batch<C>>): seq<C> {
    if batches == [] then [] else batches[0].calls + Flatten(batches[1..])
  }

  lemma {:induction false} FlattenSnoc<C>(batches: seq<Batch<C>>, b: Batch<C>)
    ensures Flatten(batches + [b]) == Flatten(batches) + b.calls
  {
    if batches == [] {
      assert [] + [b] == [b];
      assert Flatten([b]) == b.calls + Flatten([]);
    } else {
      FlattenSnoc(batches[1..], b);
      assert (batches + [b])[1..] == batches[1..] + [b];
    }
  }

  /** A batch is one unsafe call, or one or more safe calls. */
  predicate BatchOk<C>(b: Batch<C>, isSafe: C -> bool) {
    if b.safe then b.calls != [] && forall i :: 0 <= i < |b.calls| ==> isSafe(b.calls[i])
    else |b.calls| == 1 && !isSafe(b.calls[0])
  }

  /** Every batch is in order and no two safe batches are neighbours. */
  predicate BatchesOk<C>(batches: seq<Batch<C>>, isSafe: C -> bool) {
    (forall i :: 0 <= i < |batches| ==> BatchOk(batches[i], isSafe)) &&
    (forall i :: 0 <= i < |batches| - 1 ==> !(batches[i].safe && batches[i + 1].safe))
  }

  lemma {:induction false} Emit<C>(batches: seq<Batch<C>>, b: Batch<C>, isSafe: C -> bool)
    requires BatchesOk(batches, isSafe) && BatchOk(b, isSafe)
    requires batches != [] && b.safe ==> !batches[|batches| - 1].safe
    ensures BatchesOk(batches + [b], isSafe) && Flatten(batches + [b]) == Flatten(batches) + b.calls
  {
    FlattenSnoc(batches, b);
  }

  /** Partition: the batches hold the calls in order, safe neighbours together. */
  method Partition<C>(indexed: seq<C>, isSafe: C -> bool) returns (batches: seq<Batch<C>>)
    ensures Flatten(batches) == indexed
    ensures BatchesOk(batches, isSafe)
  {
    batches := [];
    if |indexed| == 0 {
      return;
    }
    var accumulator: seq<C> := [];
    for i := 0 to |indexed|
      invariant Flatten(batches) + accumulator == indexed[..i]
      invariant BatchesOk(batches, isSafe)
      invariant forall k :: 0 <= k < |accumulator| ==> isSafe(accumulator[k])
      invariant batches != [] ==> !batches[|batches| - 1].safe
    {
      var ic := indexed[i];
      assert indexed[..i + 1] == indexed[..i] + [ic];
      ghost var before, acc := batches, accumulator;
      if isSafe(ic) {
        accumulator := accumulator + [ic];
        assert Flatten(before) + accumulator == Flatten(before) + acc + [ic];
      } else {
        if |accumulator| > 0 {
          Emit(batches, Batch(accumulator, true), isSafe);
          batches := batches + [Batch(accumulator, true)];
          accumulator := [];
        } else {
          assert Flatten(before) + acc == Flatten(before);
        }
        Emit(batches, Batch([ic], false), isSafe);
        batches := batches + [Batch([ic], false)];
        assert Flatten(batches) + accumulator == Flatten(batches);
      }
    }
    assert indexed[..|indexed|] == indexed;
    if |accumulator| > 0 {
      Emit(batches, Batch(accumulator, true), isSafe);
      batches := batches + [Batch(accumulator, true)];
    }
  }

  /** The number of safe calls at the front. */
  function SafeRun<C>(calls: seq<C>, isSafe: C -> bool): (n: nat)
    ensures n <= |calls|
    ensures forall i :: 0 <= i < n ==> isSafe(calls[i])
    ensures n < |calls| ==> !isSafe(calls[n])
  {
    if calls != [] && isSafe(calls[0]) then 1 + SafeRun(calls[1..], isSafe) else 0
  }

  lemma {:induction false} FlattenHead<C>(batches: seq<Batch<C>>, isSafe: C -> bool)
    requires BatchesOk(batches, isSafe) && batches != []
    ensures var f := Flatten(batches);
            f != [] && batches[0].safe == isSafe(f[0]) &&
            batches[0].calls == f[..if isSafe(f[0]) then SafeRun(f, isSafe) else 1]
  {
    var f, head, rest := Flatten(batches), batches[0].calls, batches[1..];
    var n := |head|;
    assert BatchOk(batches[0], isSafe);
    assert f == head + Flatten(rest) && f[..n] == head && f[0] == head[0];
    assert forall i :: 0 <= i < n ==> f[i] == head[i];
    if batches[0].safe && rest != [] {
      assert BatchOk(batches[1], isSafe) && !batches[1].safe && rest[0] == batches[1];
      assert Flatten(rest) == rest[0].calls + Flatten(rest[1..]);
      assert f[n] == Flatten(rest)[0] == rest[0].calls[0];
    }
    if rest == [] { assert |f| == n; }
  }

  /** What Partition ensures leaves no choice: there is one such list of batches. */
  lemma {:induction false} PartitionUnique<C>(xs: seq<Batch<C>>, ys: seq<Batch<C>>, isSafe: C -> bool)
    requires BatchesOk(xs, isSafe) && BatchesOk(ys, isSafe) && Flatten(xs) == Flatten(ys)
    ensures xs == ys
  {
    if xs != [] { FlattenHead(xs, isSafe); }
    if ys != [] { FlattenHead(ys, isSafe); }
    if xs != [] && ys != [] {
      var n := |xs[0].calls|;
      assert Flatten(xs)[n..] == Flatten(xs[1..]) && Flatten(ys)[n..] == Flatten(ys[1..]);
      PartitionUnique(xs[1..], ys[1..], isSafe);
      assert xs == [xs[0]] + xs[1..] && ys == [ys[0]] + ys[1..];
    }
  }
}
