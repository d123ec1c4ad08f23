/** The slicing loop of `getGames`: contiguous groups of at most `StepSize` refs. */
module Batching {

  /** `stepSize` in `getGames`. */
  const StepSize: nat := 20

  function Min(a: int, b: int): int { if a <= b then a else b }

  /** In-order concatenation of a sequence of sequences. */
  function Flatten<T>(xss: seq<seq<T>>): seq<T>
  {
    if |xss| == 0 then [] else xss[0] + Flatten(xss[1..])
  }

  /**
   The slices `xs.slice(i, i + size)`, `xs.slice(i + size, i + 2 * size)`, …
   taken while the start is below `|xs|`; `slice` clamps its end to `|xs|`.
   */
  function ChunksFrom<T>(xs: seq<T>, size: nat, i: nat): seq<seq<T>>
    requires size > 0
    decreases |xs| - i
  {
    if i >= |xs| then [] else [xs[i..Min(i + size, |xs|)]] + ChunksFrom(xs, size, i + size)
  }

  /** Concatenating the slices from `i` on gives back everything from `i` on. */
  lemma {:induction false} ChunksFromFlatten<T>(xs: seq<T>, size: nat, i: nat)
    requires size > 0 && i <= |xs|
    ensures Flatten(ChunksFrom(xs, size, i)) == xs[i..]
    decreases |xs| - i
  {
    if i < |xs| {
      var chunk := xs[i..Min(i + size, |xs|)];
      var rest := ChunksFrom(xs, size, i + size);
      assert ([chunk] + rest)[1..] == rest;
      if i + size <= |xs| {
        ChunksFromFlatten(xs, size, i + size);
        assert xs[i..] == chunk + xs[i + size..];
      } else {
        assert rest == [];
        assert chunk + [] == xs[i..];
      }
    }
  }

  /** Every slice holds 1 to `size` elements, and every slice but the last exactly `size`. */
  lemma {:induction false} ChunksFromSizes<T>(xs: seq<T>, size: nat, i: nat)
    requires size > 0
    ensures var r := ChunksFrom(xs, size, i);
            && (|r| == 0 <==> i >= |xs|)
            && (forall k :: 0 <= k < |r| ==> 0 < |r[k]| <= size)
            && (forall k :: 0 <= k < |r| - 1 ==> |r[k]| == size)
    decreases |xs| - i
  {
    if i < |xs| {
      ChunksFromSizes(xs, size, i + size);
      var r := ChunksFrom(xs, size, i);
      assert forall k :: 1 <= k < |r| ==> r[k] == ChunksFrom(xs, size, i + size)[k - 1];
    }
  }

  /** The batches `getGames` cuts `xs` into: they partition `xs` in order, 1 to `size` each, all full but the last. */
  function Chunks<T>(xs: seq<T>, size: nat): (r: seq<seq<T>>)
    requires size > 0
    ensures Flatten(r) == xs
    ensures forall k :: 0 <= k < |r| ==> 0 < |r[k]| <= size
    ensures forall k :: 0 <= k < |r| - 1 ==> |r[k]| == size
    ensures |r| == 0 <==> |xs| == 0
  {
    ChunksFromFlatten(xs, size, 0);
    ChunksFromSizes(xs, size, 0);
    assert xs[0..] == xs;
    ChunksFrom(xs, size, 0)
  }

  /** Starting at `i`, there are ceil((|xs| - i) / size) slices. */
  lemma {:induction false} ChunksFromCount<T>(xs: seq<T>, size: nat, i: nat)
    requires size > 0
    requires i <= |xs|
    ensures |ChunksFrom(xs, size, i)| == (|xs| - i + size - 1) / size
    decreases |xs| - i
  {
    if i < |xs| {
      if i + size <= |xs| {
        ChunksFromCount(xs, size, i + size);
        DivStep(|xs| - i + size - 1, size);
      } else {
        DivOne(|xs| - i + size - 1, size);
      }
    } else {
      DivZero(size - 1, size);
    }
  }

  lemma DivStep(a: nat, d: nat)
    requires 0 < d <= a
    ensures (a - d) / d + 1 == a / d
  {
    var q := (a - d) / d;
    var r := (a - d) % d;
    assert a == (q + 1) * d + r;
    DivUnique(a, d, q + 1, r);
  }

  lemma DivOne(a: nat, d: nat)
    requires 0 < d <= a < 2 * d
    ensures a / d == 1
  {
    DivUnique(a, d, 1, a - d);
  }

  lemma DivZero(a: nat, d: nat)
    requires a < d
    ensures a / d == 0
  {
  }

  /** Euclidean division has one quotient and remainder. */
  lemma DivUnique(a: int, d: int, q: int, r: int)
    requires d > 0 && 0 <= r < d && a == q * d + r
    ensures a / d == q
  {
    var q0 := a / d;
    var r0 := a % d;
    assert (q - q0) * d == r0 - r;
    if q - q0 >= 1 {
      MulAtLeast(q - q0, d);
    } else if q0 - q >= 1 {
      MulAtLeast(q0 - q, d);
    }
  }

  lemma MulAtLeast(x: int, d: int)
    requires x >= 1 && d > 0
    ensures x * d >= d
  {
    assert x * d == (x - 1) * d + d;
  }

  /** There are ceil(|xs| / size) batches; none at all for an empty list. */
  lemma ChunksCount<T>(xs: seq<T>, size: nat)
    requires size > 0
    ensures |Chunks(xs, size)| == (|xs| + size - 1) / size
  {
    ChunksFromCount(xs, size, 0);
  }

  /** Where batch `k` starts when batching begins at `i`: `i + k * size`, counted up one batch at a time. */
  function BatchStart(i: nat, size: nat, k: nat): nat
  {
    if k == 0 then i else BatchStart(i, size, k - 1) + size
  }

  lemma {:induction false} BatchStartIsProduct(i: nat, size: nat, k: nat)
    ensures BatchStart(i, size, k) == i + k * size
    decreases k
  {
    if k > 0 {
      BatchStartIsProduct(i, size, k - 1);
      MulStep(k, size);
    }
  }

  lemma MulStep(k: nat, size: nat)
    requires k > 0
    ensures (k - 1) * size + size == k * size
  {
  }

  lemma {:induction false} BatchStartShift(i: nat, size: nat, k: nat)
    ensures BatchStart(i + size, size, k) == BatchStart(i, size, k + 1)
    decreases k
  {
    if k > 0 {
      BatchStartShift(i, size, k - 1);
    }
  }

  /** Batch `k` holds exactly the refs from its start up to `size` further, clamped to the end. */
  lemma {:induction false} ChunksFromContents<T>(xs: seq<T>, size: nat, i: nat, k: nat)
    requires size > 0
    requires k < |ChunksFrom(xs, size, i)|
    ensures BatchStart(i, size, k) < |xs|
    ensures ChunksFrom(xs, size, i)[k] == xs[BatchStart(i, size, k)..Min(BatchStart(i, size, k) + size, |xs|)]
    decreases k
  {
    if k > 0 {
      assert ChunksFrom(xs, size, i)[k] == ChunksFrom(xs, size, i + size)[k - 1];
      ChunksFromContents(xs, size, i + size, k - 1);
      BatchStartShift(i, size, k - 1);
    }
  }

  /** Batch `k` holds exactly the refs at positions `k * size` up to `(k + 1) * size`, clamped. */
  lemma ChunksContents<T>(xs: seq<T>, size: nat, k: nat)
    requires size > 0
    requires k < |Chunks(xs, size)|
    ensures k * size < |xs|
    ensures Chunks(xs, size)[k] == xs[k * size..Min((k + 1) * size, |xs|)]
  {
    ChunksFromContents(xs, size, 0, k);
    BatchStartIsProduct(0, size, k);
    MulStep(k + 1, size);
  }
}
