/**
 * The batched index build: the split passages are cut into consecutive
 * batches of at most `batch_size`, one store is built per batch, and the
 * stores are merged into the first one in order. A store is abstracted as
 * the sequence of passages it holds, building one keeps the batch as it is,
 * and merging appends the other store's passages.
 */
module Retriever {
  import opened Wrappers

  /**
   * Why no store comes back: a zero batch size is rejected by the range
   * it steps through, and with no batch there is no first store to merge into.
   */
  datatype BuildError = ZeroBatchSize | NoStores

  /** The passages of all `stores`, in order. */
  function Concat<T>(stores: seq<seq<T>>): seq<T> {
    if |stores| == 0 then [] else Concat(stores[..|stores| - 1]) + stores[|stores| - 1]
  }

  /** Appending one more store appends its passages. */
  lemma ConcatSnoc<T>(stores: seq<seq<T>>, last: seq<T>)
    ensures Concat(stores + [last]) == Concat(stores) + last
  {
    assert (stores + [last])[..|stores|] == stores;
  }

  /** The smaller of two integers. */
  function Min(a: int, b: int): int {
    if a <= b then a else b
  }

  /** Batch number `k`: Python's slice `xs[k*size : (k+1)*size]`, both ends cut off at the end of `xs`. */
  function BatchAt<T>(xs: seq<T>, size: nat, k: nat): seq<T> {
    xs[Min(k * size, |xs|) .. Min((k + 1) * size, |xs|)]
  }

  /** The number of batches Python's `range(0, n, size)` yields: n / size rounded up. */
  function BatchCount(n: nat, size: nat): nat
    requires size > 0
  {
    (n + size - 1) / size
  }

  /** If `k` steps of `size` reach `n` and `k - 1` do not, then `k` is `n / size` rounded up. */
  lemma CeilingDivision(n: nat, size: nat, k: nat)
    requires size > 0
    requires n <= k * size
    requires k == 0 || (k - 1) * size < n
    ensures k == BatchCount(n, size)
  {
    var q := (n + size - 1) / size;
    var r := (n + size - 1) % size;
    assert n + size - 1 == q * size + r && 0 <= r < size;
    if q < k {
      assert false;
    }
    if k < q {
      assert (k + 1) * size <= q * size by {
        MultiplyMonotone(k + 1, q, size);
      }
      assert false;
    }
  }

  lemma MultiplyMonotone(a: int, b: int, size: nat)
    requires a <= b
    ensures a * size <= b * size
  {
    assert b * size - a * size == (b - a) * size;
  }

  /**
   * The batches `range(0, len(splits), batch_size)` cuts: batch `k` is the
   * slice starting at `k * batchSize`. Together they are `splits` again,
   * there are `len(splits) / batch_size` of them rounded up, none is empty
   * or longer than the batch size, and all but the last are full.
   */
  method Partition<T>(splits: seq<T>, batchSize: nat) returns (batches: seq<seq<T>>)
    requires batchSize > 0
    ensures Concat(batches) == splits
    ensures |batches| == BatchCount(|splits|, batchSize)
    ensures forall k :: 0 <= k < |batches| ==> batches[k] == BatchAt(splits, batchSize, k)
    ensures forall k :: 0 <= k < |batches| ==> 0 < |batches[k]| <= batchSize
    ensures forall k :: 0 <= k < |batches| - 1 ==> |batches[k]| == batchSize
  {
    batches := [];
    var i := 0;
    while i < |splits|
      invariant CutUpTo(splits, batchSize, batches, i)
      decreases |splits| - i
    {
      var batch := splits[i .. Min(i + batchSize, |splits|)];
      CutOneMore(splits, batchSize, batches, i);
      batches := batches + [batch];
      i := i + batchSize;
    }
    CeilingDivision(|splits|, batchSize, |batches|);
    assert splits[..Min(i, |splits|)] == splits;
    BatchSizes(splits, batchSize, batches);
  }

  /**
   * The loop's state after cutting `batches` from the front of `splits`: the
   * next slice starts at `i`, which the last batch did not already pass, and
   * the batches so far are the slices at each multiple of the size, which
   * together form the prefix of `splits` up to `i`.
   */
  ghost predicate CutUpTo<T>(splits: seq<T>, batchSize: nat, batches: seq<seq<T>>, i: int)
    requires batchSize > 0
  {
    && i == |batches| * batchSize
    && (|batches| == 0 || (|batches| - 1) * batchSize < |splits|)
    && Concat(batches) == splits[..Min(i, |splits|)]
    && forall k :: 0 <= k < |batches| ==> batches[k] == BatchAt(splits, batchSize, k)
  }

  /** Cutting the next slice keeps that state, one size further on. */
  lemma CutOneMore<T>(splits: seq<T>, batchSize: nat, batches: seq<seq<T>>, i: int)
    requires batchSize > 0
    requires CutUpTo(splits, batchSize, batches, i) && i < |splits|
    ensures CutUpTo(splits, batchSize, batches + [splits[i .. Min(i + batchSize, |splits|)]], i + batchSize)
  {
    var batch := splits[i .. Min(i + batchSize, |splits|)];
    ConcatSnoc(batches, batch);
    assert splits[..i] + batch == splits[..Min(i + batchSize, |splits|)];
    NextMultiple(|batches|, batchSize);
    assert batch == BatchAt(splits, batchSize, |batches|);
  }

  /** One more step of `size` from the `k`-th multiple. */
  lemma NextMultiple(k: nat, size: nat)
    ensures (k + 1) * size == k * size + size
  {
  }

  /** Batches cut at every multiple of the size below the end are non-empty, and full except the last. */
  lemma BatchSizes<T>(splits: seq<T>, batchSize: nat, batches: seq<seq<T>>)
    requires batchSize > 0
    requires |batches| == 0 || (|batches| - 1) * batchSize < |splits|
    requires forall k :: 0 <= k < |batches| ==> batches[k] == BatchAt(splits, batchSize, k)
    ensures forall k :: 0 <= k < |batches| ==> 0 < |batches[k]| <= batchSize
    ensures forall k :: 0 <= k < |batches| - 1 ==> |batches[k]| == batchSize
  {
    forall k | 0 <= k < |batches|
      ensures 0 < |batches[k]| <= batchSize
      ensures k < |batches| - 1 ==> |batches[k]| == batchSize
    {
      BatchBounds(|splits|, batchSize, |batches|, k);
    }
  }

  /** Every multiple of the size before the last lies before the end, and the one after a non-last one too. */
  lemma BatchBounds(n: nat, size: nat, count: nat, k: nat)
    requires size > 0 && k < count && (count - 1) * size < n
    ensures k * size < n
    ensures (k + 1) * size == k * size + size
    ensures k < count - 1 ==> (k + 1) * size <= n
  {
    MultiplyMonotone(k, count - 1, size);
    if k < count - 1 {
      MultiplyMonotone(k + 1, count - 1, size);
    }
  }

  /**
   * The merge loop: the first store is the accumulator and every later one
   * is merged into it in order, so the result holds all passages in store
   * order; with no store at all there is nothing to take first.
   */
  method MergeStores<T>(stores: seq<seq<T>>) returns (r: Result<seq<T>, BuildError>)
    ensures |stores| == 0 <==> r == Failure(NoStores)
    ensures |stores| > 0 ==> r == Success(Concat(stores))
  {
    if |stores| == 0 {
      return Failure(NoStores);
    }
    var main := stores[0];
    assert Concat(stores[..1]) == Concat([]) + stores[0];
    var k := 1;
    while k < |stores|
      invariant 1 <= k <= |stores|
      invariant main == Concat(stores[..k])
    {
      ConcatSnoc(stores[..k], stores[k]);
      assert stores[..k + 1] == stores[..k] + [stores[k]];
      main := main + stores[k];
      k := k + 1;
    }
    assert stores[..k] == stores;
    return Success(main);
  }

  /**
   * `batch_faiss_build`: the index built from the batches holds exactly the
   * split passages in their original order. A zero batch size fails in the
   * range, and a negative one, like an empty list of passages, yields no
   * batch, so there is no first store.
   */
  method BatchBuild<T>(splits: seq<T>, batchSize: int) returns (r: Result<seq<T>, BuildError>)
    ensures batchSize == 0 <==> r == Failure(ZeroBatchSize)
    ensures batchSize != 0 && (batchSize < 0 || |splits| == 0) <==> r == Failure(NoStores)
    ensures batchSize > 0 && |splits| > 0 <==> r == Success(splits)
  {
    if batchSize == 0 {
      return Failure(ZeroBatchSize);
    }
    var batches: seq<seq<T>> := [];
    if batchSize > 0 {
      batches := Partition(splits, batchSize);
      if |splits| > 0 {
        assert |batches| > 0 by {
          assert BatchCount(|splits|, batchSize) >= 1;
        }
      }
    }
    r := MergeStores(batches);
  }
}
