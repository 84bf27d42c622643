/**
 * The batching of `transformData`: the make list is walked with
 * `for (i = 0; i < n; i += BATCH_SIZE)` and each step takes the slice
 * `makes.slice(i, i + BATCH_SIZE)`. `Chunks` is the reference definition of
 * that partition.
 */
module Batching {

  /** Concatenation of a sequence of slices. */
  function Flatten<T>(ss: seq<seq<T>>): seq<T>
  {
    if |ss| == 0 then [] else ss[0] + Flatten(ss[1..])
  }

  /** Flattening distributes over concatenation of the slice lists. */
  lemma {:induction false} FlattenAppend<T>(a: seq<seq<T>>, b: seq<seq<T>>)
    ensures Flatten(a + b) == Flatten(a) + Flatten(b)
    decreases |a|
  {
    if |a| == 0 {
      assert a + b == b;
    } else {
      assert (a + b)[1..] == a[1..] + b;
      FlattenAppend(a[1..], b);
    }
  }

  /** Consecutive slices of `s` of length `k`, the last one possibly shorter. */
  function Chunks<T>(s: seq<T>, k: nat): seq<seq<T>>
    requires k > 0
    decreases |s|
  {
    if |s| == 0 then []
    else if |s| <= k then [s]
    else [s[..k]] + Chunks(s[k..], k)
  }

  /**
   * `Chunks` is a partition in order: concatenated the slices give back `s`;
   * no slice is empty; only the last may be shorter than `k`.
   */
  lemma {:induction false} ChunksPartition<T>(s: seq<T>, k: nat)
    requires k > 0
    ensures Flatten(Chunks(s, k)) == s
    ensures forall b :: 0 <= b < |Chunks(s, k)| ==> 0 < |Chunks(s, k)[b]| <= k
    ensures forall b :: 0 <= b < |Chunks(s, k)| - 1 ==> |Chunks(s, k)[b]| == k
    ensures |Chunks(s, k)| == 0 <==> |s| == 0
    decreases |s|
  {
    if |s| == 0 {
    } else if |s| <= k {
      assert Flatten([s]) == s + Flatten([]);
    } else {
      ChunksPartition(s[k..], k);
      var rest := Chunks(s[k..], k);
      var r := [s[..k]] + rest;
      assert r[1..] == rest;
      assert s[..k] + s[k..] == s;
      forall b | 0 <= b < |r|
        ensures 0 < |r[b]| <= k
        ensures b < |r| - 1 ==> |r[b]| == k
      {
        if b > 0 {
          assert r[b] == rest[b - 1];
        }
      }
    }
  }

  /** The number of batches for `n` items and batch size `k`: ceil(n / k). */
  function BatchCount(n: nat, k: nat): nat
    requires k > 0
  {
    (n + k - 1) / k
  }

  /** Every slice but the last is full and the last is not empty, so `k` bounds the slice count. */
  lemma {:induction false} ChunkBounds<T>(s: seq<T>, k: nat)
    requires k > 0 && |s| > 0
    ensures (|Chunks(s, k)| - 1) * k < |s| <= |Chunks(s, k)| * k
    decreases |s|
  {
    ChunksPartition(s, k);
    if |s| > k {
      ChunkBounds(s[k..], k);
      var c := |Chunks(s[k..], k)|;
      assert |Chunks(s, k)| == c + 1;
      assert (c + 1) * k == c * k + k;
    }
  }

  /** `Chunks` makes exactly ceil(|s| / k) slices. */
  lemma ChunkCount<T>(s: seq<T>, k: nat)
    requires k > 0
    ensures |Chunks(s, k)| == BatchCount(|s|, k)
  {
    var c := |Chunks(s, k)|;
    var n := |s|;
    if n > 0 {
      ChunkBounds(s, k);
      assert (c - 1) * k < n <= c * k;
      DivBetween(n + k - 1, c, k);
    }
  }

  /** If `c * k <= m < (c + 1) * k` then `m / k == c`. */
  lemma DivBetween(m: nat, c: nat, k: nat)
    requires k > 0
    requires c * k <= m < c * k + k
    ensures m / k == c
  {
    var q := m / k;
    assert m == q * k + m % k;
    if q < c {
      MulMonotone(q + 1, c, k);
      assert false;
    } else if q > c {
      MulMonotone(c + 1, q, k);
      assert false;
    }
  }

  lemma MulMonotone(a: nat, b: nat, k: nat)
    requires a <= b
    ensures a * k <= b * k
  {
  }

  function Min(a: nat, b: nat): nat
  {
    if a <= b then a else b
  }

  /** The prefix up to `i` followed by the slice from `i` to `end` is the prefix up to `end`. */
  lemma PrefixExtend<T>(s: seq<T>, i: nat, end: nat)
    requires i <= end <= |s|
    ensures s[..i] + s[i..end] == s[..end]
  {
  }

  /**
   * One step of `for (i = 0; i < n; i += k)`: the partition of what is left
   * starts with `s.slice(i, i + k)` and continues with the partition of what
   * is left after it.
   */
  lemma ChunksStep<T>(s: seq<T>, i: nat, k: nat)
    requires k > 0 && i < |s|
    ensures Chunks(s[i..], k) == [s[i..Min(i + k, |s|)]] + Chunks(s[Min(i + k, |s|)..], k)
  {
    var rest := s[i..];
    if |rest| <= k {
      assert s[Min(i + k, |s|)..] == [];
      assert s[i..Min(i + k, |s|)] == rest;
    } else {
      assert rest[..k] == s[i..i + k];
      assert rest[k..] == s[i + k..];
    }
  }
}
