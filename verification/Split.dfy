/** Splitting an overfull node: where the cuts go, and why root growth ends. */
module Split {
  import F = Freelist

  const MIN_KEYS := 2

  function Sum(s: seq<nat>): nat {
    if s == [] then 0 else Sum(s[..|s| - 1]) + s[|s| - 1]
  }

  lemma SumStep(s: seq<nat>, a: nat, b: nat)
    requires a <= b < |s|
    ensures Sum(s[a..b + 1]) == Sum(s[a..b]) + s[b]
  {
    assert s[a..b + 1][..b - a] == s[a..b];
  }

  /** The first element of chunk k. */
  function Start(cuts: seq<nat>, k: nat): nat
    requires k <= |cuts|
  {
    if k == 0 then 0 else cuts[k - 1]
  }

  function End(cuts: seq<nat>, n: nat, k: nat): nat
    requires k <= |cuts|
  {
    if k == |cuts| then n else cuts[k]
  }

  /** Every chunk has at least two elements. */
  ghost predicate Cuts(cuts: seq<nat>, n: nat) {
    forall k :: 0 <= k <= |cuts| ==> Start(cuts, k) + MIN_KEYS <= End(cuts, n, k)
  }

  /** What the running size carries into a chunk: the last element before it. */
  function Carry(sizes: seq<nat>, start: nat): nat
    requires start <= |sizes|
  {
    if start == 0 then 0 else sizes[start - 1]
  }

  /** A chunk that was cut: without its last element it is within the threshold unless it
      has just two, and with what the running size carried it is over. */
  ghost predicate FullChunk(sizes: seq<nat>, threshold: nat, a: nat, b: nat) {
    && a + MIN_KEYS <= b <= |sizes|
    && (b == a + MIN_KEYS || F.HEADER_SIZE + Sum(sizes[a..b - 1]) <= threshold)
    && F.HEADER_SIZE + Carry(sizes, a) + Sum(sizes[a..b]) > threshold
  }

  ghost predicate FullChunks(sizes: seq<nat>, threshold: nat, cuts: seq<nat>) {
    forall k :: 0 <= k < |cuts| ==> FullChunk(sizes, threshold, Start(cuts, k), cuts[k])
  }

  /** What the running size is when the scan stands at i in the chunk that starts at a. */
  function Running(sizes: seq<nat>, a: nat, i: nat): nat
    requires a <= i <= |sizes|
  {
    F.HEADER_SIZE + Carry(sizes, a) + Sum(sizes[a..i])
  }

  lemma AddCut(sizes: seq<nat>, threshold: nat, cuts: seq<nat>, cut: nat)
    requires FullChunks(sizes, threshold, cuts)
    requires FullChunk(sizes, threshold, Start(cuts, |cuts|), cut)
    ensures FullChunks(sizes, threshold, cuts + [cut])
  {
    hide FullChunk;
    var next := cuts + [cut];
    forall k | 0 <= k < |next| ensures FullChunk(sizes, threshold, Start(next, k), next[k]) {
      assert Start(next, k) == Start(cuts, k);
    }
  }

  lemma FullChunksCut(sizes: seq<nat>, threshold: nat, cuts: seq<nat>)
    requires FullChunks(sizes, threshold, cuts)
    requires Start(cuts, |cuts|) + MIN_KEYS <= |sizes|
    ensures Cuts(cuts, |sizes|)
  {
    forall k | 0 <= k <= |cuts| ensures Start(cuts, k) + MIN_KEYS <= End(cuts, |sizes|, k) {
      if k < |cuts| {
        assert FullChunk(sizes, threshold, Start(cuts, k), cuts[k]);
      }
    }
  }

  lemma NewChunk(sizes: seq<nat>, threshold: nat, a: nat, i: nat)
    requires a <= i < |sizes|
    requires i + 1 - a >= MIN_KEYS
    requires i - a >= MIN_KEYS ==> Running(sizes, a, i) <= threshold
    requires Running(sizes, a, i) + sizes[i] > threshold
    ensures FullChunk(sizes, threshold, a, i + 1)
    ensures Running(sizes, i + 1, i + 1) == F.HEADER_SIZE + sizes[i]
  {
    SumStep(sizes, a, i);
    assert sizes[i + 1..i + 1] == [];
  }

  /** The scan of `split`: `current` also counts the last element of the previous chunk. */
  method SplitIndexes(sizes: seq<nat>, threshold: nat) returns (cuts: seq<nat>)
    requires |sizes| > 2 * MIN_KEYS
    ensures Cuts(cuts, |sizes|)
    ensures FullChunks(sizes, threshold, cuts)
    ensures var a := Start(cuts, |cuts|);
            |sizes| - a < 2 * MIN_KEYS || Running(sizes, a, |sizes| - 2) <= threshold
  {
    hide FullChunk, FullChunks, Running, Cuts;
    cuts := [];
    var current, count := F.HEADER_SIZE, 0;
    assert FullChunks(sizes, threshold, cuts) && Running(sizes, 0, 0) == F.HEADER_SIZE by {
      Empty(sizes, threshold);
    }
    for i := 0 to |sizes| - 2
      invariant count == i - Start(cuts, |cuts|) && 0 <= count
      invariant current == Running(sizes, Start(cuts, |cuts|), i)
      invariant count >= MIN_KEYS ==> current <= threshold
      invariant FullChunks(sizes, threshold, cuts)
    {
      ghost var a := Start(cuts, |cuts|);
      count := count + 1;
      var newSize := current + sizes[i];
      if count >= MIN_KEYS && newSize > threshold {
        NewChunk(sizes, threshold, a, i);
        AddCut(sizes, threshold, cuts, i + 1);
        cuts := cuts + [i + 1];
        current := F.HEADER_SIZE + sizes[i];
        count := 0;
      } else {
        RunningStep(sizes, a, i);
        current := newSize;
      }
    }
    FullChunksCut(sizes, threshold, cuts);
  }

  lemma Empty(sizes: seq<nat>, threshold: nat)
    ensures FullChunks(sizes, threshold, []) && Running(sizes, 0, 0) == F.HEADER_SIZE
  {
    assert sizes[0..0] == [];
  }

  lemma RunningStep(sizes: seq<nat>, a: nat, i: nat)
    requires a <= i < |sizes|
    ensures Running(sizes, a, i + 1) == Running(sizes, a, i) + sizes[i]
  {
    SumStep(sizes, a, i);
  }

  /** `split` leaves a node alone when it is short, when it fits, or when no cut is found. */
  method SplitPoints(sizes: seq<nat>, pagesize: nat, threshold: nat) returns (cuts: seq<nat>)
    ensures (cuts == [] || Cuts(cuts, |sizes|)) && FullChunks(sizes, threshold, cuts)
    ensures |sizes| <= 2 * MIN_KEYS || F.HEADER_SIZE + Sum(sizes) < pagesize ==> cuts == []
  {
    if |sizes| <= 2 * MIN_KEYS || F.HEADER_SIZE + Sum(sizes) < pagesize {
      return [];
    }
    cuts := SplitIndexes(sizes, threshold);
  }

  // ---------- chunks ----------

  lemma CutsInside(cuts: seq<nat>, n: nat)
    requires cuts == [] || Cuts(cuts, n)
    ensures forall k :: 0 <= k <= |cuts| ==> Start(cuts, k) <= End(cuts, n, k) <= n
  {
    forall k | 0 <= k <= |cuts| ensures Start(cuts, k) <= End(cuts, n, k) <= n {
      CutBound(cuts, n, k);
    }
  }

  lemma {:induction false} CutBound(cuts: seq<nat>, n: nat, k: nat)
    requires cuts == [] || Cuts(cuts, n)
    requires k <= |cuts|
    ensures Start(cuts, k) <= End(cuts, n, k) <= n
    decreases |cuts| - k
  {
    if cuts != [] {
      assert Start(cuts, k) + MIN_KEYS <= End(cuts, n, k);
      if k < |cuts| {
        CutBound(cuts, n, k + 1);
      }
    }
  }

  /** At most half as many chunks as elements, so a growing root has ever fewer entries. */
  lemma {:induction false} FewerChunks(cuts: seq<nat>, n: nat, k: nat)
    requires Cuts(cuts, n) && k <= |cuts|
    ensures MIN_KEYS * (k + 1) <= End(cuts, n, k)
  {
    assert Start(cuts, k) + MIN_KEYS <= End(cuts, n, k);
    if k > 0 {
      FewerChunks(cuts, n, k - 1);
    }
  }

  lemma RootShrinks(cuts: seq<nat>, n: nat)
    requires Cuts(cuts, n)
    ensures 2 * (|cuts| + 1) <= n
  {
    FewerChunks(cuts, n, |cuts|);
  }
}
