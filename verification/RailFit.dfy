/** The real-valued heart of the review rail: pool-adjacent-violators over the
    positions a card would take if no other card were in its way, followed by
    one clamp.  Everything here is about a sequence `y` of targets; Rail.dfy
    relates targets to cards. */
module RailFit {

  /** A run of cards that move together.  `weight` and `weightedSum` are the
      fields the algorithm updates; `first` and `last` are card indexes. */
  datatype Block = Block(first: nat, last: nat, weight: nat, weightedSum: real) {

    function Mean(): real
      requires weight > 0
    {
      weightedSum / weight as real
    }
  }

  function Max(a: real, b: real): real { if a < b then b else a }

  function Min(a: real, b: real): real { if b < a then b else a }

  function Clamp(lo: real, hi: real, x: real): real { Max(lo, Min(hi, x)) }

  ghost function Sum(y: seq<real>, lo: nat, hi: nat): real
    requires lo <= hi <= |y|
  {
    if lo == hi then 0.0 else Sum(y, lo, hi - 1) + y[hi - 1]
  }

  /** n * x as a repeated sum, so that proofs about it stay linear. */
  ghost function Times(x: real, n: nat): real {
    if n == 0 then 0.0 else Times(x, n - 1) + x
  }

  /** Every prefix of y[first..end] has mean at least `m`. */
  ghost predicate PrefixesAtLeast(y: seq<real>, first: nat, end: nat, m: real)
    requires first <= end <= |y|
  {
    forall k :: first <= k <= end ==> Sum(y, first, k) >= Times(m, k - first)
  }

  /** A block that pools exactly the targets first..last, none of whose proper
      prefixes has a smaller mean than the whole: splitting it would have to
      move its left part right and its right part left. */
  ghost predicate Pooled(y: seq<real>, b: Block) {
    && b.first <= b.last < |y|
    && b.weight == b.last - b.first + 1
    && b.weightedSum == Sum(y, b.first, b.last + 1)
    && PrefixesAtLeast(y, b.first, b.last + 1, b.Mean())
  }

  /** The blocks cover the indexes 0..n-1, in order and without overlap. */
  ghost predicate Partition(blocks: seq<Block>, n: nat) {
    if n == 0 then blocks == [] else
    && |blocks| > 0
    && blocks[0].first == 0
    && blocks[|blocks| - 1].last == n - 1
    && (forall i :: 0 <= i < |blocks| ==> blocks[i].first <= blocks[i].last)
    && forall i :: 0 < i < |blocks| ==> blocks[i].first == blocks[i - 1].last + 1
  }

  ghost predicate AllPooled(y: seq<real>, blocks: seq<Block>) {
    forall i :: 0 <= i < |blocks| ==> Pooled(y, blocks[i])
  }

  /** Means do not decrease along the first `n` blocks. */
  ghost predicate Rising(y: seq<real>, blocks: seq<Block>, n: int)
    requires AllPooled(y, blocks) && n <= |blocks|
  {
    forall i :: 0 < i < n ==> blocks[i - 1].Mean() <= blocks[i].Mean()
  }

  // ----- arithmetic of means -----

  lemma TimesIsProduct(x: real, n: nat)
    ensures Times(x, n) == x * n as real
  {}

  lemma TimesAdd(x: real, m: nat, n: nat)
    ensures Times(x, m + n) == Times(x, m) + Times(x, n)
  {
    if n > 0 {
      TimesAdd(x, m, n - 1);
    }
  }

  lemma TimesMono(a: real, b: real, n: nat)
    requires a <= b
    ensures Times(a, n) <= Times(b, n)
  {}

  lemma MeanTimesWeight(b: Block)
    requires b.weight > 0
    ensures b.Mean() * b.weight as real == b.weightedSum == Times(b.Mean(), b.weight)
  {
    TimesIsProduct(b.Mean(), b.weight);
  }

  lemma MulPositive(a: real, b: real)
    requires a > 0.0 && b > 0.0
    ensures a * b > 0.0
  {}

  lemma PositiveFactor(a: real, b: real)
    requires b > 0.0 && a * b > 0.0
    ensures a > 0.0
  {}

  /** The weighted mean `m` of two different means lies strictly between them. */
  lemma WeightedMeanBetween(ml: real, mr: real, m: real, l: real, r: real)
    requires l > 0.0 && r > 0.0 && ml > mr
    requires m * (l + r) == ml * l + mr * r
    ensures mr < m < ml
  {
    var t, d, e := l + r, ml - m, m - mr;
    MulPositive(ml - mr, r);
    MulPositive(ml - mr, l);
    assert d * t == ml * t - m * t == ml * l + ml * r - (ml * l + mr * r) == (ml - mr) * r;
    assert e * t == m * t - mr * t == ml * l + mr * r - (mr * l + mr * r) == (ml - mr) * l;
    PositiveFactor(d, t);
    PositiveFactor(e, t);
  }

  lemma SumSplit(y: seq<real>, lo: nat, mid: nat, hi: nat)
    requires lo <= mid <= hi <= |y|
    ensures Sum(y, lo, hi) == Sum(y, lo, mid) + Sum(y, mid, hi)
  {
    if mid < hi {
      SumSplit(y, lo, mid, hi - 1);
    }
  }

  function Merge(left: Block, right: Block): Block {
    Block(left.first, right.last, left.weight + right.weight, left.weightedSum + right.weightedSum)
  }

  /** Prefixes of two runs put together, when the left run is the higher one. */
  lemma JoinPrefixes(y: seq<real>, first: nat, mid: nat, end: nat, ml: real, mr: real, m: real)
    requires first <= mid <= end <= |y|
    requires PrefixesAtLeast(y, first, mid, ml) && PrefixesAtLeast(y, mid, end, mr)
    requires mr <= m <= ml
    requires Sum(y, first, mid) == Times(ml, mid - first)
    requires Times(m, end - first) == Times(ml, mid - first) + Times(mr, end - mid)
    ensures PrefixesAtLeast(y, first, end, m)
  {
    forall k | first <= k <= end
      ensures Sum(y, first, k) >= Times(m, k - first)
    {
      if k <= mid {
        TimesMono(m, ml, k - first);
      } else {
        SumSplit(y, first, mid, k);
        // what the merged block still has to the right of k weighs at least as much under m as under mr
        TimesAdd(m, k - first, end - k);
        TimesAdd(mr, k - mid, end - k);
        TimesMono(mr, m, end - k);
      }
    }
  }

  /** Merging a violating pair of neighbours keeps the prefix property, and
      puts the mean of the new block strictly between the old ones. */
  lemma MergePooled(y: seq<real>, left: Block, right: Block)
    requires Pooled(y, left) && Pooled(y, right) && left.last + 1 == right.first
    requires left.Mean() > right.Mean()
    ensures Pooled(y, Merge(left, right))
    ensures right.Mean() < Merge(left, right).Mean() < left.Mean()
  {
    var b := Merge(left, right);
    var ml, mr, m := left.Mean(), right.Mean(), b.Mean();
    MeanTimesWeight(left);
    MeanTimesWeight(right);
    MeanTimesWeight(b);
    WeightedMeanBetween(ml, mr, m, left.weight as real, right.weight as real);
    SumSplit(y, left.first, right.first, right.last + 1);
    JoinPrefixes(y, left.first, right.first, right.last + 1, ml, mr, m);
  }

  /** The state of the stack while a new block is being merged leftwards:
      everything holds except that the last mean may be too small. */
  ghost predicate Stack(y: seq<real>, blocks: seq<Block>, n: nat) {
    && Partition(blocks, n)
    && AllPooled(y, blocks)
    && Rising(y, blocks, |blocks| - 1)
  }

  lemma PushKeepsStack(y: seq<real>, blocks: seq<Block>, n: nat)
    requires n < |y| && Stack(y, blocks, n) && Rising(y, blocks, |blocks|)
    ensures Stack(y, blocks + [Block(n, n, 1, y[n])], n + 1)
  {
    var single := Block(n, n, 1, y[n]);
    assert Sum(y, n, n + 1) == Sum(y, n, n) + y[n];
    assert Times(y[n], 1) == Times(y[n], 0) + y[n];
    assert Pooled(y, single);
  }

  lemma MergeKeepsStack(y: seq<real>, blocks: seq<Block>, n: nat)
    requires Stack(y, blocks, n) && |blocks| > 1
    requires blocks[|blocks| - 2].Mean() > blocks[|blocks| - 1].Mean()
    ensures Stack(y, blocks[..|blocks| - 2] + [Merge(blocks[|blocks| - 2], blocks[|blocks| - 1])], n)
  {
    MergePooled(y, blocks[|blocks| - 2], blocks[|blocks| - 1]);
  }

  /** solveRail's block loop.  Every pass of the inner loop replaces two blocks
      by one, so there are fewer merges than targets. */
  method PoolBlocks(y: seq<real>) returns (blocks: seq<Block>, ghost merges: nat)
    ensures Partition(blocks, |y|) && AllPooled(y, blocks) && Rising(y, blocks, |blocks|)
    ensures |blocks| + merges == |y|
  {
    blocks, merges := [], 0;
    for index := 0 to |y|
      invariant Stack(y, blocks, index) && Rising(y, blocks, |blocks|)
      invariant |blocks| + merges == index
    {
      PushKeepsStack(y, blocks, index);
      blocks := blocks + [Block(index, index, 1, y[index])];
      while |blocks| > 1
        invariant Stack(y, blocks, index + 1) && |blocks| > 0
        invariant |blocks| + merges == index + 1
      {
        var right := blocks[|blocks| - 1];
        var left := blocks[|blocks| - 2];
        if left.weightedSum / left.weight as real <= right.weightedSum / right.weight as real {
          break;
        }
        MergeKeepsStack(y, blocks, index + 1);
        blocks := blocks[..|blocks| - 2] + [Merge(left, right)];
        merges := merges + 1;
      }
    }
  }
}
