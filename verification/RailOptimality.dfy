/** Why the pooled and clamped means are the best placement: the variational
    inequality, block by block, and the least-squares theorem it gives. */
module RailOptimality {
  import opened RailFit

  function Product(a: real, b: real): real { a * b }

  /** Sum of squared distances. */
  ghost function Cost(a: seq<real>, b: seq<real>): real
    requires |a| == |b|
  {
    if a == [] then 0.0 else
    var n := |a| - 1;
    Cost(a[..n], b[..n]) + Product(a[n] - b[n], a[n] - b[n])
  }

  /** The scalar product <z - x, x - y> over indexes lo..hi-1. */
  ghost function Inner(z: seq<real>, x: seq<real>, y: seq<real>, lo: nat, hi: nat): real
    requires |z| == |x| == |y| && lo <= hi <= |y|
  {
    if lo == hi then 0.0 else
    Inner(z, x, y, lo, hi - 1) + Product(z[hi - 1] - x[hi - 1], x[hi - 1] - y[hi - 1])
  }

  /** Non-decreasing and inside [lo, hi]: what the gap, order and stage
      constraints on cards become for displacements from the packed stack. */
  ghost predicate Admissible(z: seq<real>, lo: real, hi: real) {
    && (forall i :: 0 <= i < |z| ==> lo <= z[i] <= hi)
    && forall i :: 0 < i < |z| ==> z[i - 1] <= z[i]
  }

  ghost predicate Blocks(y: seq<real>, blocks: seq<Block>, n: nat) {
    Partition(blocks, n) && AllPooled(y, blocks) && Rising(y, blocks, |blocks|)
  }

  /** The clamped mean of its block, for every index. */
  ghost function Fit(y: seq<real>, blocks: seq<Block>, lo: real, hi: real): (x: seq<real>)
    requires AllPooled(y, blocks)
  {
    if blocks == [] then [] else
    var b := blocks[|blocks| - 1];
    Fit(y, blocks[..|blocks| - 1], lo, hi) + seq(b.weight, _ => Clamp(lo, hi, b.Mean()))
  }

  lemma DropLastBlock(y: seq<real>, blocks: seq<Block>, n: nat)
    requires Blocks(y, blocks, n) && n > 0
    ensures Blocks(y, blocks[..|blocks| - 1], blocks[|blocks| - 1].first)
  {}

  lemma {:induction false} FitLength(y: seq<real>, blocks: seq<Block>, n: nat, lo: real, hi: real)
    requires Blocks(y, blocks, n)
    ensures |Fit(y, blocks, lo, hi)| == n
  {
    if n > 0 {
      DropLastBlock(y, blocks, n);
      FitLength(y, blocks[..|blocks| - 1], blocks[|blocks| - 1].first, lo, hi);
    }
  }

  /** Clamping keeps the rising means rising, so the fit is itself admissible. */
  lemma {:induction false} FitAdmissible(y: seq<real>, blocks: seq<Block>, n: nat, lo: real, hi: real)
    requires Blocks(y, blocks, n) && lo <= hi
    ensures Admissible(Fit(y, blocks, lo, hi), lo, hi)
    ensures n > 0 ==> |Fit(y, blocks, lo, hi)| == n
                      && Fit(y, blocks, lo, hi)[n - 1] == Clamp(lo, hi, blocks[|blocks| - 1].Mean())
  {
    FitLength(y, blocks, n, lo, hi);
    if n > 0 {
      DropLastBlock(y, blocks, n);
      FitAdmissible(y, blocks[..|blocks| - 1], blocks[|blocks| - 1].first, lo, hi);
    }
  }

  // ----- the variational inequality -----

  lemma ProductNonNegative(a: real, b: real)
    requires (a >= 0.0 && b >= 0.0) || (a <= 0.0 && b <= 0.0)
    ensures Product(a, b) >= 0.0
  {}

  lemma ProductPlus(a: real, b: real, c: real)
    ensures Product(a, b + c) == Product(a, b) + Product(a, c)
  {}

  lemma ProductMinus(a: real, b: real, c: real)
    ensures Product(a - b, c) == Product(a, c) - Product(b, c)
  {}

  /** Clamping moved the mean m, if at all, towards every value in [lo, hi]. */
  lemma ClampSide(lo: real, hi: real, m: real, z: real)
    requires lo <= z <= hi
    ensures Product(z - Clamp(lo, hi, m), Clamp(lo, hi, m) - m) >= 0.0
  {
    ProductNonNegative(z - Clamp(lo, hi, m), Clamp(lo, hi, m) - m);
  }

  /** One step of Abel summation.  `d` is the (non-positive) sum of m - y over
      the prefix so far; zp and zk are neighbouring competitor values. */
  lemma AbelStep(inner: real, zp: real, zk: real, c: real, m: real, yk: real, d: real)
    requires inner >= Product(zp - c, d)
    requires d <= 0.0 && zp <= zk
    requires Product(zk - c, c - m) >= 0.0
    ensures inner + Product(zk - c, c - yk) >= Product(zk - c, d + (m - yk))
  {
    var u, v := zp - c, zk - c;
    ProductNonNegative(u - v, d);
    ProductMinus(u, v, d);
    ProductPlus(v, c - m, m - yk);
    assert (c - m) + (m - yk) == c - yk;
    ProductPlus(v, d, m - yk);
  }

  /** The sum of m - y over a prefix of y. */
  ghost function Deficit(y: seq<real>, m: real, first: nat, end: nat): real
    requires first <= end <= |y|
  {
    Times(m, end - first) - Sum(y, first, end)
  }

  /** On a prefix of one block, against any admissible competitor. */
  lemma {:induction false} BlockPrefixInner(z: seq<real>, x: seq<real>, y: seq<real>, b: Block,
                                            lo: real, hi: real, c: real, k: nat)
    requires |z| == |x| == |y| && Admissible(z, lo, hi)
    requires Pooled(y, b) && b.first <= k <= b.last && lo <= hi
    requires c == Clamp(lo, hi, b.Mean())
    requires forall i :: b.first <= i <= b.last ==> x[i] == c
    ensures Inner(z, x, y, b.first, k + 1) >= Product(z[k] - c, Deficit(y, b.Mean(), b.first, k + 1))
  {
    var m := b.Mean();
    var d := Deficit(y, m, b.first, k);
    ClampSide(lo, hi, m, z[k]);
    assert Deficit(y, m, b.first, k + 1) == d + (m - y[k]);
    assert x[k] == c;
    if k == b.first {
      assert Inner(z, x, y, b.first, k) == 0.0 == Product(z[k] - c, d);
      AbelStep(0.0, z[k], z[k], c, m, y[k], d);
    } else {
      BlockPrefixInner(z, x, y, b, lo, hi, c, k - 1);
      AbelStep(Inner(z, x, y, b.first, k), z[k - 1], z[k], c, m, y[k], d);
    }
  }

  /** On a whole block the deficit is zero, so the product is not negative. */
  lemma BlockInner(z: seq<real>, x: seq<real>, y: seq<real>, b: Block, lo: real, hi: real)
    requires |z| == |x| == |y| && Admissible(z, lo, hi)
    requires Pooled(y, b) && lo <= hi
    requires forall i :: b.first <= i <= b.last ==> x[i] == Clamp(lo, hi, b.Mean())
    ensures Inner(z, x, y, b.first, b.last + 1) >= 0.0
  {
    BlockPrefixInner(z, x, y, b, lo, hi, Clamp(lo, hi, b.Mean()), b.last);
    MeanTimesWeight(b);
    assert Deficit(y, b.Mean(), b.first, b.last + 1) == 0.0;
  }

  lemma InnerSplit(z: seq<real>, x: seq<real>, y: seq<real>, lo: nat, mid: nat, hi: nat)
    requires |z| == |x| == |y| && lo <= mid <= hi <= |y|
    ensures Inner(z, x, y, lo, hi) == Inner(z, x, y, lo, mid) + Inner(z, x, y, mid, hi)
  {
    if mid < hi {
      InnerSplit(z, x, y, lo, mid, hi - 1);
    }
  }

  lemma FitSplit(y: seq<real>, blocks: seq<Block>, n: nat, lo: real, hi: real, x: seq<real>)
    requires Blocks(y, blocks, n) && 0 < n <= |x|
    requires Fit(y, blocks, lo, hi) == x[..n]
    ensures Fit(y, blocks[..|blocks| - 1], lo, hi) == x[..blocks[|blocks| - 1].first]
    ensures forall i :: blocks[|blocks| - 1].first <= i < n ==> x[i] == Clamp(lo, hi, blocks[|blocks| - 1].Mean())
  {
    var b, rest := blocks[|blocks| - 1], blocks[..|blocks| - 1];
    DropLastBlock(y, blocks, n);
    FitLength(y, rest, b.first, lo, hi);
    assert x[..n][..b.first] == x[..b.first];
    forall i | b.first <= i < n
      ensures x[i] == Clamp(lo, hi, b.Mean())
    {
      assert x[i] == x[..n][i];
    }
  }

  /** No admissible direction from the fit goes downhill. */
  lemma {:induction false} Variational(z: seq<real>, x: seq<real>, y: seq<real>, blocks: seq<Block>, n: nat, lo: real, hi: real)
    requires |z| == |x| == |y| && n <= |y| && lo <= hi
    requires Admissible(z, lo, hi) && Blocks(y, blocks, n)
    requires Fit(y, blocks, lo, hi) == x[..n]
    ensures Inner(z, x, y, 0, n) >= 0.0
  {
    if n > 0 {
      var b, rest := blocks[|blocks| - 1], blocks[..|blocks| - 1];
      DropLastBlock(y, blocks, n);
      FitSplit(y, blocks, n, lo, hi, x);
      Variational(z, x, y, rest, b.first, lo, hi);
      BlockInner(z, x, y, b, lo, hi);
      InnerSplit(z, x, y, 0, b.first, n);
    }
  }

  // ----- least squares -----

  lemma SquareIdentity(z: real, x: real, y: real)
    ensures Product(z - y, z - y) == Product(x - y, x - y) + Product(z - x, z - x) + 2.0 * Product(z - x, x - y)
  {}

  lemma {:induction false} InnerTake(z: seq<real>, x: seq<real>, y: seq<real>, n: nat, hi: nat)
    requires |z| == |x| == |y| && hi <= n <= |y|
    ensures Inner(z[..n], x[..n], y[..n], 0, hi) == Inner(z, x, y, 0, hi)
  {
    if hi > 0 {
      InnerTake(z, x, y, n, hi - 1);
    }
  }

  lemma {:induction false} Pythagoras(z: seq<real>, x: seq<real>, y: seq<real>)
    requires |z| == |x| == |y|
    ensures Cost(z, y) == Cost(x, y) + Cost(z, x) + 2.0 * Inner(z, x, y, 0, |y|)
  {
    if y != [] {
      var n := |y| - 1;
      Pythagoras(z[..n], x[..n], y[..n]);
      InnerTake(z, x, y, n, n);
      SquareIdentity(z[n], x[n], y[n]);
    }
  }

  /** The fit beats every admissible competitor by at least the squared
      distance between them: it is the one and only minimiser. */
  lemma FitIsLeastSquares(y: seq<real>, blocks: seq<Block>, lo: real, hi: real, z: seq<real>)
    requires Blocks(y, blocks, |y|) && lo <= hi
    requires |z| == |y| && Admissible(z, lo, hi)
    ensures |Fit(y, blocks, lo, hi)| == |y|
    ensures Cost(z, y) >= Cost(Fit(y, blocks, lo, hi), y) + Cost(z, Fit(y, blocks, lo, hi))
  {
    var x := Fit(y, blocks, lo, hi);
    FitLength(y, blocks, |y|, lo, hi);
    assert x[..|y|] == x;
    Variational(z, x, y, blocks, |y|, lo, hi);
    Pythagoras(z, x, y);
  }
}
