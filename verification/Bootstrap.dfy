/** The circular block bootstrap of a mean, its subperiods and quantiles (research_statistics.py), over exact reals. */
module Bootstrap {
  import opened Common

  function Sum(s: seq<real>): real {
    if s == [] then 0.0 else Sum(s[..|s| - 1]) + s[|s| - 1]
  }

  lemma {:induction false} SumSplits(a: seq<real>, b: seq<real>)
    ensures Sum(a + b) == Sum(a) + Sum(b)
  {
    if b == [] {
      assert a + b == a;
    } else {
      assert (a + b)[..|a + b| - 1] == a + b[..|b| - 1];
      SumSplits(a, b[..|b| - 1]);
    }
  }

  lemma NothingSums()
    ensures Sum([]) == 0.0
  {
  }

  // ----- one resample

  function Wrapped(x: nat, n: nat): (r: nat)
    requires n > 0
    ensures r < n
  {
    x % n
  }

  lemma QuotientIsUnique(x: nat, q: nat, r: nat, n: nat)
    requires r < n && x == q * n + r
    ensures x % n == r
  {
    var d := x / n - q;
    assert x == (x / n) * n + x % n;
    assert d * n == r - x % n;
    if d >= 1 {
      AtLeast(d, n);
    } else if d <= -1 {
      AtLeast(-d, n);
    }
  }

  lemma AtLeast(d: int, n: nat)
    requires d >= 1
    ensures d * n >= n
  {
  }

  lemma WrappedLaws(x: nat, n: nat)
    requires n > 0
    ensures x < n ==> Wrapped(x, n) == x
    ensures Wrapped(x + n, n) == Wrapped(x, n)
  {
    if x < n {
      QuotientIsUnique(x, 0, x, n);
    }
    assert x == (x / n) * n + x % n;
    assert (x / n + 1) * n == (x / n) * n + n;
    QuotientIsUnique(x + n, x / n + 1, x % n, n);
  }

  lemma {:induction false} WrappedTwice(a: nat, b: nat, n: nat)
    requires n > 0
    ensures Wrapped(a + b, n) == Wrapped(Wrapped(a, n) + b, n)
    decreases a
  {
    hide Wrapped;
    if a < n {
      WrappedLaws(a, n);
    } else {
      WrappedTwice(a - n, b, n);
      WrappedLaws(a - n, n);
      WrappedLaws(a - n + b, n);
    }
  }

  /** The elements of a block that starts anywhere and wraps around the end of the series. */
  function Block(series: seq<real>, start: nat, take: nat): (block: seq<real>)
    requires series != []
    ensures |block| == take
  {
    seq(take, offset requires 0 <= offset < take => series[Wrapped(start + offset, |series|)])
  }

  function Smaller(a: nat, b: nat): nat {
    if a <= b then a else b
  }

  /** Everything one resample picks, block after block, for the given start indices. */
  function Picked(series: seq<real>, blockSize: nat, starts: nat -> nat, draw: nat, sampled: nat): (picked: seq<real>)
    requires series != [] && 1 <= blockSize && sampled <= |series|
    ensures |picked| == |series| - sampled
    decreases |series| - sampled
  {
    if sampled == |series| then [] else
      var take := Smaller(blockSize, |series| - sampled);
      Block(series, Wrapped(starts(draw), |series|), take) + Picked(series, blockSize, starts, draw + 1, sampled + take)
  }

  method BlockSum(series: seq<real>, start: nat, take: nat) returns (sum: real)
    requires series != []
    ensures sum == Sum(Block(series, start, take))
  {
    hide Wrapped;
    sum := 0.0;
    for offset := 0 to take
      invariant sum == Sum(Block(series, start, offset))
    {
      assert Block(series, start, offset + 1)[..offset] == Block(series, start, offset);
      sum := sum + series[Wrapped(start + offset, |series|)];
    }
  }

  /** `_block_sample_mean`: the loop ends after exactly as many elements as the series has. */
  method BlockSampleMean(series: seq<real>, blockSize: nat, starts: nat -> nat) returns (mean: real)
    requires series != [] && 1 <= blockSize <= |series|
    ensures mean == Sum(Picked(series, blockSize, starts, 0, 0)) / |series| as real
  {
    hide Wrapped, Block, Sum;
    NothingSums();
    var observations := |series|;
    var total := 0.0;
    var sampled, draw := 0, 0;
    while sampled < observations
      invariant 0 <= sampled <= observations
      invariant total + Sum(Picked(series, blockSize, starts, draw, sampled)) == Sum(Picked(series, blockSize, starts, 0, 0))
    {
      var start := Wrapped(starts(draw), observations);
      var take := Smaller(blockSize, observations - sampled);
      SumSplits(Block(series, start, take), Picked(series, blockSize, starts, draw + 1, sampled + take));
      var blockSum := BlockSum(series, start, take);
      total := total + blockSum;
      sampled := sampled + take;
      draw := draw + 1;
    }
    mean := total / observations as real;
  }

  // ----- rotations

  /** A block as long as the series is the series, rotated. */
  lemma WholeBlockIsRotation(series: seq<real>, start: nat)
    requires series != [] && start < |series|
    ensures Block(series, start, |series|) == series[start..] + series[..start]
  {
    hide Wrapped;
    var n := |series|;
    forall offset | 0 <= offset < n ensures Block(series, start, n)[offset] == (series[start..] + series[..start])[offset] {
      if start + offset < n {
        WrappedLaws(start + offset, n);
      } else {
        WrappedLaws(start + offset - n, n);
      }
    }
  }

  lemma RotationKeepsSum(series: seq<real>, start: nat)
    requires series != [] && start < |series|
    ensures Sum(Block(series, start, |series|)) == Sum(series)
  {
    WholeBlockIsRotation(series, start);
    SumSplits(series[start..], series[..start]);
    SumSplits(series[..start], series[start..]);
    assert series[..start] + series[start..] == series;
  }

  /** With blocks as long as the series every draw gives the sample mean. */
  lemma FullBlocksGiveTheMean(series: seq<real>, starts: nat -> nat)
    requires series != []
    ensures Sum(Picked(series, |series|, starts, 0, 0)) == Sum(series)
  {
    var start := Wrapped(starts(0), |series|);
    assert Picked(series, |series|, starts, 0, 0) == Block(series, start, |series|) by {
      assert Picked(series, |series|, starts, 1, |series|) == [];
    }
    RotationKeepsSum(series, start);
  }

  // ----- averages over all starts

  /** The sums of the blocks with starts 0, 1, ..., n - 1, added up. */
  function SumOverStarts(series: seq<real>, take: nat, n: nat): real
    requires series != []
  {
    if n == 0 then 0.0 else SumOverStarts(series, take, n - 1) + Sum(Block(series, n - 1, take))
  }

  /** Column `offset` of all the blocks is a block of its own. */
  lemma {:induction false} OneMoreColumn(series: seq<real>, take: nat, n: nat)
    requires series != []
    ensures SumOverStarts(series, take + 1, n) == SumOverStarts(series, take, n) + Sum(Block(series, take, n))
  {
    if n > 0 {
      OneMoreColumn(series, take, n - 1);
      assert Block(series, n - 1, take + 1)[..take] == Block(series, n - 1, take);
      assert Block(series, take, n)[..n - 1] == Block(series, take, n - 1);
    } else {
      assert Block(series, take, 0) == [];
    }
  }

  lemma BlockStartsModulo(series: seq<real>, start: nat, take: nat)
    requires series != []
    ensures Block(series, start, take) == Block(series, Wrapped(start, |series|), take)
  {
    hide Wrapped;
    var n := |series|;
    forall offset | 0 <= offset < take
      ensures Block(series, start, take)[offset] == Block(series, Wrapped(start, n), take)[offset]
    {
      WrappedTwice(start, offset, n);
    }
  }

  /** Every element lies in equally many of the blocks: their sums add up to `take` times the total. */
  lemma {:induction false} BlocksCoverEvenly(series: seq<real>, take: nat)
    requires series != []
    ensures SumOverStarts(series, take, |series|) == take as real * Sum(series)
  {
    hide Wrapped, Sum, Block;
    if take == 0 {
      EmptyBlocks(series, |series|);
    } else {
      BlocksCoverEvenly(series, take - 1);
      OneMoreColumn(series, take - 1, |series|);
      BlockStartsModulo(series, take - 1, |series|);
      RotationKeepsSum(series, Wrapped(take - 1, |series|));
      Distribute(take - 1, Sum(series));
    }
  }

  lemma Distribute(n: nat, x: real)
    ensures (n + 1) as real * x == n as real * x + x
  {
  }

  lemma {:induction false} EmptyBlocks(series: seq<real>, n: nat)
    requires series != []
    ensures SumOverStarts(series, 0, n) == 0.0
  {
    if n > 0 {
      EmptyBlocks(series, n - 1);
      assert Block(series, n - 1, 0) == [];
    }
  }

  // ----- averages over all resamples

  /** How many sequences of start indices there are for the rest of a resample. */
  function Resamples(n: nat, blockSize: nat, sampled: nat): nat
    requires 1 <= blockSize && sampled <= n
    decreases n - sampled
  {
    if sampled == n then 1 else n * Resamples(n, blockSize, sampled + Smaller(blockSize, n - sampled))
  }

  /** The totals of all resamples, one for each sequence of start indices, added up; `total` is what was summed before. */
  function TotalOfAll(series: seq<real>, blockSize: nat, sampled: nat, total: real): real
    requires series != [] && 1 <= blockSize && sampled <= |series|
    decreases |series| - sampled, 1, 0
  {
    if sampled == |series| then total else TotalFrom(series, blockSize, sampled, total, |series|)
  }

  /** ... with the next start below n. */
  function TotalFrom(series: seq<real>, blockSize: nat, sampled: nat, total: real, n: nat): real
    requires series != [] && 1 <= blockSize && sampled < |series|
    decreases |series| - sampled, 0, n
  {
    if n == 0 then 0.0 else
      var take := Smaller(blockSize, |series| - sampled);
      TotalFrom(series, blockSize, sampled, total, n - 1)
      + TotalOfAll(series, blockSize, sampled + take, total + Sum(Block(series, n - 1, take)))
  }

  function Scaled(n: nat, x: real): real {
    n as real * x
  }

  lemma ScaledLaws(n: nat, m: nat, x: real, y: real)
    ensures Scaled(n, x + y) == Scaled(n, x) + Scaled(n, y)
    ensures Scaled(n, Scaled(m, x)) == Scaled(n * m, x)
    ensures Scaled(n + m, x) == Scaled(n, x) + Scaled(m, x)
    ensures Scaled(0, x) == 0.0 && Scaled(1, x) == x
  {
    assert (n * m) as real == n as real * m as real;
  }

  /** All resamples together, with the elements still to be picked counted at the sample mean. */
  lemma {:induction false} AllResamples(series: seq<real>, blockSize: nat, sampled: nat, total: real)
    requires series != [] && 1 <= blockSize && sampled <= |series|
    ensures Scaled(|series|, TotalOfAll(series, blockSize, sampled, total))
         == Scaled(Resamples(|series|, blockSize, sampled), Scaled(|series|, total) + Scaled(|series| - sampled, Sum(series)))
    decreases |series| - sampled, 1, 0
  {
    hide Scaled, Sum;
    var n := |series|;
    if sampled == n {
      ScaledLaws(1, 0, Scaled(n, total), 0.0);
      ScaledLaws(0, 0, Sum(series), 0.0);
    } else {
      var take := Smaller(blockSize, n - sampled);
      var rest := Resamples(n, blockSize, sampled + take);
      ResamplesFrom(series, blockSize, sampled, total, n);
      BlocksCoverEvenly(series, take);
      ScaledIs(take, Sum(series));
      ScaledIs(n, SumOverStarts(series, take, n));
      var left := n - sampled - take;
      assert SumOverStarts(series, take, n) == Scaled(take, Sum(series));
      assert Scaled(n, TotalFrom(series, blockSize, sampled, total, n))
          == Scaled(rest, Scaled(n, Scaled(n, total) + Scaled(left, Sum(series))) + Scaled(n, Scaled(take, Sum(series))));
      AllTogether(n, rest, take, left, total, Sum(series));
      assert take + left == n - sampled;
      assert Resamples(n, blockSize, sampled) == n * rest;
      assert TotalOfAll(series, blockSize, sampled, total) == TotalFrom(series, blockSize, sampled, total, n);
    }
  }

  lemma ScaledIs(n: nat, x: real)
    ensures Scaled(n, x) == n as real * x
  {
  }

  lemma AllTogether(n: nat, rest: nat, take: nat, left: nat, total: real, sum: real)
    ensures Scaled(rest, Scaled(n, Scaled(n, total) + Scaled(left, sum)) + Scaled(n, Scaled(take, sum)))
         == Scaled(n * rest, Scaled(n, total) + Scaled(take + left, sum))
  {
    hide Scaled;
    ScaledLaws(take, left, sum, 0.0);
    ScaledLaws(n, 0, Scaled(n, total) + Scaled(left, sum), Scaled(take, sum));
    ScaledLaws(rest, n, Scaled(n, total) + Scaled(take + left, sum), 0.0);
    assert Scaled(n, total) + Scaled(left, sum) + Scaled(take, sum) == Scaled(n, total) + Scaled(take + left, sum);
    assert rest * n == n * rest;
  }

  /** The same for the resamples whose next start is below m. */
  lemma {:induction false} ResamplesFrom(series: seq<real>, blockSize: nat, sampled: nat, total: real, m: nat)
    requires series != [] && 1 <= blockSize && sampled < |series|
    ensures var n, take := |series|, Smaller(blockSize, |series| - sampled);
            Scaled(n, TotalFrom(series, blockSize, sampled, total, m))
            == Scaled(Resamples(n, blockSize, sampled + take),
                      Scaled(m, Scaled(n, total) + Scaled(n - sampled - take, Sum(series))) + Scaled(n, SumOverStarts(series, take, m)))
    decreases |series| - sampled, 0, m
  {
    hide Scaled, Sum;
    var n, take := |series|, Smaller(blockSize, |series| - sampled);
    var rest := Resamples(n, blockSize, sampled + take);
    var each := Scaled(n, total) + Scaled(n - sampled - take, Sum(series));
    if m == 0 {
      ScaledLaws(n, 0, 0.0, 0.0);
      ScaledLaws(rest, 0, 0.0, 0.0);
      ScaledLaws(0, 0, each, 0.0);
      ScaledOfZero(n);
      ScaledOfZero(rest);
    } else {
      var blockSum := Sum(Block(series, m - 1, take));
      ResamplesFrom(series, blockSize, sampled, total, m - 1);
      AllResamples(series, blockSize, sampled + take, total + blockSum);
      ScaledLaws(n, 0, total, blockSum);
      ScaledLaws(n, 0, SumOverStarts(series, take, m - 1), blockSum);
      ScaledLaws(n, 0, TotalFrom(series, blockSize, sampled, total, m - 1), TotalOfAll(series, blockSize, sampled + take, total + blockSum));
      ScaledLaws(m - 1, 1, each, 0.0);
      ScaledLaws(rest, 0, Scaled(m - 1, each) + Scaled(n, SumOverStarts(series, take, m - 1)), each + Scaled(n, blockSum));
      assert Scaled(n, total + blockSum) + Scaled(n - sampled - take, Sum(series)) == each + Scaled(n, blockSum);
    }
  }

  lemma ScaledOfZero(n: nat)
    ensures Scaled(n, 0.0) == 0.0
  {
  }

  // ----- the same, over the sequences of starts a resample is drawn with

  /** How many elements the first k blocks hold. */
  function SampledAfter(n: nat, blockSize: nat, k: nat): (sampled: nat)
    requires 1 <= blockSize
    ensures sampled <= n
  {
    if k == 0 then 0 else
      var before := SampledAfter(n, blockSize, k - 1);
      before + Smaller(blockSize, n - before)
  }

  /** The start indices, in the order they are drawn. */
  function Drawn(chosen: seq<nat>): nat -> nat {
    (draw: nat) => if draw < |chosen| then chosen[draw] else 0
  }

  /**
   `Sum(Picked(...))`, what `BlockSampleMean` returns the mean of, added up over every way to draw the
   start indices that are still missing.
   */
  function TotalOverStarts(series: seq<real>, blockSize: nat, chosen: seq<nat>): real
    requires series != [] && 1 <= blockSize
    decreases |series| - SampledAfter(|series|, blockSize, |chosen|), 1, 0
  {
    if SampledAfter(|series|, blockSize, |chosen|) == |series| then Sum(Picked(series, blockSize, Drawn(chosen), 0, 0))
    else TotalOverNext(series, blockSize, chosen, |series|)
  }

  /** ... with the next start below m. */
  function TotalOverNext(series: seq<real>, blockSize: nat, chosen: seq<nat>, m: nat): real
    requires series != [] && 1 <= blockSize && SampledAfter(|series|, blockSize, |chosen|) < |series|
    decreases |series| - SampledAfter(|series|, blockSize, |chosen|), 0, m
  {
    if m == 0 then 0.0
    else TotalOverNext(series, blockSize, chosen, m - 1) + TotalOverStarts(series, blockSize, chosen + [m - 1])
  }

  /** What the chosen blocks add up to. */
  function SumOfBlocks(series: seq<real>, blockSize: nat, chosen: seq<nat>): real
    requires series != [] && 1 <= blockSize
  {
    if chosen == [] then 0.0 else
      var k := |chosen| - 1;
      var before := SampledAfter(|series|, blockSize, k);
      SumOfBlocks(series, blockSize, chosen[..k])
      + Sum(Block(series, Wrapped(chosen[k], |series|), Smaller(blockSize, |series| - before)))
  }

  /** The blocks of the first k draws, and what is picked from there on. */
  lemma {:induction false} PickedInBlocks(series: seq<real>, blockSize: nat, chosen: seq<nat>, k: nat)
    requires series != [] && 1 <= blockSize && k <= |chosen|
    ensures var sampled := SampledAfter(|series|, blockSize, k);
            Sum(Picked(series, blockSize, Drawn(chosen), 0, 0))
            == SumOfBlocks(series, blockSize, chosen[..k]) + Sum(Picked(series, blockSize, Drawn(chosen), k, sampled))
  {
    hide Sum, Block, Wrapped, Picked, SampledAfter, SumOfBlocks, Smaller;
    if k > 0 {
      PickedInBlocks(series, blockSize, chosen, k - 1);
      OneBlockMore(series, blockSize, chosen, k);
    } else {
      NoBlocksYet(series, blockSize, chosen);
    }
  }

  lemma NoBlocksYet(series: seq<real>, blockSize: nat, chosen: seq<nat>)
    requires series != [] && 1 <= blockSize
    ensures SampledAfter(|series|, blockSize, 0) == 0 && SumOfBlocks(series, blockSize, chosen[..0]) == 0.0
  {
  }

  /** The block of the k-th draw. */
  function DrawnBlock(series: seq<real>, blockSize: nat, chosen: seq<nat>, k: nat): seq<real>
    requires series != [] && 1 <= blockSize && 0 < k <= |chosen|
  {
    Block(series, Wrapped(chosen[k - 1], |series|), Smaller(blockSize, |series| - SampledAfter(|series|, blockSize, k - 1)))
  }

  lemma BlocksGrow(series: seq<real>, blockSize: nat, chosen: seq<nat>, k: nat)
    requires series != [] && 1 <= blockSize && 0 < k <= |chosen|
    ensures SumOfBlocks(series, blockSize, chosen[..k])
         == SumOfBlocks(series, blockSize, chosen[..k - 1]) + Sum(DrawnBlock(series, blockSize, chosen, k))
  {
    hide Sum, Block, Wrapped, SampledAfter, Smaller;
    assert chosen[..k][..k - 1] == chosen[..k - 1];
  }

  lemma PickedStartsWith(series: seq<real>, blockSize: nat, chosen: seq<nat>, k: nat)
    requires series != [] && 1 <= blockSize && 0 < k <= |chosen|
    ensures Picked(series, blockSize, Drawn(chosen), k - 1, SampledAfter(|series|, blockSize, k - 1))
         == DrawnBlock(series, blockSize, chosen, k) + Picked(series, blockSize, Drawn(chosen), k, SampledAfter(|series|, blockSize, k))
  {
    hide Wrapped;
    if SampledAfter(|series|, blockSize, k - 1) == |series| {
      assert DrawnBlock(series, blockSize, chosen, k) == [];
    }
  }

  lemma OneBlockMore(series: seq<real>, blockSize: nat, chosen: seq<nat>, k: nat)
    requires series != [] && 1 <= blockSize && 0 < k <= |chosen|
    ensures SumOfBlocks(series, blockSize, chosen[..k]) + Sum(Picked(series, blockSize, Drawn(chosen), k, SampledAfter(|series|, blockSize, k)))
         == SumOfBlocks(series, blockSize, chosen[..k - 1])
            + Sum(Picked(series, blockSize, Drawn(chosen), k - 1, SampledAfter(|series|, blockSize, k - 1)))
  {
    hide Sum, Block, Wrapped, Picked, SampledAfter, SumOfBlocks, DrawnBlock, Drawn;
    BlocksGrow(series, blockSize, chosen, k);
    PickedStartsWith(series, blockSize, chosen, k);
    SumSplits(DrawnBlock(series, blockSize, chosen, k), Picked(series, blockSize, Drawn(chosen), k, SampledAfter(|series|, blockSize, k)));
  }

  lemma {:induction false} StartsAreAllResamples(series: seq<real>, blockSize: nat, chosen: seq<nat>)
    requires series != [] && 1 <= blockSize
    ensures TotalOverStarts(series, blockSize, chosen)
         == TotalOfAll(series, blockSize, SampledAfter(|series|, blockSize, |chosen|), SumOfBlocks(series, blockSize, chosen))
    decreases |series| - SampledAfter(|series|, blockSize, |chosen|), 1, 0
  {
    hide Sum, Block, Wrapped, SumOfBlocks;
    var sampled := SampledAfter(|series|, blockSize, |chosen|);
    if sampled == |series| {
      PickedInBlocks(series, blockSize, chosen, |chosen|);
      assert chosen[..|chosen|] == chosen;
      NothingSums();
    } else {
      StartsFromAreResamples(series, blockSize, chosen, |series|);
    }
  }

  lemma {:induction false} StartsFromAreResamples(series: seq<real>, blockSize: nat, chosen: seq<nat>, m: nat)
    requires series != [] && 1 <= blockSize && m <= |series| && SampledAfter(|series|, blockSize, |chosen|) < |series|
    ensures TotalOverNext(series, blockSize, chosen, m)
         == TotalFrom(series, blockSize, SampledAfter(|series|, blockSize, |chosen|), SumOfBlocks(series, blockSize, chosen), m)
    decreases |series| - SampledAfter(|series|, blockSize, |chosen|), 0, m
  {
    hide Sum, Block, Wrapped;
    if m > 0 {
      StartsFromAreResamples(series, blockSize, chosen, m - 1);
      StartsAreAllResamples(series, blockSize, chosen + [m - 1]);
      assert (chosen + [m - 1])[..|chosen|] == chosen;
      WrappedLaws(m - 1, |series|);
    }
  }

  /**
   The bootstrap is centred: what the sampling loop picks, added up over every sequence of start indices,
   is the number of such sequences times the total of the series, so the resample means average to the
   sample mean.
   */
  lemma ResamplesAverageToTheMean(series: seq<real>, blockSize: nat)
    requires series != [] && 1 <= blockSize <= |series|
    ensures TotalOverStarts(series, blockSize, []) == Resamples(|series|, blockSize, 0) as real * Sum(series)
  {
    hide Sum;
    StartsAreAllResamples(series, blockSize, []);
    AllResamplesCentred(series, blockSize);
  }

  lemma AllResamplesCentred(series: seq<real>, blockSize: nat)
    requires series != [] && 1 <= blockSize <= |series|
    ensures TotalOfAll(series, blockSize, 0, 0.0) == Resamples(|series|, blockSize, 0) as real * Sum(series)
  {
    hide Scaled, Sum;
    var n, all := |series|, Resamples(|series|, blockSize, 0);
    AllResamples(series, blockSize, 0, 0.0);
    ScaledOfZero(n);
    ScaledLaws(all, n, Sum(series), 0.0);
    ScaledLaws(n, all, Sum(series), 0.0);
    assert all * n == n * all;
    ScaledIs(all, Sum(series));
    Cancel(n, TotalOfAll(series, blockSize, 0, 0.0), Scaled(all, Sum(series)));
  }

  lemma Cancel(n: nat, x: real, y: real)
    requires n > 0 && Scaled(n, x) == Scaled(n, y)
    ensures x == y
  {
    assert n as real * (x - y) == 0.0;
  }

  // ----- subperiods

  function SizeOf(n: nat, count: nat, i: nat): nat
    requires count > 0
  {
    n / count + if i < n % count then 1 else 0
  }

  /** Where the i-th subperiod starts. */
  function StartOf(n: nat, count: nat, i: nat): nat
    requires count > 0
  {
    if i == 0 then 0 else StartOf(n, count, i - 1) + SizeOf(n, count, i - 1)
  }

  lemma {:induction false} StartIs(n: nat, count: nat, i: nat)
    requires count > 0
    ensures StartOf(n, count, i) == i * (n / count) + Smaller(i, n % count)
  {
    if i > 0 {
      StartIs(n, count, i - 1);
      assert i * (n / count) == (i - 1) * (n / count) + n / count;
    }
  }

  /** The subperiods end where the series ends. */
  lemma StartsFit(n: nat, count: nat, i: nat)
    requires count > 0 && i <= count
    ensures StartOf(n, count, i) <= n
    ensures StartOf(n, count, count) == n
  {
    StartIs(n, count, count);
    assert count * (n / count) + n % count == n;
    StartsAscend(n, count, i, count);
  }

  lemma {:induction false} StartsAscend(n: nat, count: nat, i: nat, j: nat)
    requires count > 0 && i <= j
    ensures StartOf(n, count, i) <= StartOf(n, count, j)
    decreases j
  {
    if i < j {
      StartsAscend(n, count, i, j - 1);
    }
  }

  function Subperiod(series: seq<real>, count: nat, i: nat): seq<real>
    requires i < count
  {
    StartsFit(|series|, count, i);
    StartsFit(|series|, count, i + 1);
    series[StartOf(|series|, count, i)..StartOf(|series|, count, i + 1)]
  }

  function Joined(series: seq<real>, count: nat, n: nat): seq<real>
    requires n <= count
  {
    if n == 0 then [] else Joined(series, count, n - 1) + Subperiod(series, count, n - 1)
  }

  function Mean(s: seq<real>): real
    requires s != []
  {
    Sum(s) / |s| as real
  }

  /** The subperiods are a partition of the series into consecutive runs. */
  lemma {:induction false} SubperiodsJoin(series: seq<real>, count: nat, n: nat)
    requires n <= count && count > 0
    ensures StartOf(|series|, count, n) <= |series|
    ensures Joined(series, count, n) == series[..StartOf(|series|, count, n)]
  {
    StartsFit(|series|, count, n);
    if n > 0 {
      SubperiodsJoin(series, count, n - 1);
    }
  }

  lemma SubperiodsPartition(series: seq<real>, count: nat)
    requires count > 0
    ensures Joined(series, count, count) == series
    ensures forall i, j | 0 <= i < count && 0 <= j < count :: |Subperiod(series, count, i)| <= |Subperiod(series, count, j)| + 1
    ensures count <= |series| ==> forall i | 0 <= i < count :: Subperiod(series, count, i) != []
  {
    SubperiodsJoin(series, count, count);
    StartsFit(|series|, count, count);
    assert series[..|series|] == series;
    forall i | 0 <= i < count ensures |Subperiod(series, count, i)| == SizeOf(|series|, count, i) {
      StartsFit(|series|, count, i);
      StartsFit(|series|, count, i + 1);
    }
    if count <= |series| {
      AtLeastOneEach(|series|, count);
    }
  }

  lemma AtLeastOneEach(n: nat, count: nat)
    requires 0 < count <= n
    ensures n / count >= 1
  {
  }

  /** `_subperiod_means` */
  method SubperiodMeans(series: seq<real>, count: nat) returns (means: seq<real>)
    requires 0 < count <= |series|
    ensures |means| == count
    ensures forall i | 0 <= i < count :: Subperiod(series, count, i) != [] && means[i] == Mean(Subperiod(series, count, i))
  {
    hide Sum;
    var base, remainder := |series| / count, |series| % count;
    SubperiodsPartition(series, count);
    means := [];
    var cursor := 0;
    for index := 0 to count
      invariant |means| == index && cursor == StartOf(|series|, count, index)
      invariant forall i | 0 <= i < index :: means[i] == Mean(Subperiod(series, count, i))
    {
      var size := base + if index < remainder then 1 else 0;
      StartsFit(|series|, count, index + 1);
      var period := series[cursor..cursor + size];
      assert period == Subperiod(series, count, index);
      cursor := cursor + size;
      means := means + [Mean(period)];
    }
  }

  // ----- quantiles

  predicate Ordered(s: seq<real>) {
    forall i, j | 0 <= i < j < |s| :: s[i] <= s[j]
  }

  /** `_quantile`: linear interpolation between neighbouring order statistics. */
  function Quantile(ordered: seq<real>, probability: real): real
    requires ordered != [] && 0.0 <= probability <= 1.0
  {
    PositionInRange(|ordered| - 1, probability);
    At(ordered, Position(|ordered| - 1, probability))
  }

  function Position(last: nat, probability: real): real {
    last as real * probability
  }

  function At(ordered: seq<real>, position: real): real
    requires 0.0 <= position <= (|ordered| - 1) as real
  {
    var lower := position.Floor;
    if lower as real == position then ordered[lower]
    else ordered[lower] * (1.0 - (position - lower as real)) + ordered[lower + 1] * (position - lower as real)
  }

  lemma PositionInRange(last: nat, probability: real)
    requires 0.0 <= probability <= 1.0
    ensures 0.0 <= Position(last, probability) <= last as real
  {
    assert last as real * (1.0 - probability) >= 0.0;
  }

  lemma PositionGrows(last: nat, p: real, q: real)
    requires p <= q
    ensures Position(last, p) <= Position(last, q)
  {
  }

  /** Interpolation stays between the neighbours. */
  lemma AtBetween(ordered: seq<real>, position: real)
    requires Ordered(ordered) && 0.0 <= position <= (|ordered| - 1) as real
    ensures ordered[position.Floor] <= At(ordered, position)
    ensures position.Floor + 1 < |ordered| ==> At(ordered, position) <= ordered[position.Floor + 1]
  {
    var lower := position.Floor;
    if lower as real != position {
      Interpolates(ordered[lower], ordered[lower + 1], position - lower as real, 1.0);
      Interpolates(ordered[lower], ordered[lower + 1], 0.0, position - lower as real);
    }
  }

  lemma Interpolates(a: real, b: real, v: real, w: real)
    requires a <= b && 0.0 <= v <= w <= 1.0
    ensures a * (1.0 - v) + b * v <= a * (1.0 - w) + b * w
  {
    assert (b - a) * (w - v) >= 0.0;
    assert a * (1.0 - w) + b * w - (a * (1.0 - v) + b * v) == (b - a) * (w - v);
  }

  lemma AtIsMonotone(ordered: seq<real>, p: real, q: real)
    requires Ordered(ordered) && 0.0 <= p <= q <= (|ordered| - 1) as real
    ensures At(ordered, p) <= At(ordered, q)
  {
    if p.Floor == q.Floor {
      var lower := p.Floor;
      if lower as real == p {
        AtBetween(ordered, q);
      } else {
        Interpolates(ordered[lower], ordered[lower + 1], p - lower as real, q - lower as real);
      }
    } else {
      AtBetween(ordered, p);
      AtBetween(ordered, q);
      assert p.Floor + 1 <= q.Floor;
      assert p.Floor + 1 == q.Floor || ordered[p.Floor + 1] <= ordered[q.Floor];
    }
  }

  /** The interpolated quantile grows with the probability and stays inside the sample. */
  lemma QuantileIsMonotone(ordered: seq<real>, p: real, q: real)
    requires ordered != [] && Ordered(ordered) && 0.0 <= p <= q <= 1.0
    ensures ordered[0] <= Quantile(ordered, p) <= Quantile(ordered, q) <= ordered[|ordered| - 1]
  {
    hide Position, At;
    var last := |ordered| - 1;
    PositionInRange(last, p);
    PositionInRange(last, q);
    PositionGrows(last, p, q);
    AtIsMonotone(ordered, Position(last, p), Position(last, q));
    AtIsMonotone(ordered, 0.0, Position(last, p));
    AtIsMonotone(ordered, Position(last, q), last as real);
    AtEnds(ordered);
  }

  lemma AtEnds(ordered: seq<real>)
    requires ordered != []
    ensures At(ordered, 0.0) == ordered[0] && At(ordered, (|ordered| - 1) as real) == ordered[|ordered| - 1]
  {
  }

  /**
   The quantile lies on the line between its two neighbouring order statistics, at the place its position has
   between their indices; at a whole position it is that order statistic.
   */
  lemma QuantileInterpolates(ordered: seq<real>, p: real, position: real, k: nat)
    requires 0.0 <= p <= 1.0 && k < |ordered|
    requires position == (|ordered| - 1) as real * p && k as real <= position <= k as real + 1.0
    ensures Quantile(ordered, p)
         == if k + 1 < |ordered| then ordered[k] + (position - k as real) * (ordered[k + 1] - ordered[k]) else ordered[k]
  {
    hide At;
    PositionInRange(|ordered| - 1, p);
    SamePosition(ordered, Position(|ordered| - 1, p), position);
    OnTheLine(ordered, position, k);
  }

  lemma SamePosition(ordered: seq<real>, a: real, b: real)
    requires a == b && 0.0 <= a <= (|ordered| - 1) as real
    ensures At(ordered, a) == At(ordered, b)
  {
  }

  lemma OnTheLine(ordered: seq<real>, position: real, k: nat)
    requires k < |ordered| && 0.0 <= position <= (|ordered| - 1) as real && k as real <= position <= k as real + 1.0
    ensures At(ordered, position)
         == if k + 1 < |ordered| then ordered[k] + (position - k as real) * (ordered[k + 1] - ordered[k]) else ordered[k]
  {
    if position < k as real + 1.0 {
      assert position.Floor == k;
    } else {
      assert position.Floor == k + 1;
    }
    if k + 1 < |ordered| {
      Line(ordered[k], ordered[k + 1], position - k as real);
    }
  }

  lemma Line(a: real, b: real, w: real)
    ensures a * (1.0 - w) + b * w == a + w * (b - a)
  {
  }

  /** As often as there are elements the mean adds up to their sum, and the sum is that of the elements one by one. */
  lemma MeanIsAverage(s: seq<real>, x: real, n: real)
    requires s != [] && n == |s| as real
    ensures Mean(s) * n == Sum(s)
    ensures Sum(s + [x]) == Sum(s) + x && Sum([x]) == x
  {
    hide Sum;
    Balances(Sum(s), n, Mean(s));
    OneMoreSums(s, x);
    OneMoreSums([], x);
    NothingSums();
    assert [] + [x] == [x];
  }

  lemma Balances(total: real, n: real, mean: real)
    requires n > 0.0 && mean == total / n
    ensures mean * n == total
  {
  }

  lemma OneMoreSums(s: seq<real>, x: real)
    ensures Sum(s + [x]) == Sum(s) + x
  {
    assert (s + [x])[..|s|] == s;
  }
}
