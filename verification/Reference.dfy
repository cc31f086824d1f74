/** The plans written out: each lemma takes the intermediate values a kernel goes through, related to each other by
    single rounded operations, and says that the plan's value is what they end with. Elements of the matrices are
    read with `At`, which is the element itself inside the matrix and zero outside it. */
module Reference {
  import opened Numerics
  import opened Terms
  import opened Operands
  import opened Plans
  import opened Routing
  import opened Dispatch

  // ---- the elements ----

  /** A row-major matrix read along its rows or its columns, upcast if it holds 16-bit elements. */
  lemma ElementOf(s: seq<Val>, rows: nat, cols: nat, half: bool, i: nat, j: nat)
    requires Holds(s, rows, cols)
    ensures At(ByRows(s, rows, cols, half), i, j) == At(ByCols(s, rows, cols, half), j, i)
    ensures if i < rows && j < cols
            then Flat(i, cols, j) < |s|
                 && At(ByRows(s, rows, cols, half), i, j)
                    == if half then Up(s[Flat(i, cols, j)]) else s[Flat(i, cols, j)]
            else At(ByRows(s, rows, cols, half), i, j) == Zero
  {
    if i < rows && j < cols { FlatInBounds(i, rows, cols, j); }
  }

  // ---- runs of multiply-adds ----

  /** Accumulators that start at `acc[0]` and take the steps lo, lo + 1, ... in ascending order. */
  lemma {:induction false} RunIsChain(acc: seq<Val>, x: Operand, w: Operand, m: nat, n: nat, lo: nat, steps: nat)
    requires |acc| > steps
    requires forall r :: 0 <= r < steps ==> acc[r + 1] == Fma(At(x, m, lo + r), At(w, n, lo + r), acc[r])
    ensures acc[steps] == Chain(acc[0], x, w, m, n, lo, steps)
    decreases steps
  {
    if steps > 0 {
      RunIsChain(acc, x, w, m, n, lo, steps - 1);
      assert acc[steps - 1 + 1] == Fma(At(x, m, lo + (steps - 1)), At(w, n, lo + (steps - 1)), acc[steps - 1]);
    }
  }

  /** The number of steps up to the next multiple of `bk`. */
  lemma PaddedLength(red: nat, bk: nat, slabs: nat)
    requires bk > 0 && red <= Times(slabs, bk) < red + bk
    ensures RoundUp(red, bk) == Times(slabs, bk)
  {
    var d := DivCeil(red, bk);
    if d < slabs { TimesLess(d + 1, slabs, bk); }
    if slabs < d { TimesLess(slabs + 1, d, bk); }
  }

  /** The bias, literally. */
  lemma BiasEntry(v: Val, seed: Seed, n: nat)
    requires seed.Bias? ==> n < |seed.values|
    ensures SeedAt(seed, n) == if seed.Bias? then seed.values[n] else Zero
    ensures AddBias(v, seed, n) == if seed.Bias? then Add(v, seed.values[n]) else v
  {
  }

  // ---- one lemma per plan ----

  /** An unsplit tiled kernel: from the bias, one step after the other, to the end of the last slab; then alpha. */
  lemma WholeSteps(bk: nat, x: Operand, w: Operand, seed: Seed, m: nat, n: nat, slabs: nat, acc: seq<Val>)
    requires x.red == w.red && bk > 0 && (seed.Bias? ==> n < |seed.values|)
    requires x.red <= Times(slabs, bk) < x.red + bk && |acc| == Times(slabs, bk) + 1
    requires acc[0] == if seed.Bias? then seed.values[n] else Zero
    requires forall r :: 0 <= r < |acc| - 1 ==> acc[r + 1] == Fma(At(x, m, r), At(w, n, r), acc[r])
    ensures Value(Whole(bk), x, w, seed, m, n) == Mul(One, acc[|acc| - 1])
  {
    PaddedLength(x.red, bk, slabs);
    BiasEntry(Zero, seed, n);
    forall r | 0 <= r < |acc| - 1 ensures acc[r + 1] == Fma(At(x, m, 0 + r), At(w, n, 0 + r), acc[r]) {}
    RunIsChain(acc, x, w, m, n, 0, |acc| - 1);
  }

  /** A tensor-core kernel: sixteen reduction steps at a time, to a multiple of 64. */
  lemma TensorSteps(x: Operand, w: Operand, seed: Seed, m: nat, n: nat, slabs: nat, acc: seq<Val>)
    requires x.red == w.red && (seed.Bias? ==> n < |seed.values|)
    requires x.red <= 64 * slabs < x.red + 64 && |acc| == 4 * slabs + 1
    requires acc[0] == if seed.Bias? then seed.values[n] else Zero
    requires forall t :: 0 <= t < |acc| - 1 ==> acc[t + 1] == Mma16(acc[t], Run16(x, m, 16 * t), Run16(w, n, 16 * t))
    ensures Value(Tensor, x, w, seed, m, n) == Mul(One, acc[|acc| - 1])
  {
    TimesIs(slabs, 64);
    PaddedLength(x.red, 64, slabs);
    BiasEntry(Zero, seed, n);
    RunIsMmaChain(acc, x, w, m, n, 4 * slabs);
  }

  lemma {:induction false} RunIsMmaChain(acc: seq<Val>, x: Operand, w: Operand, m: nat, n: nat, t: nat)
    requires |acc| > t
    requires forall t' :: 0 <= t' < t ==> acc[t' + 1] == Mma16(acc[t'], Run16(x, m, 16 * t'), Run16(w, n, 16 * t'))
    ensures acc[t] == MmaChain(acc[0], x, w, m, n, 0, 16 * t)
    decreases t
  {
    if t > 0 {
      RunIsMmaChain(acc, x, w, m, n, t - 1);
      assert acc[t - 1 + 1] == Mma16(acc[t - 1], Run16(x, m, 16 * (t - 1)), Run16(w, n, 16 * (t - 1)));
    }
  }

  /** The tail-column filler: from zero, no alpha. */
  lemma ColumnSteps(x: Operand, w: Operand, m: nat, n: nat, acc: seq<Val>)
    requires x.red == w.red && |acc| == x.red + 1 && acc[0] == Zero
    requires forall r :: 0 <= r < x.red ==> acc[r + 1] == Fma(At(x, m, r), At(w, n, r), acc[r])
    ensures Value(Column, x, w, NoBias, m, n) == acc[x.red]
  {
    forall r | 0 <= r < x.red ensures acc[r + 1] == Fma(At(x, m, 0 + r), At(w, n, 0 + r), acc[r]) {}
    RunIsChain(acc, x, w, m, n, 0, x.red);
  }

  /** The NT vector kernel: alpha times dY, times W. */
  lemma OuterSteps(x: Operand, w: Operand, m: nat, n: nat)
    requires x.red == w.red == 1
    ensures Value(Outer, x, w, NoBias, m, n) == Mul(Mul(One, At(x, m, 0)), At(w, n, 0))
  {
  }

  // ---- the vector kernels ----

  /** How many steps warp `i` takes when each warp's share is `p` = ceil(K / 8): the last shares may be short or
      empty. */
  lemma SlabLength(red: nat, p: nat, i: nat, len: nat)
    requires p == (red + 7) / 8 && i < 8
    requires len == if Times(i, p) + p <= red then p else if Times(i, p) <= red then red - Times(i, p) else 0
    ensures SlabLo(red, i + 1) - SlabLo(red, i) == len && (len > 0 ==> SlabLo(red, i) == Times(i, p))
  {
    assert DivCeil(red, 8) == p;
    TimesSucc(i, p);
  }

  /** One warp's run over its slab. */
  lemma SlabSteps(x: Operand, w: Operand, m: nat, n: nat, p: nat, i: nat, lo: nat, acc: seq<Val>)
    requires x.red == w.red && p == (x.red + 7) / 8 && i < 8 && lo == Times(i, p)
    requires |acc| == 1 + if lo + p <= x.red then p else if lo <= x.red then x.red - lo else 0
    requires acc[0] == Zero
    requires forall r :: 0 <= r < |acc| - 1 ==> acc[r + 1] == Fma(At(x, m, lo + r), At(w, n, lo + r), acc[r])
    ensures Slab(x, w, m, n, i) == acc[|acc| - 1]
  {
    SlabLength(x.red, p, i, |acc| - 1);
    SlabOrder(x.red, i);
    if |acc| > 1 { RunIsChain(acc, x, w, m, n, lo, |acc| - 1); }
  }

  /** The ultra-thin kernel: the runs of eight warps over consecutive parts of the axis, as `SlabSteps` has them,
      added in pairs, then alpha, then the bias. */
  lemma EightSlabsSteps(x: Operand, w: Operand, seed: Seed, m: nat, n: nat, s: seq<Val>)
    requires x.red == w.red && (seed.Bias? ==> n < |seed.values|) && |s| == 8
    requires forall i :: 0 <= i < 8 ==> s[i] == Slab(x, w, m, n, i)
    ensures var sum := Add(Add(Add(s[0], s[1]), Add(s[2], s[3])), Add(Add(s[4], s[5]), Add(s[6], s[7])));
      Value(EightSlabs, x, w, seed, m, n)
        == if seed.Bias? then Add(Mul(One, sum), seed.values[n]) else Mul(One, sum)
  {
    assert Slabs(x, w, m, n) == s;
    TreeOfEight(s);
    BiasEntry(Mul(One, PairTree(s)), seed, n);
  }

  /** One lane's run over the indices lane, lane + 32, lane + 64, ... */
  lemma {:induction false} LaneSteps(x: Operand, w: Operand, m: nat, n: nat, lane: nat, hi: nat, acc: seq<Val>)
    requires lane < 32 && |acc| > (hi + 31 - lane) / 32 && acc[0] == Zero
    requires forall r :: 0 <= r < |acc| - 1 ==>
      acc[r + 1] == Fma(At(x, m, lane + 32 * r), At(w, n, lane + 32 * r), acc[r])
    ensures LaneChain(x, w, m, n, lane, hi) == acc[(hi + 31 - lane) / 32]
    decreases hi
  {
    if hi > 0 {
      LaneSteps(x, w, m, n, lane, hi - 1, acc);
      LaneCount(hi, lane);
      if (hi - 1) % 32 == lane {
        var r := (hi - 1) / 32;
        assert acc[r + 1] == Fma(At(x, m, lane + 32 * r), At(w, n, lane + 32 * r), acc[r]);
      }
    }
  }

  lemma LaneCount(hi: nat, lane: nat)
    requires lane < 32 && hi > 0
    ensures if (hi - 1) % 32 == lane
            then (hi + 30 - lane) / 32 == (hi - 1) / 32 && (hi + 31 - lane) / 32 == (hi - 1) / 32 + 1
                 && hi - 1 == lane + 32 * ((hi - 1) / 32)
            else (hi + 30 - lane) / 32 == (hi + 31 - lane) / 32
  {
  }

  /** The butterfly as lane 0 sees it: lanes 16 apart meet first, then 8, 4, 2, and neighbours last. */
  lemma ButterflyRounds(s: seq<Val>, s16: seq<Val>, s8: seq<Val>, s4: seq<Val>, s2: seq<Val>)
    requires |s| == 32 && |s16| == 16 && |s8| == 8 && |s4| == 4 && |s2| == 2
    requires forall l :: 0 <= l < 16 ==> s16[l] == Add(s[l], s[l + 16])
    requires forall l :: 0 <= l < 8 ==> s8[l] == Add(s16[l], s16[l + 8])
    requires forall l :: 0 <= l < 4 ==> s4[l] == Add(s8[l], s8[l + 4])
    requires forall l :: 0 <= l < 2 ==> s2[l] == Add(s4[l], s4[l + 2])
    ensures Tree(s) == Add(s2[0], s2[1])
  {
    HalvingStep(s, s16);
    HalvingStep(s16, s8);
    HalvingStep(s8, s4);
    HalvingStep(s4, s2);
    HalvingStep(s2, [Add(s2[0], s2[1])]);
  }

  lemma HalvingStep(s: seq<Val>, t: seq<Val>)
    requires |s| == 2 * |t| && |t| in {1, 2, 4, 8, 16}
    requires forall l :: 0 <= l < |t| ==> t[l] == Add(s[l], s[l + |t|])
    ensures Tree(s) == Tree(t) && (|t| == 1 ==> Tree(t) == t[0])
  {
    assert Halve(s) == t;
  }

  /** The NN and TN vector kernels: 32 interleaved runs, the butterfly, alpha, bias. */
  lemma StridedSteps(x: Operand, w: Operand, seed: Seed, m: nat, n: nat, runs: seq<seq<Val>>, s: seq<Val>)
    requires x.red == w.red && (seed.Bias? ==> n < |seed.values|) && |runs| == 32 == |s|
    requires forall l :: 0 <= l < 32 ==> |runs[l]| == (x.red + 31 - l) / 32 + 1
    requires forall l :: 0 <= l < 32 ==> runs[l][0] == Zero && s[l] == runs[l][|runs[l]| - 1]
    requires forall l, r :: 0 <= l < 32 && 0 <= r < |runs[l]| - 1 ==>
      runs[l][r + 1] == Fma(At(x, m, l + 32 * r), At(w, n, l + 32 * r), runs[l][r])
    ensures Value(Strided, x, w, seed, m, n)
         == if seed.Bias? then Add(Mul(One, Tree(s)), seed.values[n]) else Mul(One, Tree(s))
  {
    forall l | 0 <= l < 32 ensures LaneChain(x, w, m, n, l, x.red) == s[l] {
      LaneSteps(x, w, m, n, l, x.red, runs[l]);
    }
    assert Lanes(x, w, m, n, x.red) == s;
    BiasEntry(Mul(One, Tree(s)), seed, n);
  }

  // ---- the split kernels ----

  lemma CutAt(x: Operand, hi: nat, o: nat, r: nat)
    requires hi <= x.red
    ensures At(Cut(x, hi), o, r) == if r < hi then At(x, o, r) else Zero
  {
  }

  /** A run over [lo, hi), zero-filled after that. */
  lemma MaskedRun(x: Operand, w: Operand, m: nat, n: nat, lo: nat, hi: nat, acc: seq<Val>)
    requires hi <= x.red && hi <= w.red && |acc| > 0
    requires forall r :: 0 <= r < |acc| - 1 ==>
      acc[r + 1] == if lo + r < hi then Fma(At(x, m, lo + r), At(w, n, lo + r), acc[r]) else Fma(Zero, Zero, acc[r])
    ensures acc[|acc| - 1] == Chain(acc[0], Cut(x, hi), Cut(w, hi), m, n, lo, |acc| - 1)
  {
    var a, b := Cut(x, hi), Cut(w, hi);
    forall r | 0 <= r < |acc| - 1 ensures acc[r + 1] == Fma(At(a, m, lo + r), At(b, n, lo + r), acc[r]) {
      CutAt(x, hi, m, lo + r);
      CutAt(w, hi, n, lo + r);
    }
    RunIsChain(acc, a, b, m, n, lo, |acc| - 1);
  }

  /** A chunk's run: from zero over [lo, hi), zero-filled to the end of its last slab. */
  lemma PieceSteps(x: Operand, w: Operand, m: nat, n: nat, chunk: nat, main: nat, bk: nat, f: nat, lo: nat, hi: nat,
                   slabs: nat, acc: seq<Val>)
    requires bk > 0 && chunk > 0 && main <= x.red && main <= w.red && f < DivCeil(main, chunk)
    requires lo == Times(f, chunk) && hi == (if lo + chunk <= main then lo + chunk else main)
    requires hi <= lo + Times(slabs, bk) < hi + bk && |acc| == Times(slabs, bk) + 1 && acc[0] == Zero
    requires forall r :: 0 <= r < |acc| - 1 ==>
      acc[r + 1] == if lo + r < hi then Fma(At(x, m, lo + r), At(w, n, lo + r), acc[r]) else Fma(Zero, Zero, acc[r])
    ensures Piece(x, w, m, n, chunk, main, bk, f) == acc[|acc| - 1]
  {
    PieceIs(x, w, m, n, chunk, main, bk, f, lo, hi, slabs);
    MaskedRun(x, w, m, n, lo, hi, acc);
  }

  lemma PieceIs(x: Operand, w: Operand, m: nat, n: nat, chunk: nat, main: nat, bk: nat, f: nat, lo: nat, hi: nat,
                slabs: nat)
    requires bk > 0 && chunk > 0 && main <= x.red && main <= w.red && f < DivCeil(main, chunk)
    requires lo == Times(f, chunk) && hi == (if lo + chunk <= main then lo + chunk else main)
    requires hi <= lo + Times(slabs, bk) < hi + bk
    ensures Piece(x, w, m, n, chunk, main, bk, f) == Chain(Zero, Cut(x, hi), Cut(w, hi), m, n, lo, Times(slabs, bk))
  {
    PieceBounds(chunk, main, bk, f, lo, hi, slabs);
  }

  lemma PieceBounds(chunk: nat, main: nat, bk: nat, f: nat, lo: nat, hi: nat, slabs: nat)
    requires bk > 0 && chunk > 0 && f < DivCeil(main, chunk)
    requires lo == Times(f, chunk) && hi == (if lo + chunk <= main then lo + chunk else main)
    requires hi <= lo + Times(slabs, bk) < hi + bk
    ensures ChunkLo(chunk, f) == lo < hi == ChunkHi(chunk, main, f) <= main
    ensures RoundUp(hi - lo, bk) == Times(slabs, bk)
  {
    ChunkNonEmpty(chunk, main, f);
    PaddedLength(hi - lo, bk, slabs);
  }

  /** Partials added from the first to the last, in f32. */
  lemma {:induction false} SumIsPieceSum(x: Operand, w: Operand, m: nat, n: nat, chunk: nat, main: nat, bk: nat,
                                         sums: seq<Val>, f: nat)
    requires bk > 0 && chunk > 0 && main <= x.red && main <= w.red && 0 < f <= DivCeil(main, chunk) && |sums| >= f
    requires sums[0] == Piece(x, w, m, n, chunk, main, bk, 0)
    requires forall g :: 1 <= g < f ==> sums[g] == Add(sums[g - 1], Piece(x, w, m, n, chunk, main, bk, g))
    ensures sums[f - 1] == PieceSum(x, w, m, n, chunk, main, bk, f)
    decreases f
  {
    if f > 1 { SumIsPieceSum(x, w, m, n, chunk, main, bk, sums, f - 1); }
  }

  /** Partials widened one by one and added in f64. */
  lemma {:induction false} SumIsPieceSumWide(x: Operand, w: Operand, m: nat, n: nat, chunk: nat, main: nat, bk: nat,
                                             sums: seq<Val>, f: nat)
    requires bk > 0 && chunk > 0 && main <= x.red && main <= w.red && 0 < f <= DivCeil(main, chunk) && |sums| >= f
    requires sums[0] == Wide(Piece(x, w, m, n, chunk, main, bk, 0))
    requires forall g :: 1 <= g < f ==> sums[g] == AddWide(sums[g - 1], Wide(Piece(x, w, m, n, chunk, main, bk, g)))
    ensures sums[f - 1] == PieceSumWide(x, w, m, n, chunk, main, bk, f)
    decreases f
  {
    if f > 1 { SumIsPieceSumWide(x, w, m, n, chunk, main, bk, sums, f - 1); }
  }

  /** A split-K route: partials from the first to the last, then the tail continuing from their sum one step at a
      time, then alpha, then the bias. */
  lemma SplitSteps(chunk: nat, main: nat, bk: nat, x: Operand, w: Operand, seed: Seed, m: nat, n: nat,
                   sums: seq<Val>, tail: seq<Val>)
    requires x.red == w.red && bk > 0 && chunk > 0 && 0 < main <= x.red && (seed.Bias? ==> n < |seed.values|)
    requires |sums| == DivCeil(main, chunk) && sums[0] == Piece(x, w, m, n, chunk, main, bk, 0)
    requires forall f :: 1 <= f < |sums| ==> sums[f] == Add(sums[f - 1], Piece(x, w, m, n, chunk, main, bk, f))
    requires |tail| == x.red - main + 1 && tail[0] == sums[|sums| - 1]
    requires forall r :: 0 <= r < x.red - main ==> tail[r + 1] == Fma(At(x, m, main + r), At(w, n, main + r), tail[r])
    ensures var scaled := Mul(tail[x.red - main], One);
      Value(Split(chunk, main, bk), x, w, seed, m, n)
        == if seed.Bias? then Add(scaled, seed.values[n]) else scaled
  {
    SumIsPieceSum(x, w, m, n, chunk, main, bk, sums, |sums|);
    RunIsChain(tail, x, w, m, n, main, x.red - main);
    BiasEntry(Mul(tail[x.red - main], One), seed, n);
  }

  /** The split-M route: partials widened and added in f64 from the first to the last, alpha in f64, and a single
      narrowing. */
  lemma SplitWideSteps(chunk: nat, bk: nat, x: Operand, w: Operand, m: nat, n: nat, sums: seq<Val>)
    requires x.red == w.red > 0 && bk > 0 && chunk > 0
    requires |sums| == DivCeil(x.red, chunk) && sums[0] == Wide(Piece(x, w, m, n, chunk, x.red, bk, 0))
    requires forall f :: 1 <= f < |sums| ==>
      sums[f] == AddWide(sums[f - 1], Wide(Piece(x, w, m, n, chunk, x.red, bk, f)))
    ensures Value(SplitWide(chunk, bk), x, w, NoBias, m, n) == Narrow(MulWide(Wide(One), sums[|sums| - 1]))
  {
    SumIsPieceSumWide(x, w, m, n, chunk, x.red, bk, sums, |sums|);
    SplitWideValue(chunk, bk, x, w, m, n);
  }

  // ---- which plan a cell follows ----

  /** Cell (i, j) of Y follows the plan of its shape's route. */
  lemma ForwardCellIs(x: Operand, w: Operand, bias: Seed, m: nat, k: nat, n: nat, i: nat, j: nat)
    requires Sane(m, k, n) && !ForwardRoute(m, k, n).NoRoute? && x.red == w.red == k && j < n
    requires bias.Bias? ==> |bias.values| >= n
    ensures !ForwardRoute(m, k, n).SplitMRoute? && ForwardPlan(ForwardRoute(m, k, n), k).Fits(k)
    ensures ForwardPlan(ForwardRoute(m, k, n), k) ==
            var r := ForwardRoute(m, k, n);
            if r == UltraThinRoute then EightSlabs
            else if r == GemvRoute then Strided
            else if r == SplitTailRoute then Split(32, k - k % 32, 32)
            else if r == SplitMainRoute then Split(32, k, 32)
            else if r == SplitSlimRoute then Split(64, k, 32)
            else if r == SlimRoute then Whole(32)
            else Whole(16)
    ensures ForwardCell(x, w, bias, m, k, n, Flat(i, n, j))
         == Value(ForwardPlan(ForwardRoute(m, k, n), k), x, w, bias, i, j)
  {
    ForwardCoverage(m, k, n);
    PlansFit(m, k, n, 0);
    FlatDigits(i, n, j);
  }

  /** Cell (i, j) of dW. */
  lemma DwCellIs(x: Operand, dy: Operand, m: nat, k: nat, n: nat, i: nat, j: nat)
    requires Sane(m, k, n) && !DwRoute(m, k, n).NoRoute? && x.red == dy.red == m && j < n
    ensures DwPlan(DwRoute(m, k, n)).Fits(m)
    ensures DwPlan(DwRoute(m, k, n)) ==
            var r := DwRoute(m, k, n);
            if r == GemvRoute then Strided
            else if r.SplitMRoute? then SplitWide(r.chunk, 16)
            else if r == SlimRoute then Whole(32)
            else Whole(16)
    ensures DwCell(x, dy, m, k, n, Flat(i, n, j)) == Value(DwPlan(DwRoute(m, k, n)), x, dy, NoBias, i, j)
  {
    PlansFit(m, k, n, 0);
    FlatDigits(i, n, j);
  }

  /** Cell (i, j) of dX; on the K-tail route the last columns follow a plan of their own. */
  lemma DxCellIs(dy: Operand, w: Operand, m: nat, k: nat, n: nat, i: nat, j: nat)
    requires Sane(m, k, n) && dy.red == w.red == n && j < k
    ensures var r := DxRoute(m, k, n); !r.NoRoute? && !r.SplitMRoute? && !r.UltraThinRoute? && !r.SmallRoute?
    ensures DxPlan(DxRoute(m, k, n), k, n, j).Fits(n)
    ensures DxPlan(DxRoute(m, k, n), k, n, j) ==
            var r := DxRoute(m, k, n);
            if r == GemvRoute then Outer
            else if r == SplitTailRoute then (if j < k - k % 32 then Split(32, n, 32) else Column)
            else if r == SplitMainRoute then Split(32, n - n % 32, 32)
            else if r == SplitSlimRoute then Split(64, n, 32)
            else if r == SlimRoute then Whole(32)
            else Whole(16)
    ensures DxCell(dy, w, m, k, n, Flat(i, k, j)) == Value(DxPlan(DxRoute(m, k, n), k, n, j), dy, w, NoBias, i, j)
  {
    DxCoverage(m, k, n);
    PlansFit(m, k, n, j);
    FlatDigits(i, k, j);
  }
}
