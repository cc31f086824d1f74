/** The reduction plans: for every kernel route, the term it leaves for one cell of x * w (+ bias). A plan is
    what a cell's bits depend on besides its row, its column and its bias. */
module Plans {
  import opened Numerics
  import opened Terms
  import opened Operands

  datatype Plan =
    | Whole(bk: nat)                         // one bias-seeded chain, padded to slabs of bk
    | EightSlabs                             // eight sub-chains, fixed tree, bias last
    | Strided                                // 32 interleaved sub-chains, butterfly, bias last
    | Outer                                  // no reduction: alpha * a * b
    | Column                                 // one chain from zero, not scaled by alpha
    | Split(chunk: nat, main: nat, bk: nat)  // chunks of [0, main), then the tail one step at a time, bias last
    | SplitWide(chunk: nat, bk: nat)         // chunks of the whole axis, summed in f64
    | Tensor                                 // one bias-seeded chain of mma steps, padded to slabs of 64
  {
    /** The plan can be run on a reduction axis of `red` steps. */
    predicate Fits(red: nat) {
      match this
      case Whole(bk) => bk > 0
      case Outer => red == 1
      case Split(chunk, main, bk) => bk > 0 && chunk > 0 && 0 < main <= red
      case SplitWide(chunk, bk) => bk > 0 && chunk > 0 && red > 0
      case _ => true
    }

    /** Whether the plan's kernels take a bias. */
    predicate TakesBias() { Whole? || EightSlabs? || Strided? || Split? || Tensor? }
  }

  // ---- chunks ----

  function ChunkLo(chunk: nat, f: nat): nat { Times(f, chunk) }
  function ChunkHi(chunk: nat, main: nat, f: nat): nat { Min(ChunkLo(chunk, f) + chunk, main) }

  lemma ChunkNonEmpty(chunk: nat, main: nat, f: nat)
    requires chunk > 0 && f < DivCeil(main, chunk)
    ensures ChunkLo(chunk, f) < ChunkHi(chunk, main, f) <= main
  {
    ChunkStarts(f, main, chunk);
  }

  /** Chunks follow each other without gap or overlap, and the last one ends the axis. */
  lemma ChunksPartition(chunk: nat, main: nat, f: nat)
    requires chunk > 0 && f < DivCeil(main, chunk)
    ensures ChunkLo(chunk, 0) == 0
    ensures ChunkHi(chunk, main, f) == if f + 1 < DivCeil(main, chunk) then ChunkLo(chunk, f + 1) else main
  {
    TimesSucc(f, chunk);
    if f + 1 < DivCeil(main, chunk) {
      ChunkStarts(f + 1, main, chunk);
    } else {
      TimesLess(DivCeil(main, chunk), f + 1, chunk);
    }
  }

  /** The accumulator of chunk `f` of [0, main). */
  function Piece(x: Operand, w: Operand, m: nat, n: nat, chunk: nat, main: nat, bk: nat, f: nat): Val
    requires bk > 0 && chunk > 0 && main <= x.red && main <= w.red && f < DivCeil(main, chunk)
  {
    ChunkNonEmpty(chunk, main, f);
    var lo, hi := ChunkLo(chunk, f), ChunkHi(chunk, main, f);
    Chain(Zero, Cut(x, hi), Cut(w, hi), m, n, lo, RoundUp(hi - lo, bk))
  }

  /** Partials added in ascending chunk order. */
  function PieceSum(x: Operand, w: Operand, m: nat, n: nat, chunk: nat, main: nat, bk: nat, f: nat): Val
    requires bk > 0 && chunk > 0 && main <= x.red && main <= w.red && 0 < f <= DivCeil(main, chunk)
  {
    if f == 1 then Piece(x, w, m, n, chunk, main, bk, 0)
    else Add(PieceSum(x, w, m, n, chunk, main, bk, f - 1), Piece(x, w, m, n, chunk, main, bk, f - 1))
  }

  /** The same in double precision. */
  function PieceSumWide(x: Operand, w: Operand, m: nat, n: nat, chunk: nat, main: nat, bk: nat, f: nat): Val
    requires bk > 0 && chunk > 0 && main <= x.red && main <= w.red && 0 < f <= DivCeil(main, chunk)
  {
    if f == 1 then Wide(Piece(x, w, m, n, chunk, main, bk, 0))
    else AddWide(PieceSumWide(x, w, m, n, chunk, main, bk, f - 1), Wide(Piece(x, w, m, n, chunk, main, bk, f - 1)))
  }

  // ---- slabs and lanes ----

  /** Where slab `i` of eight starts; the last ones may be empty. */
  function SlabLo(red: nat, i: nat): (lo: nat)
    ensures lo <= red
  {
    Min(Times(i, DivCeil(red, 8)), red)
  }

  function Slab(x: Operand, w: Operand, m: nat, n: nat, i: nat): Val
    requires x.red == w.red && i < 8
  {
    SlabOrder(x.red, i);
    Chain(Zero, x, w, m, n, SlabLo(x.red, i), SlabLo(x.red, i + 1) - SlabLo(x.red, i))
  }

  lemma SlabOrder(red: nat, i: nat)
    ensures SlabLo(red, i) <= SlabLo(red, i + 1)
    ensures SlabLo(red, 0) == 0 && SlabLo(red, 8) == red
  {
    TimesSucc(i, DivCeil(red, 8));
    TimesComm(8, DivCeil(red, 8));
  }

  /** The fixed tree over eight partials: neighbours in pairs, then pairs of pairs. */
  function PairTree(p: seq<Val>): Val
    requires |p| in {1, 2, 4, 8}
    decreases |p|
  {
    if |p| == 1 then p[0] else Add(PairTree(p[..|p| / 2]), PairTree(p[|p| / 2..]))
  }

  function Slabs(x: Operand, w: Operand, m: nat, n: nat): (p: seq<Val>)
    requires x.red == w.red
    ensures |p| == 8 && forall i :: 0 <= i < 8 ==> p[i] == Slab(x, w, m, n, i)
  {
    seq(8, i requires 0 <= i < 8 => Slab(x, w, m, n, i))
  }

  /** The chain of the indices below `hi` that are `lane` modulo 32, ascending. */
  function LaneChain(x: Operand, w: Operand, m: nat, n: nat, lane: nat, hi: nat): Val
    decreases hi
  {
    if hi == 0 then Zero
    else if (hi - 1) % 32 == lane then
      Fma(At(x, m, hi - 1), At(w, n, hi - 1), LaneChain(x, w, m, n, lane, hi - 1))
    else LaneChain(x, w, m, n, lane, hi - 1)
  }

  function Lanes(x: Operand, w: Operand, m: nat, n: nat, hi: nat): (p: seq<Val>)
    ensures |p| == 32 && forall l :: 0 <= l < 32 ==> p[l] == LaneChain(x, w, m, n, l, hi)
  {
    seq(32, l requires 0 <= l < 32 => LaneChain(x, w, m, n, l, hi))
  }

  // ---- the value of a plan ----

  /** Cell (m, n) of x * w (+ bias), as plan `p` computes it. */
  function Value(p: Plan, x: Operand, w: Operand, seed: Seed, m: nat, n: nat): Val
    requires x.red == w.red && p.Fits(x.red) && (seed.Bias? ==> n < |seed.values|)
  {
    match p
    case Whole(bk) => Mul(One, Chain(SeedAt(seed, n), x, w, m, n, 0, RoundUp(x.red, bk)))
    case EightSlabs => AddBias(Mul(One, PairTree(Slabs(x, w, m, n))), seed, n)
    case Strided => AddBias(Mul(One, Tree(Lanes(x, w, m, n, x.red))), seed, n)
    case Outer => Mul(Mul(One, At(x, m, 0)), At(w, n, 0))
    case Column => Chain(Zero, x, w, m, n, 0, x.red)
    case Split(chunk, main, bk) =>
      var sum := PieceSum(x, w, m, n, chunk, main, bk, DivCeil(main, chunk));
      AddBias(Mul(Chain(sum, x, w, m, n, main, x.red - main), One), seed, n)
    case SplitWide(chunk, bk) =>
      Narrow(MulWide(Wide(One), PieceSumWide(x, w, m, n, chunk, x.red, bk, DivCeil(x.red, chunk))))
    case Tensor => Mul(One, MmaChain(SeedAt(seed, n), x, w, m, n, 0, RoundUp(x.red, 64)))
  }

  /** The value of a double-precision split, spelled out. */
  lemma SplitWideValue(chunk: nat, bk: nat, x: Operand, w: Operand, m: nat, n: nat)
    requires x.red == w.red && SplitWide(chunk, bk).Fits(x.red)
    ensures Value(SplitWide(chunk, bk), x, w, NoBias, m, n)
         == Narrow(MulWide(Wide(One), PieceSumWide(x, w, m, n, chunk, x.red, bk, DivCeil(x.red, chunk))))
  {
  }

  // ---- a plan's value depends on nothing but the cell's row and column ----

  predicate SameRow(x: Operand, m: nat, x': Operand, m': nat) {
    x.red == x'.red && forall r :: 0 <= r < x.red ==> At(x, m, r) == At(x', m', r)
  }

  lemma {:induction false} LaneCong(x: Operand, w: Operand, m: nat, n: nat,
                                    x': Operand, w': Operand, m': nat, n': nat, lane: nat, hi: nat)
    requires SameRow(x, m, x', m') && SameRow(w, n, w', n') && hi <= x.red && hi <= w.red
    ensures LaneChain(x, w, m, n, lane, hi) == LaneChain(x', w', m', n', lane, hi)
    decreases hi
  {
    if hi > 0 { LaneCong(x, w, m, n, x', w', m', n', lane, hi - 1); }
  }

  lemma PieceCong(x: Operand, w: Operand, m: nat, n: nat, x': Operand, w': Operand, m': nat, n': nat,
                  chunk: nat, main: nat, bk: nat, f: nat)
    requires SameRow(x, m, x', m') && SameRow(w, n, w', n')
    requires bk > 0 && chunk > 0 && main <= x.red && main <= w.red && f < DivCeil(main, chunk)
    ensures Piece(x, w, m, n, chunk, main, bk, f) == Piece(x', w', m', n', chunk, main, bk, f)
  {
    ChunkNonEmpty(chunk, main, f);
    var lo, hi := ChunkLo(chunk, f), ChunkHi(chunk, main, f);
    CutCong(x, m, x', m', hi);
    CutCong(w, n, w', n', hi);
    ChainCong(Zero, Cut(x, hi), Cut(w, hi), m, n, Cut(x', hi), Cut(w', hi), m', n', lo, RoundUp(hi - lo, bk));
  }

  lemma CutCong(x: Operand, m: nat, x': Operand, m': nat, hi: nat)
    requires SameRow(x, m, x', m') && hi <= x.red
    ensures forall r: nat :: At(Cut(x, hi), m, r) == At(Cut(x', hi), m', r)
  {
    forall r: nat ensures At(Cut(x, hi), m, r) == At(Cut(x', hi), m', r) {
      if r < hi { CutAt(x, hi, m, r); CutAt(x', hi, m', r); }
    }
  }

  lemma CutAt(x: Operand, hi: nat, o: nat, r: nat)
    requires r < hi <= x.red
    ensures At(Cut(x, hi), o, r) == At(x, o, r)
  {
  }

  lemma {:induction false} PieceSumCong(x: Operand, w: Operand, m: nat, n: nat,
                                        x': Operand, w': Operand, m': nat, n': nat,
                                        chunk: nat, main: nat, bk: nat, f: nat)
    requires SameRow(x, m, x', m') && SameRow(w, n, w', n')
    requires bk > 0 && chunk > 0 && main <= x.red && main <= w.red && 0 < f <= DivCeil(main, chunk)
    ensures PieceSum(x, w, m, n, chunk, main, bk, f) == PieceSum(x', w', m', n', chunk, main, bk, f)
    ensures PieceSumWide(x, w, m, n, chunk, main, bk, f) == PieceSumWide(x', w', m', n', chunk, main, bk, f)
    decreases f
  {
    PieceCong(x, w, m, n, x', w', m', n', chunk, main, bk, f - 1);
    if f > 1 { PieceSumCong(x, w, m, n, x', w', m', n', chunk, main, bk, f - 1); }
  }

  lemma SlabsCong(x: Operand, w: Operand, m: nat, n: nat, x': Operand, w': Operand, m': nat, n': nat)
    requires x.red == w.red && SameRow(x, m, x', m') && SameRow(w, n, w', n')
    ensures Slabs(x, w, m, n) == Slabs(x', w', m', n')
  {
    forall i | 0 <= i < 8 ensures Slab(x, w, m, n, i) == Slab(x', w', m', n', i) {
      SlabCong(x, w, m, n, x', w', m', n', i);
    }
  }

  lemma SlabCong(x: Operand, w: Operand, m: nat, n: nat, x': Operand, w': Operand, m': nat, n': nat, i: nat)
    requires x.red == w.red && SameRow(x, m, x', m') && SameRow(w, n, w', n') && i < 8
    ensures Slab(x, w, m, n, i) == Slab(x', w', m', n', i)
  {
    SlabOrder(x.red, i);
    ChainCong(Zero, x, w, m, n, x', w', m', n', SlabLo(x.red, i), SlabLo(x.red, i + 1) - SlabLo(x.red, i));
  }

  lemma LanesCong(x: Operand, w: Operand, m: nat, n: nat, x': Operand, w': Operand, m': nat, n': nat)
    requires x.red == w.red && SameRow(x, m, x', m') && SameRow(w, n, w', n')
    ensures Lanes(x, w, m, n, x.red) == Lanes(x', w', m', n', x'.red)
  {
    forall l | 0 <= l < 32 ensures LaneChain(x, w, m, n, l, x.red) == LaneChain(x', w', m', n', l, x.red) {
      LaneCong(x, w, m, n, x', w', m', n', l, x.red);
    }
  }

  lemma SplitCong(chunk: nat, main: nat, bk: nat,
                  x: Operand, w: Operand, m: nat, n: nat, x': Operand, w': Operand, m': nat, n': nat)
    requires x.red == w.red && Split(chunk, main, bk).Fits(x.red) && SameRow(x, m, x', m') && SameRow(w, n, w', n')
    ensures PieceSum(x, w, m, n, chunk, main, bk, DivCeil(main, chunk))
         == PieceSum(x', w', m', n', chunk, main, bk, DivCeil(main, chunk))
    ensures var sum := PieceSum(x, w, m, n, chunk, main, bk, DivCeil(main, chunk));
      Chain(sum, x, w, m, n, main, x.red - main) == Chain(sum, x', w', m', n', main, x.red - main)
  {
    PieceSumCong(x, w, m, n, x', w', m', n', chunk, main, bk, DivCeil(main, chunk));
    ChainCong(PieceSum(x, w, m, n, chunk, main, bk, DivCeil(main, chunk)), x, w, m, n, x', w', m', n',
              main, x.red - main);
  }

  /** Congruence for the plans with one chain per cell, or one product. */
  lemma ChainPlanCong(p: Plan, x: Operand, w: Operand, seed: Seed, m: nat, x': Operand, w': Operand, m': nat, n: nat,
                      n': nat)
    requires p.Whole? || p.Outer? || p.Column? || p.Tensor?
    requires x.red == w.red && p.Fits(x.red) && (seed.Bias? ==> n < |seed.values|)
    requires SameRow(x, m, x', m') && SameRow(w, n, w', n') && (n' == n || seed.NoBias?)
    ensures Value(p, x, w, seed, m, n) == Value(p, x', w', seed, m', n')
  {
    match p
    case Whole(bk) =>
      ChainCong(SeedAt(seed, n), x, w, m, n, x', w', m', n', 0, RoundUp(x.red, bk));
    case Outer =>
    case Column => ChainCong(Zero, x, w, m, n, x', w', m', n', 0, x.red);
    case Tensor =>
      MmaChainCong(SeedAt(seed, n), x, w, m, n, x', w', m', n', 0, RoundUp(x.red, 64));
  }

  /** For the plans that end in a tree. */
  lemma TreePlanCong(p: Plan, x: Operand, w: Operand, seed: Seed, m: nat, x': Operand, w': Operand, m': nat, n: nat,
                     n': nat)
    requires p.EightSlabs? || p.Strided?
    requires x.red == w.red && p.Fits(x.red) && (seed.Bias? ==> n < |seed.values|)
    requires SameRow(x, m, x', m') && SameRow(w, n, w', n') && (n' == n || seed.NoBias?)
    ensures Value(p, x, w, seed, m, n) == Value(p, x', w', seed, m', n')
  {
    if p.EightSlabs? {
      SlabsCong(x, w, m, n, x', w', m', n');
    } else {
      LanesCong(x, w, m, n, x', w', m', n');
    }
  }

  /** For the plans that add up chunks. */
  lemma SumPlanCong(p: Plan, x: Operand, w: Operand, seed: Seed, m: nat, x': Operand, w': Operand, m': nat, n: nat,
                    n': nat)
    requires p.Split? || p.SplitWide?
    requires x.red == w.red && p.Fits(x.red) && (seed.Bias? ==> n < |seed.values|)
    requires SameRow(x, m, x', m') && SameRow(w, n, w', n') && (n' == n || seed.NoBias?)
    ensures Value(p, x, w, seed, m, n) == Value(p, x', w', seed, m', n')
  {
    if p.Split? {
      SplitCong(p.chunk, p.main, p.bk, x, w, m, n, x', w', m', n');
    } else {
      PieceSumCong(x, w, m, n, x', w', m', n', p.chunk, x.red, p.bk, DivCeil(x.red, p.chunk));
    }
  }

  /** Two cells with equal row data, equal column data and the same bias get the same term under any plan. */
  lemma ValueCong(p: Plan, x: Operand, w: Operand, seed: Seed, m: nat, x': Operand, w': Operand, m': nat, n: nat,
                  n': nat)
    requires x.red == w.red && p.Fits(x.red) && (seed.Bias? ==> n < |seed.values|)
    requires SameRow(x, m, x', m') && SameRow(w, n, w', n') && (n' == n || seed.NoBias?)
    ensures Value(p, x, w, seed, m, n) == Value(p, x', w', seed, m', n')
  {
    if p.EightSlabs? || p.Strided? {
      TreePlanCong(p, x, w, seed, m, x', w', m', n, n');
    } else if p.Split? || p.SplitWide? {
      SumPlanCong(p, x, w, seed, m, x', w', m', n, n');
    } else {
      ChainPlanCong(p, x, w, seed, m, x', w', m', n, n');
    }
  }

  // ---- in exact arithmetic every plan computes the product ----

  function ExactBias(seed: Seed, n: nat): real { Exact(SeedAt(seed, n)) }

  lemma CutDot(x: Operand, w: Operand, m: nat, n: nat, lo: nat, hi: nat, steps: nat)
    requires lo <= hi <= x.red && hi <= w.red && lo + steps >= hi
    ensures Dot(Cut(x, hi), Cut(w, hi), m, n, lo, lo + steps) == Dot(x, w, m, n, lo, hi)
  {
    PaddingIsNothing(Cut(x, hi), Cut(w, hi), m, n, lo, hi, lo + steps);
    DotCong(Cut(x, hi), Cut(w, hi), m, n, x, w, m, n, lo, hi);
  }

  lemma {:induction false} PieceSumIsDot(x: Operand, w: Operand, m: nat, n: nat, chunk: nat, main: nat, bk: nat, f: nat)
    requires bk > 0 && chunk > 0 && main <= x.red && main <= w.red && f < DivCeil(main, chunk)
    ensures Exact(PieceSum(x, w, m, n, chunk, main, bk, f + 1)) == Dot(x, w, m, n, 0, ChunkHi(chunk, main, f))
    ensures Exact(PieceSumWide(x, w, m, n, chunk, main, bk, f + 1)) == Dot(x, w, m, n, 0, ChunkHi(chunk, main, f))
    decreases f
  {
    PieceIsDot(x, w, m, n, chunk, main, bk, f);
    if f == 0 {
      ChunksPartition(chunk, main, f);
    } else {
      PieceSumIsDot(x, w, m, n, chunk, main, bk, f - 1);
      PrefixStep(x, w, m, n, chunk, main, f);
      var q := Piece(x, w, m, n, chunk, main, bk, f);
      AddIsSum(PieceSum(x, w, m, n, chunk, main, bk, f), q);
      AddIsSum(PieceSumWide(x, w, m, n, chunk, main, bk, f), Wide(q));
    }
  }

  lemma PrefixStep(x: Operand, w: Operand, m: nat, n: nat, chunk: nat, main: nat, f: nat)
    requires chunk > 0 && 0 < f < DivCeil(main, chunk)
    ensures Dot(x, w, m, n, 0, ChunkHi(chunk, main, f))
         == Dot(x, w, m, n, 0, ChunkHi(chunk, main, f - 1))
           + Dot(x, w, m, n, ChunkLo(chunk, f), ChunkHi(chunk, main, f))
  {
    ChunksPartition(chunk, main, f - 1);
    ChunkNonEmpty(chunk, main, f);
    DotSplit(x, w, m, n, 0, ChunkLo(chunk, f), ChunkHi(chunk, main, f));
  }

  /** All the chunks together make the dot product over [0, main). */
  lemma AllPieces(x: Operand, w: Operand, m: nat, n: nat, chunk: nat, main: nat, bk: nat)
    requires bk > 0 && chunk > 0 && 0 < main <= x.red && main <= w.red
    ensures Exact(PieceSum(x, w, m, n, chunk, main, bk, DivCeil(main, chunk))) == Dot(x, w, m, n, 0, main)
    ensures Exact(PieceSumWide(x, w, m, n, chunk, main, bk, DivCeil(main, chunk))) == Dot(x, w, m, n, 0, main)
  {
    var last := DivCeil(main, chunk) - 1;
    PieceSumIsDot(x, w, m, n, chunk, main, bk, last);
    ChunksPartition(chunk, main, last);
  }

  lemma PieceIsDot(x: Operand, w: Operand, m: nat, n: nat, chunk: nat, main: nat, bk: nat, f: nat)
    requires bk > 0 && chunk > 0 && main <= x.red && main <= w.red && f < DivCeil(main, chunk)
    ensures Exact(Piece(x, w, m, n, chunk, main, bk, f))
         == Dot(x, w, m, n, ChunkLo(chunk, f), ChunkHi(chunk, main, f))
  {
    ChunkNonEmpty(chunk, main, f);
    var lo, hi := ChunkLo(chunk, f), ChunkHi(chunk, main, f);
    ChainIsDot(Zero, Cut(x, hi), Cut(w, hi), m, n, lo, RoundUp(hi - lo, bk));
    CutDot(x, w, m, n, lo, hi, RoundUp(hi - lo, bk));
  }

  lemma SlabIsDot(x: Operand, w: Operand, m: nat, n: nat, i: nat)
    requires x.red == w.red && i < 8
    ensures Dot(x, w, m, n, 0, SlabLo(x.red, i + 1))
      == Dot(x, w, m, n, 0, SlabLo(x.red, i)) + Exact(Slab(x, w, m, n, i))
  {
    SlabOrder(x.red, i);
    SpanIsDot(x, w, m, n, SlabLo(x.red, i), SlabLo(x.red, i + 1));
  }

  lemma SpanIsDot(x: Operand, w: Operand, m: nat, n: nat, lo: nat, hi: nat)
    requires lo <= hi
    ensures Dot(x, w, m, n, 0, hi) == Dot(x, w, m, n, 0, lo) + Exact(Chain(Zero, x, w, m, n, lo, hi - lo))
  {
    ChainIsDot(Zero, x, w, m, n, lo, hi - lo);
    DotSplit(x, w, m, n, 0, lo, hi);
  }

  lemma {:induction false} PairTreeIsSum(p: seq<Val>)
    requires |p| in {1, 2, 4, 8}
    ensures Exact(PairTree(p)) == SumSeq(p)
    decreases |p|
  {
    if |p| == 1 {
      assert p[..0] == [];
    } else {
      var h := |p| / 2;
      PairTreeIsSum(p[..h]);
      PairTreeIsSum(p[h..]);
      AddIsSum(PairTree(p[..h]), PairTree(p[h..]));
      SumSeqAppend(p[..h], p[h..]);
      assert p == p[..h] + p[h..];
    }
  }

  lemma TreeOfTwo(p: seq<Val>)
    requires |p| == 2
    ensures PairTree(p) == Add(p[0], p[1])
  {
  }

  lemma TreeOfFour(p: seq<Val>)
    requires |p| == 4
    ensures PairTree(p) == Add(Add(p[0], p[1]), Add(p[2], p[3]))
  {
    TreeOfTwo(p[..2]);
    TreeOfTwo(p[2..]);
  }

  /** The tree as the kernel writes it out. */
  lemma TreeOfEight(p: seq<Val>)
    requires |p| == 8
    ensures PairTree(p) == Add(Add(Add(p[0], p[1]), Add(p[2], p[3])), Add(Add(p[4], p[5]), Add(p[6], p[7])))
  {
    TreeOfFour(p[..4]);
    TreeOfFour(p[4..]);
  }

  lemma {:induction false} SlabsUpTo(x: Operand, w: Operand, m: nat, n: nat, p: seq<Val>, k: nat)
    requires x.red == w.red && k <= 8 && p == Slabs(x, w, m, n)
    ensures SumSeq(p[..k]) == Dot(x, w, m, n, 0, SlabLo(x.red, k))
    decreases k
  {
    if k == 0 {
      SlabOrder(x.red, 0);
    } else {
      SlabsUpTo(x, w, m, n, p, k - 1);
      SlabIsDot(x, w, m, n, k - 1);
      SumSnoc(p, k);
    }
  }

  lemma AllSlabs(x: Operand, w: Operand, m: nat, n: nat, p: seq<Val>)
    requires x.red == w.red && p == Slabs(x, w, m, n)
    ensures SumSeq(p) == Dot(x, w, m, n, 0, x.red)
  {
    SlabsUpTo(x, w, m, n, p, |p|);
    SlabOrder(x.red, 0);
    assert p[..|p|] == p;
  }

  lemma SlabTreeIsDot(x: Operand, w: Operand, m: nat, n: nat)
    requires x.red == w.red
    ensures Exact(PairTree(Slabs(x, w, m, n))) == Dot(x, w, m, n, 0, x.red)
  {
    PairTreeIsSum(Slabs(x, w, m, n));
    AllSlabs(x, w, m, n, Slabs(x, w, m, n));
  }

  lemma {:induction false} SumSeqUpdate(s: seq<Val>, t: seq<Val>, l: nat)
    requires |s| == |t| && l < |s| && forall i :: 0 <= i < |s| && i != l ==> s[i] == t[i]
    ensures SumSeq(t) == SumSeq(s) - Exact(s[l]) + Exact(t[l])
  {
    var k := |s| - 1;
    if l < k {
      SumSeqUpdate(s[..k], t[..k], l);
    } else {
      assert s[..k] == t[..k];
    }
  }

  lemma {:induction false} ZeroSum(s: seq<Val>)
    requires forall i :: 0 <= i < |s| ==> s[i] == Zero
    ensures SumSeq(s) == 0.0
  {
    if |s| > 0 { ZeroSum(s[..|s| - 1]); }
  }

  /** Interleaved lanes cover the axis: their sums add up to the whole dot product. */
  lemma {:induction false} LanesAreDot(x: Operand, w: Operand, m: nat, n: nat, hi: nat)
    ensures SumSeq(Lanes(x, w, m, n, hi)) == Dot(x, w, m, n, 0, hi)
    decreases hi
  {
    if hi == 0 {
      ZeroSum(Lanes(x, w, m, n, 0));
    } else {
      var l := Rem(hi - 1, 32);
      var before, after := Lanes(x, w, m, n, hi - 1), Lanes(x, w, m, n, hi);
      LanesAreDot(x, w, m, n, hi - 1);
      assert after[l] == Fma(At(x, m, hi - 1), At(w, n, hi - 1), before[l]);
      SumSeqUpdate(before, after, l);
      FmaIsSum(At(x, m, hi - 1), At(w, n, hi - 1), before[l]);
      DotSucc(x, w, m, n, 0, hi - 1);
    }
  }

  lemma ScaleIsNothing(v: Val, seed: Seed, n: nat)
    requires seed.Bias? ==> n < |seed.values|
    ensures Exact(Mul(One, v)) == Exact(v) && Exact(Mul(v, One)) == Exact(v)
    ensures Exact(Narrow(MulWide(Wide(One), v))) == Exact(v)
    ensures Exact(AddBias(v, seed, n)) == Exact(v) + ExactBias(seed, n)
  {
    assert Exact(Wide(One)) == 1.0 && Exact(MulWide(Wide(One), v)) == Exact(Wide(One)) * Exact(v);
  }

  lemma WholeIsProduct(bk: nat, x: Operand, w: Operand, seed: Seed, m: nat, n: nat)
    requires x.red == w.red && bk > 0 && (seed.Bias? ==> n < |seed.values|)
    ensures Exact(Value(Whole(bk), x, w, seed, m, n)) == Product(x, w, m, n) + ExactBias(seed, n)
  {
    ChainIsDot(SeedAt(seed, n), x, w, m, n, 0, RoundUp(x.red, bk));
    PaddingIsNothing(x, w, m, n, 0, x.red, RoundUp(x.red, bk));
    ScaleIsNothing(Chain(SeedAt(seed, n), x, w, m, n, 0, RoundUp(x.red, bk)), seed, n);
  }

  lemma MulIsProduct(a: Val, b: Val)
    ensures Exact(Mul(a, b)) == Prod(a, b)
  {
  }

  lemma OneStep(x: Operand, w: Operand, m: nat, n: nat)
    ensures Dot(x, w, m, n, 0, 1) == Prod(At(x, m, 0), At(w, n, 0))
  {
    assert Dot(x, w, m, n, 0, 0) == 0.0;
  }

  lemma OuterIsProduct(x: Operand, w: Operand, m: nat, n: nat)
    requires x.red == w.red == 1
    ensures Exact(Value(Outer, x, w, NoBias, m, n)) == Product(x, w, m, n)
  {
    OuterValue(x, w, m, n);
    ScaledProduct(At(x, m, 0), At(w, n, 0));
    OneStep(x, w, m, n);
  }

  lemma OuterValue(x: Operand, w: Operand, m: nat, n: nat)
    requires x.red == w.red == 1
    ensures Value(Outer, x, w, NoBias, m, n) == Mul(Mul(One, At(x, m, 0)), At(w, n, 0))
  {
  }

  lemma ProductOf(u: Val, a: Val, b: Val)
    requires Exact(u) == Exact(a)
    ensures Exact(Mul(u, b)) == Prod(a, b)
  {
    MulIsProduct(u, b);
  }

  lemma ScaledProduct(a: Val, b: Val)
    ensures Exact(Mul(Mul(One, a), b)) == Prod(a, b)
  {
    ScaleIsNothing(a, NoBias, 0);
    ProductOf(Mul(One, a), a, b);
  }

  lemma SplitIsProduct(chunk: nat, main: nat, bk: nat, x: Operand, w: Operand, seed: Seed, m: nat, n: nat)
    requires x.red == w.red && Split(chunk, main, bk).Fits(x.red) && (seed.Bias? ==> n < |seed.values|)
    ensures Exact(Value(Split(chunk, main, bk), x, w, seed, m, n)) == Product(x, w, m, n) + ExactBias(seed, n)
  {
    var sum := PieceSum(x, w, m, n, chunk, main, bk, DivCeil(main, chunk));
    var all := Chain(sum, x, w, m, n, main, x.red - main);
    AllPieces(x, w, m, n, chunk, main, bk);
    ChainIsDot(sum, x, w, m, n, main, x.red - main);
    DotSplit(x, w, m, n, 0, main, x.red);
    ScaledIsExact(all, seed, n);
  }

  /** Scaling by alpha = 1 and adding the bias, in exact arithmetic. */
  lemma ScaledIsExact(acc: Val, seed: Seed, n: nat)
    requires seed.Bias? ==> n < |seed.values|
    ensures Exact(AddBias(Mul(acc, One), seed, n)) == Exact(acc) + ExactBias(seed, n)
  {
    ScaleIsNothing(acc, seed, n);
    ScaleIsNothing(Mul(acc, One), seed, n);
  }

  lemma SplitWideIsProduct(chunk: nat, bk: nat, x: Operand, w: Operand, m: nat, n: nat)
    requires x.red == w.red && SplitWide(chunk, bk).Fits(x.red)
    ensures Exact(Value(SplitWide(chunk, bk), x, w, NoBias, m, n)) == Product(x, w, m, n)
  {
    AllPieces(x, w, m, n, chunk, x.red, bk);
    ScaleIsNothing(PieceSumWide(x, w, m, n, chunk, x.red, bk, DivCeil(x.red, chunk)), NoBias, 0);
  }

  lemma SlabsOf64(red: nat)
    ensures RoundUp(red, 64) % 16 == 0
  {
    MulMod16(DivCeil(red, 64), 64);
  }

  lemma TensorIsProduct(x: Operand, w: Operand, seed: Seed, m: nat, n: nat)
    requires x.red == w.red && (seed.Bias? ==> n < |seed.values|)
    ensures Exact(Value(Tensor, x, w, seed, m, n)) == Product(x, w, m, n) + ExactBias(seed, n)
  {
    var steps := RoundUp(x.red, 64);
    SlabsOf64(x.red);
    MmaChainIsDot(SeedAt(seed, n), x, w, m, n, 0, steps);
    PaddingIsNothing(x, w, m, n, 0, x.red, steps);
    ScaleIsNothing(MmaChain(SeedAt(seed, n), x, w, m, n, 0, steps), seed, n);
  }

  /** Whatever the plan, the exact value of a cell is the matrix product plus the bias. */
  lemma ValueIsProduct(p: Plan, x: Operand, w: Operand, seed: Seed, m: nat, n: nat)
    requires x.red == w.red && p.Fits(x.red) && (seed.Bias? ==> n < |seed.values| && p.TakesBias())
    ensures Exact(Value(p, x, w, seed, m, n)) == Product(x, w, m, n) + ExactBias(seed, n)
  {
    match p
    case Whole(bk) => WholeIsProduct(bk, x, w, seed, m, n);
    case EightSlabs =>
      SlabTreeIsDot(x, w, m, n);
      ScaleIsNothing(PairTree(Slabs(x, w, m, n)), seed, n);
      ScaleIsNothing(Mul(One, PairTree(Slabs(x, w, m, n))), seed, n);
    case Strided =>
      LanesAreDot(x, w, m, n, x.red);
      TreeIsSum(Lanes(x, w, m, n, x.red));
      ScaleIsNothing(Tree(Lanes(x, w, m, n, x.red)), seed, n);
      ScaleIsNothing(Mul(One, Tree(Lanes(x, w, m, n, x.red))), seed, n);
    case Outer => OuterIsProduct(x, w, m, n);
    case Column => ChainIsDot(Zero, x, w, m, n, 0, x.red);
    case Split(chunk, main, bk) => SplitIsProduct(chunk, main, bk, x, w, seed, m, n);
    case SplitWide(chunk, bk) => SplitWideIsProduct(chunk, bk, x, w, m, n);
    case Tensor => TensorIsProduct(x, w, seed, m, n);
  }

  /** A chunk of a split is the unsplit kernel's unscaled accumulator on the matrices cut down to the chunk. */
  lemma PieceIsUnsplitOnSlice(x: Operand, w: Operand, m: nat, n: nat, chunk: nat, main: nat, bk: nat, f: nat)
    requires bk > 0 && chunk > 0 && main <= x.red && main <= w.red && f < DivCeil(main, chunk)
    ensures ChunkLo(chunk, f) < ChunkHi(chunk, main, f) <= x.red
    ensures var lo, hi := ChunkLo(chunk, f), ChunkHi(chunk, main, f);
      Mul(One, Piece(x, w, m, n, chunk, main, bk, f))
        == Value(Whole(bk), Slice(x, lo, hi), Slice(w, lo, hi), NoBias, m, n)
  {
    ChunkNonEmpty(chunk, main, f);
    var lo, hi := ChunkLo(chunk, f), ChunkHi(chunk, main, f);
    ChunkIsUnsplitOnSlice(x, w, m, n, lo, hi, RoundUp(hi - lo, bk));
  }

  // ---- the same data in other clothes ----

  /** The f32 matrix the cast kernel makes of a 16-bit one. */
  function Upcast(s: seq<Val>): (u: seq<Val>)
    ensures |u| == |s| && forall i :: 0 <= i < |s| ==> u[i] == Up(s[i])
  {
    seq(|s|, i requires 0 <= i < |s| => Up(s[i]))
  }

  /** A matrix with `outer` rows of `red` elements; and one whose `red` rows hold `outer` elements. */
  predicate Holds(data: seq<Val>, rows: nat, cols: nat) { |data| >= Times(rows, cols) }

  function ByRows(data: seq<Val>, outer: nat, red: nat, half: bool): Operand
    requires Holds(data, outer, red)
  {
    RawOperand(data, outer, red, red, false, half)
  }

  function ByCols(data: seq<Val>, red: nat, outer: nat, half: bool): Operand
    requires Holds(data, red, outer)
  {
    RawOperand(data, outer, red, outer, true, half)
  }

  /** `u` begins with the upcast of a `rows` x `cols` matrix. */
  predicate IsUpcast(u: seq<Val>, s: seq<Val>, rows: nat, cols: nat) {
    Holds(u, rows, cols) && Holds(s, rows, cols) && forall i :: 0 <= i < Times(rows, cols) ==> u[i] == Up(s[i])
  }

  /** Reading a 16-bit operand and upcasting is reading the upcast operand, whichever way it is walked. */
  lemma UpcastAt(u: seq<Val>, s: seq<Val>, rows: nat, cols: nat)
    requires IsUpcast(u, s, rows, cols)
    ensures forall o: nat, r: nat :: At(ByRows(u, rows, cols, false), o, r) == At(ByRows(s, rows, cols, true), o, r)
    ensures forall o: nat, r: nat :: At(ByCols(u, rows, cols, false), o, r) == At(ByCols(s, rows, cols, true), o, r)
  {
    forall o: nat, r: nat ensures At(ByRows(u, rows, cols, false), o, r) == At(ByRows(s, rows, cols, true), o, r) {
      if o < rows && r < cols { FlatInBounds(o, rows, cols, r); }
    }
    forall o: nat, r: nat ensures At(ByCols(u, rows, cols, false), o, r) == At(ByCols(s, rows, cols, true), o, r) {
      if o < cols && r < rows { FlatInBounds(r, rows, cols, o); }
    }
  }
}
