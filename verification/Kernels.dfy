/** The tiled kernels with the constants they are compiled with, as launches of TileLaunch, and what each of
    them leaves in its output: the value of its plan. */
module Kernels {
  import opened Numerics
  import opened Terms
  import opened Operands
  import opened Geometry
  import opened Loading
  import opened TileKernel
  import opened TileLaunch
  import opened Plans

  /** NN: both operands walk the reduction axis forwards; TN: the left one is read transposed; NT: the right one. */
  datatype Op = NN | TN | NT

  datatype Shape = BigTile | SlimTile | NarrowTile | SmallTile {
    /** The tile edges as the host divides by them. */
    function Bm(): nat { if BigTile? || SlimTile? then 128 else if NarrowTile? then 64 else 16 }
    function Bn(): nat { if BigTile? then 128 else if SlimTile? then 64 else if NarrowTile? then 32 else 16 }

    function Bk(): nat { if SlimTile? then 32 else 16 }
    function Threads(): nat { if BigTile? then 256 else if SmallTile? then 64 else 128 }

    function Tile(): Geom {
      match this
      case BigTile => BIG
      case SlimTile => SLIM
      case NarrowTile => NARROW
      case SmallTile => NARROW_SMALL
    }
  }

  /** Which kernels exist: the 16 x 16 tile only for NN, the 128 x 64 tile only in f32. */
  predicate Exists(op: Op, s: Shape, half: bool) {
    (s.SmallTile? ==> op.NN?) && (s.SlimTile? ==> !half)
  }

  /** How the threads of a kernel stage its operands. */
  function LeftLoader(op: Op, s: Shape, half: bool): Loader {
    if half then
      Loader(if s.BigTile? && !op.TN? then StripedByCol(256, 8, 1)
             else if s.BigTile? then StripedByRow(256, 8, 1)
             else if s.NarrowTile? then StripedByRow(128, 8, 1) else StripedByRow(64, 4, 1), Scalar)
    else if op.TN? then
      Loader(if s.BigTile? then WarpQuads(8, 2, 1, 32) else if s.SlimTile? then WarpQuads(4, 8, 1, 32)
             else WarpQuads(4, 2, 2, 16), Checked)
    else
      Loader(if s.BigTile? then CoalescedRows(8, 8, 2) else if s.SlimTile? then CoalescedRows(4, 32, 1)
             else if s.NarrowTile? then CoalescedRows(4, 8, 2) else CoalescedRows(2, 4, 2), Scalar)
  }

  function RightLoader(op: Op, s: Shape, half: bool): Loader {
    if half then
      Loader(if s.BigTile? && op.NT? then StripedByCol(256, 8, 1)
             else if s.BigTile? then StripedByRow(256, 8, 1)
             else if s.NarrowTile? then StripedByRow(128, 4, 1) else StripedByRow(64, 4, 1), Scalar)
    else if op.NT? then
      (if s.BigTile? then Loader(RowQuads(32, 8, 2), Scalar) else if s.SlimTile? then Loader(RowQuads(16, 8, 4), Scalar)
       else Loader(RedQuads(4, 32, 1), Checked))
    else
      Loader(if s.BigTile? then RowQuads(32, 8, 2) else if s.SlimTile? then RowQuads(16, 8, 4)
             else if s.NarrowTile? then RowQuads(8, 16, 1) else RowQuads(4, 16, 1), Checked)
  }

  /** The sizes of the compiled tile shapes, multiplied out. */
  lemma ShapeSizes(s: Shape)
    ensures var g := s.Tile();
      g.Valid() && g.bk == s.Bk() && g.Threads() == s.Threads() && g.BM() == s.Bm() && g.BN() == s.Bn()
  {
    LoaderSizes();
    match s
    case BigTile => assert BIG.WM() == 64 && BIG.WN() == 32;
    case SlimTile => assert SLIM.WM() == 64 && SLIM.WN() == 32;
    case NarrowTile => assert NARROW.WM() == 32 && NARROW.WN() == 16;
    case SmallTile => assert NARROW_SMALL.WM() == 8 && NARROW_SMALL.WN() == 16;
  }

  lemma Split32Sizes()
    ensures SPLIT32.Valid() && SPLIT32.bk == 32 && SPLIT32.Threads() == 128 && SPLIT32.BM() == 32 && SPLIT32.BN() == 64
  {
    LoaderSizes();
    assert SPLIT32.WM() == 16 && SPLIT32.WN() == 32;
  }

  /** The sizes the loaders multiply out to. */
  lemma LoaderSizes()
    ensures Times(2, 16) == 32 && Times(8, 2) == 16 && Times(8, 16) == 128 && Times(8, 32) == 256 && Times(4, 32) == 128
    ensures Times(1, 32) == 32 && Times(32, 1) == 32 && Times(2, 32) == 64 && Times(4, 2) == 8 && Times(2, 8) == 16
    ensures Times(32, 4) == 128 && Times(32, 8) == 256 && Times(16, 4) == 64 && Times(16, 8) == 128 && Times(4, 8) == 32
    ensures Times(2, 2) == 4 && Times(4, 4) == 16 && Times(8, 4) == 32 && Times(1, 16) == 16 && Times(2, 1) == 2
    ensures Times(1, 8) == 8 && Times(8, 1) == 8 && Times(4, 16) == 64 && Times(16, 2) == 32 && Times(2, 4) == 8
    ensures Times(2, 64) == 128 && Times(1, 64) == 64 && Times(64, 4) == 256 && Times(128, 4) == 512
      && Times(8, 8) == 64
  {
    TimesIs(8, 16); TimesIs(8, 32); TimesIs(4, 32); TimesIs(2, 32); TimesIs(32, 4); TimesIs(32, 8); TimesIs(16, 4);
    TimesIs(16, 8); TimesIs(4, 16); TimesIs(64, 4); TimesIs(128, 4); TimesIs(32, 1); TimesIs(2, 16); TimesIs(16, 2);
    TimesIs(8, 2); TimesIs(4, 2); TimesIs(2, 8); TimesIs(4, 8); TimesIs(2, 2); TimesIs(4, 4); TimesIs(8, 4);
    TimesIs(2, 64); TimesIs(8, 1); TimesIs(8, 8); TimesIs(1, 64); TimesIs(1, 32); TimesIs(1, 16); TimesIs(2, 1);
    TimesIs(1, 8); TimesIs(2, 4);
  }

  /** A striped loader with unit one covers a slab of the size its threads and iterations make. */
  lemma StripedFits(byRow: bool, t: nat, its: nat, bk: nat, width: nat)
    requires t > 0 && bk > 0 && width > 0 && its * t == bk * width
    ensures (if byRow then StripedByRow(t, its, 1) else StripedByCol(t, its, 1)).Fits(bk, width, t)
  {
    TimesIs(its, t);
    TimesIs(bk, width);
    TimesIs(width, bk);
    TimesIs(width, 1);
    TimesIs(bk, 1);
    FlatDigits(width, 1, 0);
    FlatDigits(bk, 1, 0);
  }

  /** The operands have the layout the operation promises. */
  predicate LaidOut(op: Op, half: bool, x: Operand, w: Operand) {
    x.half == w.half == half && x.redMajor == op.TN? && w.redMajor == !op.NT? && x.red == w.red > 0
  }

  /** An unsplit launch. Only dW accumulates; only f32 tiles of 64 columns and more use vector stores. */
  function Unsplit(op: Op, s: Shape, half: bool, x: Operand, w: Operand, seed: Seed, groupM: nat): Launch {
    Launch(s.Tile(), LeftLoader(op, s, half), RightLoader(op, s, half), x, w, seed,
           OutEpilogue(op, half), if half || s.NarrowTile? || s.SmallTile? then Scalar else Checked,
           s.BigTile?, groupM, x.red)
  }

  /** The striped loaders of the 16-bit kernels: every thread copies as many elements as fill the slab. */
  lemma HalfFits(s: Shape, byRow: bool, its: nat, width: nat)
    requires width > 0 && its * s.Threads() == s.Bk() * width
    ensures (if byRow then StripedByRow(s.Threads(), its, 1) else StripedByCol(s.Threads(), its, 1))
            .Fits(s.Bk(), width, s.Threads())
  {
    StripedFits(byRow, s.Threads(), its, s.Bk(), width);
  }

  lemma LeftFits(op: Op, s: Shape, half: bool)
    requires Exists(op, s, half)
    ensures LeftLoader(op, s, half).map_.Fits(s.Bk(), s.Bm(), s.Threads())
  {
    if half {
      HalfFits(s, !(s.BigTile? && !op.TN?), if s.SmallTile? then 4 else 8, s.Bm());
    } else {
      LoaderSizes();
    }
  }

  lemma RightFits(op: Op, s: Shape, half: bool)
    requires Exists(op, s, half)
    ensures RightLoader(op, s, half).map_.Fits(s.Bk(), s.Bn(), s.Threads())
  {
    if half {
      HalfFits(s, !(s.BigTile? && op.NT?), if s.BigTile? then 8 else 4, s.Bn());
    } else {
      LoaderSizes();
    }
  }

  lemma LeftOk(op: Op, s: Shape, half: bool, l: Launch, x: Operand)
    requires Exists(op, s, half) && x.half == half && x.redMajor == op.TN?
    requires l.g.bk == s.Bk() && l.g.Threads() == s.Threads()
    ensures l.LoaderFits(LeftLoader(op, s, half), x, s.Bm())
  {
    LeftFits(op, s, half);
  }

  lemma RightOk(op: Op, s: Shape, half: bool, l: Launch, w: Operand)
    requires Exists(op, s, half) && w.half == half && w.redMajor == !op.NT?
    requires l.g.bk == s.Bk() && l.g.Threads() == s.Threads()
    ensures l.LoaderFits(RightLoader(op, s, half), w, s.Bn())
  {
    RightFits(op, s, half);
  }

  lemma UnsplitValid(op: Op, s: Shape, half: bool, x: Operand, w: Operand, seed: Seed, groupM: nat)
    requires Exists(op, s, half) && LaidOut(op, half, x, w) && groupM > 0
    ensures Unsplit(op, s, half, x, w, seed, groupM).Valid()
  {
    var l := Unsplit(op, s, half, x, w, seed, groupM);
    ShapeSizes(s);
    LeftOk(op, s, half, l, x);
    RightOk(op, s, half, l, w);
    StoreOk(s);
    LaunchOk(l, s.Bm(), s.Bn());
  }

  /** Tiles of 64 columns and more give each thread groups of four columns. */
  lemma StoreOk(s: Shape)
    ensures s.BigTile? || s.SlimTile? ==> s.Tile().tn % 4 == 0
  {
  }

  /** A launch is valid when its geometry multiplies out to a tile that its loaders cover. */
  lemma LaunchOk(l: Launch, bm: nat, bn: nat)
    requires l.g.Valid() && l.g.BM() == bm && l.g.BN() == bn && l.groupM > 0 && l.chunk > 0 && l.x.red == l.w.red > 0
    requires Divides(l.g.bk, l.chunk) || l.x.red <= l.chunk
    requires l.LoaderFits(l.la, l.x, bm) && l.LoaderFits(l.lb, l.w, bn)
    requires l.store.Scalar? || (l.store.Checked? && l.g.tn % 4 == 0)
             || (l.store.Unchecked? && l.g.tn % 4 == 0 && l.w.outer % 4 == 0)
    ensures l.Valid()
  {
  }

  /** A launch that does not split has one chain per cell, over the whole axis. */
  lemma WholeCell(l: Launch, q: nat)
    requires l.Valid() && l.chunk == l.x.red && q < l.Size()
    ensures l.w.outer > 0 && l.Splits() == 1 && l.CellAt(q)
         == Accumulated(l.g.mma, SeedAt(l.seed, Rem(q, l.w.outer)), l.x, l.w, Quot(q, l.w.outer), Rem(q, l.w.outer), 0,
                        RoundUp(l.x.red, l.g.bk))
  {
    FewerChunks(l.x.red, 1, l.chunk);
    FactorPositive(l.x.outer, l.w.outer, q);
    FlatDigits(0, l.Size(), q);
    OnlySplit(l, Quot(q, l.w.outer), Rem(q, l.w.outer));
  }

  /** The one split of such a launch walks the whole axis. */
  lemma OnlySplit(l: Launch, m: nat, n: nat)
    requires l.Valid() && l.chunk == l.x.red && l.Splits() == 1
    ensures l.Cell(0, m, n)
         == Accumulated(l.g.mma, SeedAt(l.seed, n), l.x, l.w, m, n, 0, RoundUp(l.x.red, l.g.bk))
  {
    OnlyBounds(l);
    CutWhole(l.x, l.Hi(0));
    CutWhole(l.w, l.Hi(0));
  }

  lemma OnlyBounds(l: Launch)
    requires l.Valid() && l.chunk == l.x.red && l.Splits() == 1
    ensures l.Lo(0) == 0 && l.Hi(0) == l.x.red && Times(l.Slabs(0), l.g.bk) == RoundUp(l.x.red, l.g.bk)
  {
  }

  lemma CutWhole(x: Operand, hi: nat)
    requires hi == x.red
    ensures Cut(x, hi) == x
  {
  }

  /** How an epilogue's result relates to the scaled accumulator. */
  function Emit(e: Epilogue, before: Val, v: Val): Val {
    match e
    case Overwrite => v
    case OverwriteHalf => Down(v)
    case Accumulate => Add(before, v)
    case Raw => v
  }

  lemma ApplyIsEmit(e: Epilogue, before: Val, acc: Val)
    requires !e.Raw?
    ensures Apply(e, before, acc) == Emit(e, before, Mul(One, acc))
  {
  }

  function OutEpilogue(op: Op, half: bool): Epilogue {
    if op.TN? then Accumulate else if half then OverwriteHalf else Overwrite
  }

  /** What a kernel that follows plan `p` leaves in output index `q`, which held `before`. */
  function PlanCell(p: Plan, e: Epilogue, x: Operand, w: Operand, seed: Seed, q: nat, before: Val): Val
    requires x.red == w.red && p.Fits(x.red) && w.outer > 0 && (seed.Bias? ==> |seed.values| >= w.outer)
  {
    Emit(e, before, Value(p, x, w, seed, Quot(q, w.outer), Rem(q, w.outer)))
  }

  /** A launch over the whole reduction axis, and the plan it follows. */
  predicate IsWhole(l: Launch) {
    && l.Valid() && l.chunk == l.x.red && l.Size() > 0 && !l.epi.Raw? && (l.g.mma ==> l.g.bk == 64)
    && (l.seed.Bias? ==> |l.seed.values| >= l.w.outer)
  }

  function PlanOf(g: Geom): Plan { if g.mma then Tensor else Whole(g.bk) }

  lemma WholeResult(l: Launch, q: nat, before: Val)
    requires IsWhole(l) && q < l.Size()
    ensures l.w.outer > 0 && l.Splits() == 1
    ensures Apply(l.epi, before, l.CellAt(q)) == PlanCell(PlanOf(l.g), l.epi, l.x, l.w, l.seed, q, before)
  {
    WholeCell(l, q);
    ApplyIsEmit(l.epi, before, l.CellAt(q));
    PlanValue(l.g, l.x, l.w, l.seed, Quot(q, l.w.outer), Rem(q, l.w.outer));
  }

  lemma PlanValue(g: Geom, x: Operand, w: Operand, seed: Seed, m: nat, n: nat)
    requires x.red == w.red && g.bk > 0 && (g.mma ==> g.bk == 64) && (seed.Bias? ==> n < |seed.values|)
    ensures Value(PlanOf(g), x, w, seed, m, n)
         == Mul(One, Accumulated(g.mma, SeedAt(seed, n), x, w, m, n, 0, RoundUp(x.red, g.bk)))
  {
  }

  /** A whole-axis launch leaves the value of its plan in every cell. */
  method RunWhole(l: Launch, ctas: nat, c: array<Val>)
    requires IsWhole(l) && l.Size() <= c.Length && ctas == Times(l.TilesM(), l.TilesN())
    modifies c
    ensures l.w.outer > 0
    ensures forall q :: 0 <= q < c.Length ==>
      c[q] == if q < l.Size() then PlanCell(PlanOf(l.g), l.epi, l.x, l.w, l.seed, q, old(c[q])) else old(c[q])
  {
    ghost var c0 := c[..];
    WholeResult(l, 0, Zero);
    assert Times(1, ctas) == ctas;
    LaunchGrid(l, ctas, c);
    forall q | 0 <= q < l.Size()
      ensures Apply(l.epi, c0[q], l.CellAt(q)) == PlanCell(PlanOf(l.g), l.epi, l.x, l.w, l.seed, q, c0[q])
    {
      WholeResult(l, q, c0[q]);
    }
  }

  lemma UnsplitWhole(op: Op, s: Shape, half: bool, x: Operand, w: Operand, seed: Seed, groupM: nat)
    requires Exists(op, s, half) && LaidOut(op, half, x, w) && groupM > 0 && x.outer > 0 && w.outer > 0
    requires seed.Bias? ==> |seed.values| >= w.outer
    ensures var l := Unsplit(op, s, half, x, w, seed, groupM);
      && IsWhole(l) && PlanOf(l.g) == Whole(s.Tile().bk) && l.epi == OutEpilogue(op, half)
      && l.Size() == Times(x.outer, w.outer) && l.x == x && l.w == w && l.seed == seed
      && l.TilesM() == DivCeil(x.outer, s.Bm()) && l.TilesN() == DivCeil(w.outer, s.Bn())
  {
    ShapeSizes(s);
    TimesPositive(x.outer, w.outer);
    UnsplitValid(op, s, half, x, w, seed, groupM);
  }

  /** An unsplit kernel refines its plan: one chain per cell, whatever the tile shape, the layout, the
      precision of the operands, the group size and the order of the CTAs. */
  method RunUnsplit(op: Op, s: Shape, half: bool, x: Operand, w: Operand, seed: Seed, groupM: nat, ctas: nat,
                    c: array<Val>)
    requires ctas == Times(DivCeil(x.outer, s.Bm()), DivCeil(w.outer, s.Bn()))
    requires Exists(op, s, half) && LaidOut(op, half, x, w) && groupM > 0
    requires x.outer > 0 && w.outer > 0 && Times(x.outer, w.outer) <= c.Length
    requires seed.Bias? ==> |seed.values| >= w.outer
    modifies c
    ensures forall q :: 0 <= q < c.Length ==>
      c[q] == if q < Times(x.outer, w.outer)
              then PlanCell(Whole(s.Tile().bk), OutEpilogue(op, half), x, w, seed, q, old(c[q])) else old(c[q])
  {
    UnsplitWhole(op, s, half, x, w, seed, groupM);
    RunWhole(Unsplit(op, s, half, x, w, seed, groupM), ctas, c);
  }

  /** Two kernels of the same slab depth build the same term for every output cell, although their tiles, warp
      layouts, staging, thread counts and group sizes differ. */
  lemma TileShapeNeverShows(op: Op, s: Shape, s': Shape, half: bool, x: Operand, w: Operand, seed: Seed,
                            groupM: nat, groupM': nat, q: nat)
    requires Exists(op, s, half) && Exists(op, s', half) && s.Tile().bk == s'.Tile().bk
    requires LaidOut(op, half, x, w) && groupM > 0 && groupM' > 0 && q < Times(x.outer, w.outer)
    ensures Unsplit(op, s, half, x, w, seed, groupM).Valid() && Unsplit(op, s', half, x, w, seed, groupM').Valid()
    ensures Unsplit(op, s, half, x, w, seed, groupM).Splits() == 1
      == Unsplit(op, s', half, x, w, seed, groupM').Splits()
    ensures Unsplit(op, s, half, x, w, seed, groupM).CellAt(q) == Unsplit(op, s', half, x, w, seed, groupM').CellAt(q)
  {
    UnsplitCell(op, s, half, x, w, seed, groupM, q);
    UnsplitCell(op, s', half, x, w, seed, groupM', q);
  }

  lemma UnsplitCell(op: Op, s: Shape, half: bool, x: Operand, w: Operand, seed: Seed, groupM: nat, q: nat)
    requires Exists(op, s, half) && LaidOut(op, half, x, w) && groupM > 0 && q < Times(x.outer, w.outer)
    ensures var l := Unsplit(op, s, half, x, w, seed, groupM);
      && l.Valid() && l.Splits() == 1 && w.outer > 0
      && l.CellAt(q) == Chain(SeedAt(seed, Rem(q, w.outer)), x, w, Quot(q, w.outer), Rem(q, w.outer), 0,
                              RoundUp(x.red, s.Tile().bk))
  {
    UnsplitValid(op, s, half, x, w, seed, groupM);
    WholeCell(Unsplit(op, s, half, x, w, seed, groupM), q);
  }

  // ---- partial kernels ----

  datatype Partial = SplitM | SplitSlim | Split32 {
    function Bk(): nat { if SplitM? then 16 else 32 }
    function Threads(): nat { if SplitM? then 256 else 128 }
    function Bm(): nat { if Split32? then 32 else 128 }
    function Bn(): nat { if SplitM? then 128 else 64 }
  }

  /** A split launch over the first `main` steps of the reduction; each chunk's matrix goes to its own slot. */
  function SplitLaunch(p: Partial, x: Operand, w: Operand, chunk: nat, groupM: nat): Launch {
    match p
    case SplitM => Launch(BIG, Loader(WarpQuads(8, 2, 1, 32), Checked), Loader(RowQuads(32, 8, 2), Checked), x, w,
                          NoBias, Raw, Checked, false, groupM, chunk)
    case SplitSlim => Launch(SLIM, Loader(CoalescedRows(4, 32, 1), Scalar), Loader(RowQuads(16, 8, 4), Checked), x, w,
                             NoBias, Raw, Checked, false, groupM, chunk)
    case Split32 => Launch(SPLIT32, Loader(RedQuads(8, 16, 2), Unguarded), Loader(RowQuads(16, 8, 4), Unchecked), x, w,
                           NoBias, Raw, Unchecked, false, groupM, chunk)
  }

  /** What a partial kernel needs. The split-K kernel makes no checks of its own: its column count must be a
      multiple of four and the axis it walks a multiple of 32. */
  predicate SplitReady(p: Partial, x: Operand, w: Operand, chunk: nat) {
    && LaidOut(if p.SplitM? then TN else NN, false, x, w) && chunk > 0 && Divides(p.Bk(), chunk)
    && (p.Split32? ==> chunk == 32 && Divides(32, x.red) && w.outer % 4 == 0 && w.ld == w.outer)
  }

  /** The tile sizes of the partial kernels. */
  lemma PartialSizes(p: Partial, x: Operand, w: Operand, chunk: nat, groupM: nat)
    ensures var g := SplitLaunch(p, x, w, chunk, groupM).g;
      && g.Valid() && g.bk == p.Bk() && g.Threads() == p.Threads() && g.BM() == p.Bm() && g.BN() == p.Bn()
  {
    ShapeSizes(BigTile);
    ShapeSizes(SlimTile);
    Split32Sizes();
  }

  /** The loaders of the partial kernels cover their slabs exactly. */
  lemma SplitLoadersFit(p: Partial, x: Operand, w: Operand, chunk: nat, groupM: nat)
    ensures var l := SplitLaunch(p, x, w, chunk, groupM);
      l.la.map_.Fits(p.Bk(), p.Bm(), p.Threads()) && l.lb.map_.Fits(p.Bk(), p.Bn(), p.Threads())
  {
    LoaderSizes();
  }

  lemma SplitValid(p: Partial, x: Operand, w: Operand, chunk: nat, groupM: nat)
    requires SplitReady(p, x, w, chunk) && groupM > 0
    ensures SplitLaunch(p, x, w, chunk, groupM).Valid()
  {
    var l := SplitLaunch(p, x, w, chunk, groupM);
    PartialSizes(p, x, w, chunk, groupM);
    SplitLoadersFit(p, x, w, chunk, groupM);
    LeftPartialOk(p, x, w, chunk, l);
    RightPartialOk(p, x, w, chunk, l);
    LaunchOk(l, p.Bm(), p.Bn());
  }

  lemma LeftPartialOk(p: Partial, x: Operand, w: Operand, chunk: nat, l: Launch)
    requires SplitReady(p, x, w, chunk) && l == SplitLaunch(p, x, w, chunk, l.groupM)
    requires l.g.bk == p.Bk() && l.la.map_.Fits(p.Bk(), p.Bm(), l.g.Threads())
    ensures l.LoaderFits(l.la, x, p.Bm())
  {
  }

  lemma RightPartialOk(p: Partial, x: Operand, w: Operand, chunk: nat, l: Launch)
    requires SplitReady(p, x, w, chunk) && l == SplitLaunch(p, x, w, chunk, l.groupM)
    requires l.g.bk == p.Bk() && l.lb.map_.Fits(p.Bk(), p.Bn(), l.g.Threads())
    ensures l.LoaderFits(l.lb, w, p.Bn())
  {
  }

  /** Slot `f` of the scratch holds the chunk-f partial of every cell. */
  ghost predicate HoldsPieces(s: seq<Val>, x: Operand, w: Operand, chunk: nat, bk: nat)
    requires bk > 0 && chunk > 0 && x.red == w.red
  {
    && |s| >= Times(DivCeil(x.red, chunk), Times(x.outer, w.outer))
    && forall f, m, n :: 0 <= f < DivCeil(x.red, chunk) && 0 <= m < x.outer && 0 <= n < w.outer ==>
         SlotIndex(x, w, f, m, n) < |s|
         && s[SlotIndex(x, w, f, m, n)] == Piece(x, w, m, n, chunk, x.red, bk, f)
  }

  function SlotIndex(x: Operand, w: Operand, f: nat, m: nat, n: nat): nat {
    Flat(f, Times(x.outer, w.outer), Flat(m, w.outer, n))
  }

  lemma SlotCell(l: Launch, f: nat, m: nat, n: nat)
    requires l.Valid() && !l.g.mma && l.seed == NoBias && f < l.Splits() && m < l.x.outer && n < l.w.outer
    ensures var q := SlotIndex(l.x, l.w, f, m, n);
      q < Times(l.Splits(), l.Size()) && l.Size() > 0
        && l.CellAt(q) == Piece(l.x, l.w, m, n, l.chunk, l.x.red, l.g.bk, f)
  {
    FlatInBounds(m, l.x.outer, l.w.outer, n);
    FlatDigits(m, l.w.outer, n);
    FlatInBounds(f, l.Splits(), l.Size(), Flat(m, l.w.outer, n));
    FlatDigits(f, l.Size(), Flat(m, l.w.outer, n));
    CellIsPiece(l, f, m, n);
  }

  lemma CellIsPiece(l: Launch, f: nat, m: nat, n: nat)
    requires l.Valid() && !l.g.mma && l.seed == NoBias && f < l.Splits()
    ensures l.Cell(f, m, n) == Piece(l.x, l.w, m, n, l.chunk, l.x.red, l.g.bk, f)
  {
    l.SplitNonEmpty(f);
  }

  /** One CTA per tile and chunk. */
  function SplitCtas(p: Partial, x: Operand, w: Operand, chunk: nat): nat
    requires chunk > 0
  {
    Times(DivCeil(x.red, chunk), Times(DivCeil(x.outer, p.Bm()), DivCeil(w.outer, p.Bn())))
  }

  lemma SplitTiles(p: Partial, x: Operand, w: Operand, chunk: nat, groupM: nat)
    requires SplitLaunch(p, x, w, chunk, groupM).Valid()
    ensures var l := SplitLaunch(p, x, w, chunk, groupM);
      SplitCtas(p, x, w, l.chunk) == Times(l.Splits(), Times(l.TilesM(), l.TilesN())) && l.chunk == chunk
  {
    PartialSizes(p, x, w, chunk, groupM);
  }

  /** A partial kernel fills every slot of its scratch and touches nothing past the last one. */
  method RunSplit(p: Partial, x: Operand, w: Operand, chunk: nat, groupM: nat, ctas: nat, scratch: array<Val>)
    requires SplitReady(p, x, w, chunk) && groupM > 0 && x.outer > 0 && w.outer > 0
    requires ctas == SplitCtas(p, x, w, chunk)
    requires Times(DivCeil(x.red, chunk), Times(x.outer, w.outer)) <= scratch.Length
    modifies scratch
    ensures HoldsPieces(scratch[..], x, w, chunk, p.Bk())
    ensures forall q :: Times(DivCeil(x.red, chunk), Times(x.outer, w.outer)) <= q < scratch.Length ==>
      scratch[q] == old(scratch[q])
  {
    var l := SplitLaunch(p, x, w, chunk, groupM);
    SplitValid(p, x, w, chunk, groupM);
    SplitTiles(p, x, w, chunk, groupM);
    TimesPositive(x.outer, w.outer);
    LaunchGrid(l, ctas, scratch);
    SlotsHold(l, scratch[..]);
  }

  /** The cells of a split launch are the pieces of its problem. */
  lemma SlotsHold(l: Launch, s: seq<Val>)
    requires l.Valid() && !l.g.mma && l.seed == NoBias && Times(l.Splits(), l.Size()) <= |s|
    requires l.Size() > 0 && forall q :: 0 <= q < Times(l.Splits(), l.Size()) ==> s[q] == l.CellAt(q)
    ensures HoldsPieces(s, l.x, l.w, l.chunk, l.g.bk)
  {
    forall f, m, n | 0 <= f < DivCeil(l.x.red, l.chunk) && 0 <= m < l.x.outer && 0 <= n < l.w.outer
      ensures SlotIndex(l.x, l.w, f, m, n) < |s|
      ensures s[SlotIndex(l.x, l.w, f, m, n)] == Piece(l.x, l.w, m, n, l.chunk, l.x.red, l.g.bk, f)
    {
      SlotCell(l, f, m, n);
    }
  }

  // ---- the host's grid ----

  /** The grid the host computes, in 32-bit arithmetic, for `bm` x `bn` tiles. */
  function HostGrid(rows: nat, cols: nat, bm: nat, bn: nat): nat
    requires bm > 0 && bn > 0
  {
    AsU32(Times(DivCeil(AsU32(rows), bm), DivCeil(AsU32(cols), bn)))
  }

  /** For matrices under 2^31 elements nothing wraps: the host starts one CTA per tile. */
  lemma HostGridIsTiles(rows: nat, cols: nat, bm: nat, bn: nat)
    requires bm > 0 && bn > 0 && rows > 0 && cols > 0 && Times(rows, cols) < I32_LIMIT
    ensures HostGrid(rows, cols, bm, bn) == Times(DivCeil(rows, bm), DivCeil(cols, bn))
  {
    TimesPositive(rows, cols);
    DivCeilBelow(rows, bm);
    DivCeilBelow(cols, bn);
    TimesMono(DivCeil(rows, bm), DivCeil(cols, bn), rows, cols);
  }
}
