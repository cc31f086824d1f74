/** The dispatchers of the f32 and typed tiers, as the sequences of launches each route makes on the device's
    two shared scratch buffers. */
module Dispatch {
  import opened Numerics
  import opened Terms
  import opened Operands
  import opened Plans
  import opened Kernels
  import opened SmallKernels
  import opened Routing

  datatype Outcome = Done | Uncovered(m: nat, k: nat, n: nat) | DtypeMismatch | AllocFailed

  // ---- what each operation promises for output index q ----

  function ForwardCell(x: Operand, w: Operand, bias: Seed, m: nat, k: nat, n: nat, q: nat): Val
    requires Sane(m, k, n) && !ForwardRoute(m, k, n).NoRoute? && x.red == w.red == k
    requires bias.Bias? ==> |bias.values| >= n
  {
    ForwardCoverage(m, k, n);
    PlansFit(m, k, n, 0);
    Value(ForwardPlan(ForwardRoute(m, k, n), k), x, w, bias, Quot(q, n), Rem(q, n))
  }

  function DwCell(x: Operand, dy: Operand, m: nat, k: nat, n: nat, q: nat): Val
    requires Sane(m, k, n) && !DwRoute(m, k, n).NoRoute? && x.red == dy.red == m
  {
    PlansFit(m, k, n, 0);
    Value(DwPlan(DwRoute(m, k, n)), x, dy, NoBias, Quot(q, n), Rem(q, n))
  }

  function DxCell(dy: Operand, w: Operand, m: nat, k: nat, n: nat, q: nat): Val
    requires Sane(m, k, n) && dy.red == w.red == n
  {
    DxCoverage(m, k, n);
    PlansFit(m, k, n, Rem(q, k));
    Value(DxPlan(DxRoute(m, k, n), k, n, Rem(q, k)), dy, w, NoBias, Quot(q, k), Rem(q, k))
  }

  /** Cut operands are laid out like the originals, and their partial sizes are what the gates bound. */
  lemma SplitFits(p: Partial, x: Operand, w: Operand, chunk: nat, main: nat)
    requires LaidOut(NN, false, x, w) && 0 < main <= x.red && w.ld == w.outer
    requires p.Split32? || p.SplitSlim?
    requires p.Split32? ==> chunk == 32 && main % 32 == 0 && w.outer % 4 == 0
    requires p.SplitSlim? ==> chunk == 64
    ensures SplitReady(p, Cut(x, main), Cut(w, main), chunk)
    ensures p.Split32? ==> DivCeil(main, chunk) == main / 32
  {
    if p.Split32? { RoundUpExact(main, 32); }
  }

  /** How a split route of the forward cascade cuts its reduction. */
  function ForwardMain(route: Route, k: nat): nat { if route.SplitTailRoute? then k - k % 32 else k }
  function SplitKernel(route: Route): Partial { if route.SplitSlimRoute? then SplitSlim else Split32 }
  function SplitChunk(route: Route): nat { if route.SplitSlimRoute? then 64 else 32 }

  /** The forward gates bound what the split kernels write and give them the alignment they rely on. */
  lemma ForwardGates(m: nat, k: nat, n: nat)
    requires Sane(m, k, n)
    ensures var route := ForwardRoute(m, k, n); var main := ForwardMain(route, k);
      route.SplitTailRoute? || route.SplitMainRoute? || route.SplitSlimRoute? ==>
        && 0 < main <= k && PartialSize(DivCeil(main, SplitChunk(route)), m, n) <= SPLITK_SCRATCH_CAP
        && (SplitKernel(route).Split32? ==> main % 32 == 0 && n % 4 == 0)
        && ForwardPlan(route, k) == Split(SplitChunk(route), main, 32)
  {
    var route := ForwardRoute(m, k, n);
    SaneDims(m, k, n);
    if route.SplitTailRoute? || route.SplitMainRoute? { RoundUpExact(ForwardMain(route, k), 32); }
  }

  /** Columns of W the transposition route handles, and how it cuts its reduction. */
  function DxCols(route: Route, k: nat): nat { if route.SplitTailRoute? then k - k % 32 else k }
  function DxMain(route: Route, n: nat): nat { if route.SplitMainRoute? then n - n % 32 else n }

  predicate IsDxSplit(route: Route) { route.SplitTailRoute? || route.SplitMainRoute? || route.SplitSlimRoute? }

  /** What a split route of dX hands to its kernels: bounded scratch, and the alignment they rely on. */
  predicate DxReady(route: Route, m: nat, k: nat, n: nat) {
    var cols, main := DxCols(route, k), DxMain(route, n);
    && 0 < cols <= k && 0 < main <= n && Times(cols, n) <= TRANSPOSE_CAP
    && PartialSize(DivCeil(main, SplitChunk(route)), m, cols) <= SPLITK_SCRATCH_CAP
    && (SplitKernel(route).Split32? ==> main % 32 == 0 && cols % 4 == 0)
  }

  lemma DxTailReady(m: nat, k: nat, n: nat)
    requires DxSplitTail(m, k, n)
    ensures DxReady(SplitTailRoute, m, k, n)
  {
    DropTail(k);
    RoundUpExact(n, 32);
  }

  lemma DxMainReady(m: nat, k: nat, n: nat)
    requires DxSplitMain(m, k, n)
    ensures DxReady(SplitMainRoute, m, k, n)
  {
    DropTail(n);
    RoundUpExact(n - n % 32, 32);
  }

  lemma DxSlimReady(m: nat, k: nat, n: nat)
    requires DxSplitSlim(m, k, n) && n < U32_LIMIT
    ensures DxReady(SplitSlimRoute, m, k, n)
  {
  }

  /** The dX gates give every split route what its kernels need. */
  lemma DxGates(m: nat, k: nat, n: nat)
    requires Sane(m, k, n) && IsDxSplit(DxRoute(m, k, n))
    ensures DxReady(DxRoute(m, k, n), m, k, n)
  {
    SaneDims(m, k, n);
    match DxRoute(m, k, n)
    case SplitTailRoute => DxTailReady(m, k, n);
    case SplitMainRoute => DxMainReady(m, k, n);
    case SplitSlimRoute => DxSlimReady(m, k, n);
  }

  lemma ColsBound(cols: nat, k: nat, n: nat)
    requires cols <= k
    ensures Times(cols, n) <= Times(k, n) && Times(n, cols) == Times(cols, n)
  {
    TimesLess(cols, k, n);
    TimesComm(n, cols);
  }

  lemma DxPlanOf(m: nat, k: nat, n: nat, col: nat)
    requires Sane(m, k, n) && IsDxSplit(DxRoute(m, k, n)) && col < k
    ensures var route := DxRoute(m, k, n);
      DxPlan(route, k, n, col) == if col < DxCols(route, k) then Split(SplitChunk(route), DxMain(route, n), 32)
                                                            else Column
  {
  }

  /** `t` holds the transpose of the first `cols` rows of W. */
  ghost predicate IsTransposed(t: seq<Val>, w: seq<Val>, cols: nat, n: nat) {
    && cols > 0 && Times(cols, n) <= |w| && Times(n, cols) <= |t|
    && forall q :: 0 <= q < Times(n, cols) ==> t[q] == Transposed(w, cols, n, q)
  }

  /** A column computed through the transpose has the value of the same plan on W itself. */
  lemma ThroughTranspose(p: Plan, dy: Operand, t: seq<Val>, w: seq<Val>, cols: nat, k: nat, n: nat, row: nat, col: nat)
    requires IsTransposed(t, w, cols, n) && cols <= k && col < cols && Holds(w, k, n) && dy.red == n && p.Fits(n)
    ensures Value(p, dy, ByCols(t, n, cols, false), NoBias, row, col)
      == Value(p, dy, ByRows(w, k, n, false), NoBias, row, col)
  {
    var a, b := ByCols(t, n, cols, false), ByRows(w, k, n, false);
    forall r | 0 <= r < n ensures At(a, col, r) == At(b, col, r) {
      TransposeAt(w, t, cols, n, col, r);
    }
    ValueCong(p, dy, a, NoBias, row, dy, b, row, col, col);
  }

  lemma ThroughTransposeAll(p: Plan, dy: Operand, t: seq<Val>, w: seq<Val>, m: nat, cols: nat, k: nat, n: nat)
    requires IsTransposed(t, w, cols, n) && cols <= k && Holds(w, k, n) && dy.red == n && p.Fits(n)
    ensures forall row: nat, col: nat | col < cols ::
      Value(p, dy, ByCols(t, n, cols, false), NoBias, row, col)
        == Value(p, dy, ByRows(w, k, n, false), NoBias, row, col)
  {
    forall row: nat, col: nat | col < cols
      ensures Value(p, dy, ByCols(t, n, cols, false), NoBias, row, col)
        == Value(p, dy, ByRows(w, k, n, false), NoBias, row, col)
    {
      ThroughTranspose(p, dy, t, w, cols, k, n, row, col);
    }
  }

  /** A single-column matrix is indexed by its rows. */
  lemma OneColumn(rows: nat)
    ensures Times(rows, 1) == rows
    ensures forall q: nat :: Quot(q, 1) == q && Rem(q, 1) == 0
  {
    TimesIs(rows, 1);
  }

  /** With a dense output every index of the matrix is covered. */
  lemma DenseCovered(q: nat, rows: nat, cols: nat)
    requires cols > 0
    ensures Covered(q, rows, cols, cols) <==> q < Times(rows, cols)
  {
  }

  /** The host's grid of a split-K launch: chunks of 32 are folded into one 32-bit grid dimension, chunks of 64 are
      a dimension of their own. */
  function HostSplitCtas(p: Partial, rows: nat, cols: nat, main: nat): nat {
    if p.Split32? then AsU32(Times(main / 32, HostGrid(rows, cols, 32, 64)))
    else Times(DivCeil(AsU32(main), 64), HostGrid(rows, cols, 128, 64))
  }

  /** The gates keep that product from wrapping: one CTA per tile and chunk. */
  lemma HostSplitCtasAre(p: Partial, x: Operand, w: Operand, chunk: nat, main: nat)
    requires !p.SplitM? && 0 < main <= x.red && main <= w.red && main < U32_LIMIT && x.outer > 0 && w.outer > 0
    requires p.Split32? ==> chunk == 32 && main % 32 == 0
    requires p.SplitSlim? ==> chunk == 64
    requires PartialSize(DivCeil(main, chunk), x.outer, w.outer) <= SPLITK_SCRATCH_CAP
    ensures HostSplitCtas(p, x.outer, w.outer, main) == SplitCtas(p, Cut(x, main), Cut(w, main), chunk)
  {
    var chunks, size := DivCeil(main, chunk), Times(x.outer, w.outer);
    TimesPositive(x.outer, w.outer);
    TimesPositive(chunks, size);
    HostGridIsTiles(x.outer, w.outer, p.Bm(), p.Bn());
    if p.Split32? {
      RoundUpExact(main, 32);
      DivCeilBelow(x.outer, 32);
      DivCeilBelow(w.outer, 64);
      TimesMono(DivCeil(x.outer, 32), DivCeil(w.outer, 64), x.outer, w.outer);
      TimesMono(chunks, HostGrid(x.outer, w.outer, 32, 64), chunks, size);
    }
  }

  /** For matrices under 2^31 elements the host's grid is one CTA per tile, for every unsplit tile shape. */
  lemma HostGrids(rows: nat, cols: nat)
    requires rows > 0 && cols > 0 && Times(rows, cols) < I32_LIMIT
    ensures forall s: Shape ::
      HostGrid(rows, cols, s.Bm(), s.Bn()) == Times(DivCeil(rows, s.Bm()), DivCeil(cols, s.Bn()))
  {
    forall s: Shape
      ensures HostGrid(rows, cols, s.Bm(), s.Bn()) == Times(DivCeil(rows, s.Bm()), DivCeil(cols, s.Bn()))
    {
      HostGridIsTiles(rows, cols, s.Bm(), s.Bn());
    }
  }

  /** The device side of an engine: the swizzle group size its kernels were compiled with and the two scratch
      buffers every split route reuses. */
  class Device {
    const groupM: nat
    const splitk: array<Val>
    const transposed: array<Val>

    ghost predicate Valid() {
      groupM > 0 && splitk.Length == SPLITK_SCRATCH_CAP && transposed.Length == TRANSPOSE_CAP && splitk != transposed
    }

    constructor (groupM: nat)
      requires groupM > 0
      ensures Valid() && fresh(splitk) && fresh(transposed)
    {
      this.groupM := groupM;
      splitk := new Val[SPLITK_SCRATCH_CAP](_ => Zero);
      transposed := new Val[TRANSPOSE_CAP](_ => Zero);
    }

    /** Partial products into the split scratch, then the reducer. What the scratch held before is irrelevant. */
    method SplitThenReduce(p: Partial, x: Operand, w: Operand, bias: Seed, chunk: nat, main: nat, stride: nat,
                           c: array<Val>)
      requires Valid() && LaidOut(NN, false, x, w) && 0 < main <= x.red && w.ld == w.outer
      requires p.Split32? || p.SplitSlim?
      requires p.Split32? ==> chunk == 32 && main % 32 == 0 && w.outer % 4 == 0
      requires p.SplitSlim? ==> chunk == 64
      requires PartialSize(DivCeil(main, chunk), x.outer, w.outer) <= SPLITK_SCRATCH_CAP && x.red < U32_LIMIT
      requires bias.Bias? ==> |bias.values| >= w.outer
      requires x.outer > 0 && 0 < w.outer <= stride && Times(x.outer, stride) <= c.Length && c != splitk
      modifies splitk, c
      ensures forall q :: 0 <= q < c.Length ==>
        c[q] == if Covered(q, x.outer, w.outer, stride)
                then Value(Split(chunk, main, 32), x, w, bias, Quot(q, stride), Rem(q, stride)) else old(c[q])
    {
      SplitFits(p, x, w, chunk, main);
      var ctas := HostSplitCtas(p, x.outer, w.outer, main);
      HostSplitCtasAre(p, x, w, chunk, main);
      RunSplit(p, Cut(x, main), Cut(w, main), chunk, groupM, ctas, splitk);
      SplitkReduce(x, w, bias, chunk, main, 32, splitk, stride, c);
    }

    /** The split routes of the forward cascade. */
    method ForwardSplit(route: Route, y: array<Val>, x: Operand, w: Operand, bias: Seed, m: nat, k: nat, n: nat)
      requires Valid() && Sane(m, k, n) && route == ForwardRoute(m, k, n)
      requires route.SplitTailRoute? || route.SplitMainRoute? || route.SplitSlimRoute?
      requires LaidOut(NN, false, x, w) && x.outer == m && x.red == k && w.outer == w.ld == n
      requires bias.Bias? ==> |bias.values| >= n
      requires Times(m, n) <= y.Length && y != splitk
      modifies splitk, y
      ensures forall q :: 0 <= q < y.Length ==>
        y[q] == if q < Times(m, n) then ForwardCell(x, w, bias, m, k, n, q) else old(y[q])
    {
      ForwardGates(m, k, n);
      SplitThenReduce(SplitKernel(route), x, w, bias, SplitChunk(route), ForwardMain(route, k), n, y);
      forall q: nat ensures Covered(q, m, n, n) <==> q < Times(m, n) { DenseCovered(q, m, n); }
    }

    /** The routes of the forward cascade that launch an unsplit tiled kernel. */
    method ForwardWhole(s: Shape, ctas: nat, y: array<Val>, x: Operand, w: Operand, bias: Seed, m: nat, k: nat, n: nat)
      requires Valid() && Sane(m, k, n) && !ForwardRoute(m, k, n).NoRoute? && !ForwardRoute(m, k, n).SplitMRoute?
      requires ForwardPlan(ForwardRoute(m, k, n), k) == Whole(s.Bk()) && ctas == HostGrid(m, n, s.Bm(), s.Bn())
      requires LaidOut(NN, false, x, w) && x.outer == m && x.red == k && w.outer == n
      requires (bias.Bias? ==> |bias.values| >= n) && Times(m, n) <= y.Length
      modifies y
      ensures forall q :: 0 <= q < y.Length ==>
        y[q] == if q < Times(m, n) then ForwardCell(x, w, bias, m, k, n, q) else old(y[q])
    {
      HostGridIsTiles(m, n, s.Bm(), s.Bn());
      RunUnsplit(NN, s, false, x, w, bias, groupM, ctas, y);
    }

    /** `Y = X @ W (+ bias)`, f32. */
    method Forward(y: array<Val>, x: seq<Val>, w: seq<Val>, bias: Seed, m: nat, k: nat, n: nat) returns (r: Outcome)
      requires Valid() && Sane(m, k, n) && Holds(x, m, k) && Holds(w, k, n) && (bias.Bias? ==> |bias.values| >= n)
      requires Times(m, n) <= y.Length && y != splitk
      modifies splitk, y
      ensures r == if ForwardRoute(m, k, n).NoRoute? then Uncovered(m, k, n) else Done
      ensures forall q :: 0 <= q < y.Length ==>
        y[q] == if r.Done? && q < Times(m, n)
                then ForwardCell(ByRows(x, m, k, false), ByCols(w, k, n, false), bias, m, k, n, q) else old(y[q])
    {
      var a, b := ByRows(x, m, k, false), ByCols(w, k, n, false);
      var route := ForwardRoute(m, k, n);
      ForwardCoverage(m, k, n);
      r := Done;
      OneColumn(m);
      match route {
        case UltraThinRoute => UltraThin(a, b, bias, false, y);
        case SmallRoute => ForwardWhole(SmallTile, HostGrid(m, n, 16, 16), y, a, b, bias, m, k, n);
        case NarrowRoute => ForwardWhole(NarrowTile, HostGrid(m, n, 64, 32), y, a, b, bias, m, k, n);
        case GemvRoute => Gemv(NN, a, b, bias, false, y);
        case SplitTailRoute => ForwardSplit(route, y, a, b, bias, m, k, n);
        case SplitMainRoute => ForwardSplit(route, y, a, b, bias, m, k, n);
        case SplitSlimRoute => ForwardSplit(route, y, a, b, bias, m, k, n);
        case GapRoute => ForwardWhole(NarrowTile, HostGrid(m, n, 64, 32), y, a, b, bias, m, k, n);
        case SlimRoute => ForwardWhole(SlimTile, HostGrid(m, n, 128, 64), y, a, b, bias, m, k, n);
        case BigRoute => ForwardWhole(BigTile, HostGrid(m, n, 128, 128), y, a, b, bias, m, k, n);
        case _ => r := Uncovered(m, k, n);
      }
    }

    /** The split-M route of the dW cascade. */
    method DwSplit(dw: array<Val>, x: Operand, dy: Operand, m: nat, k: nat, n: nat)
      requires Valid() && Sane(m, k, n) && DwRoute(m, k, n).SplitMRoute?
      requires LaidOut(TN, false, x, dy) && x.outer == k && x.red == m && dy.outer == n
      requires Times(k, n) <= dw.Length && dw != splitk
      modifies splitk, dw
      ensures forall q :: 0 <= q < dw.Length ==>
        dw[q] == if q < Times(k, n) then Add(old(dw[q]), DwCell(x, dy, m, k, n, q)) else old(dw[q])
    {
      var chunk := DwRoute(m, k, n).chunk;
      PartitionIsSound(m, k, n);
      HostGridIsTiles(k, n, 128, 128);
      RunSplit(SplitM, x, dy, chunk, groupM, Times(DwRoute(m, k, n).f, HostGrid(k, n, 128, 128)), splitk);
      SplitmReduce(x, dy, chunk, 16, splitk, dw);
    }

    /** The routes of the dW cascade that launch an unsplit tiled kernel. */
    method DwWhole(s: Shape, ctas: nat, dw: array<Val>, x: Operand, dy: Operand, m: nat, k: nat, n: nat)
      requires Valid() && Sane(m, k, n) && !DwRoute(m, k, n).NoRoute? && !s.SmallTile?
      requires DwPlan(DwRoute(m, k, n)) == Whole(s.Bk()) && ctas == HostGrid(k, n, s.Bm(), s.Bn())
      requires LaidOut(TN, false, x, dy) && x.outer == k && x.red == m && dy.outer == n && Times(k, n) <= dw.Length
      modifies dw
      ensures forall q :: 0 <= q < dw.Length ==>
        dw[q] == if q < Times(k, n) then Add(old(dw[q]), DwCell(x, dy, m, k, n, q)) else old(dw[q])
    {
      HostGridIsTiles(k, n, s.Bm(), s.Bn());
      RunUnsplit(TN, s, false, x, dy, NoBias, groupM, ctas, dw);
    }

    /** `dW += X^T @ dY`, f32. */
    method BackwardDw(dw: array<Val>, dy: seq<Val>, x: seq<Val>, m: nat, k: nat, n: nat) returns (r: Outcome)
      requires Valid() && Sane(m, k, n) && Holds(dy, m, n) && Holds(x, m, k)
      requires Times(k, n) <= dw.Length && dw != splitk
      modifies splitk, dw
      ensures r == if DwRoute(m, k, n).NoRoute? then Uncovered(m, k, n) else Done
      ensures forall q :: 0 <= q < dw.Length ==>
        dw[q] == if r.Done? && q < Times(k, n)
                 then Add(old(dw[q]), DwCell(ByCols(x, m, k, false), ByCols(dy, m, n, false), m, k, n, q))
                 else old(dw[q])
    {
      var a, b := ByCols(x, m, k, false), ByCols(dy, m, n, false);
      r := Done;
      OneColumn(k);
      match DwRoute(m, k, n) {
        case GemvRoute => Gemv(TN, a, b, NoBias, false, dw);
        case NarrowRoute => DwWhole(NarrowTile, HostGrid(k, n, 64, 32), dw, a, b, m, k, n);
        case SplitMRoute(_, _) => DwSplit(dw, a, b, m, k, n);
        case SlimRoute => DwWhole(SlimTile, HostGrid(k, n, 128, 64), dw, a, b, m, k, n);
        case BigRoute => DwWhole(BigTile, HostGrid(k, n, 128, 128), dw, a, b, m, k, n);
        case _ => r := Uncovered(m, k, n);
      }
    }

    /** The routes of the dX cascade that go through a transposed W. */
    method DxSplit(dx: array<Val>, dy: Operand, w: seq<Val>, m: nat, k: nat, n: nat)
      requires Valid() && Sane(m, k, n) && IsDxSplit(DxRoute(m, k, n)) && Holds(w, k, n)
      requires !dy.half && !dy.redMajor && dy.outer == m && dy.red == n
      requires Times(m, k) <= dx.Length && dx != splitk && dx != transposed
      modifies splitk, transposed, dx
      ensures forall q :: 0 <= q < dx.Length ==>
        dx[q] == if q < Times(m, k) then DxCell(dy, ByRows(w, k, n, false), m, k, n, q) else old(dx[q])
    {
      var route := DxRoute(m, k, n);
      var cols, main := DxCols(route, k), DxMain(route, n);
      ghost var plan := Split(SplitChunk(route), main, 32);
      DxGates(m, k, n);
      ColsBound(cols, k, n);
      Transpose(w, transposed, cols, n);
      var wt := ByCols(transposed[..], n, cols, false);
      SplitThenReduce(SplitKernel(route), dy, wt, NoBias, SplitChunk(route), main, k, dx);
      ThroughTransposeAll(plan, dy, transposed[..], w, m, cols, k, n);
      TailColumns(dx, dy, ByRows(w, k, n, false), m, cols, k);
      forall q | 0 <= q < Times(m, k)
        ensures dx[q] == DxCell(dy, ByRows(w, k, n, false), m, k, n, q)
      {
        DxPlanOf(m, k, n, Rem(q, k));
      }
    }

    /** The columns past the last multiple of 32, one launch each. */
    method TailColumns(dx: array<Val>, dy: Operand, w: Operand, m: nat, cols: nat, k: nat)
      requires dy.red == w.red && dy.outer == m && w.outer == k && cols <= k && k > 0 && Times(m, k) <= dx.Length
      modifies dx
      ensures forall q :: 0 <= q < dx.Length ==>
        dx[q] == if q < Times(m, k) && cols <= Rem(q, k) then Value(Column, dy, w, NoBias, Quot(q, k), Rem(q, k))
                 else old(dx[q])
    {
      for col := cols to k
        invariant forall q :: 0 <= q < dx.Length ==>
          dx[q] == if q < Times(m, k) && cols <= Rem(q, k) < col
                   then Value(Column, dy, w, NoBias, Quot(q, k), Rem(q, k))
                   else old(dx[q])
      {
        ColumnGemv(dy, w, col, k, dx);
      }
    }

    /** `dX = dY @ W^T`, f32. */
    method BackwardDx(dx: array<Val>, dy: seq<Val>, w: seq<Val>, m: nat, k: nat, n: nat) returns (r: Outcome)
      requires Valid() && Sane(m, k, n) && Holds(dy, m, n) && Holds(w, k, n)
      requires Times(m, k) <= dx.Length && dx != splitk && dx != transposed
      modifies splitk, transposed, dx
      ensures r == Done
      ensures forall q :: 0 <= q < dx.Length ==>
        dx[q] == if q < Times(m, k) then DxCell(ByRows(dy, m, n, false), ByRows(w, k, n, false), m, k, n, q)
                 else old(dx[q])
    {
      var a, b := ByRows(dy, m, n, false), ByRows(w, k, n, false);
      var route := DxRoute(m, k, n);
      DxCoverage(m, k, n);
      HostGrids(m, k);
      r := Done;
      match route {
        case NarrowRoute => RunUnsplit(NT, NarrowTile, false, a, b, NoBias, groupM, HostGrid(m, k, 64, 32), dx);
        case GapRoute => RunUnsplit(NT, NarrowTile, false, a, b, NoBias, groupM, HostGrid(m, k, 64, 32), dx);
        case GemvRoute => OuterProduct(a, b, false, dx);
        case SlimRoute => RunUnsplit(NT, SlimTile, false, a, b, NoBias, groupM, HostGrid(m, k, 128, 64), dx);
        case BigRoute => RunUnsplit(NT, BigTile, false, a, b, NoBias, groupM, HostGrid(m, k, 128, 128), dx);
        case SplitTailRoute => DxSplit(dx, a, w, m, k, n);
        case SplitMainRoute => DxSplit(dx, a, w, m, k, n);
        case SplitSlimRoute => DxSplit(dx, a, w, m, k, n);
        case _ => r := Uncovered(m, k, n);
      }
    }
  }
}
