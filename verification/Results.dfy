/** What the tiers promise together: every route computes the product, rows do not depend on the batch they are
    in, and which tile boundaries can be seen in the bits. */
module Results {
  import opened Numerics
  import opened Terms
  import opened Operands
  import opened Plans
  import opened Kernels
  import opened Routing
  import opened Dispatch
  import opened TileCompute
  import opened TileLaunch
  import opened TensorCore
  import Pipeline

  // ---- textbook products over row-major matrices ----

  /** Element (i, j) of a row-major matrix with `cols` columns. */
  function Entry(s: seq<Val>, i: nat, cols: nat, j: nat): real {
    if Flat(i, cols, j) < |s| then Exact(s[Flat(i, cols, j)]) else 0.0
  }

  /** The first `r` terms of (X @ W)[i, j]. */
  function XW(x: seq<Val>, w: seq<Val>, k: nat, n: nat, i: nat, j: nat, r: nat): real {
    if r == 0 then 0.0 else XW(x, w, k, n, i, j, r - 1) + Entry(x, i, k, r - 1) * Entry(w, r - 1, n, j)
  }

  /** The first `r` terms of (X^T @ dY)[i, j]. */
  function XtDy(x: seq<Val>, dy: seq<Val>, k: nat, n: nat, i: nat, j: nat, r: nat): real {
    if r == 0 then 0.0 else XtDy(x, dy, k, n, i, j, r - 1) + Entry(x, r - 1, k, i) * Entry(dy, r - 1, n, j)
  }

  /** The first `r` terms of (dY @ W^T)[i, j]. */
  function DyWt(dy: seq<Val>, w: seq<Val>, n: nat, i: nat, j: nat, r: nat): real {
    if r == 0 then 0.0 else DyWt(dy, w, n, i, j, r - 1) + Entry(dy, i, n, r - 1) * Entry(w, j, n, r - 1)
  }

  lemma RowEntry(s: seq<Val>, rows: nat, cols: nat, i: nat, j: nat)
    requires Holds(s, rows, cols) && i < rows && j < cols
    ensures Exact(At(ByRows(s, rows, cols, false), i, j)) == Entry(s, i, cols, j)
    ensures Exact(At(ByCols(s, rows, cols, false), j, i)) == Entry(s, i, cols, j)
  {
    FlatInBounds(i, rows, cols, j);
  }

  lemma {:induction false} XWIsDot(x: seq<Val>, w: seq<Val>, m: nat, k: nat, n: nat, i: nat, j: nat, r: nat)
    requires Holds(x, m, k) && Holds(w, k, n) && i < m && j < n && r <= k
    ensures Dot(ByRows(x, m, k, false), ByCols(w, k, n, false), i, j, 0, r) == XW(x, w, k, n, i, j, r)
    decreases r
  {
    if r > 0 {
      XWIsDot(x, w, m, k, n, i, j, r - 1);
      RowEntry(x, m, k, i, r - 1);
      RowEntry(w, k, n, r - 1, j);
      SameFactors(Exact(At(ByRows(x, m, k, false), i, r - 1)), Exact(At(ByCols(w, k, n, false), j, r - 1)),
                  Entry(x, i, k, r - 1), Entry(w, r - 1, n, j));
    }
  }

  lemma {:induction false} XtDyIsDot(x: seq<Val>, dy: seq<Val>, m: nat, k: nat, n: nat, i: nat, j: nat, r: nat)
    requires Holds(x, m, k) && Holds(dy, m, n) && i < k && j < n && r <= m
    ensures Dot(ByCols(x, m, k, false), ByCols(dy, m, n, false), i, j, 0, r) == XtDy(x, dy, k, n, i, j, r)
    decreases r
  {
    if r > 0 {
      XtDyIsDot(x, dy, m, k, n, i, j, r - 1);
      RowEntry(x, m, k, r - 1, i);
      RowEntry(dy, m, n, r - 1, j);
      SameFactors(Exact(At(ByCols(x, m, k, false), i, r - 1)), Exact(At(ByCols(dy, m, n, false), j, r - 1)),
                  Entry(x, r - 1, k, i), Entry(dy, r - 1, n, j));
    }
  }

  lemma {:induction false} DyWtIsDot(dy: seq<Val>, w: seq<Val>, m: nat, k: nat, n: nat, i: nat, j: nat, r: nat)
    requires Holds(dy, m, n) && Holds(w, k, n) && i < m && j < k && r <= n
    ensures Dot(ByRows(dy, m, n, false), ByRows(w, k, n, false), i, j, 0, r) == DyWt(dy, w, n, i, j, r)
    decreases r
  {
    if r > 0 {
      DyWtIsDot(dy, w, m, k, n, i, j, r - 1);
      RowEntry(dy, m, n, i, r - 1);
      RowEntry(w, k, n, j, r - 1);
      SameFactors(Exact(At(ByRows(dy, m, n, false), i, r - 1)), Exact(At(ByRows(w, k, n, false), j, r - 1)),
                  Entry(dy, i, n, r - 1), Entry(w, j, n, r - 1));
    }
  }

  /** In exact arithmetic the forward computes X @ W + bias on every covered shape, by whichever route. */
  lemma ForwardComputesProduct(x: seq<Val>, w: seq<Val>, bias: Seed, m: nat, k: nat, n: nat, i: nat, j: nat)
    requires Sane(m, k, n) && Holds(x, m, k) && Holds(w, k, n) && (bias.Bias? ==> |bias.values| >= n)
    requires !(n == 1 && k < 32) && i < m && j < n
    ensures !ForwardRoute(m, k, n).NoRoute?
    ensures Exact(ForwardCell(ByRows(x, m, k, false), ByCols(w, k, n, false), bias, m, k, n, Flat(i, n, j)))
         == XW(x, w, k, n, i, j, k) + if bias.Bias? then Exact(bias.values[j]) else 0.0
  {
    ForwardCoverage(m, k, n);
    PlansFit(m, k, n, 0);
    FlatDigits(i, n, j);
    XWIsDot(x, w, m, k, n, i, j, k);
    ValueIsProduct(ForwardPlan(ForwardRoute(m, k, n), k), ByRows(x, m, k, false), ByCols(w, k, n, false), bias, i, j);
  }

  /** In exact arithmetic dW ends up as dW + X^T @ dY on every covered shape. */
  lemma DwComputesProduct(x: seq<Val>, dy: seq<Val>, before: Val, m: nat, k: nat, n: nat, i: nat, j: nat)
    requires Sane(m, k, n) && Holds(x, m, k) && Holds(dy, m, n)
    requires !(n == 1 && (k < 4 || m < 32)) && i < k && j < n
    ensures !DwRoute(m, k, n).NoRoute?
    ensures Exact(Add(before, DwCell(ByCols(x, m, k, false), ByCols(dy, m, n, false), m, k, n, Flat(i, n, j))))
         == Exact(before) + XtDy(x, dy, k, n, i, j, m)
  {
    DwCoverage(m, k, n);
    PlansFit(m, k, n, 0);
    FlatDigits(i, n, j);
    XtDyIsDot(x, dy, m, k, n, i, j, m);
    var a, b := ByCols(x, m, k, false), ByCols(dy, m, n, false);
    ValueIsProduct(DwPlan(DwRoute(m, k, n)), a, b, NoBias, i, j);
    AddIsSum(before, DwCell(a, b, m, k, n, Flat(i, n, j)));
  }

  /** In exact arithmetic dX is dY @ W^T on every shape, tail columns included. */
  lemma DxComputesProduct(dy: seq<Val>, w: seq<Val>, m: nat, k: nat, n: nat, i: nat, j: nat)
    requires Sane(m, k, n) && Holds(dy, m, n) && Holds(w, k, n) && i < m && j < k
    ensures Exact(DxCell(ByRows(dy, m, n, false), ByRows(w, k, n, false), m, k, n, Flat(i, k, j)))
         == DyWt(dy, w, n, i, j, n)
  {
    DxCoverage(m, k, n);
    PlansFit(m, k, n, j);
    FlatDigits(i, k, j);
    DyWtIsDot(dy, w, m, k, n, i, j, n);
    ValueIsProduct(DxPlan(DxRoute(m, k, n), k, n, j), ByRows(dy, m, n, false), ByRows(w, k, n, false), NoBias, i, j);
  }

  // ---- the 16-bit tiers ----

  lemma UpcastEntry(s: seq<Val>, i: nat, cols: nat, j: nat)
    ensures Entry(Upcast(s), i, cols, j) == Entry(s, i, cols, j)
  {
  }

  lemma {:induction false} UpcastXW(x: seq<Val>, w: seq<Val>, k: nat, n: nat, i: nat, j: nat, r: nat)
    ensures XW(Upcast(x), Upcast(w), k, n, i, j, r) == XW(x, w, k, n, i, j, r)
    decreases r
  {
    if r > 0 {
      UpcastXW(x, w, k, n, i, j, r - 1);
      UpcastEntry(x, i, k, r - 1);
      UpcastEntry(w, r - 1, n, j);
    }
  }

  lemma {:induction false} UpcastXtDy(x: seq<Val>, dy: seq<Val>, k: nat, n: nat, i: nat, j: nat, r: nat)
    ensures XtDy(Upcast(x), Upcast(dy), k, n, i, j, r) == XtDy(x, dy, k, n, i, j, r)
    decreases r
  {
    if r > 0 {
      UpcastXtDy(x, dy, k, n, i, j, r - 1);
      UpcastEntry(x, r - 1, k, i);
      UpcastEntry(dy, r - 1, n, j);
    }
  }

  lemma {:induction false} UpcastDyWt(dy: seq<Val>, w: seq<Val>, n: nat, i: nat, j: nat, r: nat)
    ensures DyWt(Upcast(dy), Upcast(w), n, i, j, r) == DyWt(dy, w, n, i, j, r)
    decreases r
  {
    if r > 0 {
      UpcastDyWt(dy, w, n, i, j, r - 1);
      UpcastEntry(dy, i, n, r - 1);
      UpcastEntry(w, j, n, r - 1);
    }
  }

  lemma DownIs(v: Val)
    ensures Exact(Down(v)) == Exact(v)
  {
  }

  /** Typed forward, native or fallback: in exact arithmetic the product of the 16-bit matrices plus the bias. */
  lemma TypedForwardComputesProduct(x: seq<Val>, w: seq<Val>, bias: Seed, m: nat, k: nat, n: nat, i: nat, j: nat)
    requires Sane(m, k, n) && Holds(x, m, k) && Holds(w, k, n) && (bias.Bias? ==> |bias.values| >= n)
    requires !(n == 1 && k < 32) && i < m && j < n
    ensures !ForwardRoute(m, k, n).NoRoute?
    ensures Exact(Down(ForwardCell(ByRows(Upcast(x), m, k, false), ByCols(Upcast(w), k, n, false), bias, m, k, n,
                                   Flat(i, n, j))))
         == XW(Upcast(x), Upcast(w), k, n, i, j, k) + if bias.Bias? then Exact(bias.values[j]) else 0.0
    ensures XW(Upcast(x), Upcast(w), k, n, i, j, k) == XW(x, w, k, n, i, j, k)
  {
    ForwardComputesProduct(Upcast(x), Upcast(w), bias, m, k, n, i, j);
    DownIs(ForwardCell(ByRows(Upcast(x), m, k, false), ByCols(Upcast(w), k, n, false), bias, m, k, n, Flat(i, n, j)));
    UpcastXW(x, w, k, n, i, j, k);
  }

  lemma TypedDwComputesProduct(x: seq<Val>, dy: seq<Val>, before: Val, m: nat, k: nat, n: nat, i: nat, j: nat)
    requires Sane(m, k, n) && Holds(x, m, k) && Holds(dy, m, n)
    requires !(n == 1 && (k < 4 || m < 32)) && i < k && j < n
    ensures !DwRoute(m, k, n).NoRoute?
    ensures Exact(Add(before, DwCell(ByCols(Upcast(x), m, k, false), ByCols(Upcast(dy), m, n, false), m, k, n,
                                     Flat(i, n, j))))
         == Exact(before) + XtDy(Upcast(x), Upcast(dy), k, n, i, j, m)
    ensures XtDy(Upcast(x), Upcast(dy), k, n, i, j, m) == XtDy(x, dy, k, n, i, j, m)
  {
    DwComputesProduct(Upcast(x), Upcast(dy), before, m, k, n, i, j);
    UpcastXtDy(x, dy, k, n, i, j, m);
  }

  lemma TypedDxComputesProduct(dy: seq<Val>, w: seq<Val>, m: nat, k: nat, n: nat, i: nat, j: nat)
    requires Sane(m, k, n) && Holds(dy, m, n) && Holds(w, k, n) && i < m && j < k
    ensures Exact(Down(DxCell(ByRows(Upcast(dy), m, n, false), ByRows(Upcast(w), k, n, false), m, k, n, Flat(i, k, j))))
         == DyWt(Upcast(dy), Upcast(w), n, i, j, n)
    ensures DyWt(Upcast(dy), Upcast(w), n, i, j, n) == DyWt(dy, w, n, i, j, n)
  {
    DxComputesProduct(Upcast(dy), Upcast(w), m, k, n, i, j);
    DownIs(DxCell(ByRows(Upcast(dy), m, n, false), ByRows(Upcast(w), k, n, false), m, k, n, Flat(i, k, j)));
    UpcastDyWt(dy, w, n, i, j, n);
  }

  /** The tensor-core tier computes the same products, on every shape. */
  lemma TensorForwardComputesProduct(x: seq<Val>, w: seq<Val>, bias: Seed, m: nat, k: nat, n: nat, i: nat, j: nat)
    requires Holds(x, m, k) && Holds(w, k, n) && (bias.Bias? ==> |bias.values| >= n) && i < m && j < n
    ensures var q := Flat(i, n, j); Quot(q, n) == i && Rem(q, n) == j
    ensures Exact(Down(Value(Tensor, ByRows(x, m, k, false), ByCols(w, k, n, false), bias, i, j)))
         == XW(x, w, k, n, i, j, k) + if bias.Bias? then Exact(bias.values[j]) else 0.0
  {
    var a, b := ByRows(x, m, k, false), ByCols(w, k, n, false);
    FlatDigits(i, n, j);
    XWIsDot(x, w, m, k, n, i, j, k);
    ValueIsProduct(Tensor, a, b, bias, i, j);
    DownIs(Value(Tensor, a, b, bias, i, j));
  }

  lemma TensorDwComputesProduct(x: seq<Val>, dy: seq<Val>, before: Val, m: nat, k: nat, n: nat, i: nat, j: nat)
    requires Holds(x, m, k) && Holds(dy, m, n) && i < k && j < n
    ensures var q := Flat(i, n, j); Quot(q, n) == i && Rem(q, n) == j
    ensures Exact(Add(before, Value(Tensor, ByCols(x, m, k, false), ByCols(dy, m, n, false), NoBias, i, j)))
         == Exact(before) + XtDy(x, dy, k, n, i, j, m)
  {
    var a, b := ByCols(x, m, k, false), ByCols(dy, m, n, false);
    FlatDigits(i, n, j);
    XtDyIsDot(x, dy, m, k, n, i, j, m);
    ValueIsProduct(Tensor, a, b, NoBias, i, j);
    AddIsSum(before, Value(Tensor, a, b, NoBias, i, j));
  }

  lemma TensorDxComputesProduct(dy: seq<Val>, w: seq<Val>, m: nat, k: nat, n: nat, i: nat, j: nat)
    requires Holds(dy, m, n) && Holds(w, k, n) && i < m && j < k
    ensures var q := Flat(i, k, j); Quot(q, k) == i && Rem(q, k) == j
    ensures Exact(Down(Value(Tensor, ByRows(dy, m, n, false), ByRows(w, k, n, false), NoBias, i, j)))
         == DyWt(dy, w, n, i, j, n)
  {
    var a, b := ByRows(dy, m, n, false), ByRows(w, k, n, false);
    FlatDigits(i, k, j);
    DyWtIsDot(dy, w, m, k, n, i, j, n);
    ValueIsProduct(Tensor, a, b, NoBias, i, j);
    DownIs(Value(Tensor, a, b, NoBias, i, j));
  }

  // ---- batch invariance ----

  /** Row `i` of one matrix is row `i'` of the other. */
  predicate SharedRow(x: seq<Val>, i: nat, x': seq<Val>, i': nat, cols: nat) {
    forall r :: 0 <= r < cols ==>
      Flat(i, cols, r) < |x| && Flat(i', cols, r) < |x'| && x[Flat(i, cols, r)] == x'[Flat(i', cols, r)]
  }

  /** A plan's value on row-major data is decided by the row, not by the matrix around it. */
  lemma RowDecides(p: Plan, x: seq<Val>, m: nat, i: nat, x': seq<Val>, m': nat, i': nat, red: nat,
                   w: Operand, bias: Seed, n: nat)
    requires Holds(x, m, red) && Holds(x', m', red) && i < m && i' < m' && SharedRow(x, i, x', i', red)
    requires w.red == red && p.Fits(red) && (bias.Bias? ==> n < |bias.values|)
    ensures Value(p, ByRows(x, m, red, false), w, bias, i, n) == Value(p, ByRows(x', m', red, false), w, bias, i', n)
  {
    var a, a' := ByRows(x, m, red, false), ByRows(x', m', red, false);
    forall r | 0 <= r < red ensures At(a, i, r) == At(a', i', r) {
      assert x[Flat(i, red, r)] == x'[Flat(i', red, r)];
    }
    ValueCong(p, a, w, bias, i, a', w, i', n, n);
  }

  /** Forward: two batches that route alike give a shared input row the identical output row. */
  lemma ForwardBatchInvariance(x: seq<Val>, m: nat, i: nat, x': seq<Val>, m': nat, i': nat, w: seq<Val>, bias: Seed,
                               k: nat, n: nat, j: nat)
    requires Sane(m, k, n) && Sane(m', k, n) && Holds(x, m, k) && Holds(x', m', k) && Holds(w, k, n)
    requires (bias.Bias? ==> |bias.values| >= n) && i < m && i' < m' && j < n && SharedRow(x, i, x', i', k)
    requires ForwardRoute(m, k, n) == ForwardRoute(m', k, n) && !ForwardRoute(m, k, n).NoRoute?
    ensures ForwardCell(ByRows(x, m, k, false), ByCols(w, k, n, false), bias, m, k, n, Flat(i, n, j))
         == ForwardCell(ByRows(x', m', k, false), ByCols(w, k, n, false), bias, m', k, n, Flat(i', n, j))
  {
    ForwardCoverage(m, k, n);
    PlansFit(m, k, n, 0);
    FlatDigits(i, n, j);
    FlatDigits(i', n, j);
    RowDecides(ForwardPlan(ForwardRoute(m, k, n), k), x, m, i, x', m', i', k, ByCols(w, k, n, false), bias, j);
  }

  /** dX: the same for a shared row of dY. */
  lemma DxBatchInvariance(dy: seq<Val>, m: nat, i: nat, dy': seq<Val>, m': nat, i': nat, w: seq<Val>,
                          k: nat, n: nat, j: nat)
    requires Sane(m, k, n) && Sane(m', k, n) && Holds(dy, m, n) && Holds(dy', m', n) && Holds(w, k, n)
    requires i < m && i' < m' && j < k && SharedRow(dy, i, dy', i', n)
    requires DxRoute(m, k, n) == DxRoute(m', k, n)
    ensures DxCell(ByRows(dy, m, n, false), ByRows(w, k, n, false), m, k, n, Flat(i, k, j))
         == DxCell(ByRows(dy', m', n, false), ByRows(w, k, n, false), m', k, n, Flat(i', k, j))
  {
    DxCoverage(m, k, n);
    PlansFit(m, k, n, j);
    FlatDigits(i, k, j);
    FlatDigits(i', k, j);
    RowDecides(DxPlan(DxRoute(m, k, n), k, n, j), dy, m, i, dy', m', i', n, ByRows(w, k, n, false), NoBias, j);
  }

  /** Tensor-core forward, in the units that are launched: for two batch sizes, whichever tiles their shapes pick,
      a shared input row gets the identical accumulators. The tiles may differ. */
  lemma TensorBatchInvariance(x: seq<Val>, m: nat, i: nat, x': seq<Val>, m': nat, i': nat, w: seq<Val>, bias: Seed,
                              k: nat, n: nat, j: nat)
    requires Sane(m, k, n) && Sane(m', k, n) && Holds(x, m, k) && Holds(x', m', k) && Holds(w, k, n)
    requires PickTile(m, n).Picked? && PickTile(m', n).Picked?
    requires (bias.Bias? ==> |bias.values| >= n) && i < m && i' < m' && j < n && SharedRow(x, i, x', i', k)
    ensures TensorCellOf(x, w, bias, m, k, n, i, j) == TensorCellOf(x', w, bias, m', k, n, i', j)
  {
    RowDecides(Tensor, x, m, i, x', m', i', k, ByCols(w, k, n, false), bias, j);
    LaunchedCell(x, w, bias, m, k, n, i, j);
    LaunchedCell(x', w, bias, m', k, n, i', j);
  }

  /** Two batches on either side of the tile boundary: 1024 rows of 1024 columns take the 64 tile, 1152 the 128. */
  lemma TileBoundaryExists()
    ensures PickTile(1024, 1024) == Picked(Tile64) && PickTile(1152, 1024) == Picked(Tile128)
  {
    assert DivCeil(1024, 128) == 8 && DivCeil(1152, 128) == 9;
    TimesIs(8, 8);
    TimesIs(9, 8);
  }

  /** What the launch that `ForwardTc` makes leaves in cell (i, j), the tile picked from the shape. */
  function TensorCellOf(x: seq<Val>, w: seq<Val>, bias: Seed, m: nat, k: nat, n: nat, i: nat, j: nat): Val
    requires k > 0 && Holds(x, m, k) && Holds(w, k, n) && PickTile(m, n).Picked? && i < m && j < n
    requires bias.Bias? ==> |bias.values| >= n
  {
    var a, b, tile := ByRows(x, m, k, false), ByCols(w, k, n, false), PickTile(m, n).tile;
    TensorWhole(NN, tile, a, b, bias);
    WholeResult(TensorLaunch(NN, tile, a, b, bias), CellIn(m, n, i, j), Zero);
    Apply(OverwriteHalf, Zero, TensorLaunch(NN, tile, a, b, bias).CellAt(CellIn(m, n, i, j)))
  }

  /** Flat index of output element (i, j). */
  function CellIn(m: nat, n: nat, i: nat, j: nat): (q: nat)
    requires i < m && j < n
    ensures q == Flat(i, n, j) < Times(m, n) && Quot(q, n) == i && Rem(q, n) == j
  {
    FlatInBounds(i, m, n, j);
    FlatDigits(i, n, j);
    Flat(i, n, j)
  }

  lemma LaunchedCell(x: seq<Val>, w: seq<Val>, bias: Seed, m: nat, k: nat, n: nat, i: nat, j: nat)
    requires k > 0 && Holds(x, m, k) && Holds(w, k, n) && PickTile(m, n).Picked? && i < m && j < n
    requires bias.Bias? ==> |bias.values| >= n
    ensures TensorCellOf(x, w, bias, m, k, n, i, j)
         == Down(Value(Tensor, ByRows(x, m, k, false), ByCols(w, k, n, false), bias, i, j))
  {
    var a, b, tile := ByRows(x, m, k, false), ByCols(w, k, n, false), PickTile(m, n).tile;
    TensorWhole(NN, tile, a, b, bias);
    WholeResult(TensorLaunch(NN, tile, a, b, bias), CellIn(m, n, i, j), Zero);
  }

  // ---- interleavings ----

  /** A CTA of a launch as the interleaving model sees it: the pipelined kernels have two stages, the others one. */
  function CtaFor(l: Launch, f: nat, id: nat): (c: Pipeline.Cta)
    requires l.Valid() && f < l.Splits() && id < Times(l.TilesM(), l.TilesN())
    ensures c.Valid()
  {
    JobValid(l, f, id);
    Pipeline.Cta(l.TileFor(f, id), l.Slabs(f), l.la.map_, l.lb.map_, if l.pipelined then 2 else 1)
  }

  /** Whatever the interleaving of a CTA's threads and copies, its registers end up with the accumulators that
      the epilogue of the sequential kernel stores. */
  lemma EveryInterleavingFeedsTheEpilogue(l: Launch, f: nat, id: nat, run: seq<Pipeline.State>, u: nat)
    requires l.Valid() && f < l.Splits() && id < Times(l.TilesM(), l.TilesN()) && u < l.g.Threads()
    requires Pipeline.IsRun(CtaFor(l, f, id), run) && Pipeline.Complete(run[|run| - 1])
    ensures u < |run[|run| - 1].threads|
    ensures HoldsChain(l.TileFor(f, id), run[|run| - 1].threads[u].regs, u, Times(l.Slabs(f), l.g.bk))
  {
    Pipeline.EveryRunComputesTheChain(CtaFor(l, f, id), run, u);
  }
}
