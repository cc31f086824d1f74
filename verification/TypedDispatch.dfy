/** The dispatchers of the 16-bit tiers: dtype checks, the typed cascades with native kernels, and the
    tensor-core entry points. */
module TypedDispatch {
  import opened Numerics
  import opened Terms
  import opened Operands
  import opened Plans
  import opened Kernels
  import opened SmallKernels
  import opened Routing
  import opened Dispatch
  import opened TensorCore

  datatype Dtype = F32 | Bf16 | F16

  /** A device matrix with its element type. */
  datatype Typed = Typed(data: seq<Val>, dtype: Dtype)

  // ---- native kernels compute the f32 tier's terms on upcast inputs ----

  lemma SameRowUpcast(u: seq<Val>, s: seq<Val>, rows: nat, cols: nat, i: nat)
    requires IsUpcast(u, s, rows, cols)
    ensures SameRow(ByRows(u, rows, cols, false), i, ByRows(s, rows, cols, true), i)
    ensures SameRow(ByCols(u, rows, cols, false), i, ByCols(s, rows, cols, true), i)
  {
    UpcastAt(u, s, rows, cols);
  }

  lemma ForwardUpcast(ux: seq<Val>, x: seq<Val>, uw: seq<Val>, w: seq<Val>, bias: Seed, m: nat, k: nat, n: nat, q: nat)
    requires Sane(m, k, n) && IsUpcast(ux, x, m, k) && IsUpcast(uw, w, k, n) && !ForwardRoute(m, k, n).NoRoute?
    requires bias.Bias? ==> |bias.values| >= n
    ensures ForwardCell(ByRows(ux, m, k, false), ByCols(uw, k, n, false), bias, m, k, n, q)
         == ForwardCell(ByRows(x, m, k, true), ByCols(w, k, n, true), bias, m, k, n, q)
  {
    ForwardCoverage(m, k, n);
    PlansFit(m, k, n, 0);
    SameRowUpcast(ux, x, m, k, Quot(q, n));
    SameRowUpcast(uw, w, k, n, Rem(q, n));
    ValueCong(ForwardPlan(ForwardRoute(m, k, n), k), ByRows(ux, m, k, false), ByCols(uw, k, n, false), bias, Quot(q, n),
              ByRows(x, m, k, true), ByCols(w, k, n, true), Quot(q, n), Rem(q, n), Rem(q, n));
  }

  lemma DwUpcast(ux: seq<Val>, x: seq<Val>, udy: seq<Val>, dy: seq<Val>, m: nat, k: nat, n: nat, q: nat)
    requires Sane(m, k, n) && IsUpcast(ux, x, m, k) && IsUpcast(udy, dy, m, n) && !DwRoute(m, k, n).NoRoute?
    ensures DwCell(ByCols(ux, m, k, false), ByCols(udy, m, n, false), m, k, n, q)
         == DwCell(ByCols(x, m, k, true), ByCols(dy, m, n, true), m, k, n, q)
  {
    PlansFit(m, k, n, 0);
    SameRowUpcast(ux, x, m, k, Quot(q, n));
    SameRowUpcast(udy, dy, m, n, Rem(q, n));
    ValueCong(DwPlan(DwRoute(m, k, n)), ByCols(ux, m, k, false), ByCols(udy, m, n, false), NoBias, Quot(q, n),
              ByCols(x, m, k, true), ByCols(dy, m, n, true), Quot(q, n), Rem(q, n), Rem(q, n));
  }

  lemma DxUpcast(udy: seq<Val>, dy: seq<Val>, uw: seq<Val>, w: seq<Val>, m: nat, k: nat, n: nat, q: nat)
    requires Sane(m, k, n) && IsUpcast(udy, dy, m, n) && IsUpcast(uw, w, k, n)
    ensures DxCell(ByRows(udy, m, n, false), ByRows(uw, k, n, false), m, k, n, q)
         == DxCell(ByRows(dy, m, n, true), ByRows(w, k, n, true), m, k, n, q)
  {
    DxCoverage(m, k, n);
    PlansFit(m, k, n, Rem(q, k));
    SameRowUpcast(udy, dy, m, n, Quot(q, k));
    SameRowUpcast(uw, w, k, n, Rem(q, k));
    ValueCong(DxPlan(DxRoute(m, k, n), k, n, Rem(q, k)), ByRows(udy, m, n, false), ByRows(uw, k, n, false), NoBias,
              Quot(q, k), ByRows(dy, m, n, true), ByRows(w, k, n, true), Quot(q, k), Rem(q, k), Rem(q, k));
  }

  /** The whole matrix, upcast. */
  lemma UpcastIs(s: seq<Val>, rows: nat, cols: nat)
    requires Holds(s, rows, cols)
    ensures IsUpcast(Upcast(s), s, rows, cols)
  {
  }

  // ---- the typed dispatchers ----

  /** Typed forward, native buckets only. */
  method ForwardTyped(groupM: nat, y: array<Val>, yType: Dtype, x: Typed, w: Typed, bias: Seed, m: nat, k: nat, n: nat)
    returns (r: Outcome)
    requires groupM > 0 && Sane(m, k, n) && Holds(x.data, m, k) && Holds(w.data, k, n)
    requires (bias.Bias? ==> |bias.values| >= n) && Times(m, n) <= y.Length
    modifies y
    ensures r == DtypeMismatch <==> !(yType == x.dtype == w.dtype != F32)
    ensures r != DtypeMismatch ==> r == if TypedForwardRoute(m, k, n).NoRoute? then Uncovered(m, k, n) else Done
    ensures r.Done? ==> !ForwardRoute(m, k, n).NoRoute?
    ensures forall q :: 0 <= q < y.Length ==>
      y[q] == if r.Done? && q < Times(m, n)
              then Down(ForwardCell(ByRows(Upcast(x.data), m, k, false), ByCols(Upcast(w.data), k, n, false),
                                    bias, m, k, n, q))
              else old(y[q])
  {
    if yType == F32 || x.dtype != yType || w.dtype != yType { return DtypeMismatch; }
    TypedBucketsCoincide(m, k, n);
    if TypedForwardRoute(m, k, n).NoRoute? { return Uncovered(m, k, n); }
    NativeForward(groupM, y, ByRows(x.data, m, k, true), ByCols(w.data, k, n, true), bias, m, k, n);
    r := Done;
    UpcastIs(x.data, m, k);
    UpcastIs(w.data, k, n);
    forall q: nat
      ensures ForwardCell(ByRows(Upcast(x.data), m, k, false), ByCols(Upcast(w.data), k, n, false), bias, m, k, n, q)
           == ForwardCell(ByRows(x.data, m, k, true), ByCols(w.data, k, n, true), bias, m, k, n, q)
    {
      ForwardUpcast(Upcast(x.data), x.data, Upcast(w.data), w.data, bias, m, k, n, q);
    }
  }

  /** The native forward kernels, on 16-bit operands. */
  method NativeForward(groupM: nat, y: array<Val>, a: Operand, b: Operand, bias: Seed, m: nat, k: nat, n: nat)
    requires groupM > 0 && Sane(m, k, n) && LaidOut(NN, true, a, b) && a.outer == m && a.red == k && b.outer == n
    requires (bias.Bias? ==> |bias.values| >= n) && Times(m, n) <= y.Length
    requires !TypedForwardRoute(m, k, n).NoRoute? && ForwardRoute(m, k, n) == TypedForwardRoute(m, k, n)
    modifies y
    ensures forall q :: 0 <= q < y.Length ==>
      y[q] == if q < Times(m, n) then Down(ForwardCell(a, b, bias, m, k, n, q)) else old(y[q])
  {
    OneColumn(m);
    HostGrids(m, n);
    match TypedForwardRoute(m, k, n) {
      case GemvRoute => Gemv(NN, a, b, bias, true, y);
      case UltraThinRoute => UltraThin(a, b, bias, true, y);
      case SmallRoute => RunUnsplit(NN, SmallTile, true, a, b, bias, groupM, HostGrid(m, n, 16, 16), y);
      case NarrowRoute => RunUnsplit(NN, NarrowTile, true, a, b, bias, groupM, HostGrid(m, n, 64, 32), y);
      case BigRoute => RunUnsplit(NN, BigTile, true, a, b, bias, groupM, HostGrid(m, n, 128, 128), y);
    }
  }

  /** Typed dW, native buckets only; dW itself stays f32. */
  method BackwardDwTyped(groupM: nat, dw: array<Val>, dy: Typed, x: Typed, m: nat, k: nat, n: nat) returns (r: Outcome)
    requires groupM > 0 && Sane(m, k, n) && Holds(dy.data, m, n) && Holds(x.data, m, k) && Times(k, n) <= dw.Length
    modifies dw
    ensures r == DtypeMismatch <==> !(dy.dtype == x.dtype != F32)
    ensures r != DtypeMismatch ==> r == if TypedDwRoute(m, k, n).NoRoute? then Uncovered(m, k, n) else Done
    ensures r.Done? ==> !DwRoute(m, k, n).NoRoute?
    ensures forall q :: 0 <= q < dw.Length ==>
      dw[q] == if r.Done? && q < Times(k, n)
               then Add(old(dw[q]), DwCell(ByCols(Upcast(x.data), m, k, false), ByCols(Upcast(dy.data), m, n, false),
                                           m, k, n, q))
               else old(dw[q])
  {
    if dy.dtype == F32 || x.dtype != dy.dtype { return DtypeMismatch; }
    TypedBucketsCoincide(m, k, n);
    if TypedDwRoute(m, k, n).NoRoute? { return Uncovered(m, k, n); }
    NativeDw(groupM, dw, ByCols(x.data, m, k, true), ByCols(dy.data, m, n, true), m, k, n);
    r := Done;
    UpcastIs(x.data, m, k);
    UpcastIs(dy.data, m, n);
    forall q: nat
      ensures DwCell(ByCols(Upcast(x.data), m, k, false), ByCols(Upcast(dy.data), m, n, false), m, k, n, q)
           == DwCell(ByCols(x.data, m, k, true), ByCols(dy.data, m, n, true), m, k, n, q)
    {
      DwUpcast(Upcast(x.data), x.data, Upcast(dy.data), dy.data, m, k, n, q);
    }
  }

  /** The native dW kernels, on 16-bit operands. */
  method NativeDw(groupM: nat, dw: array<Val>, a: Operand, b: Operand, m: nat, k: nat, n: nat)
    requires groupM > 0 && Sane(m, k, n) && LaidOut(TN, true, a, b) && a.outer == k && a.red == m && b.outer == n
    requires Times(k, n) <= dw.Length
    requires !TypedDwRoute(m, k, n).NoRoute? && DwRoute(m, k, n) == TypedDwRoute(m, k, n)
    modifies dw
    ensures forall q :: 0 <= q < dw.Length ==>
      dw[q] == if q < Times(k, n) then Add(old(dw[q]), DwCell(a, b, m, k, n, q)) else old(dw[q])
  {
    OneColumn(k);
    HostGrids(k, n);
    match TypedDwRoute(m, k, n) {
      case GemvRoute => Gemv(TN, a, b, NoBias, true, dw);
      case NarrowRoute => RunUnsplit(TN, NarrowTile, true, a, b, NoBias, groupM, HostGrid(k, n, 64, 32), dw);
      case BigRoute => RunUnsplit(TN, BigTile, true, a, b, NoBias, groupM, HostGrid(k, n, 128, 128), dw);
    }
  }

  /** Typed dX, native buckets only. */
  method BackwardDxTyped(groupM: nat, dx: array<Val>, dxType: Dtype, dy: Typed, w: Typed, m: nat, k: nat, n: nat)
    returns (r: Outcome)
    requires groupM > 0 && Sane(m, k, n) && Holds(dy.data, m, n) && Holds(w.data, k, n) && Times(m, k) <= dx.Length
    modifies dx
    ensures r == DtypeMismatch <==> !(dxType == dy.dtype == w.dtype != F32)
    ensures r != DtypeMismatch ==> r == if TypedDxRoute(m, k, n).NoRoute? then Uncovered(m, k, n) else Done
    ensures forall q :: 0 <= q < dx.Length ==>
      dx[q] == if r.Done? && q < Times(m, k)
               then Down(DxCell(ByRows(Upcast(dy.data), m, n, false), ByRows(Upcast(w.data), k, n, false), m, k, n, q))
               else old(dx[q])
  {
    if dxType == F32 || dy.dtype != dxType || w.dtype != dxType { return DtypeMismatch; }
    TypedBucketsCoincide(m, k, n);
    if TypedDxRoute(m, k, n).NoRoute? { return Uncovered(m, k, n); }
    NativeDx(groupM, dx, ByRows(dy.data, m, n, true), ByRows(w.data, k, n, true), m, k, n);
    r := Done;
    UpcastIs(dy.data, m, n);
    UpcastIs(w.data, k, n);
    forall q: nat
      ensures DxCell(ByRows(Upcast(dy.data), m, n, false), ByRows(Upcast(w.data), k, n, false), m, k, n, q)
           == DxCell(ByRows(dy.data, m, n, true), ByRows(w.data, k, n, true), m, k, n, q)
    {
      DxUpcast(Upcast(dy.data), dy.data, Upcast(w.data), w.data, m, k, n, q);
    }
  }

  /** The native dX kernels, on 16-bit operands. */
  method NativeDx(groupM: nat, dx: array<Val>, a: Operand, b: Operand, m: nat, k: nat, n: nat)
    requires groupM > 0 && Sane(m, k, n) && LaidOut(NT, true, a, b) && a.outer == m && a.red == n && b.outer == k
    requires Times(m, k) <= dx.Length
    requires !TypedDxRoute(m, k, n).NoRoute? && DxRoute(m, k, n) == TypedDxRoute(m, k, n)
    modifies dx
    ensures forall q :: 0 <= q < dx.Length ==>
      dx[q] == if q < Times(m, k) then Down(DxCell(a, b, m, k, n, q)) else old(dx[q])
  {
    HostGrids(m, k);
    match TypedDxRoute(m, k, n) {
      case GemvRoute => OuterProduct(a, b, true, dx);
      case NarrowRoute => RunUnsplit(NT, NarrowTile, true, a, b, NoBias, groupM, HostGrid(m, k, 64, 32), dx);
      case BigRoute => RunUnsplit(NT, BigTile, true, a, b, NoBias, groupM, HostGrid(m, k, 128, 128), dx);
    }
  }

  // ---- tensor cores ----

  /** Tensor-core forward: one chain of matrix-multiply steps per cell, whichever tile the shape gets. */
  method ForwardTc(y: array<Val>, yType: Dtype, x: Typed, w: Typed, bias: Seed, m: nat, k: nat, n: nat)
    returns (r: Outcome)
    requires Sane(m, k, n) && Holds(x.data, m, k) && Holds(w.data, k, n)
    requires (bias.Bias? ==> |bias.values| >= n) && Times(m, n) <= y.Length
    modifies y
    ensures r == DtypeMismatch <==> !(yType == x.dtype == w.dtype != F32)
    ensures r != DtypeMismatch ==> r == if m < 64 || n < 64 then Uncovered(m, k, n) else Done
    ensures forall q :: 0 <= q < y.Length ==>
      y[q] == if r.Done? && q < Times(m, n)
              then Down(Value(Tensor, ByRows(x.data, m, k, false), ByCols(w.data, k, n, false), bias, Quot(q, n),
                              Rem(q, n)))
              else old(y[q])
  {
    if yType == F32 || x.dtype != yType || w.dtype != yType { return DtypeMismatch; }
    match PickTile(m, n)
    case NoTile => r := Uncovered(m, k, n);
    case Picked(tile) =>
      HostGridIsTiles(m, n, tile.Edge(), tile.Edge());
      RunTensor(NN, tile, ByRows(x.data, m, k, false), ByCols(w.data, k, n, false), bias,
                HostGrid(m, n, tile.Edge(), tile.Edge()), y);
      r := Done;
  }

  method BackwardDwTc(dw: array<Val>, dy: Typed, x: Typed, m: nat, k: nat, n: nat) returns (r: Outcome)
    requires Sane(m, k, n) && Holds(dy.data, m, n) && Holds(x.data, m, k) && Times(k, n) <= dw.Length
    modifies dw
    ensures r == DtypeMismatch <==> !(dy.dtype == x.dtype != F32)
    ensures r != DtypeMismatch ==> r == if k < 64 || n < 64 then Uncovered(m, k, n) else Done
    ensures forall q :: 0 <= q < dw.Length ==>
      dw[q] == if r.Done? && q < Times(k, n)
               then Add(old(dw[q]), Value(Tensor, ByCols(x.data, m, k, false), ByCols(dy.data, m, n, false), NoBias,
                                          Quot(q, n), Rem(q, n)))
               else old(dw[q])
  {
    if dy.dtype == F32 || x.dtype != dy.dtype { return DtypeMismatch; }
    match PickTile(k, n)
    case NoTile => r := Uncovered(m, k, n);
    case Picked(tile) =>
      HostGridIsTiles(k, n, tile.Edge(), tile.Edge());
      RunTensor(TN, tile, ByCols(x.data, m, k, false), ByCols(dy.data, m, n, false), NoBias,
                HostGrid(k, n, tile.Edge(), tile.Edge()), dw);
      r := Done;
  }

  method BackwardDxTc(dx: array<Val>, dxType: Dtype, dy: Typed, w: Typed, m: nat, k: nat, n: nat) returns (r: Outcome)
    requires Sane(m, k, n) && Holds(dy.data, m, n) && Holds(w.data, k, n) && Times(m, k) <= dx.Length
    modifies dx
    ensures r == DtypeMismatch <==> !(dxType == dy.dtype == w.dtype != F32)
    ensures r != DtypeMismatch ==> r == if m < 64 || k < 64 then Uncovered(m, k, n) else Done
    ensures forall q :: 0 <= q < dx.Length ==>
      dx[q] == if r.Done? && q < Times(m, k)
               then Down(Value(Tensor, ByRows(dy.data, m, n, false), ByRows(w.data, k, n, false), NoBias,
                               Quot(q, k), Rem(q, k)))
               else old(dx[q])
  {
    if dxType == F32 || dxType != dy.dtype || dy.dtype != w.dtype { return DtypeMismatch; }
    match PickTile(m, k)
    case NoTile => r := Uncovered(m, k, n);
    case Picked(tile) =>
      HostGridIsTiles(m, k, tile.Edge(), tile.Edge());
      RunTensor(NT, tile, ByRows(dy.data, m, n, false), ByRows(w.data, k, n, false), NoBias,
                HostGrid(m, k, tile.Edge(), tile.Edge()), dx);
      r := Done;
  }
}
