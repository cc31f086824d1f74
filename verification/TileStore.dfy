/** The epilogue of a tiled kernel: each thread writes its registers to global memory under row and column
    predicates, four at a time where the layout allows it. */
module TileStore {
  import opened Numerics
  import opened Terms
  import opened Geometry
  import opened TileKernel
  import opened TileCompute

  /** Where a launch writes: a `rows` x `cols` matrix at offset `base` of the output array. */
  datatype Output = Output(base: nat, rows: nat, cols: nat, epi: Epilogue, mode: VectorMode) {
    predicate Holds(q: nat) { base <= q < base + Times(rows, cols) && cols > 0 }
    function Row(q: nat): nat requires Holds(q) { Quot(q - base, cols) }
    function Col(q: nat): nat requires Holds(q) { Rem(q - base, cols) }

    /** Vector stores are legal: rows start on 16-byte boundaries. */
    predicate Legal(g: Geom) {
      match mode
      case Scalar => true
      case Checked => g.tn % 4 == 0 && (cols % 4 == 0 ==> base % 4 == 0)
      case Unchecked => g.tn % 4 == 0 && cols % 4 == 0 && base % 4 == 0
      case Unguarded => false
      case Chunked => false
    }
  }

  /** Output cell `q` belongs to tile `t`. */
  predicate InTile(t: Tile, o: Output, q: nat) {
    && o.Holds(q)
    && t.m0 <= o.Row(q) < t.m0 + t.g.BM() && t.n0 <= o.Col(q) < t.n0 + t.g.BN()
  }

  /** The thread, register row and register column that hold cell `q` of the tile. */
  function OwnerOf(t: Tile, o: Output, q: nat): (w: (nat, nat, nat))
    requires t.g.Valid() && InTile(t, o, q)
    ensures w.0 < t.g.Threads() && w.1 < t.g.RegsM() && w.2 < t.g.RegsN()
    ensures o.Row(q) == t.m0 + t.g.RowOf(w.0, w.1) && o.Col(q) == t.n0 + t.g.ColOf(w.0, w.2)
  {
    var r, c := o.Row(q) - t.m0, o.Col(q) - t.n0;
    RegisterOfOwner(t.g, r, c);
    (t.g.OwnerTid(r, c), t.g.OwnerI(r), t.g.OwnerJ(c))
  }

  predicate Before(w: (nat, nat, nat), tid: nat, i: nat, j: nat) {
    w.0 < tid || (w.0 == tid && (w.1 < i || (w.1 == i && w.2 < j)))
  }

  /** Cell `q` of the tile is written before register (i, j) of thread `tid`. */
  predicate StoredBefore(t: Tile, o: Output, q: nat, tid: nat, i: nat, j: nat)
    requires t.g.Valid() && InTile(t, o, q)
  {
    Before(OwnerOf(t, o, q), tid, i, j)
  }

  /** What the epilogue leaves in a cell of the tile. */
  function Final(t: Tile, o: Output, steps: nat, before: Val, q: nat): Val
    requires InTile(t, o, q)
  {
    Apply(o.epi, before, t.Partial(o.Row(q) - t.m0, o.Col(q) - t.n0, steps))
  }

  /** What cell `q` holds when the registers before (tid, i, j) are stored. */
  function CellThen(t: Tile, o: Output, steps: nat, before: Val, q: nat, tid: nat, i: nat, j: nat): Val
    requires t.g.Valid()
  {
    if InTile(t, o, q) && StoredBefore(t, o, q, tid, i, j) then Final(t, o, steps, before, q) else before
  }

  ghost predicate CellsOk(t: Tile, o: Output, steps: nat, c: seq<Val>, c0: seq<Val>, tid: nat, i: nat, j: nat, n: nat)
    requires t.g.Valid() && n <= |c| == |c0|
    decreases n
  {
    n == 0 || (CellsOk(t, o, steps, c, c0, tid, i, j, n - 1)
               && c[n - 1] == CellThen(t, o, steps, c0[n - 1], n - 1, tid, i, j))
  }

  /** `c` is `c0` with the registers before (tid, i, j) stored. */
  ghost predicate Progress(t: Tile, o: Output, steps: nat, c: seq<Val>, c0: seq<Val>, tid: nat, i: nat, j: nat)
    requires t.g.Valid()
  {
    |c| == |c0| && CellsOk(t, o, steps, c, c0, tid, i, j, |c|)
  }

  lemma {:induction false} CellsOkAll(t: Tile, o: Output, steps: nat, c: seq<Val>, c0: seq<Val>, tid: nat, i: nat,
                                      j: nat, n: nat)
    requires t.g.Valid() && n <= |c| == |c0|
    ensures CellsOk(t, o, steps, c, c0, tid, i, j, n)
       <==> forall q :: 0 <= q < n ==> c[q] == CellThen(t, o, steps, c0[q], q, tid, i, j)
    decreases n
  {
    if n > 0 { CellsOkAll(t, o, steps, c, c0, tid, i, j, n - 1); }
  }

  lemma ProgressCells(t: Tile, o: Output, steps: nat, c: seq<Val>, c0: seq<Val>, tid: nat, i: nat, j: nat)
    requires t.g.Valid()
    ensures Progress(t, o, steps, c, c0, tid, i, j)
       <==> |c| == |c0| && forall q :: 0 <= q < |c| ==> c[q] == CellThen(t, o, steps, c0[q], q, tid, i, j)
  {
    if |c| == |c0| { CellsOkAll(t, o, steps, c, c0, tid, i, j, |c|); }
  }

  /** When no cell's turn lies between two moments, progress at one is progress at the other. */
  lemma SameMoment(t: Tile, o: Output, steps: nat, c: seq<Val>, c0: seq<Val>, tid: nat, i: nat, j: nat, tid': nat,
                   i': nat, j': nat)
    requires t.g.Valid() && Progress(t, o, steps, c, c0, tid, i, j)
    requires forall q :: 0 <= q < |c| && InTile(t, o, q) ==>
      StoredBefore(t, o, q, tid, i, j) == StoredBefore(t, o, q, tid', i', j')
    ensures Progress(t, o, steps, c, c0, tid', i', j')
  {
    ProgressCells(t, o, steps, c, c0, tid, i, j);
    forall q | 0 <= q < |c| ensures c[q] == CellThen(t, o, steps, c0[q], q, tid', i', j') {
      assert c[q] == CellThen(t, o, steps, c0[q], q, tid, i, j);
    }
    ProgressCells(t, o, steps, c, c0, tid', i', j');
  }

  /** The address of register (i, j) of a thread, and the fact that it is nobody else's. */
  lemma AddressOf(t: Tile, o: Output, tid: nat, i: nat, j: nat)
    requires t.g.Valid() && tid < t.g.Threads() && i < t.g.RegsM() && j < t.g.RegsN()
    requires t.m0 + t.g.RowOf(tid, i) < o.rows && t.n0 + t.g.ColOf(tid, j) < o.cols
    ensures var q := o.base + Flat(t.m0 + t.g.RowOf(tid, i), o.cols, t.n0 + t.g.ColOf(tid, j));
      && InTile(t, o, q) && o.Row(q) == t.m0 + t.g.RowOf(tid, i) && o.Col(q) == t.n0 + t.g.ColOf(tid, j)
      && !StoredBefore(t, o, q, tid, i, j) && StoredBefore(t, o, q, tid, i, j + 1)
  {
    var r, c := t.g.RowOf(tid, i), t.g.ColOf(tid, j);
    OwnerOfRegister(t.g, tid, i, j);
    CellAddress(o, t.m0 + r, t.n0 + c);
    OwnerIs(t, o, o.base + Flat(t.m0 + r, o.cols, t.n0 + c), r, c);
  }

  lemma OwnerIs(t: Tile, o: Output, q: nat, r: nat, c: nat)
    requires t.g.Valid() && o.Holds(q) && o.Row(q) == t.m0 + r && o.Col(q) == t.n0 + c && r < t.g.BM() && c < t.g.BN()
    ensures t.g.SubM() > 0 && t.g.SubN() > 0 && t.g.WM() > 0 && t.g.WN() > 0
    ensures OwnerOf(t, o, q) == (t.g.OwnerTid(r, c), t.g.OwnerI(r), t.g.OwnerJ(c))
  {
    Positive(t.g);
  }

  lemma CellAddress(o: Output, row: nat, col: nat)
    requires row < o.rows && col < o.cols
    ensures var q := o.base + Flat(row, o.cols, col); o.Holds(q) && o.Row(q) == row && o.Col(q) == col
  {
    FlatInBounds(row, o.rows, o.cols, col);
    FlatDigits(row, o.cols, col);
  }

  /** A cell whose turn is register (i, j) of thread `tid` sits at that register's address. */
  lemma TurnOf(t: Tile, o: Output, q: nat, tid: nat, i: nat, j: nat)
    requires t.g.Valid() && InTile(t, o, q)
    ensures StoredBefore(t, o, q, tid, i, j + 1) && !StoredBefore(t, o, q, tid, i, j) ==>
      && tid < t.g.Threads() && i < t.g.RegsM() && j < t.g.RegsN()
      && o.Row(q) == t.m0 + t.g.RowOf(tid, i) && o.Col(q) == t.n0 + t.g.ColOf(tid, j)
      && o.Row(q) < o.rows
      && q == o.base + Flat(t.m0 + t.g.RowOf(tid, i), o.cols, t.n0 + t.g.ColOf(tid, j))
  {
    DigitsFlat(q - o.base, o.rows, o.cols);
  }

  /** The address of register (i, j), if it is inside the matrix. */
  function AddressAt(t: Tile, o: Output, tid: nat, i: nat, j: nat): nat
    requires t.g.Valid()
  {
    o.base + Flat(t.m0 + t.g.RowOf(tid, i), o.cols, t.n0 + t.g.ColOf(tid, j))
  }

  /** Storing the register at its address is one step of progress. */
  lemma StoreStep(t: Tile, o: Output, steps: nat, c: seq<Val>, c0: seq<Val>, tid: nat, i: nat, j: nat,
                  q: nat, v: Val, next: nat)
    requires t.g.Valid() && tid < t.g.Threads() && i < t.g.RegsM() && j < t.g.RegsN()
    requires t.m0 + t.g.RowOf(tid, i) < o.rows && t.n0 + t.g.ColOf(tid, j) < o.cols
    requires q == AddressAt(t, o, tid, i, j) && v == t.Partial(t.g.RowOf(tid, i), t.g.ColOf(tid, j), steps)
    requires Progress(t, o, steps, c, c0, tid, i, j) && q < |c| && next == j + 1
    ensures Progress(t, o, steps, c[q := Apply(o.epi, c[q], v)], c0, tid, i, next)
  {
    AddressOf(t, o, tid, i, j);
    var c' := c[q := Apply(o.epi, c[q], v)];
    ProgressCells(t, o, steps, c, c0, tid, i, j);
    forall p | 0 <= p < |c| ensures c'[p] == CellThen(t, o, steps, c0[p], p, tid, i, next) {
      assert c[p] == CellThen(t, o, steps, c0[p], p, tid, i, j);
      if p != q { OtherCell(t, o, steps, c0[p], tid, i, j, p); }
    }
    ProgressCells(t, o, steps, c', c0, tid, i, next);
  }

  lemma OtherCell(t: Tile, o: Output, steps: nat, before: Val, tid: nat, i: nat, j: nat, p: nat)
    requires t.g.Valid() && p != AddressAt(t, o, tid, i, j)
    ensures CellThen(t, o, steps, before, p, tid, i, j + 1) == CellThen(t, o, steps, before, p, tid, i, j)
  {
    if InTile(t, o, p) { TurnOf(t, o, p, tid, i, j); }
  }

  /** A register outside the matrix has no cell. */
  lemma SkipStep(t: Tile, o: Output, steps: nat, c: seq<Val>, c0: seq<Val>, tid: nat, i: nat, j: nat)
    requires t.g.Valid() && (t.m0 + t.g.RowOf(tid, i) >= o.rows || t.n0 + t.g.ColOf(tid, j) >= o.cols)
    requires Progress(t, o, steps, c, c0, tid, i, j)
    ensures Progress(t, o, steps, c, c0, tid, i, j + 1)
  {
    forall q | 0 <= q < |c| && InTile(t, o, q)
      ensures StoredBefore(t, o, q, tid, i, j + 1) == StoredBefore(t, o, q, tid, i, j)
    {
      TurnOf(t, o, q, tid, i, j);
    }
    SameMoment(t, o, steps, c, c0, tid, i, j, tid, i, j + 1);
  }

  /** The scalar store of one register, skipped outside the matrix. */
  method StoreOne(t: Tile, o: Output, c: array<Val>, tid: nat, i: nat, j: nat, acc: Val,
                  ghost c0: seq<Val>, ghost steps: nat)
    requires t.g.Valid() && tid < t.g.Threads() && i < t.g.RegsM() && j < t.g.RegsN()
    requires o.base + Times(o.rows, o.cols) <= c.Length
    requires acc == t.Partial(t.g.RowOf(tid, i), t.g.ColOf(tid, j), steps)
    requires Progress(t, o, steps, c[..], c0, tid, i, j)
    modifies c
    ensures Progress(t, o, steps, c[..], c0, tid, i, j + 1)
  {
    var row, col := t.m0 + t.g.RowOf(tid, i), t.n0 + t.g.ColOf(tid, j);
    if row < o.rows && col < o.cols {
      FlatInBounds(row, o.rows, o.cols, col);
      var q := o.base + Flat(row, o.cols, col);
      StoreStep(t, o, steps, c[..], c0, tid, i, j, q, acc, j + 1);
      ghost var before := c[..];
      c[q] := Apply(o.epi, c[q], acc);
      assert c[..] == before[q := Apply(o.epi, before[q], acc)];
    } else {
      SkipStep(t, o, steps, c[..], c0, tid, i, j);
    }
  }

  /** A 16-byte store (with the 16-byte load an accumulating epilogue makes first). */
  method StoreQuad(c: array<Val>, at: nat, e: Epilogue, v: seq<Val>)
    requires |v| == 4 && at % 4 == 0 && at + 4 <= c.Length
    modifies c
    ensures c[..] == RunStored(old(c[..]), at, e, v, 4)
  {
    ghost var before := c[..];
    c[at], c[at + 1] := Apply(e, c[at], v[0]), Apply(e, c[at + 1], v[1]);
    c[at + 2], c[at + 3] := Apply(e, c[at + 2], v[2]), Apply(e, c[at + 3], v[3]);
    RunContents(before, at, e, v, 4);
  }

  /** The first `n` values of `v` stored from address `at` on, one after the other. */
  function RunStored(c: seq<Val>, at: nat, e: Epilogue, v: seq<Val>, n: nat): (r: seq<Val>)
    requires n <= |v| && at + |v| <= |c|
    ensures |r| == |c|
    decreases n
  {
    if n == 0 then c
    else var r := RunStored(c, at, e, v, n - 1); r[at + n - 1 := Apply(e, r[at + n - 1], v[n - 1])]
  }

  lemma {:induction false} RunContents(c: seq<Val>, at: nat, e: Epilogue, v: seq<Val>, n: nat)
    requires n <= |v| && at + |v| <= |c|
    ensures forall q :: 0 <= q < |c| ==>
      RunStored(c, at, e, v, n)[q] == if at <= q < at + n then Apply(e, c[q], v[q - at]) else c[q]
    decreases n
  {
    if n > 0 { RunContents(c, at, e, v, n - 1); }
  }

  lemma QuadArithmetic(base: nat, row: nat, rows: nat, cols: nat, n0: nat, c: nat, e: nat)
    requires base % 4 == 0 && cols % 4 == 0 && n0 % 4 == 0 && c % 4 == 0 && row < rows && n0 + c + 3 < cols
    ensures Flat(row, cols, n0 + c) + e == Flat(row, cols, n0 + (c + e))
    ensures (base + Flat(row, cols, n0 + c)) % 4 == 0 && base + Flat(row, cols, n0 + c) + 4 <= base + Times(rows, cols)
  {
    FlatInBounds(row, rows, cols, n0 + c + 3);
    MulMod4(row, cols);
    SumMod4(n0, c);
    SumMod4(Times(row, cols), n0 + c);
    SumMod4(base, Flat(row, cols, n0 + c));
  }

  /** A quad that lies inside an aligned matrix. */
  predicate QuadInside(t: Tile, o: Output, tid: nat, i: nat, j: nat)
    requires t.g.Valid()
  {
    && o.Legal(t.g) && o.mode != Scalar && o.cols % 4 == 0 && t.n0 % 4 == 0
    && tid < t.g.Threads() && i < t.g.RegsM() && j + 4 <= t.g.RegsN() && j % 4 == 0
    && t.m0 + t.g.RowOf(tid, i) < o.rows && t.n0 + t.g.ColOf(tid, j) + 3 < o.cols
  }

  /** Four registers of one lane land on four consecutive, aligned addresses. */
  lemma QuadAddress(t: Tile, o: Output, tid: nat, i: nat, j: nat, e: nat)
    requires t.g.Valid() && QuadInside(t, o, tid, i, j) && e < 4
    ensures var q := AddressAt(t, o, tid, i, j);
      && q % 4 == 0 && q + 4 <= o.base + Times(o.rows, o.cols)
      && t.g.ColOf(tid, j + e) == t.g.ColOf(tid, j) + e
      && q + e == AddressAt(t, o, tid, i, j + e)
  {
    var row, c := t.m0 + t.g.RowOf(tid, i), t.g.ColOf(tid, j);
    RegisterRun(t.g, tid, j, e);
    QuadArithmetic(o.base, row, o.rows, o.cols, t.n0, c, e);
    AddressIs(t, o, tid, i, j, row, t.n0 + c);
    AddressIs(t, o, tid, i, j + e, row, t.n0 + (c + e));
  }

  lemma AddressIs(t: Tile, o: Output, tid: nat, i: nat, j: nat, row: nat, col: nat)
    requires t.g.Valid() && row == t.m0 + t.g.RowOf(tid, i) && col == t.n0 + t.g.ColOf(tid, j)
    ensures AddressAt(t, o, tid, i, j) == o.base + Flat(row, o.cols, col)
  {
  }

  /** One element of a quad: the register at its place in the run. */
  lemma QuadStep(t: Tile, o: Output, steps: nat, c: seq<Val>, c0: seq<Val>, tid: nat, i: nat, j: nat, e: nat,
                 at: nat, v: Val, next: nat)
    requires t.g.Valid() && QuadInside(t, o, tid, i, j) && e < 4 && o.base + Times(o.rows, o.cols) <= |c|
    requires at == AddressAt(t, o, tid, i, j) && v == t.Partial(t.g.RowOf(tid, i), t.g.ColOf(tid, j + e), steps)
    requires Progress(t, o, steps, c, c0, tid, i, j + e) && next == j + e + 1
    ensures at + 4 <= |c| && Progress(t, o, steps, c[at + e := Apply(o.epi, c[at + e], v)], c0, tid, i, next)
  {
    QuadAddress(t, o, tid, i, j, e);
    assert AddressAt(t, o, tid, i, j + e) == at + e;
    StoreStep(t, o, steps, c, c0, tid, i, j + e, at + e, v, next);
  }

  lemma {:induction false} QuadProgress(t: Tile, o: Output, steps: nat, c: seq<Val>, c0: seq<Val>, tid: nat, i: nat,
                                        j: nat, at: nat, v: seq<Val>, n: nat)
    requires t.g.Valid() && QuadInside(t, o, tid, i, j) && n <= 4 == |v| && at + 4 <= |c|
    requires o.base + Times(o.rows, o.cols) <= |c| && at == AddressAt(t, o, tid, i, j)
    requires forall e :: 0 <= e < 4 ==> v[e] == t.Partial(t.g.RowOf(tid, i), t.g.ColOf(tid, j + e), steps)
    requires Progress(t, o, steps, c, c0, tid, i, j)
    ensures Progress(t, o, steps, RunStored(c, at, o.epi, v, n), c0, tid, i, j + n)
    decreases n
  {
    if n > 0 {
      QuadProgress(t, o, steps, c, c0, tid, i, j, at, v, n - 1);
      QuadStep(t, o, steps, RunStored(c, at, o.epi, v, n - 1), c0, tid, i, j, n - 1, at, v[n - 1], j + n);
    }
  }

  /** The vector store of registers (i, j .. j + 3), taken when the quad is inside an aligned matrix. */
  method StoreFour(t: Tile, o: Output, c: array<Val>, tid: nat, i: nat, j: nat, v: seq<Val>,
                   ghost c0: seq<Val>, ghost steps: nat)
    requires t.g.Valid() && QuadInside(t, o, tid, i, j) && |v| == 4
    requires o.base + Times(o.rows, o.cols) <= c.Length
    requires forall e :: 0 <= e < 4 ==> v[e] == t.Partial(t.g.RowOf(tid, i), t.g.ColOf(tid, j + e), steps)
    requires Progress(t, o, steps, c[..], c0, tid, i, j)
    modifies c
    ensures Progress(t, o, steps, c[..], c0, tid, i, j + 4)
  {
    var at := AddressAt(t, o, tid, i, j);
    QuadAddress(t, o, tid, i, j, 0);
    QuadProgress(t, o, steps, c[..], c0, tid, i, j, at, v, 4);
    StoreQuad(c, at, o.epi, v);
  }

  /** All registers of one thread. The quad is stored at once when the source's test allows it. */
  method StoreThread(t: Tile, o: Output, c: array<Val>, tid: nat, f: Registers, ghost c0: seq<Val>, ghost steps: nat)
    requires t.g.Valid() && o.Legal(t.g) && t.n0 % 4 == 0 && tid < t.g.Threads() && HoldsChain(t, f, tid, steps)
    requires o.base + Times(o.rows, o.cols) <= c.Length
    requires Progress(t, o, steps, c[..], c0, tid, 0, 0)
    modifies c
    ensures Progress(t, o, steps, c[..], c0, tid + 1, 0, 0)
  {
    for i := 0 to t.g.RegsM()
      invariant Progress(t, o, steps, c[..], c0, tid, i, 0)
    {
      StoreRow(t, o, c, tid, i, f, c0, steps);
      NextTurn(t, o, steps, c[..], c0, tid, i);
    }
    NextThreadTurn(t, o, steps, c[..], c0, tid);
  }

  method StoreRow(t: Tile, o: Output, c: array<Val>, tid: nat, i: nat, f: Registers,
                  ghost c0: seq<Val>, ghost steps: nat)
    requires t.g.Valid() && o.Legal(t.g) && t.n0 % 4 == 0 && tid < t.g.Threads() && i < t.g.RegsM()
    requires HoldsChain(t, f, tid, steps) && o.base + Times(o.rows, o.cols) <= c.Length
    requires Progress(t, o, steps, c[..], c0, tid, i, 0)
    modifies c
    ensures Progress(t, o, steps, c[..], c0, tid, i, t.g.RegsN())
  {
    var row := t.m0 + t.g.RowOf(tid, i);
    ChainRows(t, f, tid, steps);
    assert RowHolds(t, f[i], tid, i, steps);
    if o.mode != Scalar { MulMod4(t.g.iterN, t.g.tn); }
    var j := 0;
    while j < t.g.RegsN()
      invariant j <= t.g.RegsN() && (o.mode != Scalar ==> j % 4 == 0)
      invariant Progress(t, o, steps, c[..], c0, tid, i, j)
    {
      var col := t.n0 + t.g.ColOf(tid, j);
      if o.mode != Scalar { NextQuad(j, t.g.RegsN()); }
      if o.mode != Scalar && row < o.rows && col + 3 < o.cols && (o.mode == Unchecked || o.cols % 4 == 0) {
        StoreFour(t, o, c, tid, i, j, f[i][j..j + 4], c0, steps);
        j := j + 4;
      } else {
        var last := if o.mode == Scalar then j + 1 else j + 4;
        StoreSingles(t, o, c, tid, i, j, last, f[i], c0, steps);
        j := last;
      }
    }
  }

  /** Registers (i, from .. to) one at a time. */
  method StoreSingles(t: Tile, o: Output, c: array<Val>, tid: nat, i: nat, from: nat, to: nat, row: seq<Val>,
                      ghost c0: seq<Val>, ghost steps: nat)
    requires t.g.Valid() && tid < t.g.Threads() && i < t.g.RegsM() && from <= to <= t.g.RegsN()
    requires RowHolds(t, row, tid, i, steps) && o.base + Times(o.rows, o.cols) <= c.Length
    requires Progress(t, o, steps, c[..], c0, tid, i, from)
    modifies c
    ensures Progress(t, o, steps, c[..], c0, tid, i, to)
  {
    for j := from to to
      invariant Progress(t, o, steps, c[..], c0, tid, i, j)
    {
      StoreOne(t, o, c, tid, i, j, row[j], c0, steps);
    }
  }

  lemma NextTurn(t: Tile, o: Output, steps: nat, c: seq<Val>, c0: seq<Val>, tid: nat, i: nat)
    requires t.g.Valid() && Progress(t, o, steps, c, c0, tid, i, t.g.RegsN())
    ensures Progress(t, o, steps, c, c0, tid, i + 1, 0)
  {
    forall q | 0 <= q < |c| && InTile(t, o, q)
      ensures StoredBefore(t, o, q, tid, i + 1, 0) == StoredBefore(t, o, q, tid, i, t.g.RegsN())
    {
      var _ := OwnerOf(t, o, q);
    }
    SameMoment(t, o, steps, c, c0, tid, i, t.g.RegsN(), tid, i + 1, 0);
  }

  lemma NextThreadTurn(t: Tile, o: Output, steps: nat, c: seq<Val>, c0: seq<Val>, tid: nat)
    requires t.g.Valid() && Progress(t, o, steps, c, c0, tid, t.g.RegsM(), 0)
    ensures Progress(t, o, steps, c, c0, tid + 1, 0, 0)
  {
    forall q | 0 <= q < |c| && InTile(t, o, q)
      ensures StoredBefore(t, o, q, tid + 1, 0, 0) == StoredBefore(t, o, q, tid, t.g.RegsM(), 0)
    {
      var _ := OwnerOf(t, o, q);
    }
    SameMoment(t, o, steps, c, c0, tid, t.g.RegsM(), 0, tid + 1, 0, 0);
  }

  /** The whole epilogue: every cell of the tile that lies inside the matrix gets its final value, exactly
      once, and nothing else is written. */
  method StoreTile(t: Tile, o: Output, c: array<Val>, regs: array<Registers>, ghost steps: nat)
    requires t.g.Valid() && o.Legal(t.g) && t.n0 % 4 == 0 && AllHold(t, regs, steps)
    requires o.base + Times(o.rows, o.cols) <= c.Length
    modifies c
    ensures forall q :: 0 <= q < c.Length ==>
      c[q] == if InTile(t, o, q) then Final(t, o, steps, old(c[q]), q) else old(c[q])
  {
    ghost var c0 := c[..];
    StartOfStore(t, o, steps, c0);
    for tid := 0 to regs.Length
      invariant Progress(t, o, steps, c[..], c0, tid, 0, 0)
      invariant regs[..] == old(regs[..])
    {
      StoreThread(t, o, c, tid, regs[tid], c0, steps);
    }
    EndOfStore(t, o, steps, c[..], c0);
  }

  lemma StartOfStore(t: Tile, o: Output, steps: nat, c0: seq<Val>)
    requires t.g.Valid()
    ensures Progress(t, o, steps, c0, c0, 0, 0, 0)
  {
    ProgressCells(t, o, steps, c0, c0, 0, 0, 0);
  }

  lemma EndOfStore(t: Tile, o: Output, steps: nat, c: seq<Val>, c0: seq<Val>)
    requires t.g.Valid() && Progress(t, o, steps, c, c0, t.g.Threads(), 0, 0)
    ensures |c| == |c0| && forall q :: 0 <= q < |c| ==>
      c[q] == if InTile(t, o, q) then Final(t, o, steps, c0[q], q) else c0[q]
  {
    ProgressCells(t, o, steps, c, c0, t.g.Threads(), 0, 0);
    forall q | 0 <= q < |c|
      ensures c[q] == if InTile(t, o, q) then Final(t, o, steps, c0[q], q) else c0[q]
    {
      assert c[q] == CellThen(t, o, steps, c0[q], q, t.g.Threads(), 0, 0);
      if InTile(t, o, q) { var _ := OwnerOf(t, o, q); }
    }
  }
}
