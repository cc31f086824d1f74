/** The kernels without tiles of their own: ultra-thin and vector products, the reducers of the split routes,
    the tail-column filler, the transposition and the casts. */
module SmallKernels {
  import opened Numerics
  import opened Terms
  import opened Operands
  import opened Plans
  import opened Kernels

  // ---- ultra-thin: one CTA per row and 32 columns, eight warps over eight slabs ----

  /** The CTA's row is staged by all 256 threads, each striding over it. */
  method StageRow(x: Operand, m: nat) returns (smem: array<Val>)
    ensures fresh(smem) && smem.Length == x.red
    ensures forall k :: 0 <= k < x.red ==> smem[k] == At(x, m, k)
  {
    smem := new Val[x.red];
    for tid := 0 to 256
      invariant forall k :: 0 <= k < x.red && Rem(k, 256) < tid ==> smem[k] == At(x, m, k)
    {
      var k: nat := tid;
      while k < x.red
        invariant Rem(k, 256) == tid
        invariant forall k' :: 0 <= k' < x.red && Rem(k', 256) < tid ==> smem[k'] == At(x, m, k')
        invariant forall k' :: 0 <= k' < k && k' < x.red && Rem(k', 256) == tid ==> smem[k'] == At(x, m, k')
      {
        smem[k] := At(x, m, k);
        StrideGap(k, 256);
        k := k + 256;
      }
    }
  }

  /** Warp `i`'s partial for one column. */
  method SlabPartial(x: Operand, w: Operand, m: nat, n: nat, i: nat, smem: array<Val>) returns (acc: Val)
    requires x.red == w.red == smem.Length && i < 8
    requires forall k :: 0 <= k < x.red ==> smem[k] == At(x, m, k)
    ensures acc == Slab(x, w, m, n, i)
  {
    var perWarp := DivCeil(x.red, 8);
    var start := Times(i, perWarp);
    var end: nat := if start + perWarp > x.red then x.red else start + perWarp;
    SlabSpan(x.red, i);
    acc := SpanDot(x, w, m, n, start, end, smem);
  }

  /** A thread's loop over its span, which is empty when it starts behind the end. */
  method SpanDot(x: Operand, w: Operand, m: nat, n: nat, start: nat, end: nat, smem: array<Val>) returns (acc: Val)
    requires end <= x.red == smem.Length && forall k :: 0 <= k < x.red ==> smem[k] == At(x, m, k)
    ensures acc == Chain(Zero, x, w, m, n, start, if start < end then end - start else 0)
  {
    acc := Zero;
    var k := start;
    while k < end
      invariant start <= k && (k <= end || k == start)
      invariant acc == Chain(Zero, x, w, m, n, start, k - start)
    {
      acc := Fma(smem[k], At(w, n, k), acc);
      k := k + 1;
    }
  }

  /** Where warp `i` starts and stops. */
  lemma SlabSpan(red: nat, i: nat)
    ensures var perWarp := DivCeil(red, 8); var start := Times(i, perWarp);
      if start <= red then SlabLo(red, i) == start && SlabLo(red, i + 1) == Min(start + perWarp, red)
      else SlabLo(red, i) == red && SlabLo(red, i + 1) == red
  {
    TimesSucc(i, DivCeil(red, 8));
  }

  /** Row `m` of the product, as the plan defines it. */
  function ThinRow(x: Operand, w: Operand, seed: Seed, m: nat): (r: seq<Val>)
    requires x.red == w.red && (seed.Bias? ==> |seed.values| >= w.outer)
    ensures |r| == w.outer && forall n :: 0 <= n < w.outer ==> r[n] == Value(EightSlabs, x, w, seed, m, n)
  {
    seq(w.outer, n requires 0 <= n < w.outer => Value(EightSlabs, x, w, seed, m, n))
  }

  /** `y` is `y0` with elements [lo, hi) of `row` emitted from index `base` on. */
  ghost predicate Emitted(y: seq<Val>, y0: seq<Val>, base: nat, row: seq<Val>, half: bool, lo: nat, hi: nat)
    requires hi <= |row|
  {
    && |y| == |y0|
    && forall q :: 0 <= q < |y| ==>
         y[q] == if base + lo <= q < base + hi then Emit(OutEpilogue(NN, half), y0[q], row[q - base]) else y0[q]
  }

  lemma EmitOne(y: seq<Val>, y0: seq<Val>, base: nat, row: seq<Val>, half: bool, lo: nat, n: nat)
    requires lo <= n < |row| && base + n < |y| && Emitted(y, y0, base, row, half, lo, n)
    ensures Emitted(y[base + n := Emit(OutEpilogue(NN, half), y[base + n], row[n])], y0, base, row, half, lo, n + 1)
  {
  }

  /** A row emitted behind the rows before it. */
  lemma EmitRow(y: seq<Val>, y1: seq<Val>, y0: seq<Val>, rows: seq<Val>, row: seq<Val>, half: bool)
    requires Emitted(y1, y0, 0, rows, half, 0, |rows|) && Emitted(y, y1, |rows|, row, half, 0, |row|)
    ensures Emitted(y, y0, 0, rows + row, half, 0, |rows + row|)
  {
  }

  /** The first `m` of some rows of width `s`, one after the other. */
  function Stacked(rows: seq<seq<Val>>, s: nat, m: nat): (r: seq<Val>)
    requires m <= |rows| && forall i :: 0 <= i < |rows| ==> |rows[i]| == s
    ensures |r| == Times(m, s)
    decreases m
  {
    if m == 0 then [] else Stacked(rows, s, m - 1) + rows[m - 1]
  }

  lemma {:induction false} StackedAt(rows: seq<seq<Val>>, s: nat, m: nat, i: nat, n: nat)
    requires m <= |rows| && (forall i :: 0 <= i < |rows| ==> |rows[i]| == s) && i < m && n < s
    ensures Flat(i, s, n) < Times(m, s) && Stacked(rows, s, m)[Flat(i, s, n)] == rows[i][n]
    decreases m
  {
    if i < m - 1 { StackedAt(rows, s, m - 1, i, n); }
  }

  /** All rows of the product, as the plan defines them. */
  function AllRows(x: Operand, w: Operand, seed: Seed): (r: seq<seq<Val>>)
    requires x.red == w.red && (seed.Bias? ==> |seed.values| >= w.outer)
    ensures |r| == x.outer && forall i :: 0 <= i < |r| ==> r[i] == ThinRow(x, w, seed, i) && |r[i]| == w.outer
  {
    seq(x.outer, i requires 0 <= i => ThinRow(x, w, seed, i))
  }

  /** The stacked rows hold the values of the plan. */
  lemma RowsHoldValues(x: Operand, w: Operand, seed: Seed, q: nat)
    requires x.red == w.red && w.outer > 0 && (seed.Bias? ==> |seed.values| >= w.outer) && q < Times(x.outer, w.outer)
    ensures Stacked(AllRows(x, w, seed), w.outer, x.outer)[q]
         == Value(EightSlabs, x, w, seed, Quot(q, w.outer), Rem(q, w.outer))
  {
    DigitsFlat(q, x.outer, w.outer);
    StackedAt(AllRows(x, w, seed), w.outer, x.outer, Quot(q, w.outer), Rem(q, w.outer));
  }

  /** One CTA: the columns [32 * t, 32 * t + 32) of row `m`. */
  method UltraThinCta(x: Operand, w: Operand, seed: Seed, half: bool, m: nat, t: nat, y: array<Val>,
                      base: nat, ghost row: seq<Val>)
    requires x.red == w.red && base + w.outer <= y.Length && 32 * t <= w.outer
    requires (seed.Bias? ==> |seed.values| >= w.outer) && row == ThinRow(x, w, seed, m)
    modifies y
    ensures Emitted(y[..], old(y[..]), base, row, half, 32 * t, Min(32 * t + 32, w.outer))
  {
    var smem := StageRow(x, m);
    for lane := 0 to 32
      invariant forall k :: 0 <= k < x.red ==> smem[k] == At(x, m, k)
      invariant Emitted(y[..], old(y[..]), base, row, half, 32 * t, Min(32 * t + lane, w.outer))
    {
      ThinLane(x, w, seed, half, m, 32 * t, 32 * t + lane, y, base, smem, row, old(y[..]));
    }
  }

  /** Lane `col - lo` of warp 0: its column's partials, reduced and stored if the column exists. */
  method ThinLane(x: Operand, w: Operand, seed: Seed, half: bool, m: nat, ghost lo: nat, col: nat, y: array<Val>,
                  base: nat, smem: array<Val>, ghost row: seq<Val>, ghost y0: seq<Val>)
    requires x.red == w.red == smem.Length && base + w.outer <= y.Length && lo <= col && lo <= w.outer && y != smem
    requires (seed.Bias? ==> |seed.values| >= w.outer) && row == ThinRow(x, w, seed, m)
    requires forall k :: 0 <= k < x.red ==> smem[k] == At(x, m, k)
    requires Emitted(y[..], y0, base, row, half, lo, Min(col, w.outer))
    modifies y
    ensures Emitted(y[..], y0, base, row, half, lo, Min(col + 1, w.outer))
  {
    if col < w.outer {
      var v := UltraThinCell(x, w, seed, m, col, smem);
      EmitLane(half, lo, col, y, base, row, v, y0);
    }
  }

  /** One lane's store. */
  method EmitLane(half: bool, ghost lo: nat, n: nat, y: array<Val>, base: nat, ghost row: seq<Val>, v: Val,
                  ghost y0: seq<Val>)
    requires lo <= n < |row| && base + n < y.Length && v == row[n] && Emitted(y[..], y0, base, row, half, lo, n)
    modifies y
    ensures Emitted(y[..], y0, base, row, half, lo, n + 1)
  {
    EmitOne(y[..], y0, base, row, half, lo, n);
    ghost var y1 := y[..];
    y[base + n] := Emit(OutEpilogue(NN, half), y[base + n], v);
    assert y[..] == y1[base + n := Emit(OutEpilogue(NN, half), y1[base + n], row[n])];
  }

  /** The eight partials of a column, reduced by warp 0. */
  method UltraThinCell(x: Operand, w: Operand, seed: Seed, m: nat, n: nat, smem: array<Val>) returns (v: Val)
    requires x.red == w.red == smem.Length && (seed.Bias? ==> n < |seed.values|)
    requires forall k :: 0 <= k < x.red ==> smem[k] == At(x, m, k)
    ensures v == Value(EightSlabs, x, w, seed, m, n)
    ensures if seed.Bias? then v.Add? && v.a.Mul? && v.b == seed.values[n] else v.Mul?
  {
    var p: seq<Val> := [];
    for i := 0 to 8
      invariant |p| == i && forall j :: 0 <= j < i ==> p[j] == Slab(x, w, m, n, j)
    {
      var acc := SlabPartial(x, w, m, n, i, smem);
      p := p + [acc];
    }
    assert p == Slabs(x, w, m, n);
    var sum := AddPartials(p);
    v := Mul(One, sum);
    if seed.Bias? { v := Add(v, seed.values[n]); }
  }

  /** The eight partials of a column, added in pairs. */
  method AddPartials(p: seq<Val>) returns (sum: Val)
    requires |p| == 8
    ensures sum == PairTree(p)
  {
    var s01, s23, s45, s67 := Add(p[0], p[1]), Add(p[2], p[3]), Add(p[4], p[5]), Add(p[6], p[7]);
    var s0123, s4567 := Add(s01, s23), Add(s45, s67);
    sum := Add(s0123, s4567);
    TreeOfEight(p);
  }

  method UltraThinRow(x: Operand, w: Operand, seed: Seed, half: bool, m: nat, y: array<Val>, base: nat,
                      ghost row: seq<Val>)
    requires x.red == w.red && base + w.outer <= y.Length
    requires (seed.Bias? ==> |seed.values| >= w.outer) && row == ThinRow(x, w, seed, m)
    modifies y
    ensures Emitted(y[..], old(y[..]), base, row, half, 0, w.outer)
  {
    TimesIs(DivCeil(w.outer, 32), 32);
    for t := 0 to DivCeil(w.outer, 32)
      invariant Emitted(y[..], old(y[..]), base, row, half, 0, Min(32 * t, w.outer))
    {
      UltraThinCta(x, w, seed, half, m, t, y, base, row);
    }
  }

  /** The ultra-thin kernel refines its plan. */
  method UltraThin(x: Operand, w: Operand, seed: Seed, half: bool, y: array<Val>)
    requires x.red == w.red && w.outer > 0 && Times(x.outer, w.outer) <= y.Length
    requires seed.Bias? ==> |seed.values| >= w.outer
    modifies y
    ensures forall q :: 0 <= q < y.Length ==>
      y[q] == if q < Times(x.outer, w.outer)
              then Emit(OutEpilogue(NN, half), old(y[q]),
                        Value(EightSlabs, x, w, seed, Quot(q, w.outer), Rem(q, w.outer)))
              else old(y[q])
  {
    ghost var rows := AllRows(x, w, seed);
    for m := 0 to x.outer
      invariant Emitted(y[..], old(y[..]), 0, Stacked(rows, w.outer, m), half, 0, Times(m, w.outer))
    {
      TimesLess(m + 1, x.outer, w.outer);
      ghost var y1 := y[..];
      UltraThinRow(x, w, seed, half, m, y, Times(m, w.outer), rows[m]);
      EmitRow(y[..], y1, old(y[..]), Stacked(rows, w.outer, m), rows[m], half);
    }
    forall q | 0 <= q < Times(x.outer, w.outer)
      ensures Stacked(rows, w.outer, x.outer)[q] == Value(EightSlabs, x, w, seed, Quot(q, w.outer), Rem(q, w.outer))
    {
      RowsHoldValues(x, w, seed, q);
    }
  }

  // ---- vector products: one warp per output element ----

  /** No index of [a, b) belongs to the lane. */
  lemma {:induction false} LaneSkip(x: Operand, w: Operand, m: nat, n: nat, lane: nat, a: nat, b: nat)
    requires a <= b && forall k :: a <= k < b ==> k % 32 != lane
    ensures LaneChain(x, w, m, n, lane, b) == LaneChain(x, w, m, n, lane, a)
    decreases b
  {
    if a < b { LaneSkip(x, w, m, n, lane, a, b - 1); }
  }

  /** One stride of a lane: the index it reaches, then 31 that are not its own. */
  lemma LaneStride(x: Operand, w: Operand, m: nat, n: nat, lane: nat, k: nat)
    requires k % 32 == lane
    ensures (k + 32) % 32 == lane
    ensures LaneChain(x, w, m, n, lane, k + 32) == Fma(At(x, m, k), At(w, n, k), LaneChain(x, w, m, n, lane, k))
  {
    LaneSkip(x, w, m, n, lane, k + 1, k + 32);
  }

  /** A lane strides over the reduction axis. */
  method LaneAccumulate(x: Operand, w: Operand, m: nat, n: nat, lane: nat) returns (acc: Val)
    requires lane < 32 && x.red == w.red
    ensures acc == LaneChain(x, w, m, n, lane, x.red)
  {
    acc := Zero;
    var k := lane;
    LaneSkip(x, w, m, n, lane, 0, lane);
    while k < x.red
      invariant k % 32 == lane && k < x.red + 32
      invariant acc == LaneChain(x, w, m, n, lane, k)
    {
      acc := Fma(At(x, m, k), At(w, n, k), acc);
      LaneStride(x, w, m, n, lane, k);
      k := k + 32;
    }
    LaneEnd(x, w, m, n, lane, k);
  }

  lemma LaneEnd(x: Operand, w: Operand, m: nat, n: nat, lane: nat, k: nat)
    requires k % 32 == lane && x.red <= k < x.red + 32
    ensures LaneChain(x, w, m, n, lane, k) == LaneChain(x, w, m, n, lane, x.red)
  {
    LaneSkip(x, w, m, n, lane, x.red, k);
  }

  /** The lane whose number differs from `l` in the bit `off` alone. */
  function Partner(l: nat, off: nat): (p: nat)
    requires l < 32 && off in {1, 2, 4, 8, 16}
    ensures p < 32
  {
    if (l / off) % 2 == 0 then l + off else l - off
  }

  /** One exchange: every lane adds its partner's value. */
  method Exchange(a: seq<Val>, off: nat) returns (b: seq<Val>)
    requires |a| == 32 && off in {1, 2, 4, 8, 16}
    ensures |b| == 32 && forall l :: 0 <= l < 32 ==> b[l] == Add(a[l], a[Partner(l, off)])
  {
    b := seq(32, l requires 0 <= l < 32 => Add(a[l], a[Partner(l, off)]));
  }

  /** The xor-butterfly over a warp leaves lane 0 with the halving tree. */
  method Butterfly(a: seq<Val>) returns (v: Val)
    requires |a| == 32
    ensures v == Tree(a)
  {
    var b, off := a, 16;
    assert b[..32] == a;
    while off > 0
      invariant off in {0, 1, 2, 4, 8, 16} && |b| == 32
      invariant off > 0 ==> Tree(b[..2 * off]) == Tree(a)
      invariant off == 0 ==> Tree(b[..1]) == Tree(a)
    {
      ghost var b0 := b;
      b := Exchange(b, off);
      assert b[..off] == Halve(b0[..2 * off]);
      off := off / 2;
    }
    v := b[0];
  }

  /** One warp: 32 strided chains, then the butterfly. */
  method WarpDot(x: Operand, w: Operand, m: nat, n: nat) returns (v: Val)
    requires x.red == w.red
    ensures v == Tree(Lanes(x, w, m, n, x.red))
  {
    var a: seq<Val> := [];
    for lane := 0 to 32
      invariant |a| == lane && forall l :: 0 <= l < lane ==> a[l] == LaneChain(x, w, m, n, l, x.red)
    {
      var acc := LaneAccumulate(x, w, m, n, lane);
      a := a + [acc];
    }
    assert a == Lanes(x, w, m, n, x.red);
    v := Butterfly(a);
  }

  /** The NN and TN vector kernels: four output rows per CTA, one column. */
  method Gemv(op: Op, x: Operand, w: Operand, seed: Seed, half: bool, c: array<Val>)
    requires x.red == w.red && w.outer == 1 && x.outer <= c.Length
    requires seed.Bias? ==> |seed.values| >= 1 && op.NN?
    modifies c
    ensures forall q :: 0 <= q < c.Length ==>
      c[q] == if q < x.outer then Emit(OutEpilogue(op, half), old(c[q]), Value(Strided, x, w, seed, q, 0))
                             else old(c[q])
  {
    for block := 0 to DivCeil(x.outer, 4)
      invariant forall q :: 0 <= q < c.Length ==>
        c[q] == if q < x.outer && q < 4 * block
                then Emit(OutEpilogue(op, half), old(c[q]), Value(Strided, x, w, seed, q, 0)) else old(c[q])
    {
      for warp := 0 to 4
        invariant forall q :: 0 <= q < c.Length ==>
          c[q] == if q < x.outer && q < 4 * block + warp
                  then Emit(OutEpilogue(op, half), old(c[q]), Value(Strided, x, w, seed, q, 0)) else old(c[q])
      {
        var row: nat := 4 * block + warp;
        if row < x.outer {
          var acc := WarpDot(x, w, row, 0);
          var v := Mul(One, acc);
          if seed.Bias? { v := Add(v, seed.values[0]); }
          c[row] := Emit(OutEpilogue(op, half), c[row], v);
        }
      }
    }
  }

  /** The NT vector kernel: an outer product, one thread per element. */
  method OuterProduct(x: Operand, w: Operand, half: bool, c: array<Val>)
    requires x.red == w.red == 1 && w.outer > 0 && Times(x.outer, w.outer) <= c.Length
    modifies c
    ensures forall q :: 0 <= q < c.Length ==>
      c[q] == if q < Times(x.outer, w.outer)
              then Emit(OutEpilogue(NT, half), old(c[q]), Value(Outer, x, w, NoBias, Quot(q, w.outer), Rem(q, w.outer)))
              else old(c[q])
  {
    var total := Times(x.outer, w.outer);
    for tid := 0 to total
      invariant forall q :: 0 <= q < c.Length ==>
        c[q] == if q < tid
                then Emit(OutEpilogue(NT, half), old(c[q]),
                          Value(Outer, x, w, NoBias, Quot(q, w.outer), Rem(q, w.outer)))
                else old(c[q])
    {
      var m: nat, k: nat := Quot(tid, w.outer), Rem(tid, w.outer);
      DigitsFlat(tid, x.outer, w.outer);
      c[Flat(m, w.outer, k)] := Emit(OutEpilogue(NT, half), c[tid], Mul(Mul(One, At(x, m, 0)), At(w, k, 0)));
    }
  }

  // ---- reducers ----

  /** The partials of a cut problem are the chunks of the original one. */
  lemma PieceOfCut(x: Operand, w: Operand, m: nat, n: nat, chunk: nat, main: nat, bk: nat, f: nat)
    requires bk > 0 && chunk > 0 && main <= x.red && main <= w.red && f < DivCeil(main, chunk)
    ensures Piece(Cut(x, main), Cut(w, main), m, n, chunk, main, bk, f) == Piece(x, w, m, n, chunk, main, bk, f)
  {
    ChunkNonEmpty(chunk, main, f);
  }

  /** One thread of the split-K reducer: partials in ascending order, then the tail, one step at a time. */
  method ReduceCell(x: Operand, w: Operand, seed: Seed, chunk: nat, main: nat, bk: nat, partial: array<Val>, m: nat,
                    n: nat)
    returns (v: Val)
    requires x.red == w.red && Split(chunk, main, bk).Fits(x.red) && m < x.outer && n < w.outer
    requires !x.half && !w.half && !x.redMajor && w.redMajor
    requires HoldsPieces(partial[..], Cut(x, main), Cut(w, main), chunk, bk)
    requires seed.Bias? ==> |seed.values| >= w.outer
    ensures v == Value(Split(chunk, main, bk), x, w, seed, m, n)
    ensures if seed.Bias? then v.Add? && v.a.Mul? && v.b == seed.values[n] else v.Mul?
  {
    var stride, idx := Times(x.outer, w.outer), Flat(m, w.outer, n);
    var slot := ReadPiece(x, w, chunk, main, bk, partial, m, n, 0);
    var sum := slot;
    for kc := 1 to DivCeil(main, chunk)
      invariant sum == PieceSum(x, w, m, n, chunk, main, bk, kc)
    {
      slot := ReadPiece(x, w, chunk, main, bk, partial, m, n, kc);
      sum := Add(sum, slot);
    }
    sum := FoldTail(x, w, main, m, n, sum);
    v := Mul(sum, One);
    if seed.Bias? { v := Add(v, seed.values[n]); }
  }

  method ReadPiece(x: Operand, w: Operand, chunk: nat, main: nat, bk: nat, partial: array<Val>, m: nat, n: nat, f: nat)
    returns (v: Val)
    requires bk > 0 && chunk > 0 && main <= x.red && main <= w.red && m < x.outer && n < w.outer
    requires f < DivCeil(main, chunk)
    requires HoldsPieces(partial[..], Cut(x, main), Cut(w, main), chunk, bk)
    ensures v == Piece(x, w, m, n, chunk, main, bk, f)
  {
    assert SlotIndex(Cut(x, main), Cut(w, main), f, m, n) < |partial[..]|;
    PieceOfCut(x, w, m, n, chunk, main, bk, f);
    v := partial[Flat(f, Times(x.outer, w.outer), Flat(m, w.outer, n))];
  }

  /** The tail pointers of the reducer: row `m` from column `main` on, and row `main` on of the right operand. */
  method FoldTail(x: Operand, w: Operand, main: nat, m: nat, n: nat, sum0: Val) returns (sum: Val)
    requires x.red == w.red && main <= x.red && m < x.outer && n < w.outer
    requires !x.half && !w.half && !x.redMajor && w.redMajor
    ensures sum == Chain(sum0, x, w, m, n, main, x.red - main)
  {
    sum := sum0;
    for k := 0 to x.red - main
      invariant sum == Chain(sum0, x, w, m, n, main, k)
    {
      IndexInBounds(x, m, main + k);
      IndexInBounds(w, n, main + k);
      TimesSum(main, k, w.ld);
      sum := Fma(x.data[main + Flat(m, x.ld, k)], w.data[Times(main, w.ld) + Flat(k, w.ld, n)], sum);
    }
  }

  /** Output index `q` is column n < `cols` of a row of stride `stride`. */
  predicate Covered(q: nat, rows: nat, cols: nat, stride: nat)
    requires stride > 0
  {
    q < Times(rows, stride) && Rem(q, stride) < cols
  }

  /** The split-K reducer: every output gets the value of the split plan, and the columns between `w.outer` and
      the output stride keep what they held. */
  method SplitkReduce(x: Operand, w: Operand, seed: Seed, chunk: nat, main: nat, bk: nat, partial: array<Val>,
                      stride: nat, c: array<Val>)
    requires x.red == w.red && Split(chunk, main, bk).Fits(x.red)
    requires !x.half && !w.half && !x.redMajor && w.redMajor
    requires HoldsPieces(partial[..], Cut(x, main), Cut(w, main), chunk, bk)
    requires seed.Bias? ==> |seed.values| >= w.outer
    requires 0 < w.outer <= stride && Times(x.outer, stride) <= c.Length && c != partial
    modifies c
    ensures forall q :: 0 <= q < c.Length ==>
      c[q] == if Covered(q, x.outer, w.outer, stride)
              then Value(Split(chunk, main, bk), x, w, seed, Quot(q, stride), Rem(q, stride)) else old(c[q])
  {
    for m := 0 to x.outer
      invariant forall q :: 0 <= q < c.Length ==>
        c[q] == if q < Times(m, stride) && Rem(q, stride) < w.outer
                then Value(Split(chunk, main, bk), x, w, seed, Quot(q, stride), Rem(q, stride)) else old(c[q])
    {
      TimesLess(m + 1, x.outer, stride);
      TimesSucc(m, stride);
      ReduceRow(x, w, seed, chunk, main, bk, partial, stride, c, m);
    }
  }

  /** The threads of one output row. */
  method ReduceRow(x: Operand, w: Operand, seed: Seed, chunk: nat, main: nat, bk: nat, partial: array<Val>,
                   stride: nat, c: array<Val>, m: nat)
    requires x.red == w.red && Split(chunk, main, bk).Fits(x.red)
    requires !x.half && !w.half && !x.redMajor && w.redMajor
    requires HoldsPieces(partial[..], Cut(x, main), Cut(w, main), chunk, bk)
    requires seed.Bias? ==> |seed.values| >= w.outer
    requires w.outer <= stride && m < x.outer && Times(m, stride) + stride <= c.Length && c != partial && stride > 0
    modifies c
    ensures forall q :: 0 <= q < c.Length ==>
      c[q] == if Times(m, stride) <= q < Times(m, stride) + stride && Rem(q, stride) < w.outer
              then Value(Split(chunk, main, bk), x, w, seed, Quot(q, stride), Rem(q, stride)) else old(c[q])
  {
    ghost var p := Split(chunk, main, bk);
    ReduceColumns(x, w, seed, chunk, main, bk, partial, Times(m, stride), c, m, ReducedRow(x, w, seed, p, m, w.outer));
    RowDone(c[..], old(c[..]), ReducedRow(x, w, seed, p, m, w.outer), m, stride);
    forall n | 0 <= n < w.outer ensures ReducedRow(x, w, seed, p, m, w.outer)[n] == Value(p, x, w, seed, m, n) {
      ReducedAt(x, w, seed, p, m, w.outer, n);
    }
  }

  /** A row written from its start on, in terms of the output's own indices. */
  lemma RowDone(c: seq<Val>, c0: seq<Val>, row: seq<Val>, m: nat, stride: nat)
    requires |row| <= stride && Times(m, stride) + stride <= |c| == |c0| && stride > 0
    requires forall q :: Times(m, stride) <= q < Times(m, stride) + |row| ==> c[q] == row[q - Times(m, stride)]
    requires forall q :: 0 <= q < Times(m, stride) || Times(m, stride) + |row| <= q < |c| ==> c[q] == c0[q]
    ensures forall q :: Times(m, stride) <= q < Times(m, stride) + stride ==> Quot(q, stride) == m
    ensures forall q :: 0 <= q < |c| ==>
      c[q] == if Times(m, stride) <= q < Times(m, stride) + stride && Rem(q, stride) < |row|
              then row[Rem(q, stride)] else c0[q]
  {
    forall q | Times(m, stride) <= q < Times(m, stride) + stride
      ensures Quot(q, stride) == m && Rem(q, stride) == q - Times(m, stride)
    {
      FlatDigits(m, stride, q - Times(m, stride));
    }
  }

  /** The first `n` values of row `m`, as the split plan defines them. */
  function ReducedRow(x: Operand, w: Operand, seed: Seed, p: Plan, m: nat, n: nat): (r: seq<Val>)
    requires x.red == w.red && p.Fits(x.red) && (seed.Bias? ==> |seed.values| >= n)
    ensures |r| == n
    decreases n
  {
    if n == 0 then [] else ReducedRow(x, w, seed, p, m, n - 1) + [Value(p, x, w, seed, m, n - 1)]
  }

  lemma {:induction false} ReducedAt(x: Operand, w: Operand, seed: Seed, p: Plan, m: nat, n: nat, i: nat)
    requires x.red == w.red && p.Fits(x.red) && (seed.Bias? ==> |seed.values| >= n) && i < n
    ensures ReducedRow(x, w, seed, p, m, n)[i] == Value(p, x, w, seed, m, i)
    decreases n
  {
    if i < n - 1 { ReducedAt(x, w, seed, p, m, n - 1, i); }
  }

  /** The outputs of row `m`, from index `base` on. */
  method ReduceColumns(x: Operand, w: Operand, seed: Seed, chunk: nat, main: nat, bk: nat, partial: array<Val>,
                       base: nat, c: array<Val>, m: nat, ghost row: seq<Val>)
    requires x.red == w.red && Split(chunk, main, bk).Fits(x.red)
    requires !x.half && !w.half && !x.redMajor && w.redMajor
    requires HoldsPieces(partial[..], Cut(x, main), Cut(w, main), chunk, bk)
    requires seed.Bias? ==> |seed.values| >= w.outer
    requires m < x.outer && base + w.outer <= c.Length && c != partial
    requires row == ReducedRow(x, w, seed, Split(chunk, main, bk), m, w.outer)
    modifies c
    ensures forall q :: base <= q < base + w.outer ==> c[q] == row[q - base]
    ensures forall q :: 0 <= q < base || base + w.outer <= q < c.Length ==> c[q] == old(c[q])
  {
    ghost var pieces := partial[..];
    for n := 0 to w.outer
      invariant partial[..] == pieces
      invariant forall q :: base <= q < base + n ==> c[q] == row[q - base]
      invariant forall q :: 0 <= q < base || base + n <= q < c.Length ==> c[q] == old(c[q])
    {
      var v := ReduceCell(x, w, seed, chunk, main, bk, partial, m, n);
      ReducedAt(x, w, seed, Split(chunk, main, bk), m, w.outer, n);
      c[base + n] := v;
    }
  }

  /** One thread of the split-M reducer: the partials are added in double precision. */
  method ReduceCellWide(x: Operand, w: Operand, chunk: nat, bk: nat, partial: array<Val>, m: nat, n: nat)
    returns (v: Val)
    requires x.red == w.red && SplitWide(chunk, bk).Fits(x.red) && m < x.outer && n < w.outer
    requires HoldsPieces(partial[..], Cut(x, x.red), Cut(w, x.red), chunk, bk)
    ensures v == Value(SplitWide(chunk, bk), x, w, NoBias, m, n)
  {
    var slot := ReadPiece(x, w, chunk, x.red, bk, partial, m, n, 0);
    var sum := Wide(slot);
    for fc := 1 to DivCeil(x.red, chunk)
      invariant sum == PieceSumWide(x, w, m, n, chunk, x.red, bk, fc)
    {
      slot := ReadPiece(x, w, chunk, x.red, bk, partial, m, n, fc);
      sum := AddWide(sum, Wide(slot));
    }
    v := Narrow(MulWide(Wide(One), sum));
    SplitWideValue(chunk, bk, x, w, m, n);
  }

  /** The split-M reducer accumulates into dW. */
  method SplitmReduce(x: Operand, w: Operand, chunk: nat, bk: nat, partial: array<Val>, c: array<Val>)
    requires x.red == w.red && SplitWide(chunk, bk).Fits(x.red)
    requires HoldsPieces(partial[..], x, w, chunk, bk)
    requires 0 < w.outer && Times(x.outer, w.outer) <= c.Length && c != partial
    modifies c
    ensures forall q :: 0 <= q < c.Length ==>
      c[q] == if q < Times(x.outer, w.outer)
              then Add(old(c[q]), Value(SplitWide(chunk, bk), x, w, NoBias, Quot(q, w.outer), Rem(q, w.outer)))
              else old(c[q])
  {
    assert Cut(x, x.red) == x && Cut(w, x.red) == w;
    ghost var pieces := partial[..];
    for idx := 0 to Times(x.outer, w.outer)
      invariant partial[..] == pieces
      invariant forall q :: 0 <= q < c.Length ==>
        c[q] == if q < idx
                then Add(old(c[q]), Value(SplitWide(chunk, bk), x, w, NoBias, Quot(q, w.outer), Rem(q, w.outer)))
                else old(c[q])
    {
      DigitsFlat(idx, x.outer, w.outer);
      var v := ReduceCellWide(x, w, chunk, bk, partial, Quot(idx, w.outer), Rem(idx, w.outer));
      c[idx] := Add(c[idx], v);
    }
  }

  // ---- the tail-column filler ----

  /** Fills column `col` of dX, one thread per row. */
  method ColumnGemv(x: Operand, w: Operand, col: nat, stride: nat, c: array<Val>)
    requires x.red == w.red && col < w.outer <= stride && Times(x.outer, stride) <= c.Length
    modifies c
    ensures forall q :: 0 <= q < c.Length ==>
      c[q] == if q < Times(x.outer, stride) && Rem(q, stride) == col
              then Value(Column, x, w, NoBias, Quot(q, stride), col) else old(c[q])
  {
    for m := 0 to x.outer
      invariant forall q :: 0 <= q < c.Length ==>
        c[q] == if q < Times(m, stride) && Rem(q, stride) == col
                then Value(Column, x, w, NoBias, Quot(q, stride), col) else old(c[q])
    {
      var sum := Zero;
      for n := 0 to x.red
        invariant sum == Chain(Zero, x, w, m, col, 0, n)
      {
        sum := Fma(At(x, m, n), At(w, col, n), sum);
      }
      TimesLess(m + 1, x.outer, stride);
      TimesSucc(m, stride);
      forall q | Times(m, stride) <= q < Times(m, stride) + stride
        ensures Quot(q, stride) == m && Rem(q, stride) == q - Times(m, stride)
      {
        FlatDigits(m, stride, q - Times(m, stride));
      }
      c[Flat(m, stride, col)] := sum;
    }
  }

  // ---- transposition ----

  /** One 32 x 32 block goes through shared memory: read along rows of `src`, written along rows of `dst`. */
  method TransposeBlock(src: seq<Val>, dst: array<Val>, rows: nat, cols: nat, bRow: nat, bCol: nat)
    requires rows > 0 && Times(rows, cols) <= |src| && Times(cols, rows) <= dst.Length
    modifies dst
    ensures forall q :: 0 <= q < dst.Length ==>
      dst[q] == if InBlock(q, rows, cols, bRow, bCol) then Transposed(src, rows, cols, q) else old(dst[q])
  {
    var tile := new Val[32, 33];
    for ty := 0 to 32
      invariant dst[..] == old(dst[..])
      invariant forall i, j :: 0 <= i < ty && 0 <= j < 32 ==>
        tile[i, j] == Element(src, rows, cols, 32 * bRow + i, 32 * bCol + j)
    {
      for tx := 0 to 32
        invariant dst[..] == old(dst[..])
        invariant forall i, j :: 0 <= i < ty && 0 <= j < 32 ==>
          tile[i, j] == Element(src, rows, cols, 32 * bRow + i, 32 * bCol + j)
        invariant forall j :: 0 <= j < tx ==> tile[ty, j] == Element(src, rows, cols, 32 * bRow + ty, 32 * bCol + j)
      {
        tile[ty, tx] := Element(src, rows, cols, 32 * bRow + ty, 32 * bCol + tx);
      }
    }
    for ty := 0 to 32
      invariant forall i, j :: 0 <= i < 32 && 0 <= j < 32 ==>
        tile[i, j] == Element(src, rows, cols, 32 * bRow + i, 32 * bCol + j)
      invariant forall q :: 0 <= q < dst.Length ==>
        dst[q] == if InBlock(q, rows, cols, bRow, bCol) && Quot(q, rows) < 32 * bCol + ty
                  then Transposed(src, rows, cols, q)
                  else old(dst[q])
    {
      for tx := 0 to 32
        invariant forall i, j :: 0 <= i < 32 && 0 <= j < 32 ==>
          tile[i, j] == Element(src, rows, cols, 32 * bRow + i, 32 * bCol + j)
        invariant forall q :: 0 <= q < dst.Length ==>
          dst[q] == if InBlock(q, rows, cols, bRow, bCol)
                       && (Quot(q, rows) < 32 * bCol + ty
                           || (Quot(q, rows) == 32 * bCol + ty && Rem(q, rows) < 32 * bRow + tx))
                    then Transposed(src, rows, cols, q) else old(dst[q])
      {
        var r: nat, c: nat := 32 * bCol + ty, 32 * bRow + tx;
        if r < cols && c < rows {
          FlatInBounds(r, cols, rows, c);
          FlatDigits(r, rows, c);
          dst[Flat(r, rows, c)] := tile[tx, ty];
        }
        forall q | 0 <= q < dst.Length && InBlock(q, rows, cols, bRow, bCol) && Quot(q, rows) == r && Rem(q, rows) == c
          ensures q == Flat(r, rows, c) && r < cols && c < rows
        {
          DigitsFlat(q, cols, rows);
        }
      }
    }
  }

  /** Element (r, c) of a row-major matrix, or zero outside it. */
  function Element(src: seq<Val>, rows: nat, cols: nat, r: nat, c: nat): Val
    requires Times(rows, cols) <= |src|
  {
    if r < rows && c < cols then
      FlatInBounds(r, rows, cols, c);
      src[Flat(r, cols, c)]
    else Zero
  }

  /** Element `q` of the transposed matrix, which has `cols` rows of `rows` elements. */
  function Transposed(src: seq<Val>, rows: nat, cols: nat, q: nat): Val
    requires rows > 0 && Times(rows, cols) <= |src|
  {
    Element(src, rows, cols, Rem(q, rows), Quot(q, rows))
  }

  predicate InBlock(q: nat, rows: nat, cols: nat, bRow: nat, bCol: nat)
    requires rows > 0
  {
    && q < Times(cols, rows)
    && 32 * bRow <= Rem(q, rows) < 32 * bRow + 32 && 32 * bCol <= Quot(q, rows) < 32 * bCol + 32
  }

  /** The transposition kernel: `dst` becomes the transpose of `src`, and nothing past it changes. */
  method Transpose(src: seq<Val>, dst: array<Val>, rows: nat, cols: nat)
    requires rows > 0 && Times(rows, cols) <= |src| && Times(cols, rows) <= dst.Length
    modifies dst
    ensures forall q :: 0 <= q < dst.Length ==>
      dst[q] == if q < Times(cols, rows) then Transposed(src, rows, cols, q) else old(dst[q])
  {
    for bRow := 0 to DivCeil(rows, 32)
      invariant forall q :: 0 <= q < dst.Length ==>
        dst[q] == if q < Times(cols, rows) && Rem(q, rows) < 32 * bRow
                  then Transposed(src, rows, cols, q) else old(dst[q])
    {
      for bCol := 0 to DivCeil(cols, 32)
        invariant forall q :: 0 <= q < dst.Length ==>
          dst[q] == if q < Times(cols, rows) && (Rem(q, rows) < 32 * bRow || InBlockRow(q, rows, bRow, bCol))
                    then Transposed(src, rows, cols, q) else old(dst[q])
      {
        TransposeBlock(src, dst, rows, cols, bRow, bCol);
      }
      forall q | 0 <= q < Times(cols, rows) ensures Quot(q, rows) < 32 * DivCeil(cols, 32) {
        DigitsFlat(q, cols, rows);
      }
    }
  }

  predicate InBlockRow(q: nat, rows: nat, bRow: nat, bCol: nat)
    requires rows > 0
  {
    32 * bRow <= Rem(q, rows) < 32 * bRow + 32 && Quot(q, rows) < 32 * bCol
  }

  /** Reading the transposed matrix along its columns is reading the original along its rows. */
  lemma TransposeAt(src: seq<Val>, dst: seq<Val>, rows: nat, cols: nat, o: nat, r: nat)
    requires rows > 0 && Times(rows, cols) <= |src| && Times(cols, rows) <= |dst|
    requires forall q :: 0 <= q < Times(cols, rows) ==> dst[q] == Transposed(src, rows, cols, q)
    ensures At(ByCols(dst, cols, rows, false), o, r) == At(ByRows(src, rows, cols, false), o, r)
  {
    if o < rows && r < cols {
      FlatInBounds(r, cols, rows, o);
      FlatDigits(r, rows, o);
      FlatInBounds(o, rows, cols, r);
      assert dst[Flat(r, rows, o)] == Transposed(src, rows, cols, Flat(r, rows, o));
    }
  }

  // ---- casts ----

  method UpcastInto(src: seq<Val>, dst: array<Val>, n: nat)
    requires n <= |src| && n <= dst.Length
    modifies dst
    ensures forall i :: 0 <= i < dst.Length ==> dst[i] == if i < n then Up(src[i]) else old(dst[i])
  {
    for i := 0 to n
      invariant forall j :: 0 <= j < dst.Length ==> dst[j] == if j < i then Up(src[j]) else old(dst[j])
    {
      dst[i] := Up(src[i]);
    }
  }

  method DowncastInto(src: seq<Val>, dst: array<Val>, n: nat)
    requires n <= |src| && n <= dst.Length
    modifies dst
    ensures forall i :: 0 <= i < dst.Length ==> dst[i] == if i < n then Down(src[i]) else old(dst[i])
  {
    for i := 0 to n
      invariant forall j :: 0 <= j < dst.Length ==> dst[j] == if j < i then Down(src[j]) else old(dst[j])
    {
      dst[i] := Down(src[i]);
    }
  }
}
