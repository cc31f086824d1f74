/** The register half of a tiled kernel: seeding, the dot-product sweep over a staged slab, the epilogue. */
module TileCompute {
  import opened Terms
  import opened Operands
  import opened Geometry
  import opened TileKernel

  /** One output tile of a launch: its operands, its bias, its origin and the start of its reduction. */
  datatype Tile = Tile(g: Geom, x: Operand, w: Operand, seed: Seed, m0: nat, n0: nat, lo: nat) {
    /** The accumulator of tile element (r, c) after `steps` reduction steps. */
    function Partial(r: nat, c: nat, steps: nat): Val {
      Accumulated(g.mma, SeedAt(seed, n0 + c), x, w, m0 + r, n0 + c, lo, steps)
    }
  }

  /** The register file of one thread, `threadResults` by register row and column. */
  type Registers = seq<seq<Val>>

  predicate HasShape(g: Geom, f: Registers) {
    |f| == g.RegsM() && forall i :: 0 <= i < |f| ==> |f[i]| == g.RegsN()
  }

  /** Register row `i` of the thread holds its accumulators after `steps` reduction steps. */
  ghost predicate RowHolds(t: Tile, row: seq<Val>, tid: nat, i: nat, steps: nat)
    requires t.g.Valid()
  {
    && |row| == t.g.RegsN()
    && forall j :: 0 <= j < |row| ==> row[j] == t.Partial(t.g.RowOf(tid, i), t.g.ColOf(tid, j), steps)
  }

  ghost predicate RowsHold(t: Tile, f: Registers, tid: nat, steps: nat, n: nat)
    requires t.g.Valid() && n <= |f|
    decreases n
  {
    n == 0 || (RowsHold(t, f, tid, steps, n - 1) && RowHolds(t, f[n - 1], tid, n - 1, steps))
  }

  /** Thread `tid` holds, in each of its registers, the accumulator after `steps` reduction steps. */
  ghost predicate HoldsChain(t: Tile, f: Registers, tid: nat, steps: nat)
    requires t.g.Valid()
  {
    |f| == t.g.RegsM() && RowsHold(t, f, tid, steps, |f|)
  }

  lemma {:induction false} RowsHoldAll(t: Tile, f: Registers, tid: nat, steps: nat, n: nat)
    requires t.g.Valid() && n <= |f|
    ensures RowsHold(t, f, tid, steps, n) <==> forall i :: 0 <= i < n ==> RowHolds(t, f[i], tid, i, steps)
    decreases n
  {
    if n > 0 { RowsHoldAll(t, f, tid, steps, n - 1); }
  }

  /** A thread holds its chains exactly when each of its register rows does. */
  lemma ChainRows(t: Tile, f: Registers, tid: nat, steps: nat)
    requires t.g.Valid()
    ensures HoldsChain(t, f, tid, steps) <==>
      |f| == t.g.RegsM() && forall i :: 0 <= i < |f| ==> RowHolds(t, f[i], tid, i, steps)
  {
    RowsHoldAll(t, f, tid, steps, |f|);
  }

  lemma ChainRow(t: Tile, f: Registers, tid: nat, steps: nat, i: nat)
    requires t.g.Valid() && HoldsChain(t, f, tid, steps) && i < |f|
    ensures RowHolds(t, f[i], tid, i, steps)
  {
    ChainRows(t, f, tid, steps);
  }

  ghost predicate AllHold(t: Tile, regs: array<Registers>, steps: nat)
    requires t.g.Valid()
    reads regs
  {
    && regs.Length == t.g.Threads()
    && forall tid :: 0 <= tid < regs.Length ==> HoldsChain(t, regs[tid], tid, steps)
  }

  function SeededRow(t: Tile, tid: nat): (row: seq<Val>)
    requires t.g.Valid()
    ensures |row| == t.g.RegsN() && forall j :: 0 <= j < |row| ==> row[j] == SeedAt(t.seed, t.n0 + t.g.ColOf(tid, j))
  {
    seq(t.g.RegsN(), j requires 0 <= j < t.g.RegsN() => SeedAt(t.seed, t.n0 + t.g.ColOf(tid, j)))
  }

  /** There are registers to start from. */
  lemma SeedExists(t: Tile, tid: nat)
    requires t.g.Valid()
    ensures exists f :: HoldsChain(t, f, tid, 0)
  {
    var row := SeededRow(t, tid);
    var f := seq(t.g.RegsM(), i => row);
    forall i | 0 <= i < |f| ensures RowHolds(t, f[i], tid, i, 0) {}
    ChainRows(t, f, tid, 0);
  }

  /** The bias (or zero) goes into the accumulators before the first multiply-add. */
  method SeedRegisters(t: Tile, tid: nat) returns (f: Registers)
    requires t.g.Valid()
    ensures HoldsChain(t, f, tid, 0)
    ensures |f| == t.g.RegsM() && forall i, j :: 0 <= i < |f| && 0 <= j < t.g.RegsN() ==>
      && |f[i]| == t.g.RegsN() && var n := t.n0 + t.g.ColOf(tid, j);
         f[i][j] == if t.seed.Bias? && n < |t.seed.values| then t.seed.values[n] else Zero
  {
    var row: seq<Val> := [];
    for j := 0 to t.g.RegsN()
      invariant |row| == j && forall j' :: 0 <= j' < j ==> row[j'] == SeedAt(t.seed, t.n0 + t.g.ColOf(tid, j'))
    {
      row := row + [SeedAt(t.seed, t.n0 + t.g.ColOf(tid, j))];
    }
    f := [];
    for i := 0 to t.g.RegsM()
      invariant |f| == i && forall i' :: 0 <= i' < i ==> f[i'] == row
    {
      f := f + [row];
    }
    ChainRows(t, f, tid, 0);
  }

  /** Registers of a thread name cells inside the tile. */
  lemma FragmentInTile(g: Geom, tid: nat)
    requires g.Valid() && tid < g.Threads()
    ensures forall i :: 0 <= i < g.RegsM() ==> g.RowOf(tid, i) < g.BM()
    ensures forall j :: 0 <= j < g.RegsN() ==> g.ColOf(tid, j) < g.BN()
  {
    Positive(g);
    forall i | 0 <= i < g.RegsM() ensures g.RowOf(tid, i) < g.BM() { OwnerOfRegister(g, tid, i, 0); }
    forall j | 0 <= j < g.RegsN() ensures g.ColOf(tid, j) < g.BN() { OwnerOfRegister(g, tid, 0, j); }
  }

  ghost predicate HoldsRows(t: Tile, f: seq<Val>, tid: nat, r: nat)
    requires t.g.Valid()
  {
    |f| == t.g.RegsM() && forall i :: 0 <= i < |f| ==> f[i] == At(t.x, t.m0 + t.g.RowOf(tid, i), r)
  }

  ghost predicate HoldsCols(t: Tile, f: seq<Val>, tid: nat, r: nat)
    requires t.g.Valid()
  {
    |f| == t.g.RegsN() && forall j :: 0 <= j < |f| ==> f[j] == At(t.w, t.n0 + t.g.ColOf(tid, j), r)
  }

  /** The row fragment a thread loads from shared memory for dot-product step `d`. */
  method LoadRows(t: Tile, sm: array3<Val>, stage: nat, ghost r0: nat, tid: nat, d: nat, ghost at: nat)
    returns (f: seq<Val>)
    requires t.g.Valid() && tid < t.g.Threads() && Staged(sm, stage, t.g.BM(), t.x, t.m0, r0) && d < sm.Length1
    requires at == r0 + d
    ensures HoldsRows(t, f, tid, at)
  {
    FragmentInTile(t.g, tid);
    f := [];
    for i := 0 to t.g.RegsM()
      invariant |f| == i
      invariant forall i' :: 0 <= i' < i ==> f[i'] == At(t.x, t.m0 + t.g.RowOf(tid, i'), r0 + d)
    {
      f := f + [sm[stage, d, t.g.RowOf(tid, i)]];
    }
  }

  method LoadCols(t: Tile, sm: array3<Val>, stage: nat, ghost r0: nat, tid: nat, d: nat, ghost at: nat)
    returns (f: seq<Val>)
    requires t.g.Valid() && tid < t.g.Threads() && Staged(sm, stage, t.g.BN(), t.w, t.n0, r0) && d < sm.Length1
    requires at == r0 + d
    ensures HoldsCols(t, f, tid, at)
  {
    FragmentInTile(t.g, tid);
    f := [];
    for j := 0 to t.g.RegsN()
      invariant |f| == j
      invariant forall j' :: 0 <= j' < j ==> f[j'] == At(t.w, t.n0 + t.g.ColOf(tid, j'), r0 + d)
    {
      f := f + [sm[stage, d, t.g.ColOf(tid, j)]];
    }
  }

  /** The outer product of the two fragments is added into the thread's registers. */
  method FmaFragment(f0: Registers, regM: seq<Val>, regN: seq<Val>) returns (f: Registers)
    requires |f0| == |regM| && forall i :: 0 <= i < |f0| ==> |f0[i]| == |regN|
    ensures |f| == |f0| && forall i :: 0 <= i < |f| ==> |f[i]| == |regN|
    ensures forall i, j :: 0 <= i < |f| && 0 <= j < |regN| ==> f[i][j] == Fma(regM[i], regN[j], f0[i][j])
  {
    f := f0;
    for i := 0 to |regM|
      invariant |f| == |f0| && forall i' :: 0 <= i' < |f| ==> |f[i']| == |regN|
      invariant forall i' :: i <= i' < |f| ==> f[i'] == f0[i']
      invariant forall i', j :: 0 <= i' < i && 0 <= j < |regN| ==> f[i'][j] == Fma(regM[i'], regN[j], f0[i'][j])
    {
      var row := f[i];
      for j := 0 to |regN|
        invariant |row| == |regN|
        invariant forall j' :: 0 <= j' < |row| ==>
          row[j'] == if j' < j then Fma(regM[i], regN[j'], f0[i][j']) else f0[i][j']
      {
        row := row[j := Fma(regM[i], regN[j], row[j])];
      }
      f := f[i := row];
    }
  }

  lemma FmaRow(t: Tile, row0: seq<Val>, row: seq<Val>, tid: nat, i: nat, a: Val, regN: seq<Val>, steps: nat)
    requires t.g.Valid() && !t.g.mma && RowHolds(t, row0, tid, i, steps) && HoldsCols(t, regN, tid, t.lo + steps)
    requires a == At(t.x, t.m0 + t.g.RowOf(tid, i), t.lo + steps)
    requires |row| == |row0| && forall j :: 0 <= j < |row| ==> row[j] == Fma(a, regN[j], row0[j])
    ensures RowHolds(t, row, tid, i, steps + 1)
  {
  }

  /** One dot-product step advances every register of the thread by one link of its chain. */
  method DotStep(t: Tile, f0: Registers, tid: nat, regM: seq<Val>, regN: seq<Val>, ghost steps: nat)
    returns (f: Registers)
    requires t.g.Valid() && !t.g.mma && HoldsChain(t, f0, tid, steps)
    requires FragmentsFor(t, regM, regN, tid, steps)
    ensures HoldsChain(t, f, tid, steps + 1)
  {
    ChainRows(t, f0, tid, steps);
    f := FmaFragment(f0, regM, regN);
    forall i | 0 <= i < |f| ensures RowHolds(t, f[i], tid, i, steps + 1) {
      FmaRow(t, f0[i], f[i], tid, i, regM[i], regN, steps);
    }
    ChainRows(t, f, tid, steps + 1);
  }

  /** Both operand slabs of the tile are staged, from reduction index `r0` on. */
  ghost predicate SlabsStaged(t: Tile, as_: array3<Val>, bs: array3<Val>, stage: nat, r0: nat)
    reads as_, bs
  {
    && as_.Length1 == bs.Length1 == t.g.bk
    && Staged(as_, stage, t.g.BM(), t.x, t.m0, r0) && Staged(bs, stage, t.g.BN(), t.w, t.n0, r0)
  }

  /** The fragments of both operands for the step that follows `steps` others. */
  ghost predicate FragmentsFor(t: Tile, regM: seq<Val>, regN: seq<Val>, tid: nat, steps: nat)
    requires t.g.Valid()
  {
    HoldsRows(t, regM, tid, t.lo + steps) && HoldsCols(t, regN, tid, t.lo + steps)
  }

  /** The fragments of step `d` of the slab, if there is such a step. */
  method LoadFragments(t: Tile, as_: array3<Val>, bs: array3<Val>, stage: nat, tid: nat, d: nat, ghost s: nat,
                       ghost steps: nat)
    returns (regM: seq<Val>, regN: seq<Val>)
    requires t.g.Valid() && tid < t.g.Threads() && SlabsStaged(t, as_, bs, stage, t.lo + s) && steps == s + d
    ensures d < t.g.bk ==> FragmentsFor(t, regM, regN, tid, steps)
  {
    regM, regN := [], [];
    if d < t.g.bk { regM, regN := LoadStep(t, as_, bs, stage, tid, d, s, steps); }
  }

  method LoadStep(t: Tile, as_: array3<Val>, bs: array3<Val>, stage: nat, tid: nat, d: nat, ghost s: nat,
                  ghost steps: nat)
    returns (regM: seq<Val>, regN: seq<Val>)
    requires t.g.Valid() && tid < t.g.Threads() && SlabsStaged(t, as_, bs, stage, t.lo + s) && steps == s + d
    requires d < t.g.bk
    ensures FragmentsFor(t, regM, regN, tid, steps)
  {
    regM := LoadRows(t, as_, stage, t.lo + s, tid, d, t.lo + steps);
    regN := LoadCols(t, bs, stage, t.lo + s, tid, d, t.lo + steps);
  }

  /** Step `d` of the slab, with the fragments of the next step prefetched. */
  method DotAndPrefetch(t: Tile, as_: array3<Val>, bs: array3<Val>, stage: nat, f0: Registers, tid: nat, d: nat,
                        regM0: seq<Val>, regN0: seq<Val>, ghost s: nat, ghost steps: nat)
    returns (f: Registers, regM: seq<Val>, regN: seq<Val>)
    requires t.g.Valid() && !t.g.mma && tid < t.g.Threads() && SlabsStaged(t, as_, bs, stage, t.lo + s)
    requires steps == s + d && HoldsChain(t, f0, tid, steps) && FragmentsFor(t, regM0, regN0, tid, steps)
    ensures HoldsChain(t, f, tid, steps + 1)
    ensures d + 1 < t.g.bk ==> FragmentsFor(t, regM, regN, tid, steps + 1)
  {
    regM, regN := LoadFragments(t, as_, bs, stage, tid, d + 1, s, steps + 1);
    f := DotStep(t, f0, tid, regM0, regN0, steps);
  }

  /** One thread's sweep over a staged slab. */
  method ThreadDot(t: Tile, as_: array3<Val>, bs: array3<Val>, stage: nat, f0: Registers, tid: nat, ghost s: nat)
    returns (f: Registers)
    requires t.g.Valid() && !t.g.mma && tid < t.g.Threads() && SlabsStaged(t, as_, bs, stage, t.lo + s)
    requires HoldsChain(t, f0, tid, s)
    ensures HoldsChain(t, f, tid, s + t.g.bk)
  {
    f := f0;
    ghost var steps := s;
    var regM, regN := LoadFragments(t, as_, bs, stage, tid, 0, s, steps);
    for d := 0 to t.g.bk
      invariant steps == s + d && HoldsChain(t, f, tid, steps)
      invariant d < t.g.bk ==> FragmentsFor(t, regM, regN, tid, steps)
    {
      f, regM, regN := DotAndPrefetch(t, as_, bs, stage, f, tid, d, regM, regN, s, steps);
      steps := steps + 1;
    }
  }

  /** The sixteen steps of one tile row (or column) from `k0` on, as the fragment loads deliver them. */
  method LoadFragment(x: Operand, sm: array3<Val>, stage: nat, width: nat, o0: nat, ghost r0: nat, o: nat, k0: nat)
    returns (f: seq<Val>)
    requires Staged(sm, stage, width, x, o0, r0) && o < width && k0 + 16 <= sm.Length1
    ensures f == Run16(x, o0 + o, r0 + k0)
  {
    f := [];
    for e := 0 to 16
      invariant |f| == e && forall e' :: 0 <= e' < e ==> f[e'] == At(x, o0 + o, r0 + k0 + e')
    {
      f := f + [sm[stage, k0 + e, o]];
    }
  }

  /** The fragment of register row `i` (column `j`) for the sixteen reduction steps after `steps`. */
  function RowRun(t: Tile, tid: nat, i: nat, steps: nat): seq<Val>
    requires t.g.Valid()
  {
    Run16(t.x, t.m0 + t.g.RowOf(tid, i), t.lo + steps)
  }

  function ColRun(t: Tile, tid: nat, j: nat, steps: nat): seq<Val>
    requires t.g.Valid()
  {
    Run16(t.w, t.n0 + t.g.ColOf(tid, j), t.lo + steps)
  }

  method LoadRowRuns(t: Tile, as_: array3<Val>, stage: nat, tid: nat, k0: nat, ghost s: nat, ghost steps: nat)
    returns (f: seq<seq<Val>>)
    requires t.g.Valid() && tid < t.g.Threads() && Staged(as_, stage, t.g.BM(), t.x, t.m0, t.lo + s)
    requires k0 + 16 <= as_.Length1 && steps == s + k0
    ensures |f| == t.g.RegsM() && forall i :: 0 <= i < |f| ==> f[i] == RowRun(t, tid, i, steps)
  {
    FragmentInTile(t.g, tid);
    f := [];
    for i := 0 to t.g.RegsM()
      invariant |f| == i && forall i' :: 0 <= i' < i ==> f[i'] == RowRun(t, tid, i', steps)
    {
      var run := LoadFragment(t.x, as_, stage, t.g.BM(), t.m0, t.lo + s, t.g.RowOf(tid, i), k0);
      f := f + [run];
    }
  }

  method LoadColRuns(t: Tile, bs: array3<Val>, stage: nat, tid: nat, k0: nat, ghost s: nat, ghost steps: nat)
    returns (f: seq<seq<Val>>)
    requires t.g.Valid() && tid < t.g.Threads() && Staged(bs, stage, t.g.BN(), t.w, t.n0, t.lo + s)
    requires k0 + 16 <= bs.Length1 && steps == s + k0
    ensures |f| == t.g.RegsN() && forall j :: 0 <= j < |f| ==> f[j] == ColRun(t, tid, j, steps)
  {
    FragmentInTile(t.g, tid);
    f := [];
    for j := 0 to t.g.RegsN()
      invariant |f| == j && forall j' :: 0 <= j' < j ==> f[j'] == ColRun(t, tid, j', steps)
    {
      var run := LoadFragment(t.w, bs, stage, t.g.BN(), t.n0, t.lo + s, t.g.ColOf(tid, j), k0);
      f := f + [run];
    }
  }

  /** The matrix multiplies of one register row. */
  method MmaRow(row0: seq<Val>, a: seq<Val>, b: seq<seq<Val>>) returns (row: seq<Val>)
    requires |row0| == |b|
    ensures |row| == |row0| && forall j :: 0 <= j < |row| ==> row[j] == Mma16(row0[j], a, b[j])
  {
    row := [];
    for j := 0 to |b|
      invariant |row| == j && forall j' :: 0 <= j' < j ==> row[j'] == Mma16(row0[j'], a, b[j'])
    {
      row := row + [Mma16(row0[j], a, b[j])];
    }
  }

  /** One matrix-multiply step, on loaded fragments, advances every register of the thread by sixteen steps. */
  method MmaFragments(t: Tile, f0: Registers, tid: nat, a: seq<seq<Val>>, b: seq<seq<Val>>, ghost steps: nat)
    returns (f: Registers)
    requires t.g.Valid() && t.g.mma && HoldsChain(t, f0, tid, steps)
    requires |a| == t.g.RegsM() && forall i :: 0 <= i < |a| ==> a[i] == RowRun(t, tid, i, steps)
    requires |b| == t.g.RegsN() && forall j :: 0 <= j < |b| ==> b[j] == ColRun(t, tid, j, steps)
    ensures HoldsChain(t, f, tid, steps + 16)
  {
    ChainRows(t, f0, tid, steps);
    f := [];
    for i := 0 to |a|
      invariant |f| == i
      invariant forall i' :: 0 <= i' < i ==> RowHolds(t, f[i'], tid, i', steps + 16)
    {
      assert RowHolds(t, f0[i], tid, i, steps);
      var row := MmaRow(f0[i], a[i], b);
      MmaRowHolds(t, f0[i], row, tid, i, a[i], steps);
      f := f + [row];
    }
    ChainRows(t, f, tid, steps + 16);
  }

  /** One matrix-multiply step from shared memory. */
  method MmaStep(t: Tile, as_: array3<Val>, bs: array3<Val>, stage: nat, f0: Registers, tid: nat, k0: nat,
                 ghost s: nat, ghost steps: nat)
    returns (f: Registers)
    requires t.g.Valid() && t.g.mma && tid < t.g.Threads() && SlabsStaged(t, as_, bs, stage, t.lo + s)
    requires k0 + 16 <= t.g.bk && steps == s + k0 && HoldsChain(t, f0, tid, steps)
    ensures HoldsChain(t, f, tid, steps + 16)
  {
    var a := LoadRowRuns(t, as_, stage, tid, k0, s, steps);
    var b := LoadColRuns(t, bs, stage, tid, k0, s, steps);
    f := MmaFragments(t, f0, tid, a, b, steps);
  }

  lemma MmaRowHolds(t: Tile, row0: seq<Val>, row: seq<Val>, tid: nat, i: nat, a: seq<Val>, steps: nat)
    requires t.g.Valid() && t.g.mma && RowHolds(t, row0, tid, i, steps)
    requires a == RowRun(t, tid, i, steps)
    requires |row| == |row0| && forall j :: 0 <= j < |row| ==>
      row[j] == Mma16(row0[j], a, ColRun(t, tid, j, steps))
    ensures RowHolds(t, row, tid, i, steps + 16)
  {
    forall j | 0 <= j < |row|
      ensures row[j] == t.Partial(t.g.RowOf(tid, i), t.g.ColOf(tid, j), steps + 16)
    {
      NextMma(t, t.g.RowOf(tid, i), t.g.ColOf(tid, j), steps);
    }
  }

  lemma NextMma(t: Tile, r: nat, c: nat, steps: nat)
    requires t.g.mma
    ensures t.Partial(r, c, steps + 16)
         == Mma16(t.Partial(r, c, steps), Run16(t.x, t.m0 + r, t.lo + steps), Run16(t.w, t.n0 + c, t.lo + steps))
  {
  }

  /** One thread's sweep over a staged slab in matrix-multiply steps. */
  method ThreadMma(t: Tile, as_: array3<Val>, bs: array3<Val>, stage: nat, f0: Registers, tid: nat, ghost s: nat)
    returns (f: Registers)
    requires t.g.Valid() && t.g.mma && tid < t.g.Threads() && SlabsStaged(t, as_, bs, stage, t.lo + s)
    requires HoldsChain(t, f0, tid, s)
    ensures HoldsChain(t, f, tid, s + t.g.bk)
  {
    f := f0;
    ghost var steps := s;
    for ks := 0 to t.g.bk / 16
      invariant steps == s + 16 * ks && HoldsChain(t, f, tid, steps)
    {
      f := MmaStep(t, as_, bs, stage, f, tid, 16 * ks, s, steps);
      steps := steps + 16;
    }
  }

  /** Every thread sweeps the slab in `stage`. */
  method ComputeSlab(t: Tile, as_: array3<Val>, bs: array3<Val>, stage: nat, regs: array<Registers>, ghost s: nat)
    requires t.g.Valid() && SlabsStaged(t, as_, bs, stage, t.lo + s) && AllHold(t, regs, s)
    modifies regs
    ensures AllHold(t, regs, s + t.g.bk)
  {
    for tid := 0 to regs.Length
      invariant forall u :: 0 <= u < regs.Length ==>
        HoldsChain(t, regs[u], u, if u < tid then s + t.g.bk else s)
    {
      if t.g.mma {
        regs[tid] := ThreadMma(t, as_, bs, stage, regs[tid], tid, s);
      } else {
        regs[tid] := ThreadDot(t, as_, bs, stage, regs[tid], tid, s);
      }
    }
  }
}
