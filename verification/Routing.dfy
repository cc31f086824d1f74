/** The dispatch cascades: which kernel runs for which shape, the hand-copied mirrors the typed tier relies on,
    and the split-M partition. Dimensions are m = batch, k = n_in, n = n_out throughout. */
module Routing {
  import opened Numerics
  import opened Plans
  import opened Kernels

  const SPLITK_SCRATCH_CAP: nat := 0x80_0000
  const TRANSPOSE_CAP: nat := 0x40_0000
  const NUM_SMS: nat := 142
  const TARGET_GRID: nat := 284

  /** Positive dimensions whose matrices have fewer than 2^31 elements, as the 32-bit kernel arguments need. */
  predicate Sane(m: nat, k: nat, n: nat) {
    && m > 0 && k > 0 && n > 0
    && Times(m, k) < I32_LIMIT && Times(k, n) < I32_LIMIT && Times(m, n) < I32_LIMIT
  }

  lemma SaneIs(m: nat, k: nat, n: nat)
    ensures Sane(m, k, n) <==> m > 0 && k > 0 && n > 0 && m * k < 2147483648 && k * n < 2147483648 && m * n < 2147483648
  {
    TimesIs(m, k);
    TimesIs(k, n);
    TimesIs(m, n);
  }

  lemma SaneDims(m: nat, k: nat, n: nat)
    requires Sane(m, k, n)
    ensures m < I32_LIMIT && k < I32_LIMIT && n < I32_LIMIT
  {
    TimesPositive(m, k);
    TimesPositive(k, n);
  }

  datatype Route =
    | UltraThinRoute | SmallRoute | NarrowRoute | GemvRoute
    | SplitTailRoute | SplitMainRoute | SplitSlimRoute | SplitMRoute(chunk: nat, f: nat)
    | GapRoute | SlimRoute | BigRoute | NoRoute

  // ---- the split-M partition ----

  datatype Partition = NoSplit | SplitInto(chunk: nat, f: nat)

  /** The bit trick `x & !15`. */
  function Align16(x: nat): (r: nat)
    ensures r % 16 == 0 && r <= x < r + 16
  {
    x - x % 16
  }

  /** How many chunks the grid and the scratch allow. */
  function WantedSplit(n_in: nat, n_out: nat, base: nat): (f: nat)
    requires base > 0 && n_in > 0 && n_out > 0
    ensures f >= 1
  {
    TimesPositive(n_in, n_out);
    Max(Min(DivCeil(TARGET_GRID, base), AsU32(Quot(SPLITK_SCRATCH_CAP, Times(n_in, n_out)))), 1)
  }

  /** Chunk length before the two final checks. */
  function ChunkLength(batch: nat, f: nat): (c: nat)
    requires 0 < batch < I32_LIMIT && f > 0
    ensures c > 0 && c % 16 == 0 && batch <= Times(f, c)
  {
    var raw := DivCeil(AsU32(batch), f);
    RawBelow(batch, f);
    var c := Align16(AsU32(raw + 15));
    CoversBatch(batch, f, raw, c);
    c
  }

  lemma RawBelow(batch: nat, f: nat)
    requires 0 < batch < I32_LIMIT && f > 0
    ensures 0 < DivCeil(AsU32(batch), f) <= batch
  {
    DivCeilBelow(batch, f);
  }

  lemma CoversBatch(batch: nat, f: nat, raw: nat, c: nat)
    requires f > 0 && batch <= Times(raw, f) && raw <= c
    ensures batch <= Times(f, c)
  {
    TimesLess(raw, c, f);
    TimesComm(c, f);
  }

  function SplitmPartition(batch: nat, n_in: nat, n_out: nat): Partition
    requires Sane(batch, n_in, n_out)
  {
    if !(n_in >= 128 && n_out >= 128 && batch >= 256) then NoSplit else
    var base := HostGrid(n_in, n_out, 128, 128);
    if base == 0 || base >= TARGET_GRID then NoSplit else
    SaneDims(batch, n_in, n_out);
    var chunk := ChunkLength(batch, WantedSplit(n_in, n_out, base));
    var f := DivCeil(AsU32(batch), chunk);
    if f < 2 || Times(f, Times(n_in, n_out)) > SPLITK_SCRATCH_CAP then NoSplit else
    SplitInto(chunk, f)
  }

  lemma CapBound(f: nat, cap: nat, size: nat)
    requires size > 0 && f <= Quot(cap, size)
    ensures Times(f, size) <= cap
  {
    Recompose(cap, size);
    TimesLess(f, Quot(cap, size), size);
  }

  /** The scratch re-check at the end of the partition can never reject on its own. */
  lemma ScratchRecheckIsImplied(batch: nat, n_in: nat, n_out: nat, base: nat)
    requires Sane(batch, n_in, n_out) && base > 0
    ensures batch < I32_LIMIT
    ensures var f := DivCeil(AsU32(batch), ChunkLength(batch, WantedSplit(n_in, n_out, base)));
      f >= 2 ==> Times(f, Times(n_in, n_out)) <= SPLITK_SCRATCH_CAP
  {
    SaneDims(batch, n_in, n_out);
    var want := WantedSplit(n_in, n_out, base);
    var chunk := ChunkLength(batch, want);
    FewerChunks(batch, want, chunk);
    TimesPositive(n_in, n_out);
    if DivCeil(batch, chunk) >= 2 {
      CapBound(DivCeil(batch, chunk), SPLITK_SCRATCH_CAP, Times(n_in, n_out));
    }
  }

  /** Whenever the partition splits, its chunks are aligned, non-empty, exhaustive, fit the scratch and do not
      overshoot the target grid by more than one base grid. */
  lemma PartitionIsSound(batch: nat, n_in: nat, n_out: nat)
    requires Sane(batch, n_in, n_out) && SplitmPartition(batch, n_in, n_out).SplitInto?
    ensures var SplitInto(c, f) := SplitmPartition(batch, n_in, n_out);
      && c > 0 && c % 16 == 0 && f >= 2 && f == DivCeil(batch, c)
      && Times(f - 1, c) < batch <= Times(f, c)
      && Times(f, Times(n_in, n_out)) <= SPLITK_SCRATCH_CAP
      && Times(HostGrid(n_in, n_out, 128, 128), f) < 2 * TARGET_GRID
  {
    SaneDims(batch, n_in, n_out);
    var base := HostGrid(n_in, n_out, 128, 128);
    var want := WantedSplit(n_in, n_out, base);
    var SplitInto(c, f) := SplitmPartition(batch, n_in, n_out);
    ChunkStarts(f - 1, batch, c);
    FewerChunks(batch, want, c);
    GridBound(base, f);
  }

  lemma GridBound(base: nat, f: nat)
    requires 0 < base < TARGET_GRID && f <= DivCeil(TARGET_GRID, base)
    ensures Times(base, f) < 2 * TARGET_GRID
  {
    TimesLess(f, DivCeil(TARGET_GRID, base), base);
    TimesComm(base, f);
  }

  /** The wanted factor is the greatest that neither overshoots the target grid by a whole base grid nor fills more
      than the scratch; it is one if a single chunk would not fit. */
  lemma WantedSplitIsGreatest(n_in: nat, n_out: nat, base: nat, g: nat)
    requires base > 0 && n_in > 0 && n_out > 0 && g > 0
    ensures var f, size := WantedSplit(n_in, n_out, base), Times(n_in, n_out);
      && (size > 8388608 ==> f == 1)
      && (size <= 8388608 ==> Times(f - 1, base) < 284 && Times(f, size) <= 8388608)
      && (Times(g - 1, base) < 284 && Times(g, size) <= 8388608 ==> g <= f)
  {
    var f, size := WantedSplit(n_in, n_out, base), Times(n_in, n_out);
    TimesPositive(n_in, n_out);
    QuotIsGreatest(SPLITK_SCRATCH_CAP, size, g);
    QuotIsGreatest(SPLITK_SCRATCH_CAP, size, f);
    QuotIsGreatest(SPLITK_SCRATCH_CAP, size, 1);
    CeilIsGreatest(TARGET_GRID, base, g);
    CeilIsGreatest(TARGET_GRID, base, f);
  }

  lemma QuotIsGreatest(cap: nat, size: nat, g: nat)
    requires size > 0
    ensures g <= Quot(cap, size) <==> Times(g, size) <= cap
    ensures Quot(cap, size) <= cap
  {
    Recompose(cap, size);
    TimesMono(Quot(cap, size), 1, Quot(cap, size), size);
    TimesIs(Quot(cap, size), 1);
    if g <= Quot(cap, size) {
      TimesLess(g, Quot(cap, size), size);
    } else {
      TimesLess(Quot(cap, size) + 1, g, size);
    }
  }

  lemma CeilIsGreatest(a: nat, b: nat, g: nat)
    requires b > 0 && g > 0
    ensures g <= DivCeil(a, b) <==> Times(g - 1, b) < a
  {
    if g <= DivCeil(a, b) {
      ChunkStarts(g - 1, a, b);
    } else {
      TimesLess(DivCeil(a, b), g - 1, b);
    }
  }

  /** The chunk length is the least multiple of 16 of which `f` cover the batch. */
  lemma ChunkIsLeast(batch: nat, f: nat, c: nat)
    requires 0 < batch < I32_LIMIT && f > 0
    ensures c % 16 == 0 && batch <= Times(f, c) ==> ChunkLength(batch, f) <= c
  {
    if c % 16 == 0 && batch <= Times(f, c) {
      TimesComm(f, c);
      FewerChunks(batch, c, f);
      RawBelow(batch, f);
      LeastMultiple(DivCeil(batch, f), c);
    }
  }

  lemma LeastMultiple(raw: nat, c: nat)
    requires c % 16 == 0 && raw <= c
    ensures Align16(raw + 15) <= c
  {
  }

  /** The partition, in full. `base` is the number of 128 x 128 tiles of dW; `f` is the greatest factor within the
      grid and scratch limits, one if there is none; `c` is the least multiple of 16 of which `f` cover the batch;
      `g` is the number of chunks of that length. */
  lemma PartitionSplitsIff(batch: nat, n_in: nat, n_out: nat, base: nat, f: nat, c: nat, g: nat)
    requires Sane(batch, n_in, n_out) && base == Times((n_in + 127) / 128, (n_out + 127) / 128) && f > 0 && g > 0
    requires if Times(n_in, n_out) > 8388608 then f == 1
             else Times(f - 1, base) < 284 && Times(f, Times(n_in, n_out)) <= 8388608
                  && (Times(f, base) >= 284 || Times(f + 1, Times(n_in, n_out)) > 8388608)
    requires c > 0 && c % 16 == 0 && Times(f, c - 16) < batch <= Times(f, c)
    requires Times(g - 1, c) < batch <= Times(g, c)
    ensures SplitmPartition(batch, n_in, n_out) ==
            if n_in >= 128 && n_out >= 128 && batch >= 256 && base < 284 && g >= 2 then SplitInto(c, g) else NoSplit
  {
    SaneDims(batch, n_in, n_out);
    HostGridIsTiles(n_in, n_out, 128, 128);
    TimesPositive(DivCeil(n_in, 128), DivCeil(n_out, 128));
    OnlyFactor(n_in, n_out, base, f);
    OnlyChunk(batch, f, c);
    FewerChunks(batch, g, c);
    CeilIsGreatest(batch, c, g);
    ScratchRecheckIsImplied(batch, n_in, n_out, base);
  }

  lemma OnlyFactor(n_in: nat, n_out: nat, base: nat, f: nat)
    requires n_in > 0 && n_out > 0 && base > 0 && f > 0
    requires if Times(n_in, n_out) > 8388608 then f == 1
             else Times(f - 1, base) < 284 && Times(f, Times(n_in, n_out)) <= 8388608
                  && (Times(f, base) >= 284 || Times(f + 1, Times(n_in, n_out)) > 8388608)
    ensures WantedSplit(n_in, n_out, base) == f
  {
    var want, size := WantedSplit(n_in, n_out, base), Times(n_in, n_out);
    WantedSplitIsGreatest(n_in, n_out, base, f);
    if f < want {
      TimesLess(f, want - 1, base);
      TimesLess(f + 1, want, size);
    }
  }

  lemma OnlyChunk(batch: nat, f: nat, c: nat)
    requires 0 < batch < I32_LIMIT && f > 0 && c > 0 && c % 16 == 0 && Times(f, c - 16) < batch <= Times(f, c)
    ensures ChunkLength(batch, f) == c
  {
    var least := ChunkLength(batch, f);
    ChunkIsLeast(batch, f, c);
    if least < c {
      SixteenApart(least, c);
      TimesComm(f, least);
      TimesComm(f, c - 16);
      TimesLess(least, c - 16, f);
    }
  }

  lemma SixteenApart(a: nat, b: nat)
    requires a % 16 == 0 && b % 16 == 0 && a < b
    ensures a <= b - 16
  {
  }

  /** Two shapes and their chunks. */
  lemma PartitionExamples()
    ensures Sane(4096, 128, 128) && SplitmPartition(4096, 128, 128) == SplitInto(16, 256)
    ensures Sane(256, 128, 128) && SplitmPartition(256, 128, 128) == SplitInto(16, 16)
  {
    PartitionOf(4096, 256);
    PartitionOf(256, 16);
  }

  lemma PartitionOf(batch: nat, g: nat)
    requires batch == 16 * g && 16 <= g <= 256
    ensures Sane(batch, 128, 128) && SplitmPartition(batch, 128, 128) == SplitInto(16, g)
  {
    var d, f, c: nat := 128, 284, 16;
    TimesIs(batch, d);
    TimesIs(d, d);
    TimesIs(1, 1);
    TimesIs(f - 1, 1);
    TimesIs(f, 1);
    TimesIs(f, d * d);
    TimesIs(f, c);
    TimesIs(f, 0);
    TimesIs(g - 1, c);
    TimesIs(g, c);
    PartitionSplitsIff(batch, d, d, 1, f, c, g);
  }

  // ---- f32 forward ----

  function PartialSize(chunks: nat, rows: nat, cols: nat): nat { Times(chunks, Times(rows, cols)) }

  predicate Underfills(rows: nat, cols: nat) { HostGrid(rows, cols, 128, 64) < NUM_SMS }

  /** The final pick between the 128 x 64 and the 128 x 128 tile. */
  predicate PicksSlim(rows: nat, cols: nat) { cols <= 512 || (rows < 512 && cols >= 128) }

  predicate ForwardSplitTail(m: nat, k: nat, n: nat) {
    && 32 <= m <= 1024 && 64 <= n <= 2048 && n % 4 == 0 && k >= 33 && k % 32 != 0 && Underfills(m, n)
    && k - k % 32 >= 32 && PartialSize((k - k % 32) / 32, m, n) <= SPLITK_SCRATCH_CAP
  }

  predicate ForwardSplitMain(m: nat, k: nat, n: nat) {
    && 32 <= m <= 1024 && 64 <= n <= 2048 && n % 4 == 0 && k >= 32 && k % 32 == 0
    && PartialSize(k / 32, m, n) <= SPLITK_SCRATCH_CAP && Underfills(m, n)
  }

  predicate ForwardSplitSlim(m: nat, k: nat, n: nat) {
    && m > 1024 && 128 <= n <= 512 && k >= 64 && k % 32 == 0
    && DivCeil(AsU32(k), 64) >= 6 && PartialSize(DivCeil(AsU32(k), 64), m, n) <= SPLITK_SCRATCH_CAP
    && 0 < HostGrid(m, n, 128, 64) < 3 * NUM_SMS
  }

  function ForwardRoute(m: nat, k: nat, n: nat): Route {
    if 1 <= m < 32 && 32 <= k <= 2048 && n >= 32 then UltraThinRoute
    else if 2 <= n <= 127 && 1 <= m <= 64 && k >= 1 then SmallRoute
    else if 2 <= n <= 127 && m >= 1 && k >= 1 then NarrowRoute
    else if n == 1 && m >= 1 && k >= 32 then GemvRoute
    else if ForwardSplitTail(m, k, n) then SplitTailRoute
    else if ForwardSplitMain(m, k, n) then SplitMainRoute
    else if ForwardSplitSlim(m, k, n) then SplitSlimRoute
    else if m < 128 && n >= 128 && k >= 1 then GapRoute
    else if m >= 128 && n >= 128 && k >= 1 then (if PicksSlim(m, n) then SlimRoute else BigRoute)
    else NoRoute
  }

  /** The reduction plan of a forward route. Only the reduction length enters it. */
  function ForwardPlan(r: Route, k: nat): Plan
    requires !r.NoRoute? && !r.SplitMRoute?
  {
    if r.UltraThinRoute? then EightSlabs
    else if r.GemvRoute? then Strided
    else if r.SplitTailRoute? then Split(32, k - k % 32, 32)
    else if r.SplitMainRoute? then Split(32, k, 32)
    else if r.SplitSlimRoute? then Split(64, k, 32)
    else if r.SlimRoute? then Whole(32)
    else Whole(16)
  }

  // ---- f32 dW ----

  function DwRoute(m: nat, k: nat, n: nat): Route
    requires Sane(m, k, n)
  {
    if n == 1 && k >= 4 && m >= 32 then GemvRoute
    else if 2 <= n <= 127 && k >= 1 && m >= 1 then NarrowRoute
    else match SplitmPartition(m, k, n)
      case SplitInto(chunk, f) => SplitMRoute(chunk, f)
      case NoSplit =>
        if k >= 1 && n >= 128 then (if PicksSlim(k, n) then SlimRoute else BigRoute) else NoRoute
  }

  function DwPlan(r: Route): Plan
    requires r.GemvRoute? || r.NarrowRoute? || r.SplitMRoute? || r.SlimRoute? || r.BigRoute?
  {
    if r.GemvRoute? then Strided
    else if r.SplitMRoute? then SplitWide(r.chunk, 16)
    else if r.SlimRoute? then Whole(32)
    else Whole(16)
  }

  // ---- f32 dX ----

  predicate DxSplitTail(m: nat, k: nat, n: nat) {
    && 32 <= m <= 1024 && 64 <= k <= 4096 && k >= 33 && k % 32 != 0 && 32 <= n <= 2048 && n % 32 == 0
    && Underfills(m, k) && k - k % 32 >= 32 && Times(k - k % 32, n) <= TRANSPOSE_CAP
    && PartialSize(n / 32, m, k - k % 32) <= SPLITK_SCRATCH_CAP
  }

  predicate DxSplitMain(m: nat, k: nat, n: nat) {
    && 32 <= m <= 1024 && 64 <= k <= 4096 && k % 4 == 0 && k % 32 == 0 && 32 <= n <= 2048 && n - n % 32 >= 32
    && Times(k, n) <= TRANSPOSE_CAP && PartialSize((n - n % 32) / 32, m, k) <= SPLITK_SCRATCH_CAP
    && Underfills(m, k)
  }

  predicate DxSplitSlim(m: nat, k: nat, n: nat) {
    && m > 1024 && 128 <= k <= 768 && n >= 64 && n % 32 == 0 && Times(k, n) <= TRANSPOSE_CAP
    && DivCeil(AsU32(n), 64) >= 2 && PartialSize(DivCeil(AsU32(n), 64), m, k) <= SPLITK_SCRATCH_CAP
    && 0 < HostGrid(m, k, 128, 64) < 3 * NUM_SMS
  }

  function DxRoute(m: nat, k: nat, n: nat): Route {
    if 2 <= n <= 127 && k >= 1 && m >= 1 then NarrowRoute
    else if m < 32 && k >= 1 && n >= 128 then GapRoute
    else if n == 1 && k >= 1 && m >= 1 then GemvRoute
    else if DxSplitTail(m, k, n) then SplitTailRoute
    else if DxSplitMain(m, k, n) then SplitMainRoute
    else if DxSplitSlim(m, k, n) then SplitSlimRoute
    else if 32 <= m < 128 && k >= 1 && n >= 128 then GapRoute
    else if m >= 128 && k >= 1 then (if PicksSlim(m, k) then SlimRoute else BigRoute)
    else NoRoute
  }

  /** The reduction plan of column `col` of dX: the K-tail route fills its last columns with another kernel. */
  function DxPlan(r: Route, k: nat, n: nat, col: nat): Plan
    requires !r.NoRoute? && !r.SplitMRoute? && !r.UltraThinRoute? && !r.SmallRoute?
  {
    if r.GemvRoute? then Outer
    else if r.SplitTailRoute? then (if col < k - k % 32 then Split(32, n, 32) else Column)
    else if r.SplitMainRoute? then Split(32, n - n % 32, 32)
    else if r.SplitSlimRoute? then Split(64, n, 32)
    else if r.SlimRoute? then Whole(32)
    else Whole(16)
  }

  // ---- exact coverage ----

  /** The forward cascade leaves out exactly the single-column shapes with a short reduction. */
  lemma ForwardCoverage(m: nat, k: nat, n: nat)
    requires Sane(m, k, n)
    ensures ForwardRoute(m, k, n).NoRoute? <==> n == 1 && k < 32
    ensures !ForwardRoute(m, k, n).SplitMRoute?
  {
  }

  /** The dW cascade leaves out exactly the single-column shapes too small for the vector kernel. */
  lemma DwCoverage(m: nat, k: nat, n: nat)
    requires Sane(m, k, n)
    ensures DwRoute(m, k, n).NoRoute? <==> n == 1 && (k < 4 || m < 32)
  {
  }

  /** The dX cascade covers every shape. */
  lemma DxCoverage(m: nat, k: nat, n: nat)
    requires Sane(m, k, n)
    ensures !DxRoute(m, k, n).NoRoute? && !DxRoute(m, k, n).SplitMRoute?
    ensures !DxRoute(m, k, n).UltraThinRoute? && !DxRoute(m, k, n).SmallRoute?
  {
  }

  /** So the promise of full shape coverage fails, on these shapes for one. */
  lemma FullCoverageFails()
    ensures Sane(1, 31, 1) && ForwardRoute(1, 31, 1).NoRoute?
    ensures Sane(31, 4, 1) && DwRoute(31, 4, 1).NoRoute?
  {
    TimesIs(31, 1); TimesIs(31, 4); TimesIs(4, 1); TimesIs(1, 31);
  }

  /** Every route's plan is runnable on the shapes routed to it. */
  lemma PlansFit(m: nat, k: nat, n: nat, col: nat)
    requires Sane(m, k, n)
    ensures !ForwardRoute(m, k, n).NoRoute? ==> ForwardPlan(ForwardRoute(m, k, n), k).Fits(k)
    ensures !ForwardRoute(m, k, n).NoRoute? ==> ForwardPlan(ForwardRoute(m, k, n), k).TakesBias()
    ensures !DwRoute(m, k, n).NoRoute? ==> DwPlan(DwRoute(m, k, n)).Fits(m)
    ensures DxPlan(DxRoute(m, k, n), k, n, col).Fits(n)
  {
    DxCoverage(m, k, n);
    if DwRoute(m, k, n).SplitMRoute? { PartitionIsSound(m, k, n); }
  }

  // ---- the cascades as disjoint regions ----

  /** Tiles of 128 x 64 that cover the output, as the gates count them. */
  lemma GateGrid(rows: nat, cols: nat)
    requires rows > 0 && cols > 0 && Times(rows, cols) < I32_LIMIT
    ensures HostGrid(rows, cols, 128, 64) == Times((rows + 127) / 128, (cols + 63) / 64) > 0
  {
    HostGridIsTiles(rows, cols, 128, 64);
    TimesPositive(DivCeil(rows, 128), DivCeil(cols, 64));
  }

  /** Which shapes each forward kernel gets, gate constants included. */
  lemma ForwardRegions(m: nat, k: nat, n: nat)
    requires Sane(m, k, n)
    ensures
      var r, grid := ForwardRoute(m, k, n), Times((m + 127) / 128, (n + 63) / 64);
      var thin := m < 32 && 32 <= k <= 2048 && n >= 32;
      var splitK := 32 <= m <= 1024 && 128 <= n <= 2048 && n % 4 == 0 && k >= 32 && grid < 142
                    && Times(k / 32, Times(m, n)) <= 8388608;
      var splitSlim := m > 1024 && 128 <= n <= 512 && k > 320 && k % 32 == 0 && grid < 426
                       && Times((k + 63) / 64, Times(m, n)) <= 8388608;
      && (r.UltraThinRoute? <==> thin)
      && (r.SmallRoute? <==> 2 <= n <= 127 && m <= 64 && !thin)
      && (r.NarrowRoute? <==> 2 <= n <= 127 && m > 64)
      && (r.GemvRoute? <==> n == 1 && k >= 32)
      && (r.SplitTailRoute? <==> splitK && k % 32 != 0)
      && (r.SplitMainRoute? <==> splitK && k % 32 == 0)
      && (r.SplitSlimRoute? <==> splitSlim)
      && (r.GapRoute? <==> n >= 128 && m < 128 && !thin && !splitK)
      && (r.SlimRoute? <==> n >= 128 && m >= 128 && (n <= 512 || m < 512) && !splitK && !splitSlim)
      && (r.BigRoute? <==> n > 512 && m >= 512 && !splitK)
      && (r.NoRoute? <==> n == 1 && k < 32)
  {
    ForwardTailGate(m, k, n);
    ForwardMainGate(m, k, n);
    ForwardSlimGate(m, k, n);
  }

  /** Which shapes each dW kernel gets. */
  lemma DwRegions(m: nat, k: nat, n: nat)
    requires Sane(m, k, n)
    ensures
      var r, split := DwRoute(m, k, n), SplitmPartition(m, k, n);
      && (r.GemvRoute? <==> n == 1 && k >= 4 && m >= 32)
      && (r.NarrowRoute? <==> 2 <= n <= 127)
      && (r.SplitMRoute? <==> split.SplitInto?)
      && (r.SplitMRoute? ==> r.chunk == split.chunk && r.f == split.f)
      && (r.SlimRoute? <==> n >= 128 && split.NoSplit? && (n <= 512 || k < 512))
      && (r.BigRoute? <==> n > 512 && k >= 512 && split.NoSplit?)
      && (r.NoRoute? <==> n == 1 && (k < 4 || m < 32))
  {
  }

  /** Which shapes each dX kernel gets. */
  lemma DxRegions(m: nat, k: nat, n: nat)
    requires Sane(m, k, n)
    ensures
      var r, grid, main := DxRoute(m, k, n), Times((m + 127) / 128, (k + 63) / 64), k - k % 32;
      var splitK := 32 <= m <= 1024 && 64 <= k <= 4096 && 128 <= n <= 2048 && grid < 142;
      var tail := splitK && k % 32 != 0 && n % 32 == 0 && Times(main, n) <= 4194304
                  && Times(n / 32, Times(m, main)) <= 8388608;
      var even := splitK && k % 32 == 0 && Times(k, n) <= 4194304 && Times(n / 32, Times(m, k)) <= 8388608;
      var splitSlim := m > 1024 && 128 <= k <= 768 && n >= 128 && n % 32 == 0 && grid < 426
                       && Times(k, n) <= 4194304 && Times((n + 63) / 64, Times(m, k)) <= 8388608;
      && (r.NarrowRoute? <==> 2 <= n <= 127)
      && (r.GemvRoute? <==> n == 1)
      && (r.SplitTailRoute? <==> tail)
      && (r.SplitMainRoute? <==> even)
      && (r.SplitSlimRoute? <==> splitSlim)
      && (r.GapRoute? <==> n >= 128 && m < 128 && !tail && !even)
      && (r.SlimRoute? <==> n >= 128 && m >= 128 && (k <= 512 || m < 512) && !tail && !even && !splitSlim)
      && (r.BigRoute? <==> n >= 128 && m >= 512 && k > 512 && !tail && !even && !splitSlim)
  {
    DxTailGate(m, k, n);
    DxMainGate(m, k, n);
    DxSlimGate(m, k, n);
  }

  /** The arithmetic in the gates. */
  lemma WholeSteps32(k: nat)
    ensures (k - k % 32) / 32 == k / 32 && (k - k % 32 >= 32 <==> k >= 32)
  {
  }

  lemma Chunks64(k: nat)
    requires k < I32_LIMIT
    ensures DivCeil(AsU32(k), 64) == (k + 63) / 64
    ensures ((k + 63) / 64 >= 2 <==> k > 64) && ((k + 63) / 64 >= 6 <==> k > 320)
  {
  }

  lemma DxTailGate(m: nat, k: nat, n: nat)
    requires Sane(m, k, n)
    ensures DxSplitTail(m, k, n) <==>
      && 32 <= m <= 1024 && 64 <= k <= 4096 && 32 <= n <= 2048 && k % 32 != 0 && n % 32 == 0
      && Times((m + 127) / 128, (k + 63) / 64) < 142 && Times(k - k % 32, n) <= 4194304
      && Times(n / 32, Times(m, k - k % 32)) <= 8388608
  {
    GateGrid(m, k);
    if 32 <= m <= 1024 && 64 <= k <= 4096 && 32 <= n <= 2048 && k % 32 != 0 && n % 32 == 0 {
      WholeSteps32(k);
      var main := k - k % 32;
      assert PartialSize(n / 32, m, main) == Times(n / 32, Times(m, main));
    }
  }

  lemma DxMainGate(m: nat, k: nat, n: nat)
    requires Sane(m, k, n)
    ensures DxSplitMain(m, k, n) <==>
      && 32 <= m <= 1024 && 64 <= k <= 4096 && 32 <= n <= 2048 && k % 32 == 0
      && Times((m + 127) / 128, (k + 63) / 64) < 142 && Times(k, n) <= 4194304
      && Times(n / 32, Times(m, k)) <= 8388608
  {
    GateGrid(m, k);
    if 32 <= m <= 1024 && 64 <= k <= 4096 && 32 <= n <= 2048 && k % 32 == 0 {
      WholeSteps32(n);
      FourDivides(k);
      var chunks := n / 32;
      assert PartialSize((n - n % 32) / 32, m, k) == Times(chunks, Times(m, k));
    } else if n < 32 {
      WholeSteps32(n);
    }
  }

  lemma FourDivides(k: nat)
    ensures k % 4 == 0 && k % 32 == 0 <==> k % 32 == 0
  {
    if k % 32 == 0 {
      TimesIs(k / 32, 32);
      MulMod4(k / 32, 32);
    }
  }

  lemma DxSlimGate(m: nat, k: nat, n: nat)
    requires Sane(m, k, n)
    ensures DxSplitSlim(m, k, n) <==>
      && m > 1024 && 128 <= k <= 768 && n > 64 && n % 32 == 0
      && Times((m + 127) / 128, (k + 63) / 64) < 426 && Times(k, n) <= 4194304
      && Times((n + 63) / 64, Times(m, k)) <= 8388608
  {
    SaneDims(m, k, n);
    GateGrid(m, k);
    Chunks64(n);
  }

  lemma ForwardTailGate(m: nat, k: nat, n: nat)
    requires Sane(m, k, n)
    ensures ForwardSplitTail(m, k, n) <==>
      && 32 <= m <= 1024 && 64 <= n <= 2048 && n % 4 == 0 && k >= 32 && k % 32 != 0
      && Times((m + 127) / 128, (n + 63) / 64) < 142 && Times(k / 32, Times(m, n)) <= 8388608
  {
    GateGrid(m, n);
    if 32 <= m <= 1024 && 64 <= n <= 2048 && n % 4 == 0 && k % 32 != 0 {
      WholeSteps32(k);
      var chunks := k / 32;
      assert PartialSize((k - k % 32) / 32, m, n) == Times(chunks, Times(m, n));
    }
  }

  lemma ForwardMainGate(m: nat, k: nat, n: nat)
    requires Sane(m, k, n)
    ensures ForwardSplitMain(m, k, n) <==>
      && 32 <= m <= 1024 && 64 <= n <= 2048 && n % 4 == 0 && k >= 32 && k % 32 == 0
      && Times((m + 127) / 128, (n + 63) / 64) < 142 && Times(k / 32, Times(m, n)) <= 8388608
  {
    GateGrid(m, n);
  }

  lemma ForwardSlimGate(m: nat, k: nat, n: nat)
    requires Sane(m, k, n)
    ensures ForwardSplitSlim(m, k, n) <==>
      && m > 1024 && 128 <= n <= 512 && k > 320 && k % 32 == 0
      && Times((m + 127) / 128, (n + 63) / 64) < 426 && Times((k + 63) / 64, Times(m, n)) <= 8388608
  {
    SaneDims(m, k, n);
    GateGrid(m, n);
    Chunks64(k);
  }

  // ---- the mirrored predicates, as they are written out a second time ----

  predicate NnRoutesToBig(m: nat, k: nat, n: nat) {
    if n == 1 then false
    else if 1 <= m < 32 && 32 <= k <= 2048 && n >= 32 then false
    else if 2 <= n <= 127 then false
    else
      var underfill := HostGrid(m, n, 128, 64) < NUM_SMS;
      if 32 <= m <= 1024 && 64 <= n <= 2048 && n % 4 == 0 && k >= 33 && k % 32 != 0 && underfill
         && k - k % 32 >= 32 && PartialSize((k - k % 32) / 32, m, n) <= SPLITK_SCRATCH_CAP then false
      else if 32 <= m <= 1024 && 64 <= n <= 2048 && n % 4 == 0 && k >= 32 && k % 32 == 0
              && PartialSize(k / 32, m, n) <= SPLITK_SCRATCH_CAP && underfill then false
      else if m > 1024 && 128 <= n <= 512 && k >= 64 && k % 32 == 0
              && (var f := DivCeil(AsU32(k), 64); f >= 6 && PartialSize(f, m, n) <= SPLITK_SCRATCH_CAP)
              && (var base := HostGrid(m, n, 128, 64); base > 0 && base < 3 * NUM_SMS) then false
      else if m < 128 then false
      else if !(m >= 128 && n >= 128) then false
      else !(n <= 512 || (m < 512 && n >= 128))
  }

  predicate TnRoutesToBig(m: nat, k: nat, n: nat)
    requires Sane(m, k, n)
  {
    if n == 1 || 2 <= n <= 127 then false
    else if SplitmPartition(m, k, n).SplitInto? then false
    else if !(k >= 1 && n >= 128) then false
    else !(n <= 512 || (k < 512 && n >= 128))
  }

  predicate NtRoutesToBig(m: nat, k: nat, n: nat) {
    if 2 <= n <= 127 then false
    else if m < 32 && n >= 128 then false
    else if n == 1 then false
    else
      var underfill := HostGrid(m, k, 128, 64) < NUM_SMS;
      if 32 <= m <= 1024 && 64 <= k <= 4096 && k >= 33 && k % 32 != 0 && 32 <= n <= 2048 && n % 32 == 0 && underfill
         && k - k % 32 >= 32 && Times(k - k % 32, n) <= TRANSPOSE_CAP
         && PartialSize(n / 32, m, k - k % 32) <= SPLITK_SCRATCH_CAP then false
      else if 32 <= m <= 1024 && 64 <= k <= 4096 && k % 4 == 0 && k % 32 == 0 && 32 <= n <= 2048
              && n - n % 32 >= 32 && Times(k, n) <= TRANSPOSE_CAP
              && PartialSize((n - n % 32) / 32, m, k) <= SPLITK_SCRATCH_CAP && underfill then false
      else if m > 1024 && 128 <= k <= 768 && n >= 64 && n % 32 == 0 && Times(k, n) <= TRANSPOSE_CAP
              && (var f := DivCeil(AsU32(n), 64); f >= 2 && PartialSize(f, m, k) <= SPLITK_SCRATCH_CAP)
              && (var base := HostGrid(m, k, 128, 64); base > 0 && base < 3 * NUM_SMS) then false
      else if 32 <= m < 128 then false
      else if !(m >= 128 && k >= 1) then false
      else !(k <= 512 || (m < 512 && k >= 128))
  }

  /** The three mirrors hold exactly where their f32 cascades pick the 128 x 128 kernel. */
  lemma MirrorsAgree(m: nat, k: nat, n: nat)
    requires Sane(m, k, n)
    ensures NnRoutesToBig(m, k, n) <==> ForwardRoute(m, k, n).BigRoute?
    ensures TnRoutesToBig(m, k, n) <==> DwRoute(m, k, n).BigRoute?
    ensures NtRoutesToBig(m, k, n) <==> DxRoute(m, k, n).BigRoute?
  {
  }

  // ---- the typed cascades ----

  function TypedForwardRoute(m: nat, k: nat, n: nat): Route {
    if n == 1 && m >= 1 && k >= 32 then GemvRoute
    else if 1 <= m < 32 && 32 <= k <= 2048 && n >= 32 then UltraThinRoute
    else if 2 <= n <= 127 && m >= 1 && k >= 1 then (if m <= 64 then SmallRoute else NarrowRoute)
    else if NnRoutesToBig(m, k, n) then BigRoute
    else NoRoute
  }

  function TypedDwRoute(m: nat, k: nat, n: nat): Route
    requires Sane(m, k, n)
  {
    if n == 1 && k >= 4 && m >= 32 then GemvRoute
    else if 2 <= n <= 127 && m >= 1 && k >= 1 then NarrowRoute
    else if TnRoutesToBig(m, k, n) then BigRoute
    else NoRoute
  }

  function TypedDxRoute(m: nat, k: nat, n: nat): Route {
    if n == 1 && m >= 1 && k >= 1 then GemvRoute
    else if 2 <= n <= 127 && m >= 1 && k >= 1 then NarrowRoute
    else if NtRoutesToBig(m, k, n) then BigRoute
    else NoRoute
  }

  /** A native typed kernel runs exactly where the f32 cascade runs its twin, although the gates are tried in
      another order; every other shape goes to the fallback. */
  lemma TypedBucketsCoincide(m: nat, k: nat, n: nat)
    requires Sane(m, k, n)
    ensures TypedForwardRoute(m, k, n) == var r := ForwardRoute(m, k, n);
      if r in {GemvRoute, UltraThinRoute, SmallRoute, NarrowRoute, BigRoute} then r else NoRoute
    ensures TypedDwRoute(m, k, n) == var r := DwRoute(m, k, n);
      if r in {GemvRoute, NarrowRoute, BigRoute} then r else NoRoute
    ensures TypedDxRoute(m, k, n) == var r := DxRoute(m, k, n);
      if r in {GemvRoute, NarrowRoute, BigRoute} then r else NoRoute
  {
    MirrorsAgree(m, k, n);
  }

  // ---- across batch sizes ----

  ghost predicate SamePlanForAllBatches(k: nat, n: nat) {
    forall m, m' :: Sane(m, k, n) && Sane(m', k, n) ==>
      var r, r' := ForwardRoute(m, k, n), ForwardRoute(m', k, n);
      r.NoRoute? == r'.NoRoute?
        && (!r.NoRoute? && !r.SplitMRoute? && !r'.SplitMRoute? ==> ForwardPlan(r, k) == ForwardPlan(r', k))
  }

  /** Exactly which layers keep one reduction plan over every batch size: the narrow ones, unless the ultra-thin
      kernel takes their small batches; and those with a short reduction that are too wide for a batch of 128. */
  lemma OnePlanForAllBatchesIff(k: nat, n: nat)
    requires Sane(1, k, n)
    ensures SamePlanForAllBatches(k, n)
       <==> n < 32 || (n <= 127 && (k < 32 || k > 2048)) || (k < 32 && n >= WIDEST_FOR_128)
  {
    if n < 32 || (n <= 127 && (k < 32 || k > 2048)) || (k < 32 && n >= WIDEST_FOR_128) {
      OnePlan(k, n);
    } else {
      TwoPlans(k, n);
    }
  }

  lemma OnePlan(k: nat, n: nat)
    requires Sane(1, k, n)
    requires n < 32 || (n <= 127 && (k < 32 || k > 2048)) || (k < 32 && n >= WIDEST_FOR_128)
    ensures SamePlanForAllBatches(k, n)
  {
    if n >= WIDEST_FOR_128 {
      forall m | Sane(m, k, n) ensures m < 128 { TooWide(m, n); }
    }
  }

  lemma TwoPlans(k: nat, n: nat)
    requires Sane(1, k, n) && n >= 32 && !(n <= 127 && (k < 32 || k > 2048)) && !(k < 32 && n >= WIDEST_FOR_128)
    ensures !SamePlanForAllBatches(k, n)
  {
    if 32 <= k <= 2048 {
      BatchFits(32, k, n);
      assert ForwardRoute(1, k, n).UltraThinRoute? && !ForwardRoute(32, k, n).UltraThinRoute?;
      assert Sane(1, k, n) && Sane(32, k, n);
    } else {
      BatchOf128Fits(k, n);
      NotSixteenDeep(k, n);
      assert ForwardRoute(1, k, n).GapRoute?;
      assert Sane(1, k, n) && Sane(128, k, n);
    }
  }

  /** A batch of 128 rows of a wide layer never goes to a kernel with 16-deep slabs. */
  lemma NotSixteenDeep(k: nat, n: nat)
    requires Sane(128, k, n) && n >= 128
    ensures var r := ForwardRoute(128, k, n); !r.NoRoute? && !r.SplitMRoute? && ForwardPlan(r, k) != Whole(16)
  {
  }

  /** The width from which a batch of 128 has 2^31 output elements or more. */
  const WIDEST_FOR_128: nat := 0x100_0000

  lemma TooWide(m: nat, n: nat)
    requires n >= WIDEST_FOR_128 && Times(m, n) < I32_LIMIT
    ensures m < 128
  {
    if m >= 128 {
      TimesMono(128, WIDEST_FOR_128, m, n);
      TimesIs(128, WIDEST_FOR_128);
    }
  }

  /** A batch no larger than the reduction, on a reduction no larger than 2048. */
  lemma BatchFits(m: nat, k: nat, n: nat)
    requires 0 < m <= k <= 2048 && Sane(1, k, n)
    ensures Sane(m, k, n)
  {
    TimesLess(m, k, n);
    TimesMono(m, k, 2048, 2048);
    TimesIs(2048, 2048);
  }

  lemma BatchOf128Fits(k: nat, n: nat)
    requires Sane(1, k, n) && n >= 128 && (k > 2048 || n < WIDEST_FOR_128)
    ensures Sane(128, k, n)
  {
    TimesIs(128, k);
    TimesIs(128, n);
    TimesMono(k, 128, k, n);
    TimesIs(k, 128);
    if k > 2048 {
      TimesMono(2048, n, k, n);
      TimesIs(2048, n);
    }
  }
}
