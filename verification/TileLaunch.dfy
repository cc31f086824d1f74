/** A tiled kernel launch: the body of one CTA, and a grid whose CTAs run in an arbitrary order. */
module TileLaunch {
  import opened Numerics
  import opened Terms
  import opened Operands
  import opened Geometry
  import opened Swizzle
  import opened TileKernel
  import opened TileCompute
  import opened TileStore

  /** Everything a launch fixes. `chunk` is the reduction length of one split (the whole axis when the kernel
      does not split); split `f` writes the f-th matrix of the output array. */
  datatype Launch = Launch(g: Geom, la: Loader, lb: Loader, x: Operand, w: Operand, seed: Seed,
                           epi: Epilogue, store: VectorMode, pipelined: bool, groupM: nat, chunk: nat) {
    function Size(): nat { Times(x.outer, w.outer) }

    predicate LoaderFits(l: Loader, a: Operand, width: nat) {
      && g.bk > 0 && l.map_.Fits(g.bk, width, g.Threads()) && width % 4 == 0
      && match l.mode
         case Scalar => true
         case Checked => !a.half && ((l.QuadsAlongOutput() && a.redMajor)
                                     || (l.map_.RedQuads? && !a.redMajor && g.bk % 4 == 0))
         case Unchecked => !a.half && l.QuadsAlongOutput() && a.redMajor && a.ld % 4 == 0
                           && chunk == g.bk && Divides(g.bk, a.red)
         case Unguarded => !a.half && chunk == g.bk && Divides(g.bk, a.red)
         case Chunked => !a.half && l.IsChunked(a) && a.ld % 8 == 0 && width % 8 == 0 && g.bk % 8 == 0 && chunk == a.red
    }

    predicate Valid() {
      && g.Valid() && groupM > 0 && chunk > 0 && x.red == w.red > 0
      && (Divides(g.bk, chunk) || x.red <= chunk)
      && LoaderFits(la, x, g.BM()) && LoaderFits(lb, w, g.BN())
      && (store != Scalar ==> g.tn % 4 == 0) && (store == Unchecked ==> w.outer % 4 == 0)
      && store != Chunked && store != Unguarded
    }

    function Splits(): nat requires Valid() { DivCeil(x.red, chunk) }
    function Lo(f: nat): nat { Times(f, chunk) }
    function Hi(f: nat): nat { Min(Times(f, chunk) + chunk, x.red) }

    /** BK-deep slabs in split `f`; the last one may reach past the end of the split. */
    function Slabs(f: nat): nat
      requires Valid() && f < Splits()
    {
      SplitNonEmpty(f);
      DivCeil(Hi(f) - Lo(f), g.bk)
    }

    lemma SplitNonEmpty(f: nat)
      requires Valid() && f < Splits()
      ensures Lo(f) < Hi(f) <= x.red
    {
      ChunkStarts(f, x.red, chunk);
    }

    /** The accumulator that split `f` ends with for cell (m, n). */
    function Cell(f: nat, m: nat, n: nat): Val
      requires Valid() && f < Splits()
    {
      SplitNonEmpty(f);
      Accumulated(g.mma, SeedAt(seed, n), Cut(x, Hi(f)), Cut(w, Hi(f)), m, n, Lo(f), Times(Slabs(f), g.bk))
    }

    function TilesM(): nat requires Valid() { Positive(g); DivCeil(x.outer, g.BM()) }
    function TilesN(): nat requires Valid() { Positive(g); DivCeil(w.outer, g.BN()) }

    function TileFor(f: nat, id: nat): Tile
      requires Valid() && f < Splits() && id < Times(TilesM(), TilesN())
    {
      SplitNonEmpty(f);
      var ij := TileOf(groupM, TilesM(), TilesN(), id);
      Tile(g, Cut(x, Hi(f)), Cut(w, Hi(f)), seed, Times(ij.0, g.BM()), Times(ij.1, g.BN()), Lo(f))
    }

    function OutputFor(f: nat): Output { Output(Times(f, Size()), x.outer, w.outer, epi, store) }

    /** Coordinates of flat output index `q`. */
    function SplitOf(q: nat): nat requires Size() > 0 { Quot(q, Size()) }
    function RowAt(q: nat): nat
      requires Size() > 0
    {
      FactorPositive(x.outer, w.outer, 0);
      Quot(Rem(q, Size()), w.outer)
    }
    function ColAt(q: nat): nat
      requires Size() > 0
    {
      FactorPositive(x.outer, w.outer, 0);
      Rem(Rem(q, Size()), w.outer)
    }

    function CellAt(q: nat): Val
      requires Valid() && Size() > 0 && q < Times(Splits(), Size())
    {
      DigitsFlat(q, Splits(), Size());
      Cell(SplitOf(q), RowAt(q), ColAt(q))
    }
  }

  /** Slab `k` of split `f` starts on the boundaries the vector copies need. */
  lemma SlabAligned(l: Launch, f: nat, k: nat)
    requires l.Valid() && f < l.Splits()
    ensures l.g.bk % 4 == 0 ==> (l.Lo(f) + Times(k, l.g.bk)) % 4 == 0
    ensures l.g.bk % 8 == 0 && l.chunk == l.x.red ==> (l.Lo(f) + Times(k, l.g.bk)) % 8 == 0
  {
    if l.g.bk % 4 == 0 {
      MulMod4(k, l.g.bk);
      ChunkMod4(l, f);
      SumMod4(l.Lo(f), Times(k, l.g.bk));
    }
    if l.g.bk % 8 == 0 && l.chunk == l.x.red {
      MulMod8(k, l.g.bk);
      FirstSplit(l, f);
    }
  }

  /** So does tile `i`. */
  lemma TileAligned(i: nat, width: nat)
    ensures width % 4 == 0 ==> Times(i, width) % 4 == 0
    ensures width % 8 == 0 ==> Times(i, width) % 8 == 0
  {
    if width % 4 == 0 { MulMod4(i, width); }
    if width % 8 == 0 { MulMod8(i, width); }
  }

  lemma FirstSplit(l: Launch, f: nat)
    requires l.Valid() && f < l.Splits() && l.chunk == l.x.red
    ensures f == 0 && l.Lo(f) == 0
  {
    ChunkStarts(f, l.x.red, l.chunk);
  }

  /** A chunk of one slab is a whole slab. */
  lemma OneSlabChunk(l: Launch, f: nat, k: nat)
    requires l.Valid() && f < l.Splits() && k < l.Slabs(f) && l.chunk == l.g.bk && Divides(l.g.bk, l.x.red)
    ensures l.Lo(f) + Times(k, l.g.bk) + l.g.bk <= l.Hi(f)
  {
    ChunkStarts(f, l.x.red, l.chunk);
    WholeSlab(f, l.g.bk, l.x.red);
    FewerChunks(l.g.bk, 1, l.g.bk);
  }

  lemma LoaderLegal(l: Launch, ld: Loader, a: Operand, width: nat, f: nat, i: nat, k: nat)
    requires l.Valid() && f < l.Splits() && k < l.Slabs(f) && l.LoaderFits(ld, a, width) && a.red == l.x.red
    ensures l.Hi(f) <= a.red
    ensures ld.Legal(Cut(a, l.Hi(f)), l.g.bk, width, Times(i, width), l.Lo(f) + Times(k, l.g.bk))
  {
    l.SplitNonEmpty(f);
    SlabAligned(l, f, k);
    TileAligned(i, width);
    if ld.mode == Unchecked || ld.mode == Unguarded { OneSlabChunk(l, f, k); }
  }

  /** The loaders' vector copies are legal for every slab of every tile. */
  lemma LoadersLegal(l: Launch, f: nat, id: nat, s: nat)
    requires l.Valid() && f < l.Splits() && id < Times(l.TilesM(), l.TilesN()) && s < l.Slabs(f)
    ensures var t := l.TileFor(f, id); var r0 := t.lo + Times(s, l.g.bk);
      l.la.Legal(t.x, l.g.bk, l.g.BM(), t.m0, r0) && l.lb.Legal(t.w, l.g.bk, l.g.BN(), t.n0, r0)
    ensures l.TileFor(f, id).n0 % 4 == 0
  {
    var ij := TileOf(l.groupM, l.TilesM(), l.TilesN(), id);
    LoaderLegal(l, l.la, l.x, l.g.BM(), f, ij.0, s);
    LoaderLegal(l, l.lb, l.w, l.g.BN(), f, ij.1, s);
    TileAligned(ij.1, l.g.BN());
  }

  lemma ChunkMod4(l: Launch, f: nat)
    requires l.Valid() && f < l.Splits() && l.g.bk % 4 == 0
    ensures l.Lo(f) % 4 == 0
  {
    ChunkStarts(f, l.x.red, l.chunk);
    if Divides(l.g.bk, l.chunk) {
      DividesIs(l.g.bk, l.chunk);
      MulMod4(Quot(l.chunk, l.g.bk), l.g.bk);
      MulMod4(f, l.chunk);
    }
  }

  /** When the slab depth divides the axis, the last slab ends with it. */
  lemma WholeSlab(f: nat, bk: nat, red: nat)
    requires bk > 0 && Divides(bk, red) && Times(f, bk) < red
    ensures Times(f, bk) + bk <= red
  {
    DividesIs(bk, red);
    if f >= Quot(red, bk) { TimesLess(Quot(red, bk), f, bk); }
    TimesLess(f + 1, Quot(red, bk), bk);
  }

  /** The shared arrays of a CTA: `stages` slabs of each operand, with padded rows. */
  predicate SharedShape(g: Geom, as_: array3<Val>, bs: array3<Val>, stages: nat) {
    && as_ != bs && as_.Length0 == bs.Length0 == stages && as_.Length1 == bs.Length1 == g.bk
    && as_.Length2 == g.BM() + SMEM_PAD && bs.Length2 == g.BN() + SMEM_PAD
  }

  /** What the main loop of one CTA works on: its tile, its loaders and its slab count. */
  datatype Job = Job(t: Tile, la: Loader, lb: Loader, slabs: nat) {
    function Start(k: nat): nat { t.lo + Times(k, t.g.bk) }

    /** The loaders' vector copies are legal for slab `k`. */
    predicate SlabLegal(k: nat) {
      && la.Legal(t.x, t.g.bk, t.g.BM(), t.m0, Start(k)) && lb.Legal(t.w, t.g.bk, t.g.BN(), t.n0, Start(k))
    }

    predicate Valid() {
      && t.g.Valid()
      && la.map_.Fits(t.g.bk, t.g.BM(), t.g.Threads()) && lb.map_.Fits(t.g.bk, t.g.BN(), t.g.Threads())
      && forall k :: 0 <= k < slabs ==> SlabLegal(k)
    }
  }

  /** Stages slab `k` of the tile, leaving the other stages as they were. */
  method StageTile(j: Job, as_: array3<Val>, bs: array3<Val>, stage: nat, k: nat, ghost other: nat, ghost r0: nat)
    requires j.Valid() && k < j.slabs && SharedShape(j.t.g, as_, bs, as_.Length0) && stage < as_.Length0
    modifies as_, bs
    ensures SlabsStaged(j.t, as_, bs, stage, j.Start(k))
    ensures other != stage && old(SlabsStaged(j.t, as_, bs, other, r0)) ==> SlabsStaged(j.t, as_, bs, other, r0)
  {
    assert j.SlabLegal(k);
    StageSlab(j.la, j.t.x, as_, stage, j.t.g.BM(), j.t.g.Threads(), j.t.m0, j.Start(k));
    StageSlab(j.lb, j.t.w, bs, stage, j.t.g.BN(), j.t.g.Threads(), j.t.n0, j.Start(k));
  }

  /** Slab `k`, if there is one, is staged. */
  ghost predicate ReadyFor(j: Job, as_: array3<Val>, bs: array3<Val>, k: nat, stage: nat, r0: nat)
    reads as_, bs
  {
    k < j.slabs ==> SlabsStaged(j.t, as_, bs, stage, r0)
  }

  /** Slab k + 1, if there is one, goes into `writeStage` while slab k stays in `readStage`. */
  method Prefetch(j: Job, as_: array3<Val>, bs: array3<Val>, k: nat, readStage: nat, writeStage: nat, ghost done: nat)
    requires j.Valid() && k < j.slabs && done == Times(k, j.t.g.bk) && SharedShape(j.t.g, as_, bs, 2)
    requires readStage < 2 && writeStage < 2 && readStage != writeStage
    requires SlabsStaged(j.t, as_, bs, readStage, j.t.lo + done)
    modifies as_, bs
    ensures k + 1 < j.slabs ==> SlabsStaged(j.t, as_, bs, writeStage, j.t.lo + (done + j.t.g.bk))
    ensures SlabsStaged(j.t, as_, bs, readStage, j.t.lo + done)
  {
    if k + 1 < j.slabs {
      TimesSucc(k, j.t.g.bk);
      StageTile(j, as_, bs, writeStage, k + 1, readStage, j.t.lo + done);
    }
  }

  /** One round of the two-stage loop: slab k + 1 goes into `writeStage`, slab k is swept from `readStage`. */
  method PipelineStep(j: Job, as_: array3<Val>, bs: array3<Val>, regs: array<Registers>,
                      k: nat, readStage: nat, writeStage: nat, ghost done: nat)
    requires j.Valid() && k < j.slabs && done == Times(k, j.t.g.bk) && SharedShape(j.t.g, as_, bs, 2)
    requires readStage < 2 && writeStage < 2 && readStage != writeStage
    requires SlabsStaged(j.t, as_, bs, readStage, j.t.lo + done) && AllHold(j.t, regs, done)
    modifies as_, bs, regs
    ensures ReadyFor(j, as_, bs, k + 1, writeStage, j.t.lo + (done + j.t.g.bk)) && AllHold(j.t, regs, done + j.t.g.bk)
  {
    Prefetch(j, as_, bs, k, readStage, writeStage, done);
    ComputeSlab(j.t, as_, bs, readStage, regs, done);
  }

  function NextStage(s: nat): (r: nat)
    ensures s < 2 ==> r == 1 - s
  {
    (s + 1) % 2
  }

  /** The two-stage main loop. */
  method PipelinedLoop(j: Job, as_: array3<Val>, bs: array3<Val>, regs: array<Registers>)
    requires j.Valid() && j.slabs > 0 && SharedShape(j.t.g, as_, bs, 2) && AllHold(j.t, regs, 0)
    modifies as_, bs, regs
    ensures AllHold(j.t, regs, Times(j.slabs, j.t.g.bk))
  {
    StageTile(j, as_, bs, 0, 0, 0, 0);
    var readStage: nat, writeStage: nat := 0, 1;
    ghost var done: nat := 0;
    for k := 0 to j.slabs
      invariant readStage < 2 && writeStage == NextStage(readStage) && done == Times(k, j.t.g.bk)
      invariant ReadyFor(j, as_, bs, k, readStage, j.t.lo + done) && AllHold(j.t, regs, done)
    {
      PipelineStep(j, as_, bs, regs, k, readStage, writeStage, done);
      done := done + j.t.g.bk;
      readStage, writeStage := NextStage(readStage), NextStage(writeStage);
    }
  }

  /** The single-stage main loop: copy, wait, sweep, wait. */
  method SingleStageLoop(j: Job, as_: array3<Val>, bs: array3<Val>, regs: array<Registers>)
    requires j.Valid() && SharedShape(j.t.g, as_, bs, 1) && AllHold(j.t, regs, 0)
    modifies as_, bs, regs
    ensures AllHold(j.t, regs, Times(j.slabs, j.t.g.bk))
  {
    ghost var done: nat := 0;
    for k := 0 to j.slabs
      invariant done == Times(k, j.t.g.bk) && AllHold(j.t, regs, done)
    {
      StageTile(j, as_, bs, 0, k, 0, 0);
      ComputeSlab(j.t, as_, bs, 0, regs, done);
      done := done + j.t.g.bk;
    }
  }

  /** One CTA's main loop is well set up. */
  lemma JobValid(l: Launch, f: nat, id: nat)
    requires l.Valid() && f < l.Splits() && id < Times(l.TilesM(), l.TilesN())
    ensures l.Slabs(f) > 0 && Job(l.TileFor(f, id), l.la, l.lb, l.Slabs(f)).Valid()
    ensures l.TileFor(f, id).n0 % 4 == 0
  {
    l.SplitNonEmpty(f);
    LoadersLegal(l, f, id, 0);
    var j := Job(l.TileFor(f, id), l.la, l.lb, l.Slabs(f));
    forall k | 0 <= k < j.slabs ensures j.SlabLegal(k) { LoadersLegal(l, f, id, k); }
  }

  lemma OutputLegal(l: Launch, f: nat)
    requires l.Valid() && f < l.Splits()
    ensures l.OutputFor(f).Legal(l.g) && l.OutputFor(f).base + l.Size() <= Times(l.Splits(), l.Size())
  {
    TimesLess(f + 1, l.Splits(), l.Size());
    if l.w.outer % 4 == 0 {
      MulMod4(l.x.outer, l.w.outer);
      MulMod4(f, l.Size());
    }
  }

  /** One CTA, from bias seeding to epilogue. */
  method RunCta(l: Launch, f: nat, id: nat, c: array<Val>)
    requires l.Valid() && f < l.Splits() && id < Times(l.TilesM(), l.TilesN())
    requires Times(l.Splits(), l.Size()) <= c.Length
    modifies c
    ensures forall q :: 0 <= q < c.Length ==>
      c[q] == if InTile(l.TileFor(f, id), l.OutputFor(f), q)
              then Final(l.TileFor(f, id), l.OutputFor(f), Times(l.Slabs(f), l.g.bk), old(c[q]), q) else old(c[q])
  {
    var t := l.TileFor(f, id);
    Positive(l.g);
    OutputLegal(l, f);
    JobValid(l, f, id);
    var j := Job(t, l.la, l.lb, l.Slabs(f));
    var stages := if l.pipelined then 2 else 1;
    var as_ := new Val[stages, l.g.bk, l.g.BM() + SMEM_PAD];
    var bs := new Val[stages, l.g.bk, l.g.BN() + SMEM_PAD];
    var regs := new Registers[l.g.Threads()];
    for tid := 0 to regs.Length
      invariant forall u :: 0 <= u < tid ==> HoldsChain(t, regs[u], u, 0)
      invariant c[..] == old(c[..])
    {
      regs[tid] := SeedRegisters(t, tid);
    }
    if l.pipelined {
      PipelinedLoop(j, as_, bs, regs);
    } else {
      SingleStageLoop(j, as_, bs, regs);
    }
    StoreTile(t, l.OutputFor(f), c, regs, Times(l.Slabs(f), l.g.bk));
  }

  /** The CTA that writes output index `q`. */
  function CtaOf(l: Launch, q: nat): (nat, nat)
    requires l.Valid() && l.Size() > 0 && q < Times(l.Splits(), l.Size())
  {
    Positive(l.g);
    Located(l, q);
    (l.SplitOf(q), IdOf(l.groupM, l.TilesM(), l.TilesN(), Quot(l.RowAt(q), l.g.BM()), Quot(l.ColAt(q), l.g.BN())))
  }

  lemma Located(l: Launch, q: nat)
    requires l.Valid() && l.Size() > 0 && q < Times(l.Splits(), l.Size())
    ensures l.g.BM() > 0 && l.g.BN() > 0 && l.w.outer > 0
    ensures l.SplitOf(q) < l.Splits() && l.RowAt(q) < l.x.outer && l.ColAt(q) < l.w.outer
    ensures q == Flat(l.SplitOf(q), l.Size(), Flat(l.RowAt(q), l.w.outer, l.ColAt(q)))
    ensures Quot(l.RowAt(q), l.g.BM()) < l.TilesM() && Quot(l.ColAt(q), l.g.BN()) < l.TilesN()
  {
    Positive(l.g);
    FactorPositive(l.x.outer, l.w.outer, 0);
    DigitsFlat(q, l.Splits(), l.Size());
    DigitsFlat(Rem(q, l.Size()), l.x.outer, l.w.outer);
    DigitsFlat(l.RowAt(q), l.TilesM(), l.g.BM());
    DigitsFlat(l.ColAt(q), l.TilesN(), l.g.BN());
  }

  /** A tile holds exactly the rows whose quotient is its tile row. */
  lemma InBand(r: nat, i: nat, b: nat)
    requires b > 0
    ensures Times(i, b) <= r < Times(i, b) + b <==> Quot(r, b) == i
  {
    if Times(i, b) <= r < Times(i, b) + b { FlatDigits(i, b, r - Times(i, b)); }
    Recompose(r, b);
  }

  /** Each output index is written by one CTA and no other, so the order of the CTAs cannot matter. */
  lemma OneWriter(l: Launch, f: nat, id: nat, q: nat)
    requires l.Valid() && l.Size() > 0 && f < l.Splits() && id < Times(l.TilesM(), l.TilesN())
    ensures InTile(l.TileFor(f, id), l.OutputFor(f), q) ==> q < Times(l.Splits(), l.Size())
    ensures q < Times(l.Splits(), l.Size()) ==>
      (InTile(l.TileFor(f, id), l.OutputFor(f), q) <==> CtaOf(l, q) == (f, id))
    ensures InTile(l.TileFor(f, id), l.OutputFor(f), q) ==>
      l.OutputFor(f).Row(q) == l.RowAt(q) && l.OutputFor(f).Col(q) == l.ColAt(q)
  {
    var o, t := l.OutputFor(f), l.TileFor(f, id);
    var ij := TileOf(l.groupM, l.TilesM(), l.TilesN(), id);
    Positive(l.g);
    OutputLegal(l, f);
    if o.Holds(q) {
      FlatDigits(f, l.Size(), q - o.base);
      InBand(o.Row(q), ij.0, l.g.BM());
      InBand(o.Col(q), ij.1, l.g.BN());
      IdOfTileOf(l.groupM, l.TilesM(), l.TilesN(), id);
    }
    if q < Times(l.Splits(), l.Size()) {
      Located(l, q);
      InBand(q, f, l.Size());
      TileOfIdOf(l.groupM, l.TilesM(), l.TilesN(), Quot(l.RowAt(q), l.g.BM()), Quot(l.ColAt(q), l.g.BN()));
    }
  }

  /** Effect of the CTAs that have run so far: `todo` are those still to run. */
  ghost predicate GridProgress(l: Launch, c: array<Val>, c0: seq<Val>, todo: set<(nat, nat)>)
    requires l.Valid() && l.Size() > 0
    reads c
  {
    && |c0| == c.Length
    && forall q :: 0 <= q < c.Length ==>
         c[q] == if q < Times(l.Splits(), l.Size()) && CtaOf(l, q) !in todo
                 then Apply(l.epi, c0[q], l.CellAt(q)) else c0[q]
  }

  lemma CtaInGrid(l: Launch, q: nat)
    requires l.Valid() && l.Size() > 0 && q < Times(l.Splits(), l.Size())
    ensures CtaOf(l, q).0 < l.Splits() && CtaOf(l, q).1 < Times(l.TilesM(), l.TilesN())
  {
    Located(l, q);
    TileOfIdOf(l.groupM, l.TilesM(), l.TilesN(), Quot(l.RowAt(q), l.g.BM()), Quot(l.ColAt(q), l.g.BN()));
  }

  /** What one CTA writes is the launch's cell. */
  lemma FinalIsCell(l: Launch, f: nat, id: nat, q: nat, before: Val)
    requires l.Valid() && l.Size() > 0 && f < l.Splits() && id < Times(l.TilesM(), l.TilesN())
    requires InTile(l.TileFor(f, id), l.OutputFor(f), q) && q < Times(l.Splits(), l.Size()) && CtaOf(l, q) == (f, id)
    requires l.OutputFor(f).Row(q) == l.RowAt(q) && l.OutputFor(f).Col(q) == l.ColAt(q)
    ensures Final(l.TileFor(f, id), l.OutputFor(f), Times(l.Slabs(f), l.g.bk), before, q)
         == Apply(l.epi, before, l.CellAt(q))
  {
    l.SplitNonEmpty(f);
  }

  method RunOne(l: Launch, f: nat, id: nat, c: array<Val>, ghost c0: seq<Val>, ghost todo: set<(nat, nat)>)
    requires l.Valid() && l.Size() > 0 && f < l.Splits() && id < Times(l.TilesM(), l.TilesN())
    requires Times(l.Splits(), l.Size()) <= c.Length && (f, id) in todo && GridProgress(l, c, c0, todo)
    modifies c
    ensures GridProgress(l, c, c0, todo - {(f, id)})
  {
    RunCta(l, f, id, c);
    forall q | 0 <= q < c.Length
      ensures c[q] == if q < Times(l.Splits(), l.Size()) && CtaOf(l, q) !in todo - {(f, id)}
                      then Apply(l.epi, c0[q], l.CellAt(q)) else c0[q]
    {
      OneWriter(l, f, id, q);
      if InTile(l.TileFor(f, id), l.OutputFor(f), q) {
        FinalIsCell(l, f, id, q, c0[q]);
      }
    }
  }

  lemma TilesExist(l: Launch)
    requires l.Valid() && l.Size() > 0
    ensures Times(l.TilesM(), l.TilesN()) > 0
  {
    FactorPositive(l.x.outer, l.w.outer, 0);
    TimesPositive(l.TilesM(), l.TilesN());
  }

  /** The CTAs of a grid of `splits` by `tiles`, numbered split by split, are all pairs of a split and a tile. */
  lemma NumberedCtas(splits: nat, tiles: nat)
    requires tiles > 0
    ensures forall b :: 0 <= b < Times(splits, tiles) ==> Quot(b, tiles) < splits && Rem(b, tiles) < tiles
    ensures forall f, id :: 0 <= f < splits && 0 <= id < tiles ==>
      Flat(f, tiles, id) < Times(splits, tiles)
      && Quot(Flat(f, tiles, id), tiles) == f && Rem(Flat(f, tiles, id), tiles) == id
  {
    forall b | 0 <= b < Times(splits, tiles) ensures Quot(b, tiles) < splits { QuotBound(b, splits, tiles); }
    forall f, id | 0 <= f < splits && 0 <= id < tiles
      ensures Flat(f, tiles, id) < Times(splits, tiles)
      ensures Quot(Flat(f, tiles, id), tiles) == f && Rem(Flat(f, tiles, id), tiles) == id
    {
      FlatInBounds(f, splits, tiles, id);
      FlatDigits(f, tiles, id);
    }
  }

  /** A whole launch of the host's `ctas` CTAs, taken in any order: every cell of every split ends with its chain,
      combined once with what was there before, and nothing outside is written. */
  method LaunchGrid(l: Launch, ctas: nat, c: array<Val>)
    requires l.Valid() && l.Size() > 0 && Times(l.Splits(), l.Size()) <= c.Length
    requires ctas == Times(l.Splits(), Times(l.TilesM(), l.TilesN()))
    modifies c
    ensures forall q :: 0 <= q < c.Length ==>
      c[q] == if q < Times(l.Splits(), l.Size()) then Apply(l.epi, old(c[q]), l.CellAt(q)) else old(c[q])
  {
    ghost var c0 := c[..];
    var tiles := Times(l.TilesM(), l.TilesN());
    TilesExist(l);
    NumberedCtas(l.Splits(), tiles);
    var todo: set<(nat, nat)> := set b: nat | b < ctas :: (Quot(b, tiles), Rem(b, tiles));
    forall q | 0 <= q < Times(l.Splits(), l.Size()) ensures CtaOf(l, q) in todo {
      CtaInGrid(l, q);
      assert Flat(CtaOf(l, q).0, tiles, CtaOf(l, q).1) < ctas;
    }
    while todo != {}
      invariant forall cta :: cta in todo ==> cta.0 < l.Splits() && cta.1 < tiles
      invariant GridProgress(l, c, c0, todo)
      decreases todo
    {
      var cta :| cta in todo;
      RunOne(l, cta.0, cta.1, c, c0, todo);
      todo := todo - {cta};
    }
  }
}
