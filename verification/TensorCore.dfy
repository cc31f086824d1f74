/** The tensor-core tier: two tile families over the same matrix-multiply chain, and the shape-only routing
    between them. */
module TensorCore {
  import opened Numerics
  import opened Terms
  import opened Operands
  import opened Geometry
  import opened Loading
  import opened TileKernel
  import opened TileLaunch
  import opened Plans
  import opened Kernels

  datatype TcTile = Tile128 | Tile64 {
    function Edge(): nat { if Tile128? then 128 else 64 }
    function Threads(): nat { 2 * Edge() }
  }

  datatype Pick = Picked(tile: TcTile) | NoTile

  const PREFER_64_BELOW: nat := 72

  function PickTile(rows: nat, cols: nat): Pick {
    if rows >= 128 && cols >= 128 then
      (if HostGrid(rows, cols, 128, 128) >= PREFER_64_BELOW then Picked(Tile128) else Picked(Tile64))
    else if rows >= 64 && cols >= 64 then Picked(Tile64)
    else NoTile
  }

  /** Sixteen-byte staging needs both leading dimensions to be multiples of eight. */
  predicate FastStage(x: Operand, w: Operand) { x.ld % 8 == 0 && w.ld % 8 == 0 }

  function Stager(tile: TcTile, redMajor: bool, fast: bool): Loader {
    var its, unit := if fast then 4 else 32, if fast then 8 else 1;
    Loader(if redMajor then StripedByRow(tile.Threads(), its, unit) else StripedByCol(tile.Threads(), its, unit),
           if fast then Chunked else Scalar)
  }

  /** A tensor-core launch: row-major tile order, two stages, 16-bit operands multiplied as they are. */
  function TensorLaunch(op: Op, tile: TcTile, x: Operand, w: Operand, seed: Seed): Launch {
    Launch(TensorTile(tile.Edge()), Stager(tile, x.redMajor, FastStage(x, w)),
           Stager(tile, w.redMajor, FastStage(x, w)),
           x, w, seed, OutEpilogue(op, true), Scalar, true, 1, x.red)
  }

  lemma TensorSizes(tile: TcTile)
    ensures var g := TensorTile(tile.Edge());
      g.Valid() && g.BM() == g.BN() == tile.Edge() && g.Threads() == tile.Threads()
  {
    if tile.Tile128? { Sizes128(); } else { Sizes64(); }
  }

  lemma Sizes128()
    ensures var g := TensorTile(128); g.Valid() && g.BM() == g.BN() == 128 && g.Threads() == 256
  {
    var g := TensorTile(128);
    LoaderSizes();
    assert g == Geom(2, 4, 8, 4, 8, 4, 1, 2, 64, true);
    assert g.SubM() == Times(8, 1) && g.SubN() == Times(4, 2);
    assert g.WM() == Times(8, 8) && g.WN() == Times(4, 8);
  }

  lemma Sizes64()
    ensures var g := TensorTile(64); g.Valid() && g.BM() == g.BN() == 64 && g.Threads() == 128
  {
    var g := TensorTile(64);
    LoaderSizes();
    assert g == Geom(2, 2, 4, 4, 8, 4, 1, 2, 64, true);
    assert g.SubM() == Times(8, 1) && g.SubN() == Times(4, 2);
    assert g.WM() == Times(4, 8) && g.WN() == Times(4, 8);
  }

  lemma Eighths(tile: TcTile)
    ensures Divides(8, 64) && Quot(64, 8) == 8 && Divides(8, tile.Edge()) && Quot(tile.Edge(), 8) == tile.Edge() / 8
  {
    TimesIs(8, 8);
    TimesIs(16, 8);
    FlatDigits(8, 8, 0);
    FlatDigits(16, 8, 0);
  }

  /** The stagers cover both slabs of a tile exactly, in chunks of eight or element by element. */
  lemma StagerFits(tile: TcTile, redMajor: bool, fast: bool)
    ensures Stager(tile, redMajor, fast).map_.Fits(64, tile.Edge(), tile.Threads())
  {
    if fast {
      Eighths(tile);
      TimesIs(4, tile.Threads());
      TimesIs(64, tile.Edge() / 8);
      TimesIs(tile.Edge(), 8);
    } else {
      StripedFits(redMajor, tile.Threads(), 32, 64, tile.Edge());
    }
  }

  /** One operand's stager, for the tile edge `width` that the geometry multiplies out to. */
  lemma StagerOk(l: Launch, tile: TcTile, a: Operand, fast: bool, width: nat)
    requires !a.half && (fast ==> a.ld % 8 == 0) && l.chunk == a.red && width == tile.Edge()
    requires l.g.bk == 64 && l.g.Threads() == tile.Threads()
    ensures l.LoaderFits(Stager(tile, a.redMajor, fast), a, width)
  {
    StagerFits(tile, a.redMajor, fast);
  }

  lemma TensorValid(op: Op, tile: TcTile, x: Operand, w: Operand, seed: Seed)
    requires LaidOut(op, false, x, w)
    ensures TensorLaunch(op, tile, x, w, seed).Valid()
    ensures TensorTile(tile.Edge()).BM() == TensorTile(tile.Edge()).BN() == tile.Edge()
  {
    var l := TensorLaunch(op, tile, x, w, seed);
    TensorSizes(tile);
    StagerOk(l, tile, x, FastStage(x, w), l.g.BM());
    StagerOk(l, tile, w, FastStage(x, w), l.g.BN());
  }

  /** A tensor-core launch runs over the whole axis and follows the tensor plan, on whichever tile. */
  lemma TensorWhole(op: Op, tile: TcTile, x: Operand, w: Operand, seed: Seed)
    requires LaidOut(op, false, x, w) && x.outer > 0 && w.outer > 0
    requires seed.Bias? ==> |seed.values| >= w.outer
    ensures var l := TensorLaunch(op, tile, x, w, seed);
      && IsWhole(l) && PlanOf(l.g) == Tensor && l.epi == OutEpilogue(op, true)
      && l.Size() == Times(x.outer, w.outer) && l.x == x && l.w == w && l.seed == seed
      && l.TilesM() == DivCeil(x.outer, tile.Edge()) && l.TilesN() == DivCeil(w.outer, tile.Edge())
  {
    TimesPositive(x.outer, w.outer);
    TensorValid(op, tile, x, w, seed);
  }

  /** Both tile families refine the same plan: which one runs cannot be told from the output. */
  method RunTensor(op: Op, tile: TcTile, x: Operand, w: Operand, seed: Seed, ctas: nat, c: array<Val>)
    requires ctas == Times(DivCeil(x.outer, tile.Edge()), DivCeil(w.outer, tile.Edge()))
    requires LaidOut(op, false, x, w) && x.outer > 0 && w.outer > 0 && Times(x.outer, w.outer) <= c.Length
    requires seed.Bias? ==> |seed.values| >= w.outer
    modifies c
    ensures forall q :: 0 <= q < c.Length ==>
      c[q] == if q < Times(x.outer, w.outer)
              then PlanCell(Tensor, OutEpilogue(op, true), x, w, seed, q, old(c[q])) else old(c[q])
  {
    TensorWhole(op, tile, x, w, seed);
    RunWhole(TensorLaunch(op, tile, x, w, seed), ctas, c);
  }

  /** The two tile families give every output element the same chain of mma steps. */
  lemma TileFamilyNeverShows(op: Op, x: Operand, w: Operand, seed: Seed, q: nat)
    requires LaidOut(op, false, x, w) && q < Times(x.outer, w.outer)
    ensures TensorLaunch(op, Tile128, x, w, seed).Valid() && TensorLaunch(op, Tile64, x, w, seed).Valid()
    ensures TensorLaunch(op, Tile128, x, w, seed).Splits() == 1 == TensorLaunch(op, Tile64, x, w, seed).Splits()
    ensures TensorLaunch(op, Tile128, x, w, seed).CellAt(q) == TensorLaunch(op, Tile64, x, w, seed).CellAt(q)
  {
    TensorCell(op, Tile128, x, w, seed, q);
    TensorCell(op, Tile64, x, w, seed, q);
  }

  lemma TensorCell(op: Op, tile: TcTile, x: Operand, w: Operand, seed: Seed, q: nat)
    requires LaidOut(op, false, x, w) && q < Times(x.outer, w.outer)
    ensures var l := TensorLaunch(op, tile, x, w, seed);
      && l.Valid() && l.Splits() == 1 && w.outer > 0
      && l.CellAt(q) == MmaChain(SeedAt(seed, Rem(q, w.outer)), x, w, Quot(q, w.outer), Rem(q, w.outer), 0,
                                 RoundUp(x.red, 64))
  {
    TensorValid(op, tile, x, w, seed);
    WholeCell(TensorLaunch(op, tile, x, w, seed), q);
  }

  /** The tensor-core tier covers exactly the outputs of at least one 64 x 64 tile. */
  lemma TensorCoverage(rows: nat, cols: nat)
    ensures PickTile(rows, cols).NoTile? <==> rows < 64 || cols < 64
  {
  }
}
