/** Which thread computes which output element, and which thread copies which shared-memory cell. */
module Geometry {
  import opened Numerics

  /** A warp-tiled CTA: `warpsM` x `warpsN` warps; each warp repeats a sub-tile `iterM` x `iterN` times; a
      sub-tile is `lanesM` x `lanesN` lanes of `tm` x `tn` elements. `bk` is the depth of a staged slab, and
      `mma` says that it is swept in matrix-multiply steps of sixteen instead of single multiply-adds. */
  datatype Geom = Geom(warpsM: nat, warpsN: nat, iterM: nat, iterN: nat,
                       lanesM: nat, lanesN: nat, tm: nat, tn: nat, bk: nat, mma: bool) {
    predicate Valid() {
      && warpsM > 0 && warpsN > 0 && iterM > 0 && iterN > 0 && tm > 0 && tn > 0 && bk > 0
      && lanesM > 0 && lanesN > 0 && Times(lanesM, lanesN) == 32 && (mma ==> bk % 16 == 0)
    }
    function Threads(): nat { Times(Times(warpsM, warpsN), 32) }
    function SubM(): nat { Times(lanesM, tm) }
    function SubN(): nat { Times(lanesN, tn) }
    function WM(): nat { Times(iterM, SubM()) }
    function WN(): nat { Times(iterN, SubN()) }
    function BM(): nat { Times(warpsM, WM()) }
    function BN(): nat { Times(warpsN, WN()) }
    function RegsM(): nat { Times(iterM, tm) }
    function RegsN(): nat { Times(iterN, tn) }

    /** Tile row of register row `i` of thread `tid`. */
    function RowOf(tid: nat, i: nat): nat
      requires Valid()
    {
      Flat(Quot(Quot(tid, 32), warpsN), WM(),
           Flat(Quot(i, tm), SubM(), Flat(Quot(Rem(tid, 32), lanesN), tm, Rem(i, tm))))
    }

    /** Tile column of register column `j` of thread `tid`. */
    function ColOf(tid: nat, j: nat): nat
      requires Valid()
    {
      Flat(Rem(Quot(tid, 32), warpsN), WN(),
           Flat(Quot(j, tn), SubN(), Flat(Rem(Rem(tid, 32), lanesN), tn, Rem(j, tn))))
    }

    /** The thread that owns tile element (r, c), and its register row and column. */
    function OwnerTid(r: nat, c: nat): nat
      requires Valid() && WM() > 0 && WN() > 0 && SubM() > 0 && SubN() > 0
    {
      Flat(Flat(Quot(r, WM()), warpsN, Quot(c, WN())), 32,
           Flat(Quot(Rem(Rem(r, WM()), SubM()), tm), lanesN, Quot(Rem(Rem(c, WN()), SubN()), tn)))
    }
    function OwnerI(r: nat): nat
      requires Valid() && WM() > 0 && SubM() > 0
    {
      Flat(Quot(Rem(r, WM()), SubM()), tm, Rem(Rem(Rem(r, WM()), SubM()), tm))
    }
    function OwnerJ(c: nat): nat
      requires Valid() && WN() > 0 && SubN() > 0
    {
      Flat(Quot(Rem(c, WN()), SubN()), tn, Rem(Rem(Rem(c, WN()), SubN()), tn))
    }
  }

  lemma Positive(g: Geom)
    requires g.Valid()
    ensures g.SubM() > 0 && g.SubN() > 0 && g.WM() > 0 && g.WN() > 0 && g.BM() > 0 && g.BN() > 0
    ensures g.Threads() > 0 && g.RegsM() > 0 && g.RegsN() > 0
  {
    TimesPositive(g.lanesM, g.tm); TimesPositive(g.lanesN, g.tn);
    TimesPositive(g.iterM, g.SubM()); TimesPositive(g.iterN, g.SubN());
    TimesPositive(g.warpsM, g.WM()); TimesPositive(g.warpsN, g.WN());
    TimesPositive(g.iterM, g.tm); TimesPositive(g.iterN, g.tn);
    TimesPositive(g.warpsM, g.warpsN); TimesPositive(Times(g.warpsM, g.warpsN), 32);
  }

  /** The four digits of a tile coordinate: warp, repetition, lane, element. */
  lemma FourDigits(q: nat, qs: nat, it: nat, its: nat, l: nat, ls: nat, e: nat, es: nat)
    requires q < qs && it < its && l < ls && e < es
    ensures Times(ls, es) > 0 && Times(its, Times(ls, es)) > 0
    ensures var sub := Times(ls, es); var wm := Times(its, sub); var r := Flat(q, wm, Flat(it, sub, Flat(l, es, e)));
      && r < Times(qs, wm) && Quot(r, wm) == q
      && Quot(Rem(r, wm), sub) == it && Quot(Rem(Rem(r, wm), sub), es) == l && Rem(Rem(Rem(r, wm), sub), es) == e
  {
    var d1 := Flat(l, es, e);
    var d2 := Flat(it, Times(ls, es), d1);
    FlatInBounds(l, ls, es, e);
    FlatDigits(l, es, e);
    FlatInBounds(it, its, Times(ls, es), d1);
    FlatDigits(it, Times(ls, es), d1);
    FlatInBounds(q, qs, Times(its, Times(ls, es)), d2);
    FlatDigits(q, Times(its, Times(ls, es)), d2);
  }

  lemma DigitsOf(r: nat, qs: nat, its: nat, ls: nat, es: nat)
    requires Times(ls, es) > 0 && Times(its, Times(ls, es)) > 0 && es > 0 && r < Times(qs, Times(its, Times(ls, es)))
    ensures var sub := Times(ls, es); var wm := Times(its, sub);
      && Quot(r, wm) < qs && Quot(Rem(r, wm), sub) < its && Quot(Rem(Rem(r, wm), sub), es) < ls
      && r == Flat(Quot(r, wm), wm, Flat(Quot(Rem(r, wm), sub), sub,
                   Flat(Quot(Rem(Rem(r, wm), sub), es), es, Rem(Rem(Rem(r, wm), sub), es))))
  {
    var sub := Times(ls, es);
    var wm := Times(its, sub);
    DigitsFlat(r, qs, wm);
    DigitsFlat(Rem(r, wm), its, sub);
    DigitsFlat(Rem(Rem(r, wm), sub), ls, es);
  }

  lemma LaneSplit(tid: nat, warps: nat, warpsN: nat, lanesM: nat, lanesN: nat)
    requires tid < Times(Times(warps, warpsN), 32) && warpsN > 0 && lanesN > 0 && Times(lanesM, lanesN) == 32
    ensures Quot(Quot(tid, 32), warpsN) < warps && Quot(Rem(tid, 32), lanesN) < lanesM
    ensures tid == Flat(Flat(Quot(Quot(tid, 32), warpsN), warpsN, Rem(Quot(tid, 32), warpsN)), 32,
                        Flat(Quot(Rem(tid, 32), lanesN), lanesN, Rem(Rem(tid, 32), lanesN)))
  {
    DigitsFlat(tid, Times(warps, warpsN), 32);
    DigitsFlat(Quot(tid, 32), warps, warpsN);
    DigitsFlat(Rem(tid, 32), lanesM, lanesN);
  }

  lemma LaneJoin(qr: nat, warps: nat, qc: nat, warpsN: nat, lr: nat, lanesM: nat, lc: nat, lanesN: nat)
    requires qr < warps && qc < warpsN && lr < lanesM && lc < lanesN && Times(lanesM, lanesN) == 32
    ensures var tid := Flat(Flat(qr, warpsN, qc), 32, Flat(lr, lanesN, lc));
      && tid < Times(Times(warps, warpsN), 32)
      && Quot(Quot(tid, 32), warpsN) == qr && Rem(Quot(tid, 32), warpsN) == qc
      && Quot(Rem(tid, 32), lanesN) == lr && Rem(Rem(tid, 32), lanesN) == lc
  {
    FlatInBounds(qr, warps, warpsN, qc);
    FlatInBounds(lr, lanesM, lanesN, lc);
    FlatInBounds(Flat(qr, warpsN, qc), Times(warps, warpsN), 32, Flat(lr, lanesN, lc));
    FlatDigits(Flat(qr, warpsN, qc), 32, Flat(lr, lanesN, lc));
    FlatDigits(qr, warpsN, qc);
    FlatDigits(lr, lanesN, lc);
  }

  /** Each thread's registers are distinct elements of the tile, and the owner functions find them. */
  lemma OwnerOfRegister(g: Geom, tid: nat, i: nat, j: nat)
    requires g.Valid() && tid < g.Threads() && i < g.RegsM() && j < g.RegsN()
    ensures g.SubM() > 0 && g.SubN() > 0 && g.WM() > 0 && g.WN() > 0
    ensures g.RowOf(tid, i) < g.BM() && g.ColOf(tid, j) < g.BN()
    ensures g.OwnerTid(g.RowOf(tid, i), g.ColOf(tid, j)) == tid
    ensures g.OwnerI(g.RowOf(tid, i)) == i && g.OwnerJ(g.ColOf(tid, j)) == j
  {
    Positive(g);
    LaneSplit(tid, g.warpsM, g.warpsN, g.lanesM, g.lanesN);
    DigitsFlat(i, g.iterM, g.tm);
    DigitsFlat(j, g.iterN, g.tn);
    FourDigits(Quot(Quot(tid, 32), g.warpsN), g.warpsM, Quot(i, g.tm), g.iterM,
               Quot(Rem(tid, 32), g.lanesN), g.lanesM, Rem(i, g.tm), g.tm);
    FourDigits(Rem(Quot(tid, 32), g.warpsN), g.warpsN, Quot(j, g.tn), g.iterN,
               Rem(Rem(tid, 32), g.lanesN), g.lanesN, Rem(j, g.tn), g.tn);
  }

  /** Every element of the tile sits in exactly the register the owner functions name. */
  lemma RegisterOfOwner(g: Geom, r: nat, c: nat)
    requires g.Valid() && r < g.BM() && c < g.BN()
    ensures g.SubM() > 0 && g.SubN() > 0 && g.WM() > 0 && g.WN() > 0
    ensures g.OwnerTid(r, c) < g.Threads() && g.OwnerI(r) < g.RegsM() && g.OwnerJ(c) < g.RegsN()
    ensures g.RowOf(g.OwnerTid(r, c), g.OwnerI(r)) == r
    ensures g.ColOf(g.OwnerTid(r, c), g.OwnerJ(c)) == c
  {
    Positive(g);
    DigitsOf(r, g.warpsM, g.iterM, g.lanesM, g.tm);
    DigitsOf(c, g.warpsN, g.iterN, g.lanesN, g.tn);
    var dr, dc := Rem(Rem(r, g.WM()), g.SubM()), Rem(Rem(c, g.WN()), g.SubN());
    LaneJoin(Quot(r, g.WM()), g.warpsM, Quot(c, g.WN()), g.warpsN, Quot(dr, g.tm), g.lanesM, Quot(dc, g.tn), g.lanesN);
    FlatInBounds(Quot(Rem(r, g.WM()), g.SubM()), g.iterM, g.tm, Rem(dr, g.tm));
    FlatInBounds(Quot(Rem(c, g.WN()), g.SubN()), g.iterN, g.tn, Rem(dc, g.tn));
    FlatDigits(Quot(Rem(r, g.WM()), g.SubM()), g.tm, Rem(dr, g.tm));
    FlatDigits(Quot(Rem(c, g.WN()), g.SubN()), g.tn, Rem(dc, g.tn));
  }

  lemma FlatMod4(i: nat, s: nat, j: nat)
    requires s % 4 == 0
    ensures Flat(i, s, j) % 4 == j % 4
  {
    MulMod4(i, s);
    SumMod4(j, Times(i, s));
  }

  /** The digits of neighbouring registers differ in the last one only. */
  lemma NextDigit(j: nat, its: nat, tn: nat, e: nat)
    requires tn % 4 == 0 && tn > 0 && j < Times(its, tn) && j % 4 == 0 && e < 4
    ensures Quot(j + e, tn) == Quot(j, tn) && Rem(j + e, tn) == Rem(j, tn) + e && Rem(j, tn) % 4 == 0
  {
    var q, d := Quot(j, tn), Rem(j, tn);
    DigitsFlat(j, its, tn);
    FlatMod4(q, tn, d);
    QuadBelow(d, tn, e);
    FlatDigits(q, tn, d + e);
  }

  lemma QuadBelow(d: nat, n: nat, e: nat)
    requires d % 4 == 0 && n % 4 == 0 && d < n && e < 4
    ensures d + e < n
  {
  }

  lemma ColumnMod4(warp: nat, wn: nat, q: nat, sub: nat, lane: nat, tn: nat, d: nat)
    requires wn % 4 == 0 && sub % 4 == 0 && tn % 4 == 0 && d % 4 == 0
    ensures Flat(warp, wn, Flat(q, sub, Flat(lane, tn, d))) % 4 == 0
  {
    FlatMod4(lane, tn, d);
    FlatMod4(q, sub, Flat(lane, tn, d));
    FlatMod4(warp, wn, Flat(q, sub, Flat(lane, tn, d)));
  }

  /** Neighbouring registers of one lane are neighbouring columns, so groups of four can be stored at once. */
  lemma RegisterRun(g: Geom, tid: nat, j: nat, e: nat)
    requires g.Valid() && g.tn % 4 == 0 && tid < g.Threads() && j + 4 <= g.RegsN() && j % 4 == 0 && e < 4
    ensures g.ColOf(tid, j + e) == g.ColOf(tid, j) + e && g.ColOf(tid, j) % 4 == 0
  {
    NextDigit(j, g.iterN, g.tn, e);
    MulMod4(g.lanesN, g.tn);
    MulMod4(g.iterN, g.SubN());
    ColumnMod4(Rem(Quot(tid, 32), g.warpsN), g.WN(), Quot(j, g.tn), g.SubN(), Rem(Rem(tid, 32), g.lanesN), g.tn,
               Rem(j, g.tn));
  }

  // The tile shapes the kernels are compiled with.
  const BIG := Geom(2, 4, 1, 1, 8, 4, 8, 8, 16, false)            // 128 x 128, 256 threads
  const SLIM := Geom(2, 2, 1, 2, 8, 4, 8, 4, 32, false)           // 128 x 64, 128 threads
  const NARROW := Geom(2, 2, 1, 1, 8, 4, 4, 4, 16, false)         // 64 x 32, 128 threads
  const NARROW_SMALL := Geom(2, 1, 1, 1, 4, 8, 2, 2, 16, false)   // 16 x 16, 64 threads
  const SPLIT32 := Geom(2, 2, 1, 1, 4, 8, 4, 4, 32, false)        // 32 x 64, 128 threads

  /** The tensor-core tiles: `edge` x `edge`, two rows of edge / 32 warps, each warp tile edge/2 x 32 cut into
      16 x 8 fragments whose lanes hold rows g and g + 8 and columns 2t and 2t + 1. */
  function TensorTile(edge: nat): Geom { Geom(2, edge / 32, edge / 16, 4, 8, 4, 1, 2, 64, true) }
}
