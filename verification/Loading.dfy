/** How the threads of a CTA share out the copying of a shared-memory slab of `bk` x `width` cells. */
module Loading {
  import opened Numerics

  /** Iteration `it` of thread `tid` copies a run of `Lanes()` cells; each constructor is one of the index
      schemes of the kernels, given by the digit counts that make it exact. */
  datatype LoadMap =
    | CoalescedRows(warps: nat, its: nat, per: nat)    // a warp reads `per` output rows x bk at a time
    | RowQuads(q: nat, s: nat, its: nat)               // four neighbours along the output axis
    | WarpQuads(warps: nat, its: nat, per: nat, q: nat) // the same, laid out warp by warp
    | RedQuads(p: nat, s: nat, its: nat)               // four neighbours along the reduction axis
    | StripedByRow(threads: nat, its: nat, unit: nat)  // idx = tid, tid + threads, ...; rows of the slab
    | StripedByCol(threads: nat, its: nat, unit: nat)  // the same, columns of the slab
  {
    function Lanes(): nat {
      match this
      case CoalescedRows(_, _, _) => 1
      case RowQuads(_, _, _) => 4
      case WarpQuads(_, _, _, _) => 4
      case RedQuads(_, _, _) => 4
      case StripedByRow(_, _, unit) => unit
      case StripedByCol(_, _, unit) => unit
    }

    /** The scheme covers a `bk` x `width` slab with `threads` threads exactly. */
    predicate Fits(bk: nat, width: nat, threads: nat) {
      match this
      case CoalescedRows(warps, its, per) =>
        bk > 0 && its > 0 && per > 0 && threads == Times(warps, 32) && Times(per, bk) == 32
        && width == Times(warps, Times(its, per))
      case RowQuads(q, s, its) => q > 0 && s > 0 && threads == Times(s, q) && width == Times(q, 4)
        && bk == Times(its, s)
      case WarpQuads(warps, its, per, q) =>
        its > 0 && per > 0 && q > 0 && threads == Times(warps, 32) && Times(per, q) == 32 && width == Times(q, 4)
        && bk == Times(warps, Times(its, per))
      case RedQuads(p, s, its) => p > 0 && s > 0 && threads == Times(s, p) && bk == Times(p, 4)
        && width == Times(its, s)
      case StripedByRow(t, its, unit) =>
        t == threads > 0 && unit > 0 && width > 0 && Divides(unit, width)
          && Times(its, t) == Times(bk, Quot(width, unit))
      case StripedByCol(t, its, unit) =>
        t == threads > 0 && unit > 0 && bk > 0 && Divides(unit, bk) && Times(its, t) == Times(width, Quot(bk, unit))
    }

    /** Reduction index of the cell that lane `e` of iteration `it` of thread `tid` copies. */
    function SlotR(bk: nat, width: nat, threads: nat, tid: nat, it: nat, e: nat): nat
      requires Fits(bk, width, threads)
    {
      match this
      case CoalescedRows(_, _, _) => Rem(Rem(tid, 32), bk)
      case RowQuads(q, s, _) => Flat(it, s, Quot(tid, q))
      case WarpQuads(_, its, per, q) => Flat(Quot(tid, 32), Times(its, per), Flat(it, per, Quot(Rem(tid, 32), q)))
      case RedQuads(p, _, _) => Flat(Rem(tid, p), 4, e)
      case StripedByRow(t, _, unit) => QuotOrZero(Flat(it, t, tid), Quot(width, unit))
      case StripedByCol(t, _, unit) => Flat(RemOrZero(Flat(it, t, tid), Quot(bk, unit)), unit, e)
    }

    /** Output index of the same cell. */
    function SlotO(bk: nat, width: nat, threads: nat, tid: nat, it: nat, e: nat): nat
      requires Fits(bk, width, threads)
    {
      match this
      case CoalescedRows(_, its, per) => Flat(Quot(tid, 32), Times(its, per), Flat(it, per, Quot(Rem(tid, 32), bk)))
      case RowQuads(q, _, _) => Flat(Rem(tid, q), 4, e)
      case WarpQuads(_, _, _, q) => Flat(Rem(Rem(tid, 32), q), 4, e)
      case RedQuads(p, s, _) => Flat(it, s, Quot(tid, p))
      case StripedByRow(t, _, unit) => Flat(RemOrZero(Flat(it, t, tid), Quot(width, unit)), unit, e)
      case StripedByCol(t, _, unit) => QuotOrZero(Flat(it, t, tid), Quot(bk, unit))
    }

    /** The thread, iteration and lane that copy cell (r, o). */
    function CellTid(bk: nat, width: nat, threads: nat, r: nat, o: nat): nat
      requires Fits(bk, width, threads)
    {
      match this
      case CoalescedRows(_, its, per) =>
        Flat(QuotOrZero(o, Times(its, per)), 32, Flat(Rem(RemOrZero(o, Times(its, per)), per), bk, r))
      case RowQuads(q, s, _) => Flat(Rem(r, s), q, Quot(o, 4))
      case WarpQuads(_, its, per, q) =>
        Flat(QuotOrZero(r, Times(its, per)), 32, Flat(Rem(RemOrZero(r, Times(its, per)), per), q, Quot(o, 4)))
      case RedQuads(p, s, _) => Flat(Rem(o, s), p, Quot(r, 4))
      case StripedByRow(t, _, unit) => Rem(Flat(r, Quot(width, unit), Quot(o, unit)), t)
      case StripedByCol(t, _, unit) => Rem(Flat(o, Quot(bk, unit), Quot(r, unit)), t)
    }

    function CellIt(bk: nat, width: nat, threads: nat, r: nat, o: nat): nat
      requires Fits(bk, width, threads)
    {
      match this
      case CoalescedRows(_, its, per) => Quot(RemOrZero(o, Times(its, per)), per)
      case RowQuads(_, s, _) => Quot(r, s)
      case WarpQuads(_, its, per, _) => Quot(RemOrZero(r, Times(its, per)), per)
      case RedQuads(_, s, _) => Quot(o, s)
      case StripedByRow(t, _, unit) => Quot(Flat(r, Quot(width, unit), Quot(o, unit)), t)
      case StripedByCol(t, _, unit) => Quot(Flat(o, Quot(bk, unit), Quot(r, unit)), t)
    }

    function CellLane(bk: nat, width: nat, threads: nat, r: nat, o: nat): nat
      requires Fits(bk, width, threads)
    {
      match this
      case CoalescedRows(_, _, _) => 0
      case RowQuads(_, _, _) => Rem(o, 4)
      case WarpQuads(_, _, _, _) => Rem(o, 4)
      case RedQuads(_, _, _) => Rem(r, 4)
      case StripedByRow(_, _, unit) => Rem(o, unit)
      case StripedByCol(_, _, unit) => Rem(r, unit)
    }

    /** Iterations per thread. */
    function Its(): nat { this.its }
  }

  function QuotOrZero(p: nat, s: nat): nat { if s == 0 then 0 else Quot(p, s) }
  function RemOrZero(p: nat, s: nat): nat { if s == 0 then 0 else Rem(p, s) }

  /** Every copy lands inside the slab, and the cell knows who copied it: no cell has two writers. */
  lemma CellOfSlot(m: LoadMap, bk: nat, width: nat, threads: nat, tid: nat, it: nat, e: nat)
    requires m.Fits(bk, width, threads) && tid < threads && it < m.Its() && e < m.Lanes()
    ensures m.SlotR(bk, width, threads, tid, it, e) < bk && m.SlotO(bk, width, threads, tid, it, e) < width
    ensures var r, o := m.SlotR(bk, width, threads, tid, it, e), m.SlotO(bk, width, threads, tid, it, e);
      && m.CellTid(bk, width, threads, r, o) == tid
      && m.CellIt(bk, width, threads, r, o) == it
      && m.CellLane(bk, width, threads, r, o) == e
  {
    match m
    case CoalescedRows(warps, its, per) => WarpSlot(warps, its, per, bk, tid, it);
    case RowQuads(q, s, its) => QuadSlot(q, s, its, tid, it, e);
    case WarpQuads(warps, its, per, q) =>
      WarpSlot(warps, its, per, q, tid, it);
      FlatInBounds(Rem(Rem(tid, 32), q), q, 4, e);
      FlatDigits(Rem(Rem(tid, 32), q), 4, e);
    case RedQuads(p, s, its) => QuadSlot(p, s, its, tid, it, e);
    case StripedByRow(t, its, unit) => StripedSlot(t, its, unit, bk, width, tid, it, e);
    case StripedByCol(t, its, unit) => StripedSlot(t, its, unit, width, bk, tid, it, e);
  }

  /** Every cell of the slab is copied by the slot its owner functions name. */
  lemma SlotOfCell(m: LoadMap, bk: nat, width: nat, threads: nat, r: nat, o: nat)
    requires m.Fits(bk, width, threads) && r < bk && o < width
    ensures m.CellTid(bk, width, threads, r, o) < threads
    ensures m.CellIt(bk, width, threads, r, o) < m.Its() && m.CellLane(bk, width, threads, r, o) < m.Lanes()
    ensures var tid, it, e := m.CellTid(bk, width, threads, r, o), m.CellIt(bk, width, threads, r, o),
                              m.CellLane(bk, width, threads, r, o);
      m.SlotR(bk, width, threads, tid, it, e) == r && m.SlotO(bk, width, threads, tid, it, e) == o
  {
    match m
    case CoalescedRows(warps, its, per) => WarpCell(warps, its, per, bk, o, r);
    case RowQuads(q, s, its) => QuadCell(q, s, its, r, o);
    case WarpQuads(warps, its, per, q) =>
      DigitsFlat(o, q, 4);
      WarpCell(warps, its, per, q, r, Quot(o, 4));
    case RedQuads(p, s, its) => QuadCell(p, s, its, o, r);
    case StripedByRow(t, its, unit) => StripedCell(t, its, unit, bk, width, r, o);
    case StripedByCol(t, its, unit) => StripedCell(t, its, unit, width, bk, o, r);
  }

  lemma FlatQuad(a: nat, q: nat)
    requires a < q
    ensures Flat(a, 4, 0) % 4 == 0 && Flat(a, 4, 0) + 4 <= Times(q, 4) && Times(q, 4) % 4 == 0
  {
    TimesIs(a, 4);
    TimesIs(q, 4);
  }

  /** A quad along the output axis starts at a multiple of four and stays inside its slab row. */
  lemma QuadRun(m: LoadMap, bk: nat, width: nat, threads: nat, tid: nat, it: nat)
    requires m.Fits(bk, width, threads) && (m.RowQuads? || m.WarpQuads?) && tid < threads && it < m.Its()
    ensures width % 4 == 0 && m.SlotR(bk, width, threads, tid, it, 0) < bk
    ensures var o := m.SlotO(bk, width, threads, tid, it, 0); o % 4 == 0 && o + 4 <= width
  {
    CellOfSlot(m, bk, width, threads, tid, it, 0);
    FlatQuad(if m.RowQuads? then Rem(tid, m.q) else Rem(Rem(tid, 32), m.q), m.q);
  }

  lemma WarpSlot(warps: nat, its: nat, per: nat, low: nat, tid: nat, it: nat)
    requires its > 0 && per > 0 && low > 0 && Times(per, low) == 32 && tid < Times(warps, 32) && it < its
    ensures Times(its, per) > 0
    ensures var row := Flat(Quot(tid, 32), Times(its, per), Flat(it, per, Quot(Rem(tid, 32), low)));
      && row < Times(warps, Times(its, per)) && Rem(Rem(tid, 32), low) < low
      && Quot(Rem(row, Times(its, per)), per) == it
      && tid == Flat(Quot(row, Times(its, per)), 32,
                     Flat(Rem(Rem(row, Times(its, per)), per), low, Rem(Rem(tid, 32), low)))
  {
    TimesPositive(its, per);
    DigitsFlat(tid, warps, 32);
    DigitsFlat(Rem(tid, 32), per, low);
    var l := Quot(Rem(tid, 32), low);
    FlatInBounds(it, its, per, l);
    FlatDigits(it, per, l);
    FlatInBounds(Quot(tid, 32), warps, Times(its, per), Flat(it, per, l));
    FlatDigits(Quot(tid, 32), Times(its, per), Flat(it, per, l));
  }

  lemma WarpCell(warps: nat, its: nat, per: nat, low: nat, row: nat, c: nat)
    requires its > 0 && per > 0 && low > 0 && Times(per, low) == 32 && row < Times(warps, Times(its, per)) && c < low
    ensures Times(its, per) > 0
    ensures var d := Rem(row, Times(its, per));
      var tid := Flat(Quot(row, Times(its, per)), 32, Flat(Rem(d, per), low, c));
      && tid < Times(warps, 32) && Quot(d, per) < its && Rem(Rem(tid, 32), low) == c
      && Flat(Quot(tid, 32), Times(its, per), Flat(Quot(d, per), per, Quot(Rem(tid, 32), low))) == row
  {
    TimesPositive(its, per);
    DigitsFlat(row, warps, Times(its, per));
    var d := Rem(row, Times(its, per));
    DigitsFlat(d, its, per);
    FlatInBounds(Rem(d, per), per, low, c);
    FlatDigits(Rem(d, per), low, c);
    FlatInBounds(Quot(row, Times(its, per)), warps, 32, Flat(Rem(d, per), low, c));
    FlatDigits(Quot(row, Times(its, per)), 32, Flat(Rem(d, per), low, c));
  }

  lemma QuadSlot(q: nat, s: nat, its: nat, tid: nat, it: nat, e: nat)
    requires q > 0 && s > 0 && tid < Times(s, q) && it < its && e < 4
    ensures var slow, fast := Flat(it, s, Quot(tid, q)), Flat(Rem(tid, q), 4, e);
      && slow < Times(its, s) && fast < Times(q, 4)
      && Flat(Rem(slow, s), q, Quot(fast, 4)) == tid && Quot(slow, s) == it && Rem(fast, 4) == e
  {
    DigitsFlat(tid, s, q);
    FlatInBounds(it, its, s, Quot(tid, q));
    FlatDigits(it, s, Quot(tid, q));
    FlatInBounds(Rem(tid, q), q, 4, e);
    FlatDigits(Rem(tid, q), 4, e);
  }

  lemma QuadCell(q: nat, s: nat, its: nat, slow: nat, fast: nat)
    requires q > 0 && s > 0 && slow < Times(its, s) && fast < Times(q, 4)
    ensures var tid := Flat(Rem(slow, s), q, Quot(fast, 4));
      && tid < Times(s, q) && Quot(slow, s) < its && Rem(fast, 4) < 4
      && Flat(Quot(slow, s), s, Quot(tid, q)) == slow && Flat(Rem(tid, q), 4, Rem(fast, 4)) == fast
  {
    DigitsFlat(slow, its, s);
    DigitsFlat(fast, q, 4);
    FlatInBounds(Rem(slow, s), s, q, Quot(fast, 4));
    FlatDigits(Rem(slow, s), q, Quot(fast, 4));
  }

  lemma StripedSlot(t: nat, its: nat, unit: nat, slow: nat, width: nat, tid: nat, it: nat, e: nat)
    requires t > 0 && unit > 0 && width > 0 && Divides(unit, width) && Times(its, t) == Times(slow, Quot(width, unit))
    requires tid < t && it < its && e < unit
    ensures Quot(width, unit) > 0
    ensures var idx := Flat(it, t, tid);
      var a, b := Quot(idx, Quot(width, unit)), Flat(Rem(idx, Quot(width, unit)), unit, e);
      && a < slow && b < width && Rem(b, unit) == e
      && Rem(Flat(a, Quot(width, unit), Quot(b, unit)), t) == tid
        && Quot(Flat(a, Quot(width, unit), Quot(b, unit)), t) == it
  {
    var cols := Quot(width, unit);
    DividesIs(unit, width);
    var idx := Flat(it, t, tid);
    FlatInBounds(it, its, t, tid);
    DigitsFlat(idx, slow, cols);
    FlatInBounds(Rem(idx, cols), cols, unit, e);
    FlatDigits(Rem(idx, cols), unit, e);
    FlatDigits(it, t, tid);
  }

  lemma StripedCell(t: nat, its: nat, unit: nat, slow: nat, width: nat, a: nat, b: nat)
    requires t > 0 && unit > 0 && width > 0 && Divides(unit, width) && Times(its, t) == Times(slow, Quot(width, unit))
    requires a < slow && b < width
    ensures Quot(width, unit) > 0
    ensures var idx := Flat(a, Quot(width, unit), Quot(b, unit));
      && Quot(idx, t) < its
      && Quot(Flat(Quot(idx, t), t, Rem(idx, t)), Quot(width, unit)) == a
      && Flat(Rem(Flat(Quot(idx, t), t, Rem(idx, t)), Quot(width, unit)), unit, Rem(b, unit)) == b
  {
    var cols := Quot(width, unit);
    DividesIs(unit, width);
    DigitsFlat(b, cols, unit);
    var idx := Flat(a, cols, Quot(b, unit));
    FlatInBounds(a, slow, cols, Quot(b, unit));
    DigitsFlat(idx, its, t);
    FlatDigits(a, cols, Quot(b, unit));
  }
}
