/** The tiled kernels: staging into shared memory, the fused-multiply-add main loop on per-thread registers,
    the predicated epilogue, and the grid of CTAs in an arbitrary order. One set of methods serves every tile
    shape, layout (NN, TN, NT), precision and split. */
module TileKernel {
  import opened Numerics
  import opened Terms
  import opened Operands
  import opened Geometry
  import opened Loading

  const SMEM_PAD: nat := 4

  /** `Scalar` copies element by element; `Checked` uses a 16-byte copy when the whole quad is inside the
      matrix and rows are 16-byte aligned; `Unchecked` tests the output axis alone (the split-K kernel);
      `Unguarded` is its element-by-element counterpart, which tests the output axis alone too; `Chunked` copies
      eight 16-bit elements at a time, zero-filling past the end of the matrix. */
  datatype VectorMode = Scalar | Checked | Unchecked | Unguarded | Chunked

  datatype Loader = Loader(map_: LoadMap, mode: VectorMode) {
    /** What the loader needs of its operand and of the slab position for its vector copies to be legal. */
    predicate Legal(x: Operand, bk: nat, width: nat, o0: nat, r0: nat) {
      match mode
      case Scalar => true
      case Checked =>
        !x.half && ((QuadsAlongOutput() && x.redMajor && o0 % 4 == 0 && width % 4 == 0)
                    || (map_.RedQuads? && !x.redMajor && r0 % 4 == 0))
      case Unchecked =>
        !x.half && QuadsAlongOutput() && x.redMajor && o0 % 4 == 0 && width % 4 == 0
        && x.ld % 4 == 0 && r0 + bk <= x.red
      case Unguarded => !x.half && r0 + bk <= x.red
      case Chunked =>
        !x.half && IsChunked(x) && x.ld % 8 == 0 && (if x.redMajor then o0 % 8 == 0 else r0 % 8 == 0)
    }
    /** Chunks of eight run along the axis that is contiguous in memory. */
    predicate IsChunked(x: Operand) {
      if x.redMajor then map_.StripedByRow? && map_.unit == 8 else map_.StripedByCol? && map_.unit == 8
    }
    predicate QuadsAlongOutput() { map_.RowQuads? || map_.WarpQuads? }
  }

  /** Flat index of shared-memory cell (stage, r, o), whose rows are padded by four floats. */
  function SmemIndex(bk: nat, width: nat, stage: nat, r: nat, o: nat): nat {
    Flat(Flat(stage, bk, r), width + SMEM_PAD, o)
  }

  /** Stage `stage` holds the slab of `x` at output offset `o0` and reduction offset `r0`, zero-filled. */
  ghost predicate Staged(sm: array3<Val>, stage: nat, width: nat, x: Operand, o0: nat, r0: nat)
    reads sm
  {
    && stage < sm.Length0 && width <= sm.Length2
    && forall r, o :: 0 <= r < sm.Length1 && 0 <= o < width ==> sm[stage, r, o] == At(x, o0 + o, r0 + r)
  }

  /** Only cells of one stage of `sm` have changed. */
  twostate predicate OthersKept(sm: array3<Val>, stage: nat)
    reads sm
  {
    forall s, r, o :: 0 <= s < sm.Length0 && s != stage && 0 <= r < sm.Length1 && 0 <= o < sm.Length2 ==>
      sm[s, r, o] == old(sm[s, r, o])
  }

  /** A 16-byte asynchronous copy: source and destination must be 16-byte aligned and in bounds. */
  method CopyQuad(src: seq<Val>, at: nat, sm: array3<Val>, stage: nat, r: nat, o: nat, ghost width: nat)
    requires at % 4 == 0 && at + 4 <= |src|
    requires stage < sm.Length0 && r < sm.Length1 && o + 4 <= width <= sm.Length2
    requires SmemIndex(sm.Length1, width, stage, r, o) % 4 == 0
    modifies sm
    ensures forall s, r', o' :: 0 <= s < sm.Length0 && 0 <= r' < sm.Length1 && 0 <= o' < sm.Length2 ==>
      sm[s, r', o'] == if s == stage && r' == r && o <= o' < o + 4 then src[at + o' - o] else old(sm[s, r', o'])
  {
    sm[stage, r, o], sm[stage, r, o + 1] := src[at], src[at + 1];
    sm[stage, r, o + 2], sm[stage, r, o + 3] := src[at + 2], src[at + 3];
  }

  /** The copying of cell (r, o) precedes lane `e` of iteration `it` of thread `tid`. */
  predicate Copied(m: LoadMap, bk: nat, width: nat, threads: nat, r: nat, o: nat, tid: nat, it: nat, e: nat)
    requires m.Fits(bk, width, threads)
  {
    var t, i, l := m.CellTid(bk, width, threads, r, o), m.CellIt(bk, width, threads, r, o),
                   m.CellLane(bk, width, threads, r, o);
    t < tid || (t == tid && (i < it || (i == it && l < e)))
  }

  ghost predicate PartlyStaged(m: LoadMap, sm: array3<Val>, stage: nat, width: nat, threads: nat,
                               x: Operand, o0: nat, r0: nat, tid: nat, it: nat, e: nat)
    requires stage < sm.Length0 && width <= sm.Length2 && m.Fits(sm.Length1, width, threads)
    reads sm
  {
    forall r, o :: 0 <= r < sm.Length1 && 0 <= o < width && Copied(m, sm.Length1, width, threads, r, o, tid, it, e)
      ==> sm[stage, r, o] == At(x, o0 + o, r0 + r)
  }

  /** One lane stores the element it loaded. */
  method CopyLane(m: LoadMap, ghost x: Operand, sm: array3<Val>, stage: nat, width: nat, threads: nat,
                  ghost o0: nat, ghost r0: nat, tid: nat, it: nat, e: nat, v: Val)
    requires stage < sm.Length0 && width <= sm.Length2 && m.Fits(sm.Length1, width, threads)
    requires tid < threads && it < m.Its() && e < m.Lanes()
    requires v == At(x, o0 + m.SlotO(sm.Length1, width, threads, tid, it, e),
                     r0 + m.SlotR(sm.Length1, width, threads, tid, it, e))
    requires PartlyStaged(m, sm, stage, width, threads, x, o0, r0, tid, it, e)
    modifies sm
    ensures PartlyStaged(m, sm, stage, width, threads, x, o0, r0, tid, it, e + 1) && OthersKept(sm, stage)
  {
    var bk := sm.Length1;
    var r, o := m.SlotR(bk, width, threads, tid, it, e), m.SlotO(bk, width, threads, tid, it, e);
    CellOfSlot(m, bk, width, threads, tid, it, e);
    sm[stage, r, o] := v;
    forall r', o' | 0 <= r' < bk && 0 <= o' < width && Copied(m, bk, width, threads, r', o', tid, it, e + 1)
      ensures sm[stage, r', o'] == At(x, o0 + o', r0 + r')
    {
      CopiedNow(m, bk, width, threads, r', o', tid, it, e);
    }
  }

  /** What lane `e` adds to the copied cells is its own cell. */
  lemma CopiedNow(m: LoadMap, bk: nat, width: nat, threads: nat, r: nat, o: nat, tid: nat, it: nat, e: nat)
    requires m.Fits(bk, width, threads) && r < bk && o < width && Copied(m, bk, width, threads, r, o, tid, it, e + 1)
    ensures Copied(m, bk, width, threads, r, o, tid, it, e)
      || (r == m.SlotR(bk, width, threads, tid, it, e) && o == m.SlotO(bk, width, threads, tid, it, e))
  {
    SlotOfCell(m, bk, width, threads, r, o);
  }

  /** All threads copy their share of one slab. */
  method StageSlab(l: Loader, x: Operand, sm: array3<Val>, stage: nat, width: nat, threads: nat, o0: nat, r0: nat)
    requires stage < sm.Length0 && width <= sm.Length2 && l.map_.Fits(sm.Length1, width, threads)
    requires l.Legal(x, sm.Length1, width, o0, r0)
    modifies sm
    ensures Staged(sm, stage, width, x, o0, r0) && OthersKept(sm, stage)
  {
    var m, bk := l.map_, sm.Length1;
    for tid := 0 to threads
      invariant PartlyStaged(m, sm, stage, width, threads, x, o0, r0, tid, 0, 0) && OthersKept(sm, stage)
    {
      for it := 0 to m.Its()
        invariant PartlyStaged(m, sm, stage, width, threads, x, o0, r0, tid, it, 0) && OthersKept(sm, stage)
      {
        var r, o := m.SlotR(bk, width, threads, tid, it, 0), m.SlotO(bk, width, threads, tid, it, 0);
        var alongO := l.QuadsAlongOutput();
        if l.mode == Unguarded {
          StageUnguarded(m, x, sm, stage, width, threads, o0, r0, tid, it);
        } else if l.mode == Chunked {
          StageChunk(m, x, sm, stage, width, threads, o0, r0, tid, it);
        } else if l.mode != Scalar && alongO && o0 + o + 3 < x.outer
           && (l.mode == Unchecked || (r0 + r < x.red && x.ld % 4 == 0)) {
          CellOfSlot(m, bk, width, threads, tid, it, 0);
          StageQuadAlongOutput(m, x, sm, stage, width, threads, o0, r0, tid, it);
        } else if l.mode != Scalar && !alongO && o0 + o < x.outer && r0 + r + 3 < x.red && x.ld % 4 == 0 {
          StageQuadAlongReduction(m, x, sm, stage, width, threads, o0, r0, tid, it);
        } else {
          for e := 0 to m.Lanes()
            invariant PartlyStaged(m, sm, stage, width, threads, x, o0, r0, tid, it, e) && OthersKept(sm, stage)
          {
            var v := At(x, o0 + m.SlotO(bk, width, threads, tid, it, e), r0 + m.SlotR(bk, width, threads, tid, it, e));
            CopyLane(m, x, sm, stage, width, threads, o0, r0, tid, it, e, v);
          }
        }
        NextIteration(m, sm, stage, width, threads, x, o0, r0, tid, it);
      }
      NextThread(m, sm, stage, width, threads, x, o0, r0, tid);
    }
    forall r, o | 0 <= r < bk && 0 <= o < width
      ensures sm[stage, r, o] == At(x, o0 + o, r0 + r)
    {
      SlotOfCell(m, bk, width, threads, r, o);
      assert Copied(m, bk, width, threads, r, o, threads, 0, 0);
    }
  }

  /** A load that tests the output axis alone; the reduction index must be inside the matrix. */
  method LoadUnguarded(x: Operand, o: nat, r: nat) returns (v: Val)
    requires !x.half && r < x.red
    ensures v == At(x, o, r)
  {
    v := Zero;
    if o < x.outer {
      IndexInBounds(x, o, r);
      v := x.data[x.Index(o, r)];
    }
  }

  /** The lanes of one iteration of the split-K kernel's left loader. */
  method StageUnguarded(m: LoadMap, x: Operand, sm: array3<Val>, stage: nat, width: nat, threads: nat,
                        o0: nat, r0: nat, tid: nat, it: nat)
    requires stage < sm.Length0 && width <= sm.Length2 && m.Fits(sm.Length1, width, threads)
    requires !x.half && r0 + sm.Length1 <= x.red && tid < threads && it < m.Its()
    requires PartlyStaged(m, sm, stage, width, threads, x, o0, r0, tid, it, 0)
    modifies sm
    ensures PartlyStaged(m, sm, stage, width, threads, x, o0, r0, tid, it, m.Lanes()) && OthersKept(sm, stage)
  {
    var bk := sm.Length1;
    for e := 0 to m.Lanes()
      invariant PartlyStaged(m, sm, stage, width, threads, x, o0, r0, tid, it, e) && OthersKept(sm, stage)
    {
      CellOfSlot(m, bk, width, threads, tid, it, e);
      var r, o := m.SlotR(bk, width, threads, tid, it, e), m.SlotO(bk, width, threads, tid, it, e);
      var v := LoadUnguarded(x, o0 + o, r0 + r);
      CopyLane(m, x, sm, stage, width, threads, o0, r0, tid, it, e, v);
    }
  }

  /** Four neighbours along the output axis are four consecutive, aligned elements of memory. */
  lemma RunInMemory(x: Operand, o: nat, r: nat)
    requires x.redMajor && !x.half && x.ld % 4 == 0 && o % 4 == 0 && o + 3 < x.outer && r < x.red
    ensures x.Index(o, r) % 4 == 0 && x.Index(o, r) + 4 <= |x.data|
    ensures forall o' :: o <= o' < o + 4 ==> At(x, o', r) == x.data[x.Index(o, r) + (o' - o)]
  {
    MulMod4(r, x.ld);
    SumMod4(o, Times(r, x.ld));
    IndexInBounds(x, o + 3, r);
  }

  method StageQuadAlongOutput(m: LoadMap, x: Operand, sm: array3<Val>, stage: nat, width: nat, threads: nat,
                              o0: nat, r0: nat, tid: nat, it: nat)
    requires stage < sm.Length0 && width <= sm.Length2 && m.Fits(sm.Length1, width, threads)
    requires (m.RowQuads? || m.WarpQuads?) && tid < threads && it < m.Its()
    requires x.redMajor && !x.half && x.ld % 4 == 0 && o0 % 4 == 0
    requires o0 + m.SlotO(sm.Length1, width, threads, tid, it, 0) + 3 < x.outer
    requires r0 + m.SlotR(sm.Length1, width, threads, tid, it, 0) < x.red
    requires PartlyStaged(m, sm, stage, width, threads, x, o0, r0, tid, it, 0)
    modifies sm
    ensures PartlyStaged(m, sm, stage, width, threads, x, o0, r0, tid, it, m.Lanes()) && OthersKept(sm, stage)
  {
    var bk := sm.Length1;
    var r, o := m.SlotR(bk, width, threads, tid, it, 0), m.SlotO(bk, width, threads, tid, it, 0);
    var at := x.Index(o0 + o, r0 + r);
    QuadRun(m, bk, width, threads, tid, it);
    SumMod4(o0, o);
    RunInMemory(x, o0 + o, r0 + r);
    FlatMod4(Flat(stage, bk, r), width + SMEM_PAD, o);
    CopyQuad(x.data, at, sm, stage, r, o, width);
    forall r', o' | 0 <= r' < bk && 0 <= o' < width && Copied(m, bk, width, threads, r', o', tid, it, m.Lanes())
      ensures sm[stage, r', o'] == At(x, o0 + o', r0 + r')
    {
      QuadCells(m, bk, width, threads, tid, it, r', o');
    }
  }

  /** The cells of one run are the four that start at its first cell. */
  lemma QuadCells(m: LoadMap, bk: nat, width: nat, threads: nat, tid: nat, it: nat, r: nat, o: nat)
    requires m.Fits(bk, width, threads) && (m.RowQuads? || m.WarpQuads?) && r < bk && o < width
    ensures m.CellTid(bk, width, threads, r, o) == tid && m.CellIt(bk, width, threads, r, o) == it ==>
      r == m.SlotR(bk, width, threads, tid, it, 0)
      && m.SlotO(bk, width, threads, tid, it, 0) <= o < m.SlotO(bk, width, threads, tid, it, 0) + 4
    ensures Copied(m, bk, width, threads, r, o, tid, it, m.Lanes()) ==>
      Copied(m, bk, width, threads, r, o, tid, it, 0)
      || (m.CellTid(bk, width, threads, r, o) == tid && m.CellIt(bk, width, threads, r, o) == it)
  {
    SlotOfCell(m, bk, width, threads, r, o);
  }

  /** A 16-byte load into registers. */
  method LoadQuad(src: seq<Val>, at: nat) returns (v: seq<Val>)
    requires at % 4 == 0 && at + 4 <= |src|
    ensures v == src[at..at + 4]
  {
    v := [src[at], src[at + 1], src[at + 2], src[at + 3]];
  }

  /** Four neighbours along the reduction are four consecutive, aligned elements of memory. */
  lemma RedRunInMemory(x: Operand, o: nat, r: nat)
    requires !x.redMajor && !x.half && x.ld % 4 == 0 && r % 4 == 0 && o < x.outer && r + 3 < x.red
    ensures x.Index(o, r) % 4 == 0 && x.Index(o, r) + 4 <= |x.data|
    ensures forall r' :: r <= r' < r + 4 ==> At(x, o, r') == x.data[x.Index(o, r) + (r' - r)]
  {
    MulMod4(o, x.ld);
    IndexInBounds(x, o, r + 3);
  }

  /** The four values of one run along the reduction. */
  method LoadRedQuad(m: LoadMap, x: Operand, bk: nat, width: nat, threads: nat, o0: nat, r0: nat, tid: nat, it: nat)
    returns (quad: seq<Val>)
    requires m.Fits(bk, width, threads) && m.RedQuads? && tid < threads && it < m.Its()
    requires !x.redMajor && !x.half && x.ld % 4 == 0 && r0 % 4 == 0
    requires o0 + m.SlotO(bk, width, threads, tid, it, 0) < x.outer
    requires r0 + m.SlotR(bk, width, threads, tid, it, 0) + 3 < x.red
    ensures |quad| == 4 && forall e :: 0 <= e < 4 ==>
      quad[e] == At(x, o0 + m.SlotO(bk, width, threads, tid, it, e), r0 + m.SlotR(bk, width, threads, tid, it, e))
  {
    var r, o := m.SlotR(bk, width, threads, tid, it, 0), m.SlotO(bk, width, threads, tid, it, 0);
    MulMod4(Rem(tid, m.p), 4);
    RedRunInMemory(x, o0 + o, r0 + r);
    quad := LoadQuad(x.data, x.Index(o0 + o, r0 + r));
    forall e | 0 <= e < 4
      ensures quad[e] == At(x, o0 + m.SlotO(bk, width, threads, tid, it, e),
                            r0 + m.SlotR(bk, width, threads, tid, it, e))
    {
      assert m.SlotR(bk, width, threads, tid, it, e) == r + e;
      assert At(x, o0 + o, r0 + r + e) == x.data[x.Index(o0 + o, r0 + r) + e];
    }
  }

  /** The NT right operand: four neighbours along the reduction are loaded at once and stored transposed. */
  method StageQuadAlongReduction(m: LoadMap, x: Operand, sm: array3<Val>, stage: nat, width: nat, threads: nat,
                                 o0: nat, r0: nat, tid: nat, it: nat)
    requires stage < sm.Length0 && width <= sm.Length2 && m.Fits(sm.Length1, width, threads)
    requires m.RedQuads? && tid < threads && it < m.Its()
    requires !x.redMajor && !x.half && x.ld % 4 == 0 && r0 % 4 == 0
    requires o0 + m.SlotO(sm.Length1, width, threads, tid, it, 0) < x.outer
    requires r0 + m.SlotR(sm.Length1, width, threads, tid, it, 0) + 3 < x.red
    requires PartlyStaged(m, sm, stage, width, threads, x, o0, r0, tid, it, 0)
    modifies sm
    ensures PartlyStaged(m, sm, stage, width, threads, x, o0, r0, tid, it, 4) && OthersKept(sm, stage)
  {
    var quad := LoadRedQuad(m, x, sm.Length1, width, threads, o0, r0, tid, it);
    for e := 0 to 4
      invariant PartlyStaged(m, sm, stage, width, threads, x, o0, r0, tid, it, e) && OthersKept(sm, stage)
    {
      CopyLane(m, x, sm, stage, width, threads, o0, r0, tid, it, e, quad[e]);
    }
  }

  /** A 16-byte copy of which the first `valid` elements are read and the rest zero-filled. */
  method LoadChunk(src: seq<Val>, at: nat, valid: nat) returns (v: seq<Val>)
    requires valid <= 8 && (valid > 0 ==> at % 8 == 0 && at + valid <= |src|)
    ensures |v| == 8 && forall e :: 0 <= e < 8 ==> v[e] == if e < valid then src[at + e] else Zero
  {
    v := seq(8, e requires 0 <= e < 8 => if e < valid then src[at + e] else Zero);
  }

  /** How many elements of the chunk at (o, r) lie inside the matrix. */
  function ValidPart(x: Operand, o: nat, r: nat): (v: nat)
    ensures v <= 8
  {
    if x.redMajor then (if r < x.red && o < x.outer then Min(x.outer - o, 8) else 0)
    else (if o < x.outer && r < x.red then Min(x.red - r, 8) else 0)
  }

  /** A chunk is eight neighbours in memory, aligned, and what is not valid in it is outside the matrix. */
  lemma ChunkInMemory(x: Operand, o: nat, r: nat)
    requires !x.half && x.ld % 8 == 0 && (if x.redMajor then o % 8 == 0 else r % 8 == 0)
    ensures ValidPart(x, o, r) > 0 ==> x.Index(o, r) % 8 == 0 && x.Index(o, r) + ValidPart(x, o, r) <= |x.data|
    ensures forall e :: 0 <= e < 8 ==>
      AlongRow(x, o, r, e) == if e < ValidPart(x, o, r) then x.data[x.Index(o, r) + e] else Zero
  {
    if x.redMajor { ChunkAlongOutput(x, o, r); } else { ChunkAlongReduction(x, o, r); }
  }

  lemma ChunkAlongOutput(x: Operand, o: nat, r: nat)
    requires !x.half && x.ld % 8 == 0 && x.redMajor && o % 8 == 0
    ensures ValidPart(x, o, r) > 0 ==> x.Index(o, r) % 8 == 0 && x.Index(o, r) + ValidPart(x, o, r) <= |x.data|
    ensures forall e :: 0 <= e < 8 ==>
      AlongRow(x, o, r, e) == if e < ValidPart(x, o, r) then x.data[x.Index(o, r) + e] else Zero
  {
    if ValidPart(x, o, r) > 0 {
      MulMod8(r, x.ld);
      IndexInBounds(x, o + (ValidPart(x, o, r) - 1), r);
    }
  }

  lemma ChunkAlongReduction(x: Operand, o: nat, r: nat)
    requires !x.half && x.ld % 8 == 0 && !x.redMajor && r % 8 == 0
    ensures ValidPart(x, o, r) > 0 ==> x.Index(o, r) % 8 == 0 && x.Index(o, r) + ValidPart(x, o, r) <= |x.data|
    ensures forall e :: 0 <= e < 8 ==>
      AlongRow(x, o, r, e) == if e < ValidPart(x, o, r) then x.data[x.Index(o, r) + e] else Zero
  {
    if ValidPart(x, o, r) > 0 {
      MulMod8(o, x.ld);
      IndexInBounds(x, o, r + (ValidPart(x, o, r) - 1));
    }
  }

  /** The `e`-th neighbour of element (o, r) along the axis that is contiguous in memory. */
  function AlongRow(x: Operand, o: nat, r: nat, e: nat): Val {
    if x.redMajor then At(x, o + e, r) else At(x, o, r + e)
  }

  lemma ChunkLane(m: LoadMap, bk: nat, width: nat, threads: nat, tid: nat, it: nat, e: nat)
    requires m.Fits(bk, width, threads) && tid < threads && it < m.Its() && e < 8
    requires (m.StripedByRow? || m.StripedByCol?) && m.unit == 8
    ensures m.SlotR(bk, width, threads, tid, it, e)
         == m.SlotR(bk, width, threads, tid, it, 0) + if m.StripedByCol? then e else 0
    ensures m.SlotO(bk, width, threads, tid, it, e)
         == m.SlotO(bk, width, threads, tid, it, 0) + if m.StripedByRow? then e else 0
    ensures m.StripedByCol? ==> m.SlotR(bk, width, threads, tid, it, 0) % 8 == 0
    ensures m.StripedByRow? ==> m.SlotO(bk, width, threads, tid, it, 0) % 8 == 0
  {
    FlatEight(RemOrZero(Flat(it, m.threads, tid), if m.StripedByRow? then Quot(width, m.unit) else Quot(bk, m.unit)),
              m.unit, e);
  }

  lemma FlatEight(a: nat, s: nat, e: nat)
    requires s == 8
    ensures Flat(a, s, e) == Flat(a, s, 0) + e && Flat(a, s, 0) % 8 == 0
  {
    MulMod8(a, s);
  }

  lemma RunAligned(m: LoadMap, x: Operand, bk: nat, width: nat, threads: nat, o0: nat, r0: nat, tid: nat, it: nat)
    requires m.Fits(bk, width, threads) && Loader(m, Chunked).Legal(x, bk, width, o0, r0)
    requires tid < threads && it < m.Its()
    ensures x.redMajor ==> (o0 + m.SlotO(bk, width, threads, tid, it, 0)) % 8 == 0
    ensures !x.redMajor ==> (r0 + m.SlotR(bk, width, threads, tid, it, 0)) % 8 == 0
  {
    ChunkLane(m, bk, width, threads, tid, it, 0);
    SumMod8(o0, m.SlotO(bk, width, threads, tid, it, 0));
    SumMod8(r0, m.SlotR(bk, width, threads, tid, it, 0));
  }

  /** The eight values of one run. */
  method LoadRun(m: LoadMap, x: Operand, bk: nat, width: nat, threads: nat, o0: nat, r0: nat, tid: nat, it: nat)
    returns (chunk: seq<Val>)
    requires m.Fits(bk, width, threads) && Loader(m, Chunked).Legal(x, bk, width, o0, r0)
    requires tid < threads && it < m.Its()
    ensures |chunk| == 8 && forall e :: 0 <= e < 8 ==>
      chunk[e] == At(x, o0 + m.SlotO(bk, width, threads, tid, it, e), r0 + m.SlotR(bk, width, threads, tid, it, e))
  {
    var r, o := m.SlotR(bk, width, threads, tid, it, 0), m.SlotO(bk, width, threads, tid, it, 0);
    RunAligned(m, x, bk, width, threads, o0, r0, tid, it);
    chunk := LoadAlong(x, o0 + o, r0 + r);
    forall e | 0 <= e < 8
      ensures chunk[e]
           == At(x, o0 + m.SlotO(bk, width, threads, tid, it, e), r0 + m.SlotR(bk, width, threads, tid, it, e))
    {
      ChunkLane(m, bk, width, threads, tid, it, e);
    }
  }

  /** The chunk that starts at element (o, r). */
  method LoadAlong(x: Operand, o: nat, r: nat) returns (chunk: seq<Val>)
    requires !x.half && x.ld % 8 == 0 && (if x.redMajor then o % 8 == 0 else r % 8 == 0)
    ensures |chunk| == 8 && forall e :: 0 <= e < 8 ==> chunk[e] == AlongRow(x, o, r, e)
  {
    ChunkInMemory(x, o, r);
    chunk := LoadChunk(x.data, x.Index(o, r), ValidPart(x, o, r));
  }

  /** A run of eight along the contiguous axis, in one copy. */
  method StageChunk(m: LoadMap, x: Operand, sm: array3<Val>, stage: nat, width: nat, threads: nat,
                    o0: nat, r0: nat, tid: nat, it: nat)
    requires stage < sm.Length0 && width <= sm.Length2 && m.Fits(sm.Length1, width, threads)
    requires Loader(m, Chunked).Legal(x, sm.Length1, width, o0, r0) && tid < threads && it < m.Its()
    requires PartlyStaged(m, sm, stage, width, threads, x, o0, r0, tid, it, 0)
    modifies sm
    ensures PartlyStaged(m, sm, stage, width, threads, x, o0, r0, tid, it, 8) && OthersKept(sm, stage)
  {
    var chunk := LoadRun(m, x, sm.Length1, width, threads, o0, r0, tid, it);
    for e := 0 to 8
      invariant PartlyStaged(m, sm, stage, width, threads, x, o0, r0, tid, it, e) && OthersKept(sm, stage)
    {
      CopyLane(m, x, sm, stage, width, threads, o0, r0, tid, it, e, chunk[e]);
    }
  }

  lemma NextIteration(m: LoadMap, sm: array3<Val>, stage: nat, width: nat, threads: nat,
                      x: Operand, o0: nat, r0: nat, tid: nat, it: nat)
    requires stage < sm.Length0 && width <= sm.Length2 && m.Fits(sm.Length1, width, threads)
    requires PartlyStaged(m, sm, stage, width, threads, x, o0, r0, tid, it, m.Lanes())
    ensures PartlyStaged(m, sm, stage, width, threads, x, o0, r0, tid, it + 1, 0)
  {
    forall r, o | 0 <= r < sm.Length1 && 0 <= o < width && Copied(m, sm.Length1, width, threads, r, o, tid, it + 1, 0)
      ensures sm[stage, r, o] == At(x, o0 + o, r0 + r)
    {
      SlotOfCell(m, sm.Length1, width, threads, r, o);
      assert Copied(m, sm.Length1, width, threads, r, o, tid, it, m.Lanes());
    }
  }

  lemma NextThread(m: LoadMap, sm: array3<Val>, stage: nat, width: nat, threads: nat,
                   x: Operand, o0: nat, r0: nat, tid: nat)
    requires stage < sm.Length0 && width <= sm.Length2 && m.Fits(sm.Length1, width, threads)
    requires PartlyStaged(m, sm, stage, width, threads, x, o0, r0, tid, m.Its(), 0)
    ensures PartlyStaged(m, sm, stage, width, threads, x, o0, r0, tid + 1, 0, 0)
  {
    forall r, o | 0 <= r < sm.Length1 && 0 <= o < width && Copied(m, sm.Length1, width, threads, r, o, tid + 1, 0, 0)
      ensures sm[stage, r, o] == At(x, o0 + o, r0 + r)
    {
      SlotOfCell(m, sm.Length1, width, threads, r, o);
      assert Copied(m, sm.Length1, width, threads, r, o, tid, m.Its(), 0);
    }
  }
}
