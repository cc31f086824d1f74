/** Matrices as the kernels address them, and the fused-multiply-add chain that defines an output cell. */
module Operands {
  import opened Numerics
  import opened Terms

  /** One operand of a product: `outer` rows of the result (or columns, for the right operand) by `red`
      reduction steps, stored with leading dimension `ld`. `redMajor` says which index is the slow one and
      `half` that the elements are 16-bit and are upcast as they are read. */
  datatype RawOperand = RawOperand(data: seq<Val>, outer: nat, red: nat, ld: nat, redMajor: bool, half: bool) {
    predicate Valid() {
      && ld >= (if redMajor then outer else red)
      && |data| >= Times(if redMajor then red else outer, ld)
    }

    function Index(o: nat, r: nat): nat {
      if redMajor then Flat(r, ld, o) else Flat(o, ld, r)
    }
  }

  type Operand = x: RawOperand | x.Valid() witness RawOperand([], 0, 0, 0, false, false)

  lemma IndexInBounds(x: Operand, o: nat, r: nat)
    requires o < x.outer && r < x.red
    ensures x.Index(o, r) < |x.data|
  {
    if x.redMajor { FlatInBounds(r, x.red, x.ld, o); } else { FlatInBounds(o, x.outer, x.ld, r); }
  }

  /** The value a kernel stages for element (o, r): the element itself, or zero outside the matrix. */
  function At(x: Operand, o: nat, r: nat): Val {
    if o < x.outer && r < x.red then
      IndexInBounds(x, o, r);
      if x.half then Up(x.data[x.Index(o, r)]) else x.data[x.Index(o, r)]
    else Zero
  }

  /** The same matrix with its reduction axis cut at `hi`, as the split kernels mask their last chunk. */
  function Cut(x: Operand, hi: nat): (c: Operand)
    requires hi <= x.red
    ensures c.outer == x.outer && c.red == hi && c.ld == x.ld && c.redMajor == x.redMajor && c.data == x.data
  {
    TimesLess(hi, x.red, x.ld);
    x.(red := hi)
  }

  /** The accumulator of cell (m, n) after `steps` fused multiply-adds, in ascending order from index `lo`. */
  function Chain(seed: Val, x: Operand, w: Operand, m: nat, n: nat, lo: nat, steps: nat): Val
    decreases steps
  {
    if steps == 0 then seed
    else Fma(At(x, m, lo + steps - 1), At(w, n, lo + steps - 1), Chain(seed, x, w, m, n, lo, steps - 1))
  }

  /** Sixteen consecutive reduction steps of one row or column. */
  function Run16(x: Operand, o: nat, r: nat): (s: seq<Val>)
    ensures |s| == 16 && forall e :: 0 <= e < 16 ==> s[e] == At(x, o, r + e)
  {
    seq(16, e requires 0 <= e < 16 => At(x, o, r + e))
  }

  /** The accumulator of cell (m, n) after `steps` reduction steps, sixteen to a matrix multiply, ascending. */
  function MmaChain(seed: Val, x: Operand, w: Operand, m: nat, n: nat, lo: nat, steps: nat): Val
    decreases steps
  {
    if steps < 16 then seed
    else Mma16(MmaChain(seed, x, w, m, n, lo, steps - 16), Run16(x, m, lo + steps - 16), Run16(w, n, lo + steps - 16))
  }

  /** The accumulator after `steps` reduction steps, on either kind of arithmetic unit. */
  function Accumulated(mma: bool, seed: Val, x: Operand, w: Operand, m: nat, n: nat, lo: nat, steps: nat): Val {
    if mma then MmaChain(seed, x, w, m, n, lo, steps) else Chain(seed, x, w, m, n, lo, steps)
  }

  /** The plain sum of products over [lo, hi). */
  function Dot(x: Operand, w: Operand, m: nat, n: nat, lo: nat, hi: nat): real
    decreases hi - lo
  {
    if hi <= lo then 0.0
    else Dot(x, w, m, n, lo, hi - 1) + Prod(At(x, m, hi - 1), At(w, n, hi - 1))
  }

  /** Cell (m, n) of the matrix product. */
  function Product(x: Operand, w: Operand, m: nat, n: nat): real {
    Dot(x, w, m, n, 0, Min(x.red, w.red))
  }

  /** One more step of the sum. */
  lemma DotSucc(x: Operand, w: Operand, m: nat, n: nat, lo: nat, hi: nat)
    requires lo <= hi
    ensures Dot(x, w, m, n, lo, hi + 1) == Dot(x, w, m, n, lo, hi) + Prod(At(x, m, hi), At(w, n, hi))
  {
  }

  lemma {:induction false} ChainIsDot(seed: Val, x: Operand, w: Operand, m: nat, n: nat, lo: nat, steps: nat)
    ensures Exact(Chain(seed, x, w, m, n, lo, steps)) == Exact(seed) + Dot(x, w, m, n, lo, lo + steps)
    decreases steps
  {
    if steps > 0 {
      ChainIsDot(seed, x, w, m, n, lo, steps - 1);
      var a, b := At(x, m, lo + steps - 1), At(w, n, lo + steps - 1);
      FmaIsSum(a, b, Chain(seed, x, w, m, n, lo, steps - 1));
      DotSucc(x, w, m, n, lo, lo + steps - 1);
    }
  }

  lemma DotStep16(t: Val, k: nat)
    requires t.Mma16? && 0 < k <= |t.row| && k <= |t.col|
    ensures ExactDot(t, k) == ExactDot(t, k - 1) + Prod(t.row[k - 1], t.col[k - 1])
  {
  }

  lemma MmaIsSum(t: Val)
    requires t.Mma16? && |t.row| == 16 == |t.col|
    ensures Exact(t) == Exact(t.acc) + ExactDot(t, 16)
  {
  }

  lemma {:induction false} Run16IsDot(t: Val, x: Operand, w: Operand, m: nat, n: nat, r: nat, k: nat)
    requires t.Mma16? && t.row == Run16(x, m, r) && t.col == Run16(w, n, r) && k <= 16
    ensures ExactDot(t, k) == Dot(x, w, m, n, r, r + k)
    decreases k
  {
    if k > 0 {
      Run16IsDot(t, x, w, m, n, r, k - 1);
      DotSucc(x, w, m, n, r, r + (k - 1));
      DotStep16(t, k);
    }
  }

  lemma MmaStepIsDot(t: Val, acc: Val, x: Operand, w: Operand, m: nat, n: nat, r: nat)
    requires t == Mma16(acc, Run16(x, m, r), Run16(w, n, r))
    ensures Exact(t) == Exact(acc) + Dot(x, w, m, n, r, r + 16)
  {
    MmaIsSum(t);
    Run16IsDot(t, x, w, m, n, r, 16);
  }

  /** The last mma step of a chain adds sixteen products. */
  lemma LastMmaIsDot(seed: Val, x: Operand, w: Operand, m: nat, n: nat, lo: nat, steps: nat, r: nat)
    requires steps >= 16 && r == lo + steps - 16
    ensures Exact(MmaChain(seed, x, w, m, n, lo, steps))
         == Exact(MmaChain(seed, x, w, m, n, lo, steps - 16)) + Dot(x, w, m, n, r, r + 16)
  {
    MmaStepIsDot(MmaChain(seed, x, w, m, n, lo, steps), MmaChain(seed, x, w, m, n, lo, steps - 16), x, w, m, n, r);
  }

  lemma LastSixteen(steps: nat)
    requires steps % 16 == 0 && steps > 0
    ensures steps >= 16 && (steps - 16) % 16 == 0
  {
  }

  lemma {:induction false} MmaChainIsDot(seed: Val, x: Operand, w: Operand, m: nat, n: nat, lo: nat, steps: nat)
    requires steps % 16 == 0
    ensures Exact(MmaChain(seed, x, w, m, n, lo, steps)) == Exact(seed) + Dot(x, w, m, n, lo, lo + steps)
    decreases steps
  {
    if steps > 0 {
      LastSixteen(steps);
      MmaChainIsDot(seed, x, w, m, n, lo, steps - 16);
      LastMmaIsDot(seed, x, w, m, n, lo, steps, lo + steps - 16);
      DotSplit(x, w, m, n, lo, lo + steps - 16, lo + steps);
    }
  }

  lemma {:induction false} MmaChainCong(seed: Val, x: Operand, w: Operand, m: nat, n: nat,
                                        x': Operand, w': Operand, m': nat, n': nat, lo: nat, steps: nat)
    requires forall r :: lo <= r < lo + steps ==> At(x, m, r) == At(x', m', r) && At(w, n, r) == At(w', n', r)
    ensures MmaChain(seed, x, w, m, n, lo, steps) == MmaChain(seed, x', w', m', n', lo, steps)
    decreases steps
  {
    if steps >= 16 {
      MmaChainCong(seed, x, w, m, n, x', w', m', n', lo, steps - 16);
      assert Run16(x, m, lo + steps - 16) == Run16(x', m', lo + steps - 16);
      assert Run16(w, n, lo + steps - 16) == Run16(w', n', lo + steps - 16);
    }
  }

  /** Padding steps past the end of the matrices add nothing to the exact sum. */
  lemma {:induction false} PaddingIsNothing(x: Operand, w: Operand, m: nat, n: nat, lo: nat, hi: nat, pad: nat)
    requires lo <= hi <= pad && (x.red <= hi || w.red <= hi)
    ensures Dot(x, w, m, n, lo, pad) == Dot(x, w, m, n, lo, hi)
    decreases pad
  {
    if pad > hi {
      PaddingIsNothing(x, w, m, n, lo, hi, pad - 1);
      ZeroFactors(At(x, m, pad - 1), At(w, n, pad - 1));
    }
  }

  lemma {:induction false} DotSplit(x: Operand, w: Operand, m: nat, n: nat, lo: nat, mid: nat, hi: nat)
    requires lo <= mid <= hi
    ensures Dot(x, w, m, n, lo, hi) == Dot(x, w, m, n, lo, mid) + Dot(x, w, m, n, mid, hi)
    decreases hi
  {
    if hi > mid { DotSplit(x, w, m, n, lo, mid, hi - 1); }
  }

  lemma {:induction false} DotCong(x: Operand, w: Operand, m: nat, n: nat,
                                   x': Operand, w': Operand, m': nat, n': nat, lo: nat, hi: nat)
    requires forall r :: lo <= r < hi ==> At(x, m, r) == At(x', m', r) && At(w, n, r) == At(w', n', r)
    ensures Dot(x, w, m, n, lo, hi) == Dot(x', w', m', n', lo, hi)
    decreases hi
  {
    if hi > lo { DotCong(x, w, m, n, x', w', m', n', lo, hi - 1); }
  }

  /** A chain reads nothing but its own row and column over its own range. */
  lemma {:induction false} ChainCong(seed: Val, x: Operand, w: Operand, m: nat, n: nat,
                                     x': Operand, w': Operand, m': nat, n': nat, lo: nat, steps: nat)
    requires forall r :: lo <= r < lo + steps ==> At(x, m, r) == At(x', m', r) && At(w, n, r) == At(w', n', r)
    ensures Chain(seed, x, w, m, n, lo, steps) == Chain(seed, x', w', m', n', lo, steps)
    decreases steps
  {
    if steps > 0 { ChainCong(seed, x, w, m, n, x', w', m', n', lo, steps - 1); }
  }

  /** Reduction indices [lo, hi) of a matrix, repacked as a matrix of its own. */
  function Slice(x: Operand, lo: nat, hi: nat): (s: Operand)
    requires lo < hi <= x.red
    ensures s.outer == x.outer && s.red == hi - lo
  {
    RawOperand(seq(Times(x.outer, hi - lo), p requires 0 <= p => At(x, Quot(p, hi - lo), lo + Rem(p, hi - lo))),
               x.outer, hi - lo, hi - lo, false, false)
  }

  lemma SliceAt(x: Operand, lo: nat, hi: nat, o: nat, r: nat)
    requires lo < hi <= x.red
    ensures At(Slice(x, lo, hi), o, r) == At(Cut(x, hi), o, lo + r)
  {
    if o < x.outer && r < hi - lo {
      FlatDigits(o, hi - lo, r);
      FlatInBounds(o, x.outer, hi - lo, r);
    }
  }

  /** A chunk of a split reduction is the unsplit kernel's accumulator on the sliced matrices: the mask at
      the end of the chunk stands in for the end of the slice, padding steps included. */
  lemma {:induction false} ChunkIsUnsplitOnSlice(x: Operand, w: Operand, m: nat, n: nat,
                                                 lo: nat, hi: nat, steps: nat)
    requires lo < hi <= x.red && hi <= w.red
    ensures Chain(Zero, Cut(x, hi), Cut(w, hi), m, n, lo, steps)
         == Chain(Zero, Slice(x, lo, hi), Slice(w, lo, hi), m, n, 0, steps)
    decreases steps
  {
    if steps > 0 {
      ChunkIsUnsplitOnSlice(x, w, m, n, lo, hi, steps - 1);
      SliceAt(x, lo, hi, m, steps - 1);
      SliceAt(w, lo, hi, n, steps - 1);
    }
  }
}
