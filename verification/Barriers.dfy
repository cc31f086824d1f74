/** The kernels that hand data from thread to thread through shared memory between barriers, outside the tiled
    main loops: every interleaving of the threads of a block, read by read, and the two kernels of that kind. */
module Barriers {
  import opened Numerics
  import opened Terms
  import opened Operands
  import opened Plans
  import opened SmallKernels

  /** A place in a shared (or, in the last round, the output) array. */
  datatype Place = Place(row: nat, col: nat)

  /** A block whose rounds are separated by barriers. In round r thread `writer(r, c)` writes cell c of array r,
      for every live c, from the `inputs(r, c)` values it reads one after the other out of array r - 1, at
      `addr(r, c, 0)` and so on. The first round reads global memory only. */
  datatype Block = Block(threads: nat, rounds: nat, live: (nat, Place) -> bool, writer: (nat, Place) -> nat,
                         inputs: (nat, Place) -> nat, addr: (nat, Place, nat) -> Place,
                         make: (nat, Place, seq<Val>) -> Val) {
    predicate IsCell(r: nat, c: Place) { r < rounds && live(r, c) }

    predicate ReadsInside(r: nat, c: Place) {
      forall i :: 0 <= i < inputs(r, c) ==> r > 0 && IsCell(r - 1, addr(r, c, i))
    }

    ghost predicate Valid() {
      rounds > 0 && forall r, c :: IsCell(r, c) ==> writer(r, c) < threads && ReadsInside(r, c)
    }

    /** What a block with no races computes: the first `i` values job (r, c) reads, and the cell it writes. */
    function Values(r: nat, c: Place, i: nat): (s: seq<Val>)
      ensures |s| == i
      decreases r, 0, i
    {
      if i == 0 then []
      else Values(r, c, i - 1) + [if r == 0 then Zero else Cell(r - 1, addr(r, c, i - 1))]
    }

    function Cell(r: nat, c: Place): Val
      decreases r, 1, 0
    {
      make(r, c, Values(r, c, inputs(r, c)))
    }
  }

  datatype Job = NoJob | Doing(c: Place, values: seq<Val>)

  /** A thread in round `round`: the cells it has written there, the one it is at, whether it is at the barrier. */
  datatype Thread = Thread(round: nat, done: set<Place>, job: Job, arrived: bool)

  datatype State = State(threads: seq<Thread>, smem: map<(nat, Place), Val>)

  function Read(s: State, r: int, c: Place): Val {
    if r >= 0 && (r, c) in s.smem then s.smem[(r, c)] else Zero
  }

  /** Barriers a thread has arrived at; it has passed `round` of them. */
  function ArrivedAt(th: Thread): nat { if th.arrived then th.round + 1 else th.round }

  predicate Own(b: Block, u: nat, r: nat, c: Place) { b.IsCell(r, c) && b.writer(r, c) == u }

  ghost predicate RoundDone(b: Block, u: nat, th: Thread) {
    th.job.NoJob? && forall c :: Own(b, u, th.round, c) ==> c in th.done
  }

  predicate BarrierOpen(s: State, th: Thread) {
    forall v :: 0 <= v < |s.threads| ==> ArrivedAt(s.threads[v]) > th.round
  }

  predicate Becomes(s: State, s': State, u: nat, th: Thread) {
    u < |s.threads| && s'.threads == s.threads[u := th]
  }

  predicate Quiet(s: State, s': State, u: nat, th: Thread) { Becomes(s, s', u, th) && s'.smem == s.smem }

  /** The job of thread `th` reads its next value, or writes its cell. */
  predicate JobStep(b: Block, s: State, s': State, u: nat, th: Thread)
    requires th.job.Doing?
  {
    var Doing(c, values) := th.job;
    if |values| < b.inputs(th.round, c) then
      var v := Read(s, th.round - 1, b.addr(th.round, c, |values|));
      Quiet(s, s', u, th.(job := Doing(c, values + [v])))
    else
      && Becomes(s, s', u, th.(done := th.done + {c}, job := NoJob))
      && s'.smem == s.smem[(th.round, c) := b.make(th.round, c, values)]
  }

  /** Thread `u` starts a cell of its own, goes on with one, arrives at the barrier or passes it. */
  ghost predicate ThreadStep(b: Block, s: State, s': State, u: nat) {
    u < |s.threads| &&
    var th := s.threads[u];
    if th.job.Doing? then JobStep(b, s, s', u, th)
    else if th.arrived then BarrierOpen(s, th) && Quiet(s, s', u, Thread(th.round + 1, {}, NoJob, false))
    else
      || (exists c :: Own(b, u, th.round, c) && c !in th.done && Quiet(s, s', u, th.(job := Doing(c, []))))
      || (RoundDone(b, u, th) && th.round + 1 < b.rounds && Quiet(s, s', u, th.(arrived := true)))
  }

  ghost predicate Next(b: Block, s: State, s': State) { exists u :: ThreadStep(b, s, s', u) }

  /** Before the block runs: every thread at its beginning, shared memory arbitrary. */
  predicate Init(b: Block, s: State) {
    |s.threads| == b.threads && forall u :: 0 <= u < |s.threads| ==> s.threads[u] == Thread(0, {}, NoJob, false)
  }

  ghost predicate Complete(b: Block, s: State) {
    forall u :: 0 <= u < |s.threads| ==> s.threads[u].round + 1 == b.rounds && RoundDone(b, u, s.threads[u])
  }

  // ---- the invariant ----

  /** Thread `u` has written cell (r, c), one of its own. */
  predicate Written(th: Thread, r: nat, c: Place) { r < th.round || (r == th.round && c in th.done) }

  ghost predicate ThreadOk(b: Block, u: nat, th: Thread) {
    && th.round < b.rounds && (th.arrived ==> RoundDone(b, u, th) && th.round + 1 < b.rounds)
    && (th.job.Doing? ==>
          && Own(b, u, th.round, th.job.c) && th.job.c !in th.done && |th.job.values| <= b.inputs(th.round, th.job.c)
          && th.job.values == b.Values(th.round, th.job.c, |th.job.values|))
  }

  ghost predicate CellsOk(b: Block, s: State, u: nat)
    requires u < |s.threads|
  {
    forall r: nat, c: Place :: Own(b, u, r, c) && Written(s.threads[u], r, c) ==> Read(s, r, c) == b.Cell(r, c)
  }

  ghost predicate Inv(b: Block, s: State) {
    && |s.threads| == b.threads
    && (forall u :: 0 <= u < |s.threads| ==> ThreadOk(b, u, s.threads[u]))
    && (forall u, v :: 0 <= u < |s.threads| && 0 <= v < |s.threads| ==> s.threads[u].round <= ArrivedAt(s.threads[v]))
    && (forall u :: 0 <= u < |s.threads| ==> CellsOk(b, s, u))
  }

  /** Race freedom: the cell a thread is about to read holds its final value, and no thread is at work on it. */
  lemma ReadIsSafe(b: Block, s: State, u: nat, a: Place)
    requires b.Valid() && Inv(b, s) && u < |s.threads| && s.threads[u].round > 0 && b.IsCell(s.threads[u].round - 1, a)
    ensures Read(s, s.threads[u].round - 1, a) == b.Cell(s.threads[u].round - 1, a)
    ensures forall v :: 0 <= v < |s.threads| && s.threads[v].round == s.threads[u].round - 1 ==> s.threads[v].job.NoJob?
  {
    var r := s.threads[u].round - 1;
    var w := b.writer(r, a);
    assert s.threads[u].round <= ArrivedAt(s.threads[w]);
    assert ThreadOk(b, w, s.threads[w]) && CellsOk(b, s, w);
    assert Own(b, w, r, a) && Written(s.threads[w], r, a);
    forall v | 0 <= v < |s.threads| && s.threads[v].round == r ensures s.threads[v].job.NoJob? {
      assert s.threads[u].round <= ArrivedAt(s.threads[v]) && ThreadOk(b, v, s.threads[v]);
    }
  }

  /** A thread's step that leaves shared memory alone. */
  lemma QuietKeepsInv(b: Block, s: State, s': State, u: nat, th: Thread)
    requires b.Valid() && Inv(b, s) && u < |s.threads| && Quiet(s, s', u, th) && ThreadOk(b, u, th)
    requires s.threads[u].round <= th.round && ArrivedAt(s.threads[u]) <= ArrivedAt(th)
    requires forall v :: 0 <= v < |s.threads| ==> th.round <= ArrivedAt(if v == u then th else s.threads[v])
    requires forall r: nat, c: Place :: Own(b, u, r, c) && Written(th, r, c) ==> Written(s.threads[u], r, c)
    ensures Inv(b, s')
  {
    forall v | 0 <= v < |s'.threads| ensures ThreadOk(b, v, s'.threads[v]) && CellsOk(b, s', v) {
      assert ThreadOk(b, v, s.threads[v]) && CellsOk(b, s, v);
    }
    forall v, w | 0 <= v < |s'.threads| && 0 <= w < |s'.threads|
      ensures s'.threads[v].round <= ArrivedAt(s'.threads[w])
    {
      assert s.threads[v].round <= ArrivedAt(s.threads[w]);
    }
  }

  lemma WriteKeepsInv(b: Block, s: State, s': State, u: nat, c: Place)
    requires b.Valid() && Inv(b, s) && u < |s.threads| && s.threads[u].job.Doing? && s.threads[u].job.c == c
    requires |s.threads[u].job.values| == b.inputs(s.threads[u].round, c) && JobStep(b, s, s', u, s.threads[u])
    ensures Inv(b, s')
  {
    var th, th' := s.threads[u], s'.threads[u];
    assert ThreadOk(b, u, th) && b.make(th.round, c, th.job.values) == b.Cell(th.round, c);
    forall v | 0 <= v < |s'.threads| ensures ThreadOk(b, v, s'.threads[v]) && CellsOk(b, s', v) {
      assert ThreadOk(b, v, s.threads[v]) && CellsOk(b, s, v);
    }
    forall v, w | 0 <= v < |s'.threads| && 0 <= w < |s'.threads|
      ensures s'.threads[v].round <= ArrivedAt(s'.threads[w])
    {
      assert s.threads[v].round <= ArrivedAt(s.threads[w]);
    }
  }

  /** A read step: the value read is the final one, so the job's values stay those of the race-free block. */
  lemma ReadKeepsInv(b: Block, s: State, s': State, u: nat, c: Place)
    requires b.Valid() && Inv(b, s) && u < |s.threads| && s.threads[u].job.Doing? && s.threads[u].job.c == c
    requires |s.threads[u].job.values| < b.inputs(s.threads[u].round, c) && JobStep(b, s, s', u, s.threads[u])
    ensures Inv(b, s')
  {
    var th, n := s.threads[u], |s.threads[u].job.values|;
    assert ThreadOk(b, u, th) && b.ReadsInside(th.round, c);
    ReadIsSafe(b, s, u, b.addr(th.round, c, n));
    assert s'.threads[u].job.values == b.Values(th.round, c, n + 1);
    QuietKeepsInv(b, s, s', u, s'.threads[u]);
  }

  /** Starting a cell, arriving at the barrier, passing it. */
  lemma MoveKeepsInv(b: Block, s: State, s': State, u: nat)
    requires b.Valid() && Inv(b, s) && u < |s.threads| && s.threads[u].job.NoJob? && ThreadStep(b, s, s', u)
    ensures Inv(b, s')
  {
    assert ThreadOk(b, u, s.threads[u]);
    QuietKeepsInv(b, s, s', u, s'.threads[u]);
  }

  lemma NextKeepsInv(b: Block, s: State, s': State)
    requires b.Valid() && Inv(b, s) && Next(b, s, s')
    ensures Inv(b, s')
  {
    var u: nat :| ThreadStep(b, s, s', u);
    assert u < |s.threads| && ThreadOk(b, u, s.threads[u]);
    var th := s.threads[u];
    if th.job.NoJob? {
      MoveKeepsInv(b, s, s', u);
    } else if |th.job.values| < b.inputs(th.round, th.job.c) {
      ReadKeepsInv(b, s, s', u, th.job.c);
    } else {
      WriteKeepsInv(b, s, s', u, th.job.c);
    }
  }

  // ---- every run ----

  ghost predicate IsRun(b: Block, run: seq<State>) {
    |run| > 0 && Init(b, run[0]) && forall n :: 0 <= n < |run| - 1 ==> StepAt(b, run, n)
  }

  ghost predicate StepAt(b: Block, run: seq<State>, n: nat)
    requires n + 1 < |run|
  {
    Next(b, run[n], run[n + 1])
  }

  lemma {:induction false} RunInv(b: Block, run: seq<State>, n: nat)
    requires b.Valid() && IsRun(b, run) && n < |run|
    ensures Inv(b, run[n])
    decreases n
  {
    if n > 0 {
      RunInv(b, run, n - 1);
      assert StepAt(b, run, n - 1);
      NextKeepsInv(b, run[n - 1], run[n]);
    }
  }

  /** Whatever the interleaving, a complete run leaves in every cell what the block computes without races. */
  lemma EveryRunComputes(b: Block, run: seq<State>, r: nat, c: Place)
    requires b.Valid() && IsRun(b, run) && Complete(b, run[|run| - 1]) && b.IsCell(r, c)
    ensures Read(run[|run| - 1], r, c) == b.Cell(r, c)
  {
    RunInv(b, run, |run| - 1);
    var s, u := run[|run| - 1], b.writer(r, c);
    assert CellsOk(b, s, u) && RoundDone(b, u, s.threads[u]);
    assert Own(b, u, r, c) && Written(s.threads[u], r, c);
  }

  /** No deadlock: until every thread has finished, some step is possible. */
  lemma SomeStepIsPossible(b: Block, s: State)
    requires b.Valid() && Inv(b, s) && !Complete(b, s)
    ensures exists s' :: Next(b, s, s')
  {
    var u :| 0 <= u < |s.threads| && !(s.threads[u].round + 1 == b.rounds && RoundDone(b, u, s.threads[u]));
    if s.threads[u].arrived && !BarrierOpen(s, s.threads[u]) {
      var v :| 0 <= v < |s.threads| && ArrivedAt(s.threads[v]) <= s.threads[u].round;
      assert s.threads[u].round <= ArrivedAt(s.threads[v]);
      assert ThreadOk(b, u, s.threads[u]);
      u := v;
    }
    ThreadCanStep(b, s, u);
    var s' :| ThreadStep(b, s, s', u);
    assert Next(b, s, s');
  }

  /** A block can start on any contents of shared memory. */
  lemma RunExists(b: Block, smem: map<(nat, Place), Val>) returns (s: State)
    ensures IsRun(b, [s]) && s.smem == smem
  {
    s := State(seq(b.threads, u => Thread(0, {}, NoJob, false)), smem);
  }

  /** A thread with work left waits for nothing but the barrier it stands at. */
  lemma ThreadCanStep(b: Block, s: State, u: nat)
    requires b.Valid() && Inv(b, s) && u < |s.threads| && (s.threads[u].arrived ==> BarrierOpen(s, s.threads[u]))
    requires !(s.threads[u].round + 1 == b.rounds && RoundDone(b, u, s.threads[u]))
    ensures exists s' :: ThreadStep(b, s, s', u)
  {
    var th := s.threads[u];
    var s' := s;
    if th.job.Doing? {
      var Doing(c, values) := th.job;
      if |values| < b.inputs(th.round, c) {
        var v := Read(s, th.round - 1, b.addr(th.round, c, |values|));
        s' := s.(threads := s.threads[u := th.(job := Doing(c, values + [v]))]);
      } else {
        s' := State(s.threads[u := th.(done := th.done + {c}, job := NoJob)],
                    s.smem[(th.round, c) := b.make(th.round, c, values)]);
      }
    } else if th.arrived {
      s' := s.(threads := s.threads[u := Thread(th.round + 1, {}, NoJob, false)]);
    } else if RoundDone(b, u, th) {
      s' := s.(threads := s.threads[u := th.(arrived := true)]);
    } else {
      var c :| Own(b, u, th.round, c) && c !in th.done;
      s' := s.(threads := s.threads[u := th.(job := Doing(c, []))]);
    }
    assert ThreadStep(b, s, s', u);
  }

  /** What a job past the first round reads. */
  lemma {:induction false} ValuesAt(b: Block, r: nat, c: Place, i: nat, j: nat)
    requires r > 0 && j < i
    ensures b.Values(r, c, i)[j] == b.Cell(r - 1, b.addr(r, c, j))
    decreases i
  {
    if j < i - 1 { ValuesAt(b, r, c, i - 1, j); }
  }

  /** A cell is made of the cells its job reads. */
  lemma CellIs(b: Block, r: nat, c: Place, values: seq<Val>)
    requires r > 0 && |values| == b.inputs(r, c)
    requires forall j :: 0 <= j < |values| ==> values[j] == b.Cell(r - 1, b.addr(r, c, j))
    ensures b.Cell(r, c) == b.make(r, c, values)
  {
    forall j | 0 <= j < |values| ensures b.Values(r, c, |values|)[j] == values[j] {
      ValuesAt(b, r, c, |values|, j);
    }
    assert b.Values(r, c, |values|) == values;
  }

  lemma FirstCell(b: Block, c: Place)
    requires b.inputs(0, c) == 0
    ensures b.Cell(0, c) == b.make(0, c, [])
  {
  }

  // ---- the ultra-thin product ----

  /** A column's partial over values read from the staged row, from `lo` on. */
  function PartialOf(values: seq<Val>, w: Operand, col: nat, lo: nat, n: nat): Val
    requires n <= |values|
  {
    if n == 0 then Zero
    else Fma(values[n - 1], At(w, col, lo + n - 1), PartialOf(values, w, col, lo, n - 1))
  }

  function SlabLength(red: nat, i: nat): nat {
    if SlabLo(red, i) <= SlabLo(red, i + 1) then SlabLo(red, i + 1) - SlabLo(red, i) else 0
  }

  /** Who writes: the row is staged by 256 striding threads, partials by warp and lane, outputs by warp 0. */
  function ThinWriter(r: nat, c: Place): nat {
    if r == 0 then c.col % 256 else if r == 1 then 32 * c.row + c.col else c.col
  }

  predicate ThinLive(x: Operand, w: Operand, t: nat, r: nat, c: Place) {
    if r == 0 then c.row == 0 && c.col < x.red
    else if r == 1 then c.row < 8 && c.col < 32
    else c.row == 0 && c.col < 32 && 32 * t + c.col < w.outer
  }

  function ThinInputs(x: Operand, w: Operand, t: nat, r: nat, c: Place): nat {
    if r == 0 then 0
    else if r == 1 then (if 32 * t + c.col < w.outer then SlabLength(x.red, c.row) else 0)
    else 8
  }

  function ThinAddr(x: Operand, r: nat, c: Place, i: nat): Place {
    if r == 1 then Place(0, SlabLo(x.red, c.row) + i) else Place(i, c.col)
  }

  function ThinMake(x: Operand, w: Operand, seed: Seed, m: nat, t: nat, r: nat, c: Place, values: seq<Val>): Val {
    if r == 0 then At(x, m, c.col)
    else if r == 1 then PartialOf(values, w, 32 * t + c.col, SlabLo(x.red, c.row), |values|)
    else if |values| == 8 && (seed.Bias? ==> 32 * t + c.col < |seed.values|) then
      AddBias(Mul(One, PairTree(values)), seed, 32 * t + c.col)
    else Zero
  }

  /** One CTA of the ultra-thin kernel, for row `m` and columns 32 * t and up: the staged row, then the partials of
      eight warps over eight slabs, then warp 0's sums. */
  function ThinBlock(x: Operand, w: Operand, seed: Seed, m: nat, t: nat): Block {
    Block(256, 3,
          (r: nat, c: Place) => ThinLive(x, w, t, r, c),
          (r: nat, c: Place) => ThinWriter(r, c),
          (r: nat, c: Place) => ThinInputs(x, w, t, r, c),
          (r: nat, c: Place, i: nat) => ThinAddr(x, r, c, i),
          (r: nat, c: Place, values: seq<Val>) => ThinMake(x, w, seed, m, t, r, c, values))
  }

  /** What the jobs of an ultra-thin CTA read, and what they make of it. */
  ghost predicate ReadsThin(b: Block, x: Operand, w: Operand, t: nat) {
    && (forall r: nat, c: Place :: b.inputs(r, c) == ThinInputs(x, w, t, r, c))
    && (forall r: nat, c: Place, i: nat :: b.addr(r, c, i) == ThinAddr(x, r, c, i))
  }

  ghost predicate MakesThin(b: Block, x: Operand, w: Operand, seed: Seed, m: nat, t: nat) {
    forall r: nat, c: Place, values: seq<Val> :: b.make(r, c, values) == ThinMake(x, w, seed, m, t, r, c, values)
  }

  lemma ThinValid(x: Operand, w: Operand, seed: Seed, m: nat, t: nat)
    ensures var b := ThinBlock(x, w, seed, m, t); b.Valid() && ReadsThin(b, x, w, t) && MakesThin(b, x, w, seed, m, t)
  {
    var b := ThinBlock(x, w, seed, m, t);
    forall r: nat, c: Place | b.IsCell(r, c) ensures b.writer(r, c) < b.threads && b.ReadsInside(r, c) {
      forall i | 0 <= i < b.inputs(r, c) ensures r > 0 && b.IsCell(r - 1, b.addr(r, c, i)) {
        if r == 1 { assert SlabLo(x.red, c.row) + i < SlabLo(x.red, c.row + 1) <= x.red; }
      }
    }
  }

  lemma {:induction false} PartialIsChain(values: seq<Val>, x: Operand, w: Operand, m: nat, col: nat, lo: nat, n: nat)
    requires n <= |values| && forall j :: 0 <= j < |values| ==> values[j] == At(x, m, lo + j)
    ensures PartialOf(values, w, col, lo, n) == Chain(Zero, x, w, m, col, lo, n)
    decreases n
  {
    if n > 0 { PartialIsChain(values, x, w, m, col, lo, n - 1); }
  }

  /** `n` elements of row `m`, from `lo` on. */
  function RowPart(x: Operand, m: nat, lo: nat, n: nat): (s: seq<Val>)
    ensures |s| == n && forall j :: 0 <= j < n ==> s[j] == At(x, m, lo + j)
  {
    seq(n, j requires 0 <= j < n => At(x, m, lo + j))
  }

  /** A staged element of the row. */
  lemma StagedCell(b: Block, x: Operand, w: Operand, seed: Seed, m: nat, t: nat, k: nat)
    requires ReadsThin(b, x, w, t) && MakesThin(b, x, w, seed, m, t)
    ensures b.Cell(0, Place(0, k)) == At(x, m, k)
  {
    FirstCell(b, Place(0, k));
  }

  ghost predicate RowStaged(b: Block, x: Operand, m: nat) { forall k: nat :: b.Cell(0, Place(0, k)) == At(x, m, k) }

  /** Warp `i`'s lane `l` reads its slab of the row. */
  lemma SlabJob(b: Block, x: Operand, w: Operand, m: nat, t: nat, i: nat, l: nat)
    requires ReadsThin(b, x, w, t) && RowStaged(b, x, m) && 32 * t + l < w.outer
    ensures b.Cell(1, Place(i, l)) == b.make(1, Place(i, l), RowPart(x, m, SlabLo(x.red, i), SlabLength(x.red, i)))
  {
    CellIs(b, 1, Place(i, l), RowPart(x, m, SlabLo(x.red, i), SlabLength(x.red, i)));
  }

  /** ... and makes the slab's partial of it. */
  lemma SlabMade(b: Block, x: Operand, w: Operand, seed: Seed, m: nat, t: nat, i: nat, l: nat)
    requires MakesThin(b, x, w, seed, m, t) && x.red == w.red && i < 8
    ensures b.make(1, Place(i, l), RowPart(x, m, SlabLo(x.red, i), SlabLength(x.red, i)))
         == Slab(x, w, m, 32 * t + l, i)
  {
    var lo, n := SlabLo(x.red, i), SlabLength(x.red, i);
    PartialIsChain(RowPart(x, m, lo, n), x, w, m, 32 * t + l, lo, n);
    SlabIs(x, w, m, 32 * t + l, i);
  }

  ghost predicate PartialsMade(b: Block, x: Operand, w: Operand, m: nat, t: nat, l: nat)
    requires x.red == w.red
  {
    forall i: nat :: i < 8 ==> b.Cell(1, Place(i, l)) == Slab(x, w, m, 32 * t + l, i)
  }

  /** Lane `l` of warp 0 reads the eight partials of its column. */
  lemma SumJob(b: Block, x: Operand, w: Operand, m: nat, t: nat, l: nat)
    requires x.red == w.red && ReadsThin(b, x, w, t) && PartialsMade(b, x, w, m, t, l)
    ensures b.Cell(2, Place(0, l)) == b.make(2, Place(0, l), Slabs(x, w, m, 32 * t + l))
  {
    CellIs(b, 2, Place(0, l), Slabs(x, w, m, 32 * t + l));
  }

  lemma SumMade(b: Block, x: Operand, w: Operand, seed: Seed, m: nat, t: nat, l: nat)
    requires MakesThin(b, x, w, seed, m, t) && x.red == w.red && (seed.Bias? ==> 32 * t + l < |seed.values|)
    ensures b.make(2, Place(0, l), Slabs(x, w, m, 32 * t + l)) == Value(EightSlabs, x, w, seed, m, 32 * t + l)
  {
  }

  lemma SlabIs(x: Operand, w: Operand, m: nat, n: nat, i: nat)
    requires x.red == w.red && i < 8
    ensures Slab(x, w, m, n, i) == Chain(Zero, x, w, m, n, SlabLo(x.red, i), SlabLength(x.red, i))
  {
    SlabOrder(x.red, i);
  }

  /** What a race-free ultra-thin CTA computes is the plan's value. */
  lemma ThinCell(x: Operand, w: Operand, seed: Seed, m: nat, t: nat, l: nat)
    requires x.red == w.red && 32 * t + l < w.outer && (seed.Bias? ==> |seed.values| >= w.outer)
    ensures ThinBlock(x, w, seed, m, t).Cell(2, Place(0, l)) == Value(EightSlabs, x, w, seed, m, 32 * t + l)
  {
    var b := ThinBlock(x, w, seed, m, t);
    ThinValid(x, w, seed, m, t);
    forall k: nat ensures b.Cell(0, Place(0, k)) == At(x, m, k) { StagedCell(b, x, w, seed, m, t, k); }
    forall i: nat | i < 8 ensures b.Cell(1, Place(i, l)) == Slab(x, w, m, 32 * t + l, i) {
      SlabJob(b, x, w, m, t, i, l);
      SlabMade(b, x, w, seed, m, t, i, l);
    }
    SumJob(b, x, w, m, t, l);
    SumMade(b, x, w, seed, m, t, l);
  }

  /** Every complete interleaving of an ultra-thin CTA leaves the eight-slab plan's value in each of its columns. */
  lemma ThinRunComputes(x: Operand, w: Operand, seed: Seed, m: nat, t: nat, run: seq<State>, l: nat)
    requires x.red == w.red && l < 32 && 32 * t + l < w.outer && (seed.Bias? ==> |seed.values| >= w.outer)
    requires IsRun(ThinBlock(x, w, seed, m, t), run) && Complete(ThinBlock(x, w, seed, m, t), run[|run| - 1])
    ensures Read(run[|run| - 1], 2, Place(0, l)) == Value(EightSlabs, x, w, seed, m, 32 * t + l)
  {
    var b := ThinBlock(x, w, seed, m, t);
    ThinValid(x, w, seed, m, t);
    assert b.IsCell(2, Place(0, l));
    EveryRunComputes(b, run, 2, Place(0, l));
    ThinCell(x, w, seed, m, t, l);
  }

  // ---- the transposition ----

  /** One block of the transposition: thread (ty, tx) stages an element of the source and stores the one that
      thread (tx, ty) staged. */
  function TransposeBlockOf(src: seq<Val>, rows: nat, cols: nat, bRow: nat, bCol: nat): Block
    requires Times(rows, cols) <= |src|
  {
    Block(1024, 2,
          (r: nat, c: Place) => c.row < 32 && c.col < 32
                                && (r == 1 ==> 32 * bCol + c.row < cols && 32 * bRow + c.col < rows),
          (r: nat, c: Place) => 32 * c.row + c.col,
          (r: nat, c: Place) => r,
          (r: nat, c: Place, i: nat) => Place(c.col, c.row),
          (r: nat, c: Place, values: seq<Val>) =>
            if r == 0 then Element(src, rows, cols, 32 * bRow + c.row, 32 * bCol + c.col)
            else if |values| == 1 then values[0] else Zero)
  }

  lemma TransposeValid(src: seq<Val>, rows: nat, cols: nat, bRow: nat, bCol: nat)
    requires Times(rows, cols) <= |src|
    ensures TransposeBlockOf(src, rows, cols, bRow, bCol).Valid()
  {
  }

  /** The cell of thread (ty, tx) is the element that thread (tx, ty) staged. */
  lemma TransposeCell(src: seq<Val>, rows: nat, cols: nat, bRow: nat, bCol: nat, ty: nat, tx: nat)
    requires Times(rows, cols) <= |src|
    ensures TransposeBlockOf(src, rows, cols, bRow, bCol).Cell(1, Place(ty, tx))
         == Element(src, rows, cols, 32 * bRow + tx, 32 * bCol + ty)
  {
    var b := TransposeBlockOf(src, rows, cols, bRow, bCol);
    FirstCell(b, Place(tx, ty));
    CellIs(b, 1, Place(ty, tx), [b.Cell(0, Place(tx, ty))]);
  }

  /** Every complete interleaving of a block leaves the transposed elements in the cells it stores. */
  lemma TransposeRunComputes(src: seq<Val>, rows: nat, cols: nat, bRow: nat, bCol: nat, run: seq<State>,
                             ty: nat, tx: nat)
    requires Times(rows, cols) <= |src| && ty < 32 && tx < 32 && 32 * bCol + ty < cols && 32 * bRow + tx < rows
    requires IsRun(TransposeBlockOf(src, rows, cols, bRow, bCol), run)
    requires Complete(TransposeBlockOf(src, rows, cols, bRow, bCol), run[|run| - 1])
    ensures Read(run[|run| - 1], 1, Place(ty, tx))
         == Transposed(src, rows, cols, Flat(32 * bCol + ty, rows, 32 * bRow + tx))
  {
    var b := TransposeBlockOf(src, rows, cols, bRow, bCol);
    TransposeValid(src, rows, cols, bRow, bCol);
    assert b.IsCell(1, Place(ty, tx));
    EveryRunComputes(b, run, 1, Place(ty, tx));
    TransposeCell(src, rows, cols, bRow, bCol, ty, tx);
    FlatDigits(32 * bCol + ty, rows, 32 * bRow + tx);
  }
}
