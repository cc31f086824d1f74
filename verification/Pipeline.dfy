/** The main loops of the tiled kernels under every interleaving. With two stages of shared memory (the Big and
    tensor-core kernels) each thread copies its share of slab k + 1 into one stage while it sweeps slab k out of
    the other, with one barrier per slab. With one stage (all other tiled kernels) it copies slab k, waits, passes
    a barrier, sweeps, and passes a second barrier before the next copy. Copies land at arbitrary moments until
    their issuer has waited for them (a synchronous store is a copy that lands at once), and threads advance at
    arbitrary relative speeds between barriers. */
module Pipeline {
  import opened Numerics
  import opened Terms
  import opened Operands
  import opened Geometry
  import opened Loading
  import opened TileCompute

  /** A shared-memory cell: which stage, which operand, where in the slab. */
  datatype Slot = Slot(stage: nat, left: bool, r: nat, o: nat)

  /** A copy of slab `k`'s content into `slot`, issued by thread `owner` and not landed yet. */
  datatype Copy = Copy(owner: nat, slot: Slot, k: nat)

  datatype Phase =
    | Staging           // about to issue slab k
    | Waiting           // wait_group / wait_all
    | Arrived           // in the barrier before the sweep
    | Issuing           // past it; with two stages, about to issue slab k + 1
    | Computing(d: nat) // dot-product steps 0 .. d of slab k done
    | Leaving           // in the barrier after the sweep; one stage only
    | Finished          // main loop left

  datatype Thread = Thread(k: nat, phase: Phase, regs: Registers)

  datatype State = State(threads: seq<Thread>, smem: map<Slot, Val>, flight: set<Copy>)

  /** The CTA: its output tile, its slab count, how its threads share out the copying, and its stages. */
  datatype Cta = Cta(t: Tile, slabs: nat, ma: LoadMap, mb: LoadMap, stages: nat) {
    predicate Valid() {
      && t.g.Valid() && slabs > 0 && (stages == 1 || stages == 2)
      && ma.Fits(t.g.bk, t.g.BM(), t.g.Threads()) && mb.Fits(t.g.bk, t.g.BN(), t.g.Threads())
    }

    /** The stage slab `k` is kept in. */
    function StageOf(k: nat): nat { if stages == 2 then k % 2 else 0 }

    predicate IsSlot(s: Slot) {
      s.stage < stages && s.r < t.g.bk && s.o < (if s.left then t.g.BM() else t.g.BN())
    }

    /** The thread whose job cell `s` is. */
    function Owner(s: Slot): nat
      requires Valid()
    {
      if s.left then ma.CellTid(t.g.bk, t.g.BM(), t.g.Threads(), s.r, s.o)
      else mb.CellTid(t.g.bk, t.g.BN(), t.g.Threads(), s.r, s.o)
    }

    /** What cell `s` must hold while slab `k` is swept. */
    function Content(s: Slot, k: nat): Val {
      if s.left then At(t.x, t.m0 + s.o, t.lo + Times(k, t.g.bk) + s.r)
      else At(t.w, t.n0 + s.o, t.lo + Times(k, t.g.bk) + s.r)
    }

    /** `c` is one of the copies thread `u` issues for slab `k`. */
    predicate IsOwn(u: nat, k: nat, c: Copy)
      requires Valid()
    {
      c.owner == u && c.k == k && IsSlot(c.slot) && c.slot.stage == StageOf(k) && Owner(c.slot) == u
    }
  }

  lemma OwnerInRange(c: Cta, s: Slot)
    requires c.Valid() && c.IsSlot(s)
    ensures c.Owner(s) < c.t.g.Threads()
  {
    if s.left {
      SlotOfCell(c.ma, c.t.g.bk, c.t.g.BM(), c.t.g.Threads(), s.r, s.o);
    } else {
      SlotOfCell(c.mb, c.t.g.bk, c.t.g.BN(), c.t.g.Threads(), s.r, s.o);
    }
  }

  function Read(smem: map<Slot, Val>, s: Slot): Val { if s in smem then smem[s] else Zero }

  /** Barriers before slab `k`: two stages need one per slab, one stage needs two. */
  function BarriersBefore(c: Cta, k: nat): nat { if c.stages == 2 then k else 2 * k }

  /** Barriers a thread has arrived at, and barriers it has passed. */
  function ArrivedAt(c: Cta, th: Thread): nat {
    match th.phase
    case Staging => BarriersBefore(c, th.k)
    case Waiting => BarriersBefore(c, th.k)
    case Leaving => BarriersBefore(c, th.k) + 2
    case Finished => BarriersBefore(c, th.k + 1)
    case _ => BarriersBefore(c, th.k) + 1
  }

  function Passed(c: Cta, th: Thread): nat {
    match th.phase
    case Staging => BarriersBefore(c, th.k)
    case Waiting => BarriersBefore(c, th.k)
    case Arrived => BarriersBefore(c, th.k)
    case Finished => BarriersBefore(c, th.k + 1)
    case _ => BarriersBefore(c, th.k) + 1
  }

  predicate AtBarrier(th: Thread) { th.phase.Arrived? || th.phase.Leaving? }

  /** Every thread has arrived at the barrier `th` is to pass next. */
  predicate BarrierOpen(c: Cta, s: State, th: Thread) {
    forall v :: 0 <= v < |s.threads| ==> ArrivedAt(c, s.threads[v]) > Passed(c, th)
  }

  /** Slabs a thread has issued copies of. */
  function Issued(c: Cta, th: Thread): int {
    if th.phase.Staging? then th.k
    else if c.stages == 2 && (th.phase.Computing? || th.phase.Finished?) then Min(th.k + 2, c.slabs)
    else th.k + 1
  }

  /** Links of the chain a thread's registers hold. */
  function Steps(c: Cta, th: Thread): nat {
    match th.phase
    case Computing(d) => Times(th.k, c.t.g.bk) + d
    case Leaving => Times(th.k, c.t.g.bk) + c.t.g.bk
    case Finished => Times(c.slabs, c.t.g.bk)
    case _ => Times(th.k, c.t.g.bk)
  }

  // ---- transitions ----

  /** `s'` differs from `s` in thread `u`, which is now `th`, and in `smem`/`flight` as given. */
  predicate Becomes(s: State, s': State, u: nat, th: Thread) {
    u < |s.threads| && s'.threads == s.threads[u := th]
  }

  ghost predicate IssueStep(c: Cta, s: State, s': State, u: nat, k: nat)
    requires c.Valid()
  {
    s'.smem == s.smem && forall x :: x in s'.flight <==> x in s.flight || c.IsOwn(u, k, x)
  }

  /** Reduction steps one step of the sweep makes. */
  function Depth(g: Geom): nat { if g.mma then 16 else 1 }

  function ReadRun(smem: map<Slot, Val>, stage: nat, left: bool, d: nat, o: nat): (s: seq<Val>)
    ensures |s| == 16 && forall e :: 0 <= e < 16 ==> s[e] == Read(smem, Slot(stage, left, d + e, o))
  {
    seq(16, e requires 0 <= e < 16 => Read(smem, Slot(stage, left, d + e, o)))
  }

  /** The accumulator of tile element (r, o) after the sweep step at depth `d`. */
  function NewValue(c: Cta, smem: map<Slot, Val>, stage: nat, d: nat, r: nat, o: nat, acc: Val): Val {
    if c.t.g.mma then Mma16(acc, ReadRun(smem, stage, true, d, r), ReadRun(smem, stage, false, d, o))
    else Fma(Read(smem, Slot(stage, true, d, r)), Read(smem, Slot(stage, false, d, o)), acc)
  }

  ghost predicate DotRegisters(c: Cta, s: State, u: nat, d: nat, f: Registers, f': Registers)
    requires c.Valid()
  {
    && HasShape(c.t.g, f) && HasShape(c.t.g, f') && u < |s.threads|
    && forall i, j :: 0 <= i < c.t.g.RegsM() && 0 <= j < c.t.g.RegsN() ==>
         f'[i][j] == NewValue(c, s.smem, c.StageOf(s.threads[u].k), d, c.t.g.RowOf(u, i), c.t.g.ColOf(u, j), f[i][j])
  }

  /** A copy lands: its cell takes the content of its slab. */
  ghost predicate Land(c: Cta, s: State, s': State, x: Copy)
    requires c.Valid()
  {
    && x in s.flight && s'.threads == s.threads
    && s'.smem == s.smem[x.slot := c.Content(x.slot, x.k)] && s'.flight == s.flight - {x}
  }

  /** Thread `u` becomes `th` and nothing else happens. */
  predicate Quiet(s: State, s': State, u: nat, th: Thread) {
    Becomes(s, s', u, th) && s'.smem == s.smem && s'.flight == s.flight
  }

  /** Thread `u` takes its next step. */
  ghost predicate ThreadStep(c: Cta, s: State, s': State, u: nat)
    requires c.Valid()
  {
    u < |s.threads| &&
    var th := s.threads[u];
    match th.phase
    case Staging =>
      Becomes(s, s', u, th.(phase := Waiting)) && IssueStep(c, s, s', u, th.k)
    case Waiting =>
      (forall x :: x in s.flight ==> x.owner != u) && Quiet(s, s', u, th.(phase := Arrived))
    case Arrived =>
      BarrierOpen(c, s, th) && Quiet(s, s', u, th.(phase := Issuing))
    case Issuing =>
      if c.stages == 2 && th.k + 1 < c.slabs then
        Becomes(s, s', u, th.(phase := Computing(0))) && IssueStep(c, s, s', u, th.k + 1)
      else Quiet(s, s', u, th.(phase := Computing(0)))
    case Computing(d) =>
      if d < c.t.g.bk then
        exists f' :: DotRegisters(c, s, u, d, th.regs, f') && Quiet(s, s', u, Swept(c, th, d, f'))
      else Quiet(s, s', u, AfterSweep(c, th))
    case Leaving =>
      BarrierOpen(c, s, th) && Quiet(s, s', u, NextSlab(c, th, Staging))
    case Finished => false
  }

  /** A thread after the sweep step at depth `d`. */
  function Swept(c: Cta, th: Thread, d: nat, f': Registers): Thread { Thread(th.k, Computing(d + Depth(c.t.g)), f') }

  /** A thread that goes on to the next slab, if there is one. */
  function NextSlab(c: Cta, th: Thread, phase: Phase): Thread {
    if th.k + 1 < c.slabs then Thread(th.k + 1, phase, th.regs) else th.(phase := Finished)
  }

  /** A thread that has swept its slab: straight on to the copies it waits for, or to the second barrier. */
  function AfterSweep(c: Cta, th: Thread): Thread {
    if c.stages == 2 then NextSlab(c, th, Waiting) else th.(phase := Leaving)
  }

  ghost predicate Next(c: Cta, s: State, s': State)
    requires c.Valid()
  {
    (exists x :: Land(c, s, s', x)) || (exists u :: ThreadStep(c, s, s', u))
  }

  /** Before the kernel runs: nothing issued, registers seeded, shared memory arbitrary. */
  ghost predicate Init(c: Cta, s: State)
    requires c.Valid()
  {
    && |s.threads| == c.t.g.Threads() && s.flight == {}
    && forall u :: 0 <= u < |s.threads| ==>
         s.threads[u].k == 0 && s.threads[u].phase == Staging && HoldsChain(c.t, s.threads[u].regs, u, 0)
  }

  // ---- the invariant ----

  ghost predicate ThreadOk(c: Cta, u: nat, th: Thread)
    requires c.Valid()
  {
    && th.k < c.slabs && (th.phase.Staging? && c.stages == 2 ==> th.k == 0) && (th.phase.Leaving? ==> c.stages == 1)
    && (th.phase.Computing? ==> th.phase.d <= c.t.g.bk)
    && (th.phase.Computing? && c.t.g.mma ==> th.phase.d % 16 == 0)
    && (th.phase.Finished? ==> th.k + 1 == c.slabs)
    && HoldsChain(c.t, th.regs, u, Steps(c, th))
  }

  /** A copy in flight belongs to the latest slab its issuer issued, and the issuer has not waited since. */
  predicate FlightOk(c: Cta, s: State, x: Copy)
    requires c.Valid()
  {
    && x.owner < |s.threads| && x.k < c.slabs && c.IsOwn(x.owner, x.k, x)
    && var th := s.threads[x.owner];
       (th.phase.Waiting? && x.k == th.k) || (c.stages == 2 && th.phase.Computing? && x.k == th.k + 1)
  }

  /** Of the slabs its owner issued last, one for each stage, the one of this stage is in the cell, or on its way
      to it. */
  predicate CellOk(c: Cta, s: State, slot: Slot, j: nat)
    requires c.Valid() && c.IsSlot(slot) && c.Owner(slot) < |s.threads|
  {
    var issued := Issued(c, s.threads[c.Owner(slot)]);
    c.StageOf(j) == slot.stage && issued - c.stages <= j < issued ==>
      Copy(c.Owner(slot), slot, j) in s.flight || Read(s.smem, slot) == c.Content(slot, j)
  }

  ghost predicate Inv(c: Cta, s: State)
    requires c.Valid()
  {
    && |s.threads| == c.t.g.Threads()
    && (forall u :: 0 <= u < |s.threads| ==> ThreadOk(c, u, s.threads[u]))
    && (forall u, v :: 0 <= u < |s.threads| && 0 <= v < |s.threads| ==>
        Passed(c, s.threads[u]) <= ArrivedAt(c, s.threads[v]))
    && (forall x :: x in s.flight ==> FlightOk(c, s, x))
    && (forall slot, j: nat {:trigger c.Content(slot, j)} :: c.IsSlot(slot) && c.Owner(slot) < |s.threads| ==>
          CellOk(c, s, slot, j))
  }

  lemma InitInv(c: Cta, s: State)
    requires c.Valid() && Init(c, s)
    ensures Inv(c, s)
  {
    forall u | 0 <= u < |s.threads| ensures ThreadOk(c, u, s.threads[u]) {
      assert Steps(c, s.threads[u]) == 0;
    }
    forall slot, j: nat | c.IsSlot(slot) && c.Owner(slot) < |s.threads| ensures CellOk(c, s, slot, j) {
      assert Issued(c, s.threads[c.Owner(slot)]) == 0;
    }
  }

  /** Race freedom: while thread `u` sweeps slab k, every cell of that slab's stage holds slab k's content and
      nothing in flight is aimed at it. */
  lemma ReadIsSafe(c: Cta, s: State, u: nat, slot: Slot)
    requires c.Valid() && Inv(c, s) && u < |s.threads| && s.threads[u].phase.Computing?
    requires c.IsSlot(slot) && slot.stage == c.StageOf(s.threads[u].k)
    ensures Read(s.smem, slot) == c.Content(slot, s.threads[u].k)
    ensures forall x :: x in s.flight ==> x.slot != slot
  {
    OwnerInRange(c, slot);
    var k, v := s.threads[u].k, c.Owner(slot);
    OwnerKeepsUp(c, s, u, v);
    forall x | x in s.flight ensures x.slot != slot { NotInFlight(c, s, u, slot, x); }
    assert CellOk(c, s, slot, k) by { var _ := c.Content(slot, k); }
  }

  lemma NotInFlight(c: Cta, s: State, u: nat, slot: Slot, x: Copy)
    requires c.Valid() && Inv(c, s) && u < |s.threads| && s.threads[u].phase.Computing? && x in s.flight
    requires c.IsSlot(slot) && slot.stage == c.StageOf(s.threads[u].k)
    ensures x.slot != slot
  {
    assert FlightOk(c, s, x);
    if x.slot == slot {
      OwnerKeepsUp(c, s, u, x.owner);
      NewestInFlight(c, s, x);
      OnePerStage(c, Issued(c, s.threads[x.owner]), s.threads[u].k, x.k);
      assert false;
    }
  }

  /** While thread `u` sweeps slab k, every thread is between arriving at the barrier before that sweep and arriving
      at the next one. */
  lemma OwnerKeepsUp(c: Cta, s: State, u: nat, v: nat)
    requires c.Valid() && Inv(c, s) && u < |s.threads| && v < |s.threads| && s.threads[u].phase.Computing?
    ensures var k, th := s.threads[u].k, s.threads[v];
      && (th.phase.Waiting? ==> c.stages == 2 && th.k == k + 1) && (th.phase.Computing? ==> th.k == k)
      && !th.phase.Staging? && Issued(c, th) - c.stages <= k < Issued(c, th)
  {
    assert ThreadOk(c, v, s.threads[v]) && ThreadOk(c, u, s.threads[u]);
    assert Passed(c, s.threads[u]) <= ArrivedAt(c, s.threads[v])
      && Passed(c, s.threads[v]) <= ArrivedAt(c, s.threads[u]);
  }

  /** A copy in flight is of the newest slab its owner issued. */
  lemma NewestInFlight(c: Cta, s: State, x: Copy)
    requires c.Valid() && FlightOk(c, s, x)
    ensures x.k == Issued(c, s.threads[x.owner]) - 1 && c.Owner(x.slot) == x.owner && c.StageOf(x.k) == x.slot.stage
  {
  }

  /** Of the newest slabs, one for each stage, only one is kept in a given stage. */
  lemma OnePerStage(c: Cta, issued: int, j: nat, k: nat)
    requires c.Valid()
    ensures k == issued - 1 && issued - c.stages <= j < issued && c.StageOf(j) == c.StageOf(k) ==> j == k
  {
  }

  lemma LandKeepsInv(c: Cta, s: State, s': State, x: Copy)
    requires c.Valid() && Inv(c, s) && Land(c, s, s', x)
    ensures Inv(c, s')
  {
    assert FlightOk(c, s, x);
    NewestInFlight(c, s, x);
    forall slot, j: nat | c.IsSlot(slot) && c.Owner(slot) < |s'.threads| ensures CellOk(c, s', slot, j) {
      assert CellOk(c, s, slot, j) by { var _ := c.Content(slot, j); }
      if slot == x.slot { OnePerStage(c, Issued(c, s.threads[x.owner]), j, x.k); }
    }
    forall y | y in s'.flight ensures FlightOk(c, s', y) {
      assert FlightOk(c, s, y);
    }
  }

  /** The part of the invariant about threads and barriers, after one thread's step. */
  lemma ThreadsAfter(c: Cta, s: State, s': State, u: nat, th: Thread)
    requires c.Valid() && Inv(c, s) && u < |s.threads| && Becomes(s, s', u, th) && ThreadOk(c, u, th)
    requires ArrivedAt(c, s.threads[u]) <= ArrivedAt(c, th)
    requires forall v :: 0 <= v < |s.threads| ==> Passed(c, th) <= ArrivedAt(c, if v == u then th else s.threads[v])
    ensures |s'.threads| == c.t.g.Threads()
    ensures forall v :: 0 <= v < |s'.threads| ==> ThreadOk(c, v, s'.threads[v])
    ensures forall v, w :: 0 <= v < |s'.threads| && 0 <= w < |s'.threads| ==>
      Passed(c, s'.threads[v]) <= ArrivedAt(c, s'.threads[w])
  {
    forall v | 0 <= v < |s'.threads| ensures ThreadOk(c, v, s'.threads[v]) {
      assert ThreadOk(c, v, s.threads[v]);
    }
    forall v, w | 0 <= v < |s'.threads| && 0 <= w < |s'.threads|
      ensures Passed(c, s'.threads[v]) <= ArrivedAt(c, s'.threads[w])
    {
      assert Passed(c, s.threads[v]) <= ArrivedAt(c, s.threads[w]);
    }
  }

  /** A step that touches neither copies nor shared memory, and issues nothing, keeps the invariant. */
  lemma QuietStepKeepsInv(c: Cta, s: State, s': State, u: nat, th: Thread)
    requires c.Valid() && Inv(c, s) && u < |s.threads| && Becomes(s, s', u, th) && ThreadOk(c, u, th)
    requires s'.smem == s.smem && s'.flight == s.flight
    requires ArrivedAt(c, s.threads[u]) <= ArrivedAt(c, th)
    requires forall v :: 0 <= v < |s.threads| ==> Passed(c, th) <= ArrivedAt(c, if v == u then th else s.threads[v])
    requires Issued(c, th) == Issued(c, s.threads[u])
    requires forall x :: x in s.flight && x.owner == u ==> FlightOk(c, s', x)
    ensures Inv(c, s')
  {
    ThreadsAfter(c, s, s', u, th);
    forall x | x in s'.flight ensures FlightOk(c, s', x) {
      assert FlightOk(c, s, x);
    }
    forall slot, j: nat | c.IsSlot(slot) && c.Owner(slot) < |s'.threads| ensures CellOk(c, s', slot, j) {
      assert CellOk(c, s, slot, j) by { var _ := c.Content(slot, j); }
    }
  }

  /** Issuing slab `k`, the next one, when nothing of the thread's is in flight. */
  lemma IssueKeepsInv(c: Cta, s: State, s': State, u: nat, th: Thread, k: nat)
    requires c.Valid() && Inv(c, s) && u < |s.threads| && Becomes(s, s', u, th) && ThreadOk(c, u, th)
    requires k < c.slabs && IssueStep(c, s, s', u, k) && Issued(c, s.threads[u]) == k && Issued(c, th) == k + 1
    requires (th.phase.Waiting? && k == th.k) || (c.stages == 2 && th.phase.Computing? && k == th.k + 1)
    requires forall x :: x in s.flight ==> x.owner != u
    requires ArrivedAt(c, s.threads[u]) <= ArrivedAt(c, th)
    requires forall v :: 0 <= v < |s.threads| ==> Passed(c, th) <= ArrivedAt(c, if v == u then th else s.threads[v])
    ensures Inv(c, s')
  {
    ThreadsAfter(c, s, s', u, th);
    forall x | x in s'.flight ensures FlightOk(c, s', x) {
      if x in s.flight { assert FlightOk(c, s, x); }
    }
    forall slot, j: nat | c.IsSlot(slot) && c.Owner(slot) < |s'.threads| ensures CellOk(c, s', slot, j) {
      assert CellOk(c, s, slot, j) by { var _ := c.Content(slot, j); }
      if c.Owner(slot) == u && j == k && c.StageOf(j) == slot.stage {
        assert c.IsOwn(u, k, Copy(u, slot, k));
      }
    }
  }

  /** A row element of the slab thread `u` sweeps, read from its stage. */
  lemma LeftRead(c: Cta, s: State, u: nat, d: nat, r: nat, at: nat)
    requires c.Valid() && Inv(c, s) && u < |s.threads| && s.threads[u].phase.Computing?
    requires d < c.t.g.bk && r < c.t.g.BM() && at == c.t.lo + Times(s.threads[u].k, c.t.g.bk) + d
    ensures Read(s.smem, Slot(c.StageOf(s.threads[u].k), true, d, r)) == At(c.t.x, c.t.m0 + r, at)
  {
    ReadIsSafe(c, s, u, Slot(c.StageOf(s.threads[u].k), true, d, r));
  }

  lemma RightRead(c: Cta, s: State, u: nat, d: nat, o: nat, at: nat)
    requires c.Valid() && Inv(c, s) && u < |s.threads| && s.threads[u].phase.Computing?
    requires d < c.t.g.bk && o < c.t.g.BN() && at == c.t.lo + Times(s.threads[u].k, c.t.g.bk) + d
    ensures Read(s.smem, Slot(c.StageOf(s.threads[u].k), false, d, o)) == At(c.t.w, c.t.n0 + o, at)
  {
    ReadIsSafe(c, s, u, Slot(c.StageOf(s.threads[u].k), false, d, o));
  }

  lemma RunsRead(c: Cta, s: State, u: nat, d: nat, r: nat, o: nat, at: nat)
    requires c.Valid() && Inv(c, s) && u < |s.threads| && s.threads[u].phase.Computing?
    requires d + 16 <= c.t.g.bk && r < c.t.g.BM() && o < c.t.g.BN()
    requires at == c.t.lo + Times(s.threads[u].k, c.t.g.bk) + d
    ensures ReadRun(s.smem, c.StageOf(s.threads[u].k), true, d, r) == Run16(c.t.x, c.t.m0 + r, at)
    ensures ReadRun(s.smem, c.StageOf(s.threads[u].k), false, d, o) == Run16(c.t.w, c.t.n0 + o, at)
  {
    var st := c.StageOf(s.threads[u].k);
    var left, right := ReadRun(s.smem, st, true, d, r), ReadRun(s.smem, st, false, d, o);
    forall e | 0 <= e < 16 ensures left[e] == Run16(c.t.x, c.t.m0 + r, at)[e] { LeftRead(c, s, u, d + e, r, at + e); }
    forall e | 0 <= e < 16 ensures right[e] == Run16(c.t.w, c.t.n0 + o, at)[e] { RightRead(c, s, u, d + e, o, at + e); }
  }

  /** A sweep step reads the right slab, whatever the other threads are doing. */
  lemma NewValueIsNext(c: Cta, s: State, u: nat, d: nat, r: nat, o: nat, steps: nat)
    requires c.Valid() && Inv(c, s) && u < |s.threads| && s.threads[u].phase.Computing?
    requires d + Depth(c.t.g) <= c.t.g.bk && r < c.t.g.BM() && o < c.t.g.BN()
    requires steps == Times(s.threads[u].k, c.t.g.bk) + d
    ensures NewValue(c, s.smem, c.StageOf(s.threads[u].k), d, r, o, c.t.Partial(r, o, steps))
      == c.t.Partial(r, o, steps + Depth(c.t.g))
  {
    if c.t.g.mma {
      RunsRead(c, s, u, d, r, o, c.t.lo + steps);
      NextMma(c.t, r, o, steps);
    } else {
      LeftRead(c, s, u, d, r, c.t.lo + steps);
      RightRead(c, s, u, d, o, c.t.lo + steps);
      NextFma(c, s.smem, c.StageOf(s.threads[u].k), d, r, o, steps);
    }
  }

  /** The fma of the two elements of a step extends the chain by that step. */
  lemma NextFma(c: Cta, smem: map<Slot, Val>, stage: nat, d: nat, r: nat, o: nat, steps: nat)
    requires !c.t.g.mma
    requires Read(smem, Slot(stage, true, d, r)) == At(c.t.x, c.t.m0 + r, c.t.lo + steps)
    requires Read(smem, Slot(stage, false, d, o)) == At(c.t.w, c.t.n0 + o, c.t.lo + steps)
    ensures NewValue(c, smem, stage, d, r, o, c.t.Partial(r, o, steps)) == c.t.Partial(r, o, steps + Depth(c.t.g))
  {
  }

  lemma DotKeepsRow(c: Cta, s: State, u: nat, d: nat, i: nat, row0: seq<Val>, row: seq<Val>, steps: nat)
    requires c.Valid() && Inv(c, s) && u < |s.threads| && s.threads[u].phase.Computing? && i < c.t.g.RegsM()
    requires d + Depth(c.t.g) <= c.t.g.bk && steps == Times(s.threads[u].k, c.t.g.bk) + d
    requires RowHolds(c.t, row0, u, i, steps) && |row| == |row0| && forall j :: 0 <= j < |row| ==>
      row[j] == NewValue(c, s.smem, c.StageOf(s.threads[u].k), d, c.t.g.RowOf(u, i), c.t.g.ColOf(u, j), row0[j])
    ensures RowHolds(c.t, row, u, i, steps + Depth(c.t.g))
  {
    forall j | 0 <= j < |row|
      ensures row[j] == c.t.Partial(c.t.g.RowOf(u, i), c.t.g.ColOf(u, j), steps + Depth(c.t.g))
    {
      OwnerOfRegister(c.t.g, u, i, j);
      NewValueIsNext(c, s, u, d, c.t.g.RowOf(u, i), c.t.g.ColOf(u, j), steps);
    }
  }

  lemma DotRow(c: Cta, s: State, u: nat, d: nat, f: Registers, f': Registers, i: nat)
    requires c.Valid() && DotRegisters(c, s, u, d, f, f') && i < c.t.g.RegsM()
    ensures i < |f| && i < |f'| && |f'[i]| == |f[i]| && forall j :: 0 <= j < |f'[i]| ==>
      f'[i][j] == NewValue(c, s.smem, c.StageOf(s.threads[u].k), d, c.t.g.RowOf(u, i), c.t.g.ColOf(u, j), f[i][j])
  {
  }

  /** The sweep's steps end with the slab. */
  lemma DepthFits(g: Geom, d: nat)
    requires g.Valid() && d < g.bk && (g.mma ==> d % 16 == 0)
    ensures d + Depth(g) <= g.bk && (g.mma ==> (d + Depth(g)) % 16 == 0)
  {
  }

  lemma DotKeepsChain(c: Cta, s: State, u: nat, d: nat, f': Registers, steps: nat)
    requires c.Valid() && Inv(c, s) && u < |s.threads| && s.threads[u].phase == Computing(d) && d < c.t.g.bk
    requires DotRegisters(c, s, u, d, s.threads[u].regs, f') && steps == Times(s.threads[u].k, c.t.g.bk) + d
    ensures d + Depth(c.t.g) <= c.t.g.bk && HoldsChain(c.t, f', u, steps + Depth(c.t.g))
  {
    assert ThreadOk(c, u, s.threads[u]);
    DepthFits(c.t.g, d);
    forall i | 0 <= i < |f'| ensures RowHolds(c.t, f'[i], u, i, steps + Depth(c.t.g)) {
      DotRowHolds(c, s, u, d, f', steps, i);
    }
    ChainRows(c.t, f', u, steps + Depth(c.t.g));
  }

  lemma DotRowHolds(c: Cta, s: State, u: nat, d: nat, f': Registers, steps: nat, i: nat)
    requires c.Valid() && Inv(c, s) && u < |s.threads| && s.threads[u].phase == Computing(d) && d < c.t.g.bk
    requires DotRegisters(c, s, u, d, s.threads[u].regs, f') && steps == Times(s.threads[u].k, c.t.g.bk) + d
    requires HoldsChain(c.t, s.threads[u].regs, u, steps) && i < |f'|
    ensures RowHolds(c.t, f'[i], u, i, steps + Depth(c.t.g))
  {
    var f := s.threads[u].regs;
    ChainRow(c.t, f, u, steps, i);
    DotRow(c, s, u, d, f, f', i);
    DotKeepsRow(c, s, u, d, i, f[i], f'[i], steps);
  }

  lemma DotThreadOk(c: Cta, s: State, u: nat, d: nat, f': Registers)
    requires c.Valid() && Inv(c, s) && u < |s.threads| && s.threads[u].phase == Computing(d) && d < c.t.g.bk
    requires DotRegisters(c, s, u, d, s.threads[u].regs, f')
    ensures ThreadOk(c, u, Swept(c, s.threads[u], d, f'))
  {
    assert ThreadOk(c, u, s.threads[u]);
    DepthFits(c.t.g, d);
    DotKeepsChain(c, s, u, d, f', Times(s.threads[u].k, c.t.g.bk) + d);
  }

  lemma DotStepKeepsInv(c: Cta, s: State, s': State, u: nat, d: nat, f': Registers)
    requires c.Valid() && Inv(c, s) && u < |s.threads| && s.threads[u].phase == Computing(d) && d < c.t.g.bk
    requires DotRegisters(c, s, u, d, s.threads[u].regs, f')
    requires Quiet(s, s', u, Swept(c, s.threads[u], d, f'))
    ensures Inv(c, s')
  {
    DotThreadOk(c, s, u, d, f');
    AboutThread(c, s, u);
    QuietStepKeepsInv(c, s, s', u, Swept(c, s.threads[u], d, f'));
  }

  /** The sweep of slab k is done. */
  lemma LeaveSlabKeepsInv(c: Cta, s: State, s': State, u: nat)
    requires c.Valid() && Inv(c, s) && u < |s.threads| && s.threads[u].phase == Computing(c.t.g.bk)
    requires ThreadStep(c, s, s', u)
    ensures Inv(c, s')
  {
    var th := s.threads[u];
    AboutThread(c, s, u);
    TimesSucc(th.k, c.t.g.bk);
    assert Steps(c, AfterSweep(c, th)) == Steps(c, th);
    QuietStepKeepsInv(c, s, s', u, AfterSweep(c, th));
  }

  /** What the invariant says of thread `u` and the others, at hand for a step of `u`. */
  lemma AboutThread(c: Cta, s: State, u: nat)
    requires c.Valid() && Inv(c, s) && u < |s.threads|
    ensures ThreadOk(c, u, s.threads[u])
    ensures forall v :: 0 <= v < |s.threads| ==> Passed(c, s.threads[u]) <= ArrivedAt(c, s.threads[v])
    ensures forall x :: x in s.flight && x.owner == u ==> FlightOk(c, s, x)
  {
  }

  /** A step that issues copies. */
  lemma IssuingStepKeepsInv(c: Cta, s: State, s': State, u: nat)
    requires c.Valid() && Inv(c, s) && ThreadStep(c, s, s', u)
    requires var th := s.threads[u]; th.phase.Staging? || (th.phase.Issuing? && c.stages == 2 && th.k + 1 < c.slabs)
    ensures Inv(c, s')
  {
    var th := s.threads[u];
    AboutThread(c, s, u);
    if th.phase.Staging? {
      IssueKeepsInv(c, s, s', u, th.(phase := Waiting), th.k);
    } else {
      IssueKeepsInv(c, s, s', u, th.(phase := Computing(0)), th.k + 1);
    }
  }

  /** A step that only waits or passes a barrier. */
  lemma WaitingStepKeepsInv(c: Cta, s: State, s': State, u: nat)
    requires c.Valid() && Inv(c, s) && ThreadStep(c, s, s', u)
    requires var th := s.threads[u];
      th.phase.Waiting? || th.phase.Arrived? || (th.phase.Issuing? && !(c.stages == 2 && th.k + 1 < c.slabs))
    ensures Inv(c, s')
  {
    var th := s.threads[u];
    AboutThread(c, s, u);
    match th.phase
    case Waiting => QuietStepKeepsInv(c, s, s', u, th.(phase := Arrived));
    case Arrived => QuietStepKeepsInv(c, s, s', u, th.(phase := Issuing));
    case Issuing => QuietStepKeepsInv(c, s, s', u, th.(phase := Computing(0)));
  }

  /** Passing the barrier behind a sweep. */
  lemma LeavingStepKeepsInv(c: Cta, s: State, s': State, u: nat)
    requires c.Valid() && Inv(c, s) && ThreadStep(c, s, s', u) && s.threads[u].phase.Leaving?
    ensures Inv(c, s')
  {
    AboutThread(c, s, u);
    TimesSucc(s.threads[u].k, c.t.g.bk);
    QuietStepKeepsInv(c, s, s', u, NextSlab(c, s.threads[u], Staging));
  }

  lemma ThreadStepKeepsInv(c: Cta, s: State, s': State, u: nat)
    requires c.Valid() && Inv(c, s) && ThreadStep(c, s, s', u)
    ensures Inv(c, s')
  {
    var th := s.threads[u];
    if th.phase.Staging? || (th.phase.Issuing? && c.stages == 2 && th.k + 1 < c.slabs) {
      IssuingStepKeepsInv(c, s, s', u);
    } else if th.phase.Leaving? {
      LeavingStepKeepsInv(c, s, s', u);
    } else if !th.phase.Computing? {
      WaitingStepKeepsInv(c, s, s', u);
    } else if th.phase.d < c.t.g.bk {
      var d := th.phase.d;
      var f' :| DotRegisters(c, s, u, d, th.regs, f') && Quiet(s, s', u, Swept(c, th, d, f'));
      DotStepKeepsInv(c, s, s', u, d, f');
    } else {
      assert ThreadOk(c, u, th);
      LeaveSlabKeepsInv(c, s, s', u);
    }
  }

  lemma NextKeepsInv(c: Cta, s: State, s': State)
    requires c.Valid() && Inv(c, s) && Next(c, s, s')
    ensures Inv(c, s')
  {
    if x :| Land(c, s, s', x) {
      LandKeepsInv(c, s, s', x);
    } else {
      var u :| ThreadStep(c, s, s', u);
      ThreadStepKeepsInv(c, s, s', u);
    }
  }

  // ---- whole runs ----

  ghost predicate IsRun(c: Cta, run: seq<State>)
    requires c.Valid()
  {
    && |run| > 0 && Init(c, run[0])
    && forall n :: 0 <= n < |run| - 1 ==> StepAt(c, run, n)
  }

  ghost predicate StepAt(c: Cta, run: seq<State>, n: nat)
    requires c.Valid() && n + 1 < |run|
  {
    Next(c, run[n], run[n + 1])
  }

  lemma {:induction false} RunKeepsInv(c: Cta, run: seq<State>, n: nat)
    requires c.Valid() && IsRun(c, run) && n < |run|
    ensures Inv(c, run[n])
    decreases n
  {
    if n == 0 {
      InitInv(c, run[0]);
    } else {
      RunKeepsInv(c, run, n - 1);
      assert StepAt(c, run, n - 1);
      NextKeepsInv(c, run[n - 1], run[n]);
    }
  }

  predicate Complete(s: State) {
    forall u :: 0 <= u < |s.threads| ==> s.threads[u].phase.Finished?
  }

  /** Every interleaving that completes leaves the same accumulators: those of the sequential chain. */
  lemma EveryRunComputesTheChain(c: Cta, run: seq<State>, u: nat)
    requires c.Valid() && IsRun(c, run) && Complete(run[|run| - 1]) && u < c.t.g.Threads()
    ensures |run[|run| - 1].threads| == c.t.g.Threads()
    ensures HoldsChain(c.t, run[|run| - 1].threads[u].regs, u, Times(c.slabs, c.t.g.bk))
  {
    RunKeepsInv(c, run, |run| - 1);
    assert ThreadOk(c, u, run[|run| - 1].threads[u]);
  }

  /** Every read of every run is race-free. */
  lemma EveryReadIsSafe(c: Cta, run: seq<State>, n: nat, u: nat, slot: Slot)
    requires c.Valid() && IsRun(c, run) && n < |run| && u < |run[n].threads| && run[n].threads[u].phase.Computing?
    requires c.IsSlot(slot) && slot.stage == c.StageOf(run[n].threads[u].k)
    ensures Read(run[n].smem, slot) == c.Content(slot, run[n].threads[u].k)
    ensures forall x :: x in run[n].flight ==> x.slot != slot
  {
    RunKeepsInv(c, run, n);
    ReadIsSafe(c, run[n], u, slot);
  }

  // ---- no deadlock, no livelock ----

  /** Steps thread `th` still has to take. */
  function Remaining(c: Cta, th: Thread): nat
    requires th.k < c.slabs && (th.phase.Computing? ==> th.phase.d <= c.t.g.bk)
  {
    var perSlab := c.t.g.bk + 6;
    var here := match th.phase
                case Staging => perSlab
                case Waiting => perSlab - 1
                case Arrived => perSlab - 2
                case Issuing => perSlab - 3
                case Computing(d) => c.t.g.bk - d + 2
                case Leaving => 1
                case Finished => 0;
    Times(c.slabs - 1 - th.k, perSlab) + here
  }

  predicate Bounded(c: Cta, s: State) {
    forall u :: 0 <= u < |s.threads| ==>
      s.threads[u].k < c.slabs && (s.threads[u].phase.Computing? ==> s.threads[u].phase.d <= c.t.g.bk)
  }

  function TotalRemaining(c: Cta, s: State, n: nat): nat
    requires n <= |s.threads| && Bounded(c, s)
  {
    if n == 0 then 0 else TotalRemaining(c, s, n - 1) + Remaining(c, s.threads[n - 1])
  }

  lemma {:induction false} OneThreadLess(c: Cta, s: State, s': State, u: nat, n: nat)
    requires n <= |s.threads| == |s'.threads| && Bounded(c, s) && Bounded(c, s') && u < |s.threads|
    requires forall v :: 0 <= v < |s.threads| && v != u ==> s'.threads[v] == s.threads[v]
    requires Remaining(c, s'.threads[u]) < Remaining(c, s.threads[u])
    ensures TotalRemaining(c, s', n) <= TotalRemaining(c, s, n)
    ensures u < n ==> TotalRemaining(c, s', n) < TotalRemaining(c, s, n)
    decreases n
  {
    if n > 0 { OneThreadLess(c, s, s', u, n - 1); }
  }

  lemma InvBounded(c: Cta, s: State)
    requires c.Valid() && Inv(c, s)
    ensures Bounded(c, s)
  {
    forall u | 0 <= u < |s.threads|
      ensures s.threads[u].k < c.slabs && (s.threads[u].phase.Computing? ==> s.threads[u].phase.d <= c.t.g.bk)
    {
      assert ThreadOk(c, u, s.threads[u]);
    }
  }

  /** The pair (thread steps left, copies in flight), compared lexicographically. */
  predicate Shorter(c: Cta, s': State, s: State) {
    && Bounded(c, s) && Bounded(c, s')
    && (TotalRemaining(c, s', |s'.threads|) < TotalRemaining(c, s, |s.threads|)
        || (TotalRemaining(c, s', |s'.threads|) == TotalRemaining(c, s, |s.threads|) && |s'.flight| < |s.flight|))
  }

  lemma LandingShortens(c: Cta, s: State, s': State, x: Copy)
    requires c.Valid() && Bounded(c, s) && Bounded(c, s') && Land(c, s, s', x)
    ensures Shorter(c, s', s)
  {
    SameThreads(c, s, s', |s.threads|);
  }

  lemma ThreadStepShortens(c: Cta, s: State, s': State, u: nat)
    requires c.Valid() && Bounded(c, s) && Bounded(c, s') && ThreadStep(c, s, s', u)
    ensures Shorter(c, s', s)
  {
    StepShortens(c, s, s', u);
    OthersUntouched(c, s, s', u);
    OneThreadLess(c, s, s', u, |s.threads|);
  }

  lemma OthersUntouched(c: Cta, s: State, s': State, u: nat)
    requires c.Valid() && ThreadStep(c, s, s', u)
    ensures |s'.threads| == |s.threads|
    ensures forall v :: 0 <= v < |s.threads| && v != u ==> s'.threads[v] == s.threads[v]
  {
  }

  /** Every step makes progress, so no run is infinite. */
  lemma EveryStepDecreases(c: Cta, s: State, s': State)
    requires c.Valid() && Inv(c, s) && Next(c, s, s')
    ensures Shorter(c, s', s)
  {
    NextKeepsInv(c, s, s');
    InvBounded(c, s);
    InvBounded(c, s');
    if x :| Land(c, s, s', x) {
      LandingShortens(c, s, s', x);
    } else {
      var u :| ThreadStep(c, s, s', u);
      ThreadStepShortens(c, s, s', u);
    }
  }

  lemma StepShortens(c: Cta, s: State, s': State, u: nat)
    requires c.Valid() && Bounded(c, s) && Bounded(c, s') && ThreadStep(c, s, s', u)
    ensures u < |s.threads| && |s'.threads| == |s.threads|
    ensures Remaining(c, s'.threads[u]) < Remaining(c, s.threads[u])
  {
    var k := s.threads[u].k;
    if k + 1 < c.slabs {
      TimesSucc(c.slabs - 1 - (k + 1), c.t.g.bk + 6);
    }
  }

  lemma {:induction false} SameThreads(c: Cta, s: State, s': State, n: nat)
    requires s.threads == s'.threads && n <= |s.threads| && Bounded(c, s) && Bounded(c, s')
    ensures TotalRemaining(c, s, n) == TotalRemaining(c, s', n)
    decreases n
  {
    if n > 0 { SameThreads(c, s, s', n - 1); }
  }

  /** Some registers a dot-product step may produce. */
  lemma DotExists(c: Cta, s: State, u: nat, d: nat, f: Registers) returns (f': Registers)
    requires c.Valid() && u < |s.threads| && HasShape(c.t.g, f)
    ensures DotRegisters(c, s, u, d, f, f')
  {
    f' := seq(c.t.g.RegsM(), i requires 0 <= i < c.t.g.RegsM() => NextRow(c, s, u, d, i, f[i]));
  }

  function NextRow(c: Cta, s: State, u: nat, d: nat, i: nat, row: seq<Val>): (r: seq<Val>)
    requires c.Valid() && u < |s.threads| && |row| == c.t.g.RegsN()
    ensures |r| == |row| && forall j :: 0 <= j < |r| ==>
      r[j] == NewValue(c, s.smem, c.StageOf(s.threads[u].k), d, c.t.g.RowOf(u, i), c.t.g.ColOf(u, j), row[j])
  {
    seq(|row|, j requires 0 <= j < |row| =>
      NewValue(c, s.smem, c.StageOf(s.threads[u].k), d, c.t.g.RowOf(u, i), c.t.g.ColOf(u, j), row[j]))
  }

  /** No deadlock: as long as some thread has not finished, some step is possible. */
  lemma SomeStepIsPossible(c: Cta, s: State)
    requires c.Valid() && Inv(c, s) && !Complete(s)
    ensures exists s' :: Next(c, s, s')
  {
    if s.flight != {} {
      var x :| x in s.flight;
      CopyCanLand(c, s, x);
      var s' :| Land(c, s, s', x);
      assert Next(c, s, s');
    } else {
      var u := Unblocked(c, s);
      ThreadCanStep(c, s, u);
      var s' :| ThreadStep(c, s, s', u);
      assert Next(c, s, s');
    }
  }

  /** A copy in flight can land at any moment. */
  lemma CopyCanLand(c: Cta, s: State, x: Copy)
    requires c.Valid() && x in s.flight
    ensures exists s' :: Land(c, s, s', x)
  {
    assert Land(c, s, State(s.threads, s.smem[x.slot := c.Content(x.slot, x.k)], s.flight - {x}), x);
  }

  /** A kernel can start on any contents of shared memory. */
  lemma RunExists(c: Cta, smem: map<Slot, Val>) returns (s: State)
    requires c.Valid()
    ensures IsRun(c, [s]) && s.smem == smem
  {
    var threads := SeededThreads(c, c.t.g.Threads());
    s := State(threads, smem, {});
  }

  lemma SeededThreads(c: Cta, n: nat) returns (threads: seq<Thread>)
    requires c.Valid()
    ensures |threads| == n && forall u :: 0 <= u < n ==>
      threads[u].k == 0 && threads[u].phase == Staging && HoldsChain(c.t, threads[u].regs, u, 0)
  {
    if n == 0 {
      threads := [];
    } else {
      threads := SeededThreads(c, n - 1);
      SeedExists(c.t, n - 1);
      var f :| HoldsChain(c.t, f, n - 1, 0);
      threads := threads + [Thread(0, Staging, f)];
    }
  }

  /** Every run can be continued to the end of the kernel. */
  lemma RunCompletes(c: Cta, run: seq<State>) returns (full: seq<State>)
    requires c.Valid() && IsRun(c, run)
    ensures IsRun(c, full) && Complete(full[|full| - 1]) && run <= full
  {
    RunKeepsInv(c, run, |run| - 1);
    InvBounded(c, run[|run| - 1]);
    full := CompletedFrom(c, run, run[|run| - 1]);
  }

  lemma CompletedFrom(c: Cta, run: seq<State>, s: State) returns (full: seq<State>)
    requires c.Valid() && IsRun(c, run) && s == run[|run| - 1] && Bounded(c, s)
    ensures IsRun(c, full) && Complete(full[|full| - 1]) && run <= full
    decreases TotalRemaining(c, s, |s.threads|), |s.flight|
  {
    full := run;
    if !Complete(s) {
      var s' := StepFrom(c, run, s);
      full := CompletedFrom(c, run + [s'], s');
    }
  }

  lemma StepFrom(c: Cta, run: seq<State>, s: State) returns (s': State)
    requires c.Valid() && IsRun(c, run) && s == run[|run| - 1] && !Complete(s)
    ensures IsRun(c, run + [s']) && Shorter(c, s', s)
  {
    RunKeepsInv(c, run, |run| - 1);
    SomeStepIsPossible(c, s);
    s' :| Next(c, s, s');
    EveryStepDecreases(c, s, s');
    ExtendRun(c, run, s');
  }

  lemma ExtendRun(c: Cta, run: seq<State>, s: State)
    requires c.Valid() && IsRun(c, run) && Next(c, run[|run| - 1], s)
    ensures IsRun(c, run + [s])
  {
    forall n | 0 <= n < |run + [s]| - 1 ensures StepAt(c, run + [s], n) {
      if n < |run| - 1 { assert StepAt(c, run, n); }
    }
  }

  /** With nothing in flight, a thread that no other thread holds up at a barrier. */
  lemma Unblocked(c: Cta, s: State) returns (u: nat)
    requires c.Valid() && Inv(c, s) && !Complete(s) && s.flight == {}
    ensures u < |s.threads| && !s.threads[u].phase.Finished?
    ensures AtBarrier(s.threads[u]) ==> BarrierOpen(c, s, s.threads[u])
  {
    u :| 0 <= u < |s.threads| && !s.threads[u].phase.Finished?;
    if AtBarrier(s.threads[u]) && !BarrierOpen(c, s, s.threads[u]) {
      var v :| 0 <= v < |s.threads| && ArrivedAt(c, s.threads[v]) <= Passed(c, s.threads[u]);
      assert ThreadOk(c, u, s.threads[u]) && ThreadOk(c, v, s.threads[v]);
      Behind(c, u, s.threads[u], v, s.threads[v]);
      forall w | 0 <= w < |s.threads| && AtBarrier(s.threads[v])
        ensures ArrivedAt(c, s.threads[w]) > Passed(c, s.threads[v])
      {
        assert Passed(c, s.threads[u]) <= ArrivedAt(c, s.threads[w]);
      }
      u := v;
    }
  }

  /** A thread that holds up another at a barrier has not finished, and its own next barrier is an earlier one. */
  lemma Behind(c: Cta, u: nat, th: Thread, v: nat, other: Thread)
    requires c.Valid() && ThreadOk(c, u, th) && ThreadOk(c, v, other) && AtBarrier(th)
    requires ArrivedAt(c, other) <= Passed(c, th)
    ensures !other.phase.Finished? && (AtBarrier(other) ==> Passed(c, other) < Passed(c, th))
  {
  }

  /** A thread waits for nothing but its own copies and the barriers: otherwise it can step at any moment. */
  lemma ThreadCanStep(c: Cta, s: State, u: nat)
    requires c.Valid() && Inv(c, s) && u < |s.threads| && !s.threads[u].phase.Finished?
    requires s.threads[u].phase.Waiting? ==> forall x :: x in s.flight ==> x.owner != u
    requires AtBarrier(s.threads[u]) ==> BarrierOpen(c, s, s.threads[u])
    ensures exists s' :: ThreadStep(c, s, s', u)
  {
    var th := s.threads[u];
    assert ThreadOk(c, u, th);
    var s' := s;
    match th.phase {
      case Staging => s' := IssueOf(c, s, u, th.(phase := Waiting), th.k);
      case Waiting => s' := s.(threads := s.threads[u := th.(phase := Arrived)]);
      case Arrived => s' := s.(threads := s.threads[u := th.(phase := Issuing)]);
      case Issuing =>
        if c.stages == 2 && th.k + 1 < c.slabs {
          s' := IssueOf(c, s, u, th.(phase := Computing(0)), th.k + 1);
        } else {
          s' := s.(threads := s.threads[u := th.(phase := Computing(0))]);
        }
      case Computing(d) =>
        if d < c.t.g.bk {
          s' := SweepOf(c, s, u, d);
        } else {
          s' := s.(threads := s.threads[u := AfterSweep(c, th)]);
        }
      case Leaving => s' := s.(threads := s.threads[u := NextSlab(c, th, Staging)]);
    }
    assert ThreadStep(c, s, s', u);
  }

  lemma SweepOf(c: Cta, s: State, u: nat, d: nat) returns (s': State)
    requires c.Valid() && Inv(c, s) && u < |s.threads| && s.threads[u].phase == Computing(d) && d < c.t.g.bk
    ensures ThreadStep(c, s, s', u)
  {
    var th := s.threads[u];
    assert ThreadOk(c, u, th);
    ChainRows(c.t, th.regs, u, Steps(c, th));
    assert forall i :: 0 <= i < |th.regs| ==> RowHolds(c.t, th.regs[i], u, i, Steps(c, th));
    var f' := DotExists(c, s, u, d, th.regs);
    s' := s.(threads := s.threads[u := Swept(c, th, d, f')]);
    assert Quiet(s, s', u, Swept(c, th, d, f'));
  }

  lemma IssueOf(c: Cta, s: State, u: nat, th: Thread, k: nat) returns (s': State)
    requires c.Valid() && u < |s.threads|
    ensures IssueStep(c, s, s', u, k) && Becomes(s, s', u, th)
  {
    var own := set left: bool, r: nat, o: nat |
      r < c.t.g.bk && o < Max(c.t.g.BM(), c.t.g.BN()) && c.IsOwn(u, k, Copy(u, Slot(c.StageOf(k), left, r, o), k))
      :: Copy(u, Slot(c.StageOf(k), left, r, o), k);
    s' := State(s.threads[u := th], s.smem, s.flight + own);
    forall x | c.IsOwn(u, k, x) ensures x in own {
      assert x == Copy(u, Slot(c.StageOf(k), x.slot.left, x.slot.r, x.slot.o), k);
    }
  }
}
