/** The engine: the typed entry points compose a native kernel with an upcast fallback through three grow-only
    scratch buffers. */
module Engine {
  import opened Numerics
  import opened Terms
  import opened Plans
  import opened SmallKernels
  import opened Routing
  import opened Dispatch
  import opened TypedDispatch

  // ---- the scratch triple ----

  /** The three scratch slots; an empty slot is null. */
  type Slots = s: seq<array?<Val>> | |s| == 3 witness [null, null, null]

  function Capacity(b: array?<Val>): nat { if b == null then 0 else b.Length }

  /** What a slot must hold: at least one element, whatever the request. */
  function Demand(need: seq<nat>, i: nat): nat requires i < |need| { Max(need[i], 1) }

  predicate Suffices(s: Slots, need: seq<nat>)
    requires |need| == 3
  {
    forall i :: 0 <= i < 3 ==> Demand(need, i) <= Capacity(s[i])
  }

  /** The request gets as far as slot `i`: every allocation that slots 0 to i need succeeds. `granted` holds the
      outcome of the allocation for each slot, if there is one. */
  predicate Reached(before: Slots, need: seq<nat>, granted: seq<bool>, i: int)
    requires |need| == 3 == |granted|
  {
    forall j :: 0 <= j < 3 && j <= i ==> Demand(need, j) <= Capacity(before[j]) || granted[j]
  }

  /** One request of `need`: slots that are too small get a new buffer of the demanded size, in order, up to the
      first failed allocation; all others keep theirs. */
  predicate GrowStep(before: Slots, after: Slots, need: seq<nat>, granted: seq<bool>, ok: bool)
    requires |need| == 3 == |granted|
  {
    && ok == Reached(before, need, granted, 2)
    && forall i :: 0 <= i < 3 ==>
         if Capacity(before[i]) < Demand(need, i) && Reached(before, need, granted, i)
         then Capacity(after[i]) == Demand(need, i) else after[i] == before[i]
  }

  // ---- what the operations ask for ----

  datatype Call =
    | ForwardCall(m: nat, k: nat, n: nat)
    | DwCall(m: nat, k: nat, n: nat)
    | DxCall(m: nat, k: nat, n: nat)
  {
    function Needs(): (need: seq<nat>)
      ensures |need| == 3
    {
      match this
      case ForwardCall(_, _, _) => [Times(m, k), Times(k, n), Times(m, n)]
      case DwCall(_, _, _) => [Times(m, n), Times(m, k), 0]
      case DxCall(_, _, _) => [Times(m, n), Times(k, n), Times(m, k)]
    }
    predicate Within(m': nat, k': nat, n': nat) { m <= m' && k <= k' && n <= n' }
  }

  /** The documented pre-sizing for the largest product. */
  function Presize(m: nat, k: nat, n: nat): (need: seq<nat>)
    ensures |need| == 3
  {
    [Max(Times(m, k), Times(m, n)), Max(Times(k, n), Times(m, k)), Max(Times(m, n), Times(m, k))]
  }

  /** The formula asks for no more than the three operations do together. */
  lemma PresizeIsLeast(s: Slots, m: nat, k: nat, n: nat)
    requires Suffices(s, [Times(m, k), Times(k, n), Times(m, n)])
    requires Suffices(s, [Times(m, n), Times(m, k), 0])
    requires Suffices(s, [Times(m, n), Times(k, n), Times(m, k)])
    ensures Suffices(s, Presize(m, k, n))
  {
    assert Demand([Times(m, k), Times(k, n), Times(m, n)], 0) <= Capacity(s[0]);
    assert Demand([Times(m, k), Times(k, n), Times(m, n)], 1) <= Capacity(s[1]);
    assert Demand([Times(m, k), Times(k, n), Times(m, n)], 2) <= Capacity(s[2]);
    assert Demand([Times(m, n), Times(m, k), 0], 0) <= Capacity(s[0]);
    assert Demand([Times(m, n), Times(m, k), 0], 1) <= Capacity(s[1]);
    assert Demand([Times(m, n), Times(k, n), Times(m, k)], 2) <= Capacity(s[2]);
  }

  /** The formula covers every operation on dimensions up to the ones it was computed from. */
  lemma PresizeCovers(s: Slots, m: nat, k: nat, n: nat, c: Call)
    requires Suffices(s, Presize(m, k, n)) && c.Within(m, k, n)
    ensures Suffices(s, c.Needs())
  {
    TimesMono(c.m, c.k, m, k);
    TimesMono(c.k, c.n, k, n);
    TimesMono(c.m, c.n, m, n);
    assert Demand(Presize(m, k, n), 0) <= Capacity(s[0]);
    assert Demand(Presize(m, k, n), 1) <= Capacity(s[1]);
    assert Demand(Presize(m, k, n), 2) <= Capacity(s[2]);
  }

  /** A history of scratch requests: state i + 1 follows state i by a request, successful or not. */
  ghost predicate IsHistory(states: seq<Slots>, needs: seq<seq<nat>>, grants: seq<seq<bool>>, oks: seq<bool>) {
    && |states| == |needs| + 1 == |grants| + 1 == |oks| + 1
    && (forall i :: 0 <= i < |needs| ==> |needs[i]| == 3 == |grants[i]|)
    && forall i :: 0 <= i < |needs| ==> GrowStep(states[i], states[i + 1], needs[i], grants[i], oks[i])
  }

  /** Capacities never shrink, allocation failures included. */
  lemma {:induction false} CapacitiesNeverShrink(states: seq<Slots>, needs: seq<seq<nat>>, grants: seq<seq<bool>>,
                                                 oks: seq<bool>, i: nat, j: nat, slot: nat)
    requires IsHistory(states, needs, grants, oks) && i <= j < |states| && slot < 3
    ensures Capacity(states[i][slot]) <= Capacity(states[j][slot])
    decreases j - i
  {
    if i < j {
      CapacitiesNeverShrink(states, needs, grants, oks, i, j - 1, slot);
      assert GrowStep(states[j - 1], states[j - 1 + 1], needs[j - 1], grants[j - 1], oks[j - 1]);
    }
  }

  /** After a successful pre-sizing for (m, k, n), any later sequence of typed calls within those dimensions
      allocates nothing: the three buffers stay the very same ones. */
  lemma {:induction false} PresizedNeverReallocates(states: seq<Slots>, needs: seq<seq<nat>>, grants: seq<seq<bool>>,
                                                    oks: seq<bool>, calls: seq<Call>, m: nat, k: nat, n: nat, j: nat)
    requires IsHistory(states, needs, grants, oks) && Suffices(states[0], Presize(m, k, n)) && j < |states|
    requires |calls| == |needs| && forall i :: 0 <= i < |calls| ==>
      calls[i].Within(m, k, n) && needs[i] == calls[i].Needs()
    ensures states[j] == states[0] && (j > 0 ==> oks[j - 1])
    decreases j
  {
    if j > 0 {
      PresizedNeverReallocates(states, needs, grants, oks, calls, m, k, n, j - 1);
      assert GrowStep(states[j - 1], states[j - 1 + 1], needs[j - 1], grants[j - 1], oks[j - 1]);
      PresizeCovers(states[0], m, k, n, calls[j - 1]);
    }
  }

  /** One engine: its device and its scratch slots. */
  class Engine {
    const device: Device
    var slots: Slots

    /** The slots hold distinct buffers, none of them a scratch buffer of the device. */
    ghost predicate Valid()
      reads this
    {
      && device.Valid()
      && (forall i, j :: 0 <= i < j < 3 && slots[i] != null ==> slots[i] != slots[j])
      && (forall i :: 0 <= i < 3 && slots[i] != null ==> slots[i] != device.splitk && slots[i] != device.transposed)
    }

    ghost function Buffers(): set<object>
      reads this
    {
      (set i | 0 <= i < 3 && slots[i] != null :: slots[i]) + {device.splitk, device.transposed}
    }

    constructor (groupM: nat)
      requires groupM > 0
      ensures Valid() && fresh(device) && fresh(Buffers()) && slots == [null, null, null]
    {
      device := new Device(groupM);
      slots := [null, null, null];
    }

    /** Grows every slot that is too small, in order, and stops at the first allocation that fails; `granted` is
        the outcome of the allocation for each slot. */
    method WithUpcastScratch(need: seq<nat>, granted: seq<bool>) returns (ok: bool)
      requires Valid() && |need| == 3 == |granted|
      modifies this`slots
      ensures Valid() && GrowStep(old(slots), slots, need, granted, ok)
      ensures ok ==> forall i :: 0 <= i < 3 ==> slots[i] != null && slots[i].Length > 0 && slots[i].Length >= need[i]
      ensures forall i :: 0 <= i < 3 && slots[i] != old(slots)[i] ==>
        && slots[i] != null && fresh(slots[i]) && slots[i].Length == (if need[i] == 0 then 1 else need[i])
        && (old(slots)[i] == null || old(slots)[i].Length < slots[i].Length)
      ensures (forall i :: 0 <= i < 3 ==> granted[i]) ==> ok
      ensures !ok ==> exists i :: 0 <= i < 3 && !granted[i] && slots[i] == old(slots)[i]
                                  && (slots[i] == null || slots[i].Length == 0 || slots[i].Length < need[i])
    {
      ok := true;
      for i := 0 to 3
        invariant Valid() && ok && Reached(old(slots), need, granted, i - 1)
        invariant forall j :: i <= j < 3 ==> slots[j] == old(slots)[j]
        invariant forall j :: 0 <= j < i ==>
          if Capacity(old(slots)[j]) < Demand(need, j)
          then slots[j] != null && fresh(slots[j]) && slots[j].Length == Demand(need, j)
          else slots[j] == old(slots)[j]
      {
        if Capacity(slots[i]) < Demand(need, i) {
          if !granted[i] { return false; }
          var buffer := new Val[Demand(need, i)](_ => Zero);
          slots := slots[i := buffer];
        }
      }
    }

    /** Pre-sizes the scratch. */
    method PresizeUpcastScratch(need: seq<nat>, granted: seq<bool>) returns (r: Outcome)
      requires Valid() && |need| == 3 == |granted|
      modifies this`slots
      ensures Valid() && GrowStep(old(slots), slots, need, granted, r.Done?) && r in {Done, AllocFailed}
    {
      var ok := WithUpcastScratch(need, granted);
      r := if ok then Done else AllocFailed;
    }

    /** The fallback's upcasts: both inputs into the first two slots. */
    method UpcastInputs(a: seq<Val>, na: nat, b: seq<Val>, nb: nat)
      requires Valid() && slots[0] != null && slots[1] != null
      requires na <= |a| && nb <= |b| && na <= slots[0].Length && nb <= slots[1].Length
      modifies slots[0], slots[1]
      ensures forall i :: 0 <= i < na ==> slots[0][i] == Up(a[i])
      ensures forall i :: 0 <= i < nb ==> slots[1][i] == Up(b[i])
    {
      UpcastInto(a, slots[0], na);
      UpcastInto(b, slots[1], nb);
    }

    /** Typed `Y = X @ W (+ bias)`: native kernel or upcast fallback, one contract. */
    method Forward(y: array<Val>, yType: Dtype, x: Typed, w: Typed, bias: Seed, m: nat, k: nat, n: nat,
                   granted: seq<bool>)
      returns (r: Outcome)
      requires Valid() && |granted| == 3 && Sane(m, k, n) && Holds(x.data, m, k) && Holds(w.data, k, n)
      requires (bias.Bias? ==> |bias.values| >= n) && Times(m, n) <= y.Length && y !in Buffers()
      modifies this`slots, Buffers(), y
      ensures Valid()
      ensures r == DtypeMismatch <==> !(yType == x.dtype == w.dtype != F32)
      ensures if r == DtypeMismatch || !TypedForwardRoute(m, k, n).NoRoute?
              then slots == old(slots) && r != AllocFailed
              else GrowStep(old(slots), slots, [Times(m, k), Times(k, n), Times(m, n)], granted, r != AllocFailed)
      ensures r != DtypeMismatch && r != AllocFailed ==> r == if n == 1 && k < 32 then Uncovered(m, k, n) else Done
      ensures r.Done? ==> !ForwardRoute(m, k, n).NoRoute?
      ensures forall q :: 0 <= q < y.Length ==>
        y[q] == if r.Done? && q < Times(m, n)
                then Down(ForwardCell(ByRows(Upcast(x.data), m, k, false), ByCols(Upcast(w.data), k, n, false),
                                      bias, m, k, n, q))
                else old(y[q])
    {
      ForwardCoverage(m, k, n);
      TypedBucketsCoincide(m, k, n);
      r := ForwardTyped(device.groupM, y, yType, x, w, bias, m, k, n);
      if !r.Uncovered? { return; }
      r := ForwardScratch(y, x.data, w.data, bias, m, k, n, granted);
    }

    /** The fallback, scratch request included. */
    method ForwardScratch(y: array<Val>, x: seq<Val>, w: seq<Val>, bias: Seed, m: nat, k: nat, n: nat,
                          granted: seq<bool>)
      returns (r: Outcome)
      requires Valid() && |granted| == 3 && Sane(m, k, n) && Holds(x, m, k) && Holds(w, k, n)
      requires (bias.Bias? ==> |bias.values| >= n) && Times(m, n) <= y.Length && y !in Buffers()
      modifies this`slots, Buffers(), y
      ensures Valid()
      ensures GrowStep(old(slots), slots, [Times(m, k), Times(k, n), Times(m, n)], granted, r != AllocFailed)
      ensures r == AllocFailed || r == if ForwardRoute(m, k, n).NoRoute? then Uncovered(m, k, n) else Done
      ensures forall q :: 0 <= q < y.Length ==>
        y[q] == if r.Done? && q < Times(m, n)
                then Down(ForwardCell(ByRows(Upcast(x), m, k, false), ByCols(Upcast(w), k, n, false), bias, m, k, n, q))
                else old(y[q])
    {
      var ok := WithUpcastScratch(ForwardCall(m, k, n).Needs(), granted);
      if !ok { return AllocFailed; }
      r := ForwardFallback(y, x, w, bias, m, k, n);
    }

    method ForwardFallback(y: array<Val>, x: seq<Val>, w: seq<Val>, bias: Seed, m: nat, k: nat, n: nat)
      returns (r: Outcome)
      requires Valid() && Sane(m, k, n) && Holds(x, m, k) && Holds(w, k, n)
        && Suffices(slots, ForwardCall(m, k, n).Needs())
      requires (bias.Bias? ==> |bias.values| >= n) && Times(m, n) <= y.Length && y !in Buffers()
      modifies Buffers(), y
      ensures r == if ForwardRoute(m, k, n).NoRoute? then Uncovered(m, k, n) else Done
      ensures forall q :: 0 <= q < y.Length ==>
        y[q] == if r.Done? && q < Times(m, n)
                then Down(ForwardCell(ByRows(Upcast(x), m, k, false), ByCols(Upcast(w), k, n, false), bias, m, k, n, q))
                else old(y[q])
    {
      SlotsReady(ForwardCall(m, k, n).Needs());
      UpcastInputs(x, Times(m, k), w, Times(k, n));
      var ux, uw := slots[0][..], slots[1][..];
      r := device.Forward(slots[2], ux, uw, bias, m, k, n);
      if !r.Done? { return; }
      forall q: nat
        ensures ForwardCell(ByRows(Upcast(x), m, k, false), ByCols(Upcast(w), k, n, false), bias, m, k, n, q)
             == ForwardCell(ByRows(ux, m, k, false), ByCols(uw, k, n, false), bias, m, k, n, q)
      {
        ForwardUpcast(ux, x, uw, w, bias, m, k, n, q);
        ForwardUpcast(Upcast(x), x, Upcast(w), w, bias, m, k, n, q);
      }
      DowncastInto(slots[2][..], y, Times(m, n));
    }

    /** Slots that suffice are there. */
    lemma SlotsReady(need: seq<nat>)
      requires Valid() && |need| == 3 && Suffices(slots, need)
      ensures slots[0] != null && slots[1] != null && slots[2] != null
      ensures need[0] <= slots[0].Length && need[1] <= slots[1].Length && need[2] <= slots[2].Length
      ensures slots[0] in Buffers() && slots[1] in Buffers() && slots[2] in Buffers()
    {
      assert Demand(need, 0) <= Capacity(slots[0]) && Demand(need, 1) <= Capacity(slots[1])
        && Demand(need, 2) <= Capacity(slots[2]);
    }

    /** Typed `dW += X^T @ dY` into an f32 master gradient. */
    method BackwardDw(dw: array<Val>, dy: Typed, x: Typed, m: nat, k: nat, n: nat, granted: seq<bool>)
      returns (r: Outcome)
      requires Valid() && |granted| == 3 && Sane(m, k, n) && Holds(dy.data, m, n) && Holds(x.data, m, k)
      requires Times(k, n) <= dw.Length && dw !in Buffers()
      modifies this`slots, Buffers(), dw
      ensures Valid()
      ensures r == DtypeMismatch <==> !(dy.dtype == x.dtype != F32)
      ensures if r == DtypeMismatch || !TypedDwRoute(m, k, n).NoRoute?
              then slots == old(slots) && r != AllocFailed
              else GrowStep(old(slots), slots, [Times(m, n), Times(m, k), 0], granted, r != AllocFailed)
      ensures r != DtypeMismatch && r != AllocFailed ==>
        r == if n == 1 && (k < 4 || m < 32) then Uncovered(m, k, n) else Done
      ensures r.Done? ==> !DwRoute(m, k, n).NoRoute?
      ensures forall q :: 0 <= q < dw.Length ==>
        dw[q] == if r.Done? && q < Times(k, n)
                 then Add(old(dw[q]), DwCell(ByCols(Upcast(x.data), m, k, false), ByCols(Upcast(dy.data), m, n, false),
                                             m, k, n, q))
                 else old(dw[q])
    {
      DwCoverage(m, k, n);
      TypedBucketsCoincide(m, k, n);
      r := BackwardDwTyped(device.groupM, dw, dy, x, m, k, n);
      if !r.Uncovered? { return; }
      r := DwScratch(dw, dy.data, x.data, m, k, n, granted);
    }

    method DwScratch(dw: array<Val>, dy: seq<Val>, x: seq<Val>, m: nat, k: nat, n: nat, granted: seq<bool>)
      returns (r: Outcome)
      requires Valid() && |granted| == 3 && Sane(m, k, n) && Holds(dy, m, n) && Holds(x, m, k)
      requires Times(k, n) <= dw.Length && dw !in Buffers()
      modifies this`slots, Buffers(), dw
      ensures Valid()
      ensures GrowStep(old(slots), slots, [Times(m, n), Times(m, k), 0], granted, r != AllocFailed)
      ensures r == AllocFailed || r == if DwRoute(m, k, n).NoRoute? then Uncovered(m, k, n) else Done
      ensures forall q :: 0 <= q < dw.Length ==>
        dw[q] == if r.Done? && q < Times(k, n)
                 then Add(old(dw[q]), DwCell(ByCols(Upcast(x), m, k, false), ByCols(Upcast(dy), m, n, false),
                                             m, k, n, q))
                 else old(dw[q])
    {
      var ok := WithUpcastScratch(DwCall(m, k, n).Needs(), granted);
      if !ok { return AllocFailed; }
      r := DwFallback(dw, dy, x, m, k, n);
    }

    method DwFallback(dw: array<Val>, dy: seq<Val>, x: seq<Val>, m: nat, k: nat, n: nat) returns (r: Outcome)
      requires Valid() && Sane(m, k, n) && Holds(dy, m, n) && Holds(x, m, k) && Suffices(slots, DwCall(m, k, n).Needs())
      requires Times(k, n) <= dw.Length && dw !in Buffers()
      modifies Buffers(), dw
      ensures r == if DwRoute(m, k, n).NoRoute? then Uncovered(m, k, n) else Done
      ensures forall q :: 0 <= q < dw.Length ==>
        dw[q] == if r.Done? && q < Times(k, n)
                 then Add(old(dw[q]), DwCell(ByCols(Upcast(x), m, k, false), ByCols(Upcast(dy), m, n, false),
                                             m, k, n, q))
                 else old(dw[q])
    {
      SlotsReady(DwCall(m, k, n).Needs());
      UpcastInputs(dy, Times(m, n), x, Times(m, k));
      var udy, ux := slots[0][..], slots[1][..];
      r := device.BackwardDw(dw, udy, ux, m, k, n);
      if !r.Done? { return; }
      forall q: nat
        ensures DwCell(ByCols(Upcast(x), m, k, false), ByCols(Upcast(dy), m, n, false), m, k, n, q)
             == DwCell(ByCols(ux, m, k, false), ByCols(udy, m, n, false), m, k, n, q)
      {
        DwUpcast(ux, x, udy, dy, m, k, n, q);
        DwUpcast(Upcast(x), x, Upcast(dy), dy, m, k, n, q);
      }
    }

    /** Typed `dX = dY @ W^T`. */
    method BackwardDx(dx: array<Val>, dxType: Dtype, dy: Typed, w: Typed, m: nat, k: nat, n: nat, granted: seq<bool>)
      returns (r: Outcome)
      requires Valid() && |granted| == 3 && Sane(m, k, n) && Holds(dy.data, m, n) && Holds(w.data, k, n)
      requires Times(m, k) <= dx.Length && dx !in Buffers()
      modifies this`slots, Buffers(), dx
      ensures Valid()
      ensures r == DtypeMismatch <==> !(dxType == dy.dtype == w.dtype != F32)
      ensures if r == DtypeMismatch || !TypedDxRoute(m, k, n).NoRoute?
              then slots == old(slots) && r != AllocFailed
              else GrowStep(old(slots), slots, [Times(m, n), Times(k, n), Times(m, k)], granted, r != AllocFailed)
      ensures r in {Done, DtypeMismatch, AllocFailed}
      ensures forall q :: 0 <= q < dx.Length ==>
        dx[q] == if r.Done? && q < Times(m, k)
                 then Down(DxCell(ByRows(Upcast(dy.data), m, n, false), ByRows(Upcast(w.data), k, n, false),
                                  m, k, n, q))
                 else old(dx[q])
    {
      TypedBucketsCoincide(m, k, n);
      r := BackwardDxTyped(device.groupM, dx, dxType, dy, w, m, k, n);
      if !r.Uncovered? { return; }
      r := DxScratch(dx, dy.data, w.data, m, k, n, granted);
    }

    method DxScratch(dx: array<Val>, dy: seq<Val>, w: seq<Val>, m: nat, k: nat, n: nat, granted: seq<bool>)
      returns (r: Outcome)
      requires Valid() && |granted| == 3 && Sane(m, k, n) && Holds(dy, m, n) && Holds(w, k, n)
      requires Times(m, k) <= dx.Length && dx !in Buffers()
      modifies this`slots, Buffers(), dx
      ensures Valid()
      ensures GrowStep(old(slots), slots, [Times(m, n), Times(k, n), Times(m, k)], granted, r != AllocFailed)
      ensures r in {Done, AllocFailed}
      ensures forall q :: 0 <= q < dx.Length ==>
        dx[q] == if r.Done? && q < Times(m, k)
                 then Down(DxCell(ByRows(Upcast(dy), m, n, false), ByRows(Upcast(w), k, n, false), m, k, n, q))
                 else old(dx[q])
    {
      var ok := WithUpcastScratch(DxCall(m, k, n).Needs(), granted);
      if !ok { return AllocFailed; }
      DxFallback(dx, dy, w, m, k, n);
      r := Done;
    }

    method DxFallback(dx: array<Val>, dy: seq<Val>, w: seq<Val>, m: nat, k: nat, n: nat)
      requires Valid() && Sane(m, k, n) && Holds(dy, m, n) && Holds(w, k, n) && Suffices(slots, DxCall(m, k, n).Needs())
      requires Times(m, k) <= dx.Length && dx !in Buffers()
      modifies Buffers(), dx
      ensures forall q :: 0 <= q < dx.Length ==>
        dx[q] == if q < Times(m, k)
                 then Down(DxCell(ByRows(Upcast(dy), m, n, false), ByRows(Upcast(w), k, n, false), m, k, n, q))
                 else old(dx[q])
    {
      SlotsReady(DxCall(m, k, n).Needs());
      UpcastInputs(dy, Times(m, n), w, Times(k, n));
      var udy, uw := slots[0][..], slots[1][..];
      var r := device.BackwardDx(slots[2], udy, uw, m, k, n);
      forall q: nat
        ensures DxCell(ByRows(Upcast(dy), m, n, false), ByRows(Upcast(w), k, n, false), m, k, n, q)
             == DxCell(ByRows(udy, m, n, false), ByRows(uw, k, n, false), m, k, n, q)
      {
        DxUpcast(udy, dy, uw, w, m, k, n, q);
        DxUpcast(Upcast(dy), dy, Upcast(w), w, m, k, n, q);
      }
      DowncastInto(slots[2][..], dx, Times(m, k));
    }
  }
}
