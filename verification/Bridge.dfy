/** The event bridge between a caller's stream and the engine's: what the driver orders, one bridged call, and
    every run of bridged calls from any streams with other host threads at work in between. */
module Bridge {

  /** What the driver guarantees. Operation i was enqueued on `stream[i]` and starts after every operation of
      `before[i]`; `tail` is what the next operation of a stream waits for, `events` what an event captured
      when it was last recorded. Event handles are handed out once each; those below `nextEvent` have been. */
  datatype Driver = Driver(stream: seq<nat>, before: seq<set<nat>>, tail: map<nat, set<nat>>,
                           events: map<nat, set<nat>>, nextEvent: nat) {
    function Tail(s: nat): set<nat> { if s in tail then tail[s] else {} }
    function Captured(e: nat): set<nat> { if e in events then events[e] else {} }
    function Count(): nat { |before| }

    /** Enqueue a kernel on stream `s`. */
    function Launch(s: nat): Driver {
      Driver(stream + [s], before + [Tail(s)], tail[s := Tail(s) + {Count()}], events, nextEvent)
    }
    /** Creates an event, with handle `nextEvent`. */
    function Create(): Driver { this.(nextEvent := nextEvent + 1) }
    function Record(e: nat, s: nat): Driver { this.(events := events[e := Tail(s)]) }
    function Wait(s: nat, e: nat): Driver { this.(tail := tail[s := Tail(s) + Captured(e)]) }

    /** Every operation is in the tail of its own stream, and everything refers backwards: the order is acyclic. */
    ghost predicate Ok() {
      && |stream| == |before|
      && (forall i :: 0 <= i < |stream| ==> i in Tail(stream[i]))
      && (forall i, j :: 0 <= i < |before| && j in before[i] ==> j < i)
      && (forall s, j :: s in tail && j in tail[s] ==> j < Count())
      && (forall e, j :: e in events && j in events[e] ==> j < Count())
      && (forall e :: e in events ==> e < nextEvent)
    }
  }

  /** The driver only ever learns more: old operations keep their order, tails grow. */
  ghost predicate Extends(d: Driver, d': Driver) {
    && |d.before| <= |d'.before| && |d.stream| <= |d'.stream| && d.nextEvent <= d'.nextEvent
    && d'.before[..|d.before|] == d.before && d'.stream[..|d.stream|] == d.stream
    && forall s :: d.Tail(s) <= d'.Tail(s)
  }

  lemma ExtendsTrans(a: Driver, b: Driver, c: Driver)
    requires Extends(a, b) && Extends(b, c)
    ensures Extends(a, c)
  {
    assert c.before[..|a.before|] == c.before[..|b.before|][..|a.before|];
    assert c.stream[..|a.stream|] == c.stream[..|b.stream|][..|a.stream|];
    forall s ensures a.Tail(s) <= c.Tail(s) {
      assert a.Tail(s) <= b.Tail(s) && b.Tail(s) <= c.Tail(s);
    }
  }

  /** What `d'` has on top of `d` went to stream `raw`, behind the stream's old tail, and is in its new one. */
  ghost predicate InOrder(d: Driver, d': Driver, raw: nat)
    requires |d'.stream| == |d'.before|
  {
    forall i :: d.Count() <= i < d'.Count() ==>
      d'.stream[i] == raw && d.Tail(raw) <= d'.before[i] && i in d'.Tail(raw)
  }

  lemma LaunchInOrder(d: Driver, d': Driver, raw: nat)
    requires d'.Ok() && Extends(d, d') && InOrder(d, d', raw)
    ensures d'.Launch(raw).Ok() && Extends(d, d'.Launch(raw)) && InOrder(d, d'.Launch(raw), raw)
  {
    LaunchOk(d', raw);
    ExtendsTrans(d, d', d'.Launch(raw));
  }

  /** `n` launches on stream `s`, one after the other. */
  function Launches(d: Driver, s: nat, n: nat): (d': Driver)
    ensures d'.Count() == d.Count() + n
  {
    if n == 0 then d else Launches(d, s, n - 1).Launch(s)
  }

  // ---- one call, as the engine makes it ----

  /** The locked engine state: two events, created once, and its own stream. */
  class EngineInner {
    const evIn: nat
    const evOut: nat
    const raw: nat
    var driver: Driver

    ghost predicate Valid()
      reads this
    {
      evIn != evOut && evIn < driver.nextEvent && evOut < driver.nextEvent && driver.Ok()
    }

    /** Building an engine creates its two events: neither existed before, they differ, and neither has captured
        anything yet. */
    constructor (before: Driver, raw: nat)
      requires before.Ok()
      ensures Valid() && this.raw == raw && Built(Handles(evIn, evOut, raw), before, driver)
      ensures before.nextEvent <= evIn && before.nextEvent <= evOut && evIn != evOut
      ensures driver.Captured(evIn) == {} == driver.Captured(evOut)
      ensures Extends(before, driver) && driver.Count() == before.Count()
    {
      this.raw := raw;
      evIn := before.nextEvent;
      var one := before.Create();
      evOut := one.nextEvent;
      driver := one.Create();
    }

    /** The dispatcher's part: it enqueues `kernels` launches, all it managed before it finished or failed. */
    method Dispatch(kernels: nat)
      requires Valid()
      modifies this`driver
      ensures Valid() && Extends(old(driver), driver) && driver.Count() == old(driver).Count() + kernels
      ensures driver.events == old(driver).events && driver == Launches(old(driver), raw, kernels)
      ensures InOrder(old(driver), driver, raw)
    {
      for n := 0 to kernels
        invariant Valid() && Extends(old(driver), driver) && driver.Count() == old(driver).Count() + n
        invariant driver.events == old(driver).events && driver == Launches(old(driver), raw, n)
        invariant InOrder(old(driver), driver, raw)
      {
        LaunchInOrder(old(driver), driver, raw);
        driver := driver.Launch(raw);
      }
    }

    /** One bridged call. Whether the dispatcher succeeded or stopped half-way, its kernels come after all the
        caller's earlier work and before all its later work. */
    method Bridged(caller: nat, kernels: nat, failed: bool) returns (ok: bool)
      requires Valid()
      modifies this`driver
      ensures Valid() && ok == !failed && Extends(old(driver), driver)
      ensures driver.Count() == old(driver).Count() + kernels
      ensures forall i :: old(driver).Count() <= i < driver.Count() ==>
        && driver.stream[i] == raw
        && old(driver).Tail(caller) <= driver.before[i]
        && i in driver.Tail(caller)
      ensures driver ==
              if caller == raw then Launches(old(driver), raw, kernels)
              else Launches(old(driver).Record(evIn, caller).Wait(raw, evIn), raw, kernels)
                   .Record(evOut, raw).Wait(caller, evOut)
    {
      var same := caller == raw;
      ghost var d0 := driver;
      if !same {
        JoinOk(driver, caller, evIn, raw);
        driver := driver.Record(evIn, caller);
        driver := driver.Wait(raw, evIn);
      }
      ghost var d1 := driver;
      Dispatch(kernels);
      ok := !failed;
      ghost var d2 := driver;
      if !same {
        JoinOk(driver, raw, evOut, caller);
        driver := driver.Record(evOut, raw);
        driver := driver.Wait(caller, evOut);
      }
      ExtendsTrans(d0, d1, d2);
      ExtendsTrans(d0, d2, driver);
      Between(d0, d1, d2, driver, caller, raw);
    }
  }

  /** Recording an event behind `from` and making `to` wait for it puts all of from's work before to's next. */
  lemma JoinOk(d: Driver, from: nat, e: nat, to: nat)
    requires d.Ok() && e < d.nextEvent
    ensures var d' := d.Record(e, from).Wait(to, e);
      && d'.Ok() && Extends(d, d') && d.Tail(from) <= d'.Tail(to) && d'.stream == d.stream && d'.before == d.before
  {
  }

  /** What was launched in order on `raw`, once raw's tail held the caller's and before the caller's holds raw's,
      lies between the caller's earlier and later work. */
  lemma Between(d0: Driver, d1: Driver, d2: Driver, d3: Driver, caller: nat, raw: nat)
    requires d2.Ok() && d3.Ok() && InOrder(d1, d2, raw) && d1.Count() == d0.Count()
    requires d3.stream == d2.stream && d3.before == d2.before
    requires d0.Tail(caller) <= d1.Tail(raw) && d2.Tail(raw) <= d3.Tail(caller)
    ensures forall i :: d0.Count() <= i < d3.Count() ==>
      d3.stream[i] == raw && d0.Tail(caller) <= d3.before[i] && i in d3.Tail(caller)
  {
  }

  // ---- every run ----

  /** How far the call that holds the mutex has come. */
  datatype Pc = Idle | Entered | InRecorded | Running | OutRecorded

  /** A call: who made it, what its stream waited for then, the kernels it enqueued, whether it has returned. */
  datatype Call = Call(caller: nat, start: set<nat>, kernels: set<nat>, over: bool)

  datatype System = System(driver: Driver, pc: Pc, calls: seq<Call>)

  /** The three handles of an engine. */
  datatype Handles = Handles(evIn: nat, evOut: nat, raw: nat)

  /** `d'` is `d` after an engine with handles `h` has been built. */
  ghost predicate Built(h: Handles, d: Driver, d': Driver) {
    d.Ok() && h.evIn == d.nextEvent && h.evOut == d.Create().nextEvent && d' == d.Create().Create()
  }

  /** Host threads outside the mutex: launches and waits on any stream, new events, records of any event but the
      engine's two. */
  ghost predicate ForeignStep(h: Handles, d: Driver, d': Driver) {
    || (exists s: nat :: d' == d.Launch(s))
    || (exists s: nat, e: nat :: d' == d.Wait(s, e))
    || d' == d.Create()
    || (exists s: nat, e: nat :: e < d.nextEvent && e != h.evIn && e != h.evOut && d' == d.Record(e, s))
  }

  /** The next step of the call that holds the mutex, or of one that takes it. */
  ghost predicate CallStep(h: Handles, s: System, s': System) {
    var last := |s.calls| - 1;
    match s.pc
    case Idle =>
      && s'.driver == s.driver && |s'.calls| == |s.calls| + 1 && s'.calls[..|s.calls|] == s.calls
      && var c := s'.calls[|s.calls|];
         && c == Call(c.caller, s.driver.Tail(c.caller), {}, false)
         && s'.pc == if c.caller == h.raw then Running else Entered
    case Entered =>
      && last >= 0 && s' == System(s.driver.Record(h.evIn, s.calls[last].caller), InRecorded, s.calls)
    case InRecorded =>
      s' == System(s.driver.Wait(h.raw, h.evIn), Running, s.calls)
    case Running =>
      && last >= 0
      && var c := s.calls[last];
         || s' == System(s.driver.Launch(h.raw), Running,
                         s.calls[last := c.(kernels := c.kernels + {s.driver.Count()})])
         || (if c.caller == h.raw then s' == System(s.driver, Idle, s.calls[last := c.(over := true)])
             else s' == System(s.driver.Record(h.evOut, h.raw), OutRecorded, s.calls))
    case OutRecorded =>
      && last >= 0
      && s' == System(s.driver.Wait(s.calls[last].caller, h.evOut), Idle, s.calls[last := s.calls[last].(over := true)])
  }

  /** No call gets stuck: the holder of the mutex always has a next step, and when there is none any stream's call
      can begin. */
  lemma HolderCanStep(h: Handles, s: System, caller: nat)
    requires Inv(h, s)
    ensures exists s' :: CallStep(h, s, s')
                         && (s.pc.Idle? ==> |s'.calls| == |s.calls| + 1 && s'.calls[|s.calls|].caller == caller)
  {
    var d, last := s.driver, |s.calls| - 1;
    var s' := s;
    match s.pc {
      case Idle =>
        s' := System(d, if caller == h.raw then Running else Entered,
                     s.calls + [Call(caller, d.Tail(caller), {}, false)]);
      case Entered => s' := System(d.Record(h.evIn, s.calls[last].caller), InRecorded, s.calls);
      case InRecorded => s' := System(d.Wait(h.raw, h.evIn), Running, s.calls);
      case Running =>
        s' := System(d.Launch(h.raw), Running,
                     s.calls[last := s.calls[last].(kernels := s.calls[last].kernels + {d.Count()})]);
      case OutRecorded =>
        s' := System(d.Wait(s.calls[last].caller, h.evOut), Idle, s.calls[last := s.calls[last].(over := true)]);
    }
    assert CallStep(h, s, s');
  }

  /** Other host threads may launch, wait and create events at any moment, and record any event they have created. */
  lemma OthersCanStep(h: Handles, s: System, st: nat, e: nat)
    ensures Next(h, s, s.(driver := s.driver.Launch(st))) && Next(h, s, s.(driver := s.driver.Wait(st, e)))
    ensures Next(h, s, s.(driver := s.driver.Create()))
    ensures e < s.driver.nextEvent && e != h.evIn && e != h.evOut ==> Next(h, s, s.(driver := s.driver.Record(e, st)))
  {
  }

  /** An engine can be built on any driver. */
  lemma RunExists(d: Driver, raw: nat) returns (h: Handles, s: System)
    requires d.Ok()
    ensures IsRun(h, [s]) && h.raw == raw && Extends(d, s.driver)
  {
    h := Handles(d.nextEvent, d.Create().nextEvent, raw);
    s := System(d.Create().Create(), Idle, []);
    assert Built(h, d, s.driver);
  }

  /** A sequence of steps of the mutex holder alone. */
  ghost predicate CallSteps(h: Handles, run: seq<System>) {
    |run| > 0 && forall n :: 0 <= n < |run| - 1 ==> CallStepAt(h, run, n)
  }

  ghost predicate CallStepAt(h: Handles, run: seq<System>, n: nat)
    requires n + 1 < |run|
  {
    CallStep(h, run[n], run[n + 1])
  }

  lemma OneMoreStep(h: Handles, run: seq<System>, s: System)
    requires CallSteps(h, run) && CallStep(h, run[|run| - 1], s)
    ensures CallSteps(h, run + [s])
  {
    forall n | 0 <= n < |run + [s]| - 1 ensures CallStepAt(h, run + [s], n) {
      if n < |run| - 1 { assert CallStepAt(h, run, n); }
    }
  }

  /** The operations numbered from `first` on, `n` of them. */
  function Numbers(first: nat, n: nat): (r: set<nat>)
    ensures forall i :: i in r <==> first <= i < first + n
  {
    if n == 0 then {} else Numbers(first, n - 1) + {first + n - 1}
  }

  lemma {:induction false} LaunchSteps(h: Handles, run0: seq<System>, c: Call, n: nat) returns (run: seq<System>)
    requires CallSteps(h, run0) && c.kernels == {}
    requires var s := run0[|run0| - 1]; s.pc.Running? && |s.calls| > 0 && s.calls[|s.calls| - 1] == c
    ensures CallSteps(h, run) && run[0] == run0[0]
    ensures var s := run0[|run0| - 1];
      run[|run| - 1] == System(Launches(s.driver, h.raw, n), Running,
                               s.calls[|s.calls| - 1 := c.(kernels := Numbers(s.driver.Count(), n))])
    decreases n
  {
    var s := run0[|run0| - 1];
    if n == 0 {
      run := run0;
      assert c.(kernels := Numbers(s.driver.Count(), 0)) == c;
    } else {
      run := LaunchSteps(h, run0, c, n - 1);
      var next := System(Launches(s.driver, h.raw, n), Running,
                         s.calls[|s.calls| - 1 := c.(kernels := Numbers(s.driver.Count(), n))]);
      assert CallStep(h, run[|run| - 1], next);
      OneMoreStep(h, run, next);
      run := run + [next];
    }
  }

  /** From an idle engine to the first launch. */
  lemma EnterSteps(h: Handles, d: Driver, calls: seq<Call>, c: Call) returns (run: seq<System>)
    requires c == Call(c.caller, d.Tail(c.caller), {}, false)
    ensures CallSteps(h, run) && run[0] == System(d, Idle, calls)
    ensures run[|run| - 1] == System(if c.caller == h.raw then d else d.Record(h.evIn, c.caller).Wait(h.raw, h.evIn),
                                     Running, calls + [c])
  {
    run := [System(d, Idle, calls)];
    var called := calls + [c];
    if c.caller == h.raw {
      OneMoreStep(h, run, System(d, Running, called));
      run := run + [System(d, Running, called)];
    } else {
      var recorded := d.Record(h.evIn, c.caller);
      OneMoreStep(h, run, System(d, Entered, called));
      run := run + [System(d, Entered, called)];
      OneMoreStep(h, run, System(recorded, InRecorded, called));
      run := run + [System(recorded, InRecorded, called)];
      OneMoreStep(h, run, System(recorded.Wait(h.raw, h.evIn), Running, called));
      run := run + [System(recorded.Wait(h.raw, h.evIn), Running, called)];
    }
  }

  /** From the last launch back to an idle engine. */
  lemma LeaveSteps(h: Handles, run0: seq<System>, calls: seq<Call>, c: Call) returns (run: seq<System>)
    requires CallSteps(h, run0) && run0[|run0| - 1] == System(run0[|run0| - 1].driver, Running, calls + [c])
    ensures CallSteps(h, run) && run[0] == run0[0]
    ensures var d := run0[|run0| - 1].driver;
      run[|run| - 1] == System(if c.caller == h.raw then d else d.Record(h.evOut, h.raw).Wait(c.caller, h.evOut), Idle,
                               calls + [c.(over := true)])
  {
    var d, called, done := run0[|run0| - 1].driver, calls + [c], calls + [c.(over := true)];
    assert called[|calls|] == c && called[|calls| := c.(over := true)] == done;
    if c.caller == h.raw {
      OneMoreStep(h, run0, System(d, Idle, done));
      run := run0 + [System(d, Idle, done)];
    } else {
      var recorded := d.Record(h.evOut, h.raw);
      OneMoreStep(h, run0, System(recorded, OutRecorded, called));
      run := run0 + [System(recorded, OutRecorded, called)];
      OneMoreStep(h, run, System(recorded.Wait(c.caller, h.evOut), Idle, done));
      run := run + [System(recorded.Wait(c.caller, h.evOut), Idle, done)];
    }
  }

  /** What `EngineInner.Bridged` does to the driver is what the steps of one call do, from an idle engine back to an
      idle one. */
  lemma BridgedIsACall(h: Handles, d: Driver, calls: seq<Call>, caller: nat, n: nat) returns (run: seq<System>)
    ensures CallSteps(h, run) && run[0] == System(d, Idle, calls)
    ensures var entered := if caller == h.raw then d else d.Record(h.evIn, caller).Wait(h.raw, h.evIn);
      var launched := Launches(entered, h.raw, n);
      var left := if caller == h.raw then launched else launched.Record(h.evOut, h.raw).Wait(caller, h.evOut);
      run[|run| - 1] == System(left, Idle, calls + [Call(caller, d.Tail(caller), Numbers(d.Count(), n), true)])
  {
    var c := Call(caller, d.Tail(caller), {}, false);
    run := EnterSteps(h, d, calls, c);
    run := LaunchSteps(h, run, c, n);
    var c' := c.(kernels := Numbers(d.Count(), n));
    assert (calls + [c])[|calls| := c'] == calls + [c'];
    run := LeaveSteps(h, run, calls, c');
  }

  ghost predicate Next(h: Handles, s: System, s': System) {
    CallStep(h, s, s') || (s'.pc == s.pc && s'.calls == s.calls && ForeignStep(h, s.driver, s'.driver))
  }

  ghost predicate CallOk(d: Driver, c: Call) {
    && (forall i :: i in c.kernels ==> i < |d.before| && c.start <= d.before[i])
    && (c.over ==> c.kernels <= d.Tail(c.caller))
  }

  ghost predicate Inv(h: Handles, s: System) {
    && h.evIn != h.evOut && h.evIn < s.driver.nextEvent && h.evOut < s.driver.nextEvent && s.driver.Ok()
    && (forall i :: 0 <= i < |s.calls| ==> CallOk(s.driver, s.calls[i]))
    && (forall i :: 0 <= i < |s.calls| ==> s.calls[i].over || (i == |s.calls| - 1 && !s.pc.Idle?))
    && (!s.pc.Idle? ==>
          && |s.calls| > 0
          && var c := s.calls[|s.calls| - 1];
             && !c.over && (c.caller == h.raw ==> s.pc.Running?)
             && match s.pc
                case Idle => true
                case Entered => c.start <= s.driver.Tail(c.caller) && c.kernels == {}
                case InRecorded => c.start <= s.driver.Captured(h.evIn) && c.kernels == {}
                case Running => c.start <= s.driver.Tail(h.raw) && c.kernels <= s.driver.Tail(h.raw)
                case OutRecorded => c.kernels <= s.driver.Captured(h.evOut))
  }

  lemma LaunchOk(d: Driver, s: nat)
    requires d.Ok()
    ensures d.Launch(s).Ok() && Extends(d, d.Launch(s))
  {
    var d' := d.Launch(s);
    forall i | 0 <= i < |d'.stream| ensures i in d'.Tail(d'.stream[i]) {
      if i < |d.stream| { assert i in d.Tail(d.stream[i]); }
    }
  }

  lemma WaitOk(d: Driver, s: nat, e: nat)
    requires d.Ok()
    ensures d.Wait(s, e).Ok() && Extends(d, d.Wait(s, e))
  {
  }

  lemma RecordOk(d: Driver, e: nat, s: nat)
    requires d.Ok() && e < d.nextEvent
    ensures d.Record(e, s).Ok() && Extends(d, d.Record(e, s))
    ensures forall e' :: e' != e ==> d.Record(e, s).Captured(e') == d.Captured(e')
  {
  }

  /** What is known about the other calls survives whatever the driver learns. */
  lemma CallsKept(d: Driver, d': Driver, c: Call)
    requires CallOk(d, c) && Extends(d, d')
    ensures CallOk(d', c)
  {
    forall i | i in c.kernels ensures i < |d'.before| && c.start <= d'.before[i] {
      assert d'.before[i] == d'.before[..|d.before|][i];
    }
  }

  lemma ForeignKeepsInv(h: Handles, s: System, s': System)
    requires Inv(h, s) && s'.pc == s.pc && s'.calls == s.calls && ForeignStep(h, s.driver, s'.driver)
    ensures Inv(h, s') && Extends(s.driver, s'.driver)
  {
    var d, d' := s.driver, s'.driver;
    if st: nat :| d' == d.Launch(st) {
      LaunchOk(d, st);
    } else if st: nat, e: nat :| d' == d.Wait(st, e) {
      WaitOk(d, st, e);
    } else if d' != d.Create() {
      var st: nat, e: nat :| e < d.nextEvent && e != h.evIn && e != h.evOut && d' == d.Record(e, st);
      RecordOk(d, e, st);
    }
    OthersKeepInv(h, s, s');
  }

  /** Whatever leaves the calls and the engine's two events alone keeps the invariant. */
  lemma OthersKeepInv(h: Handles, s: System, s': System)
    requires Inv(h, s) && s'.pc == s.pc && s'.calls == s.calls && s'.driver.Ok() && Extends(s.driver, s'.driver)
    requires s'.driver.Captured(h.evIn) == s.driver.Captured(h.evIn)
    requires s'.driver.Captured(h.evOut) == s.driver.Captured(h.evOut)
    ensures Inv(h, s')
  {
    forall i | 0 <= i < |s'.calls| ensures CallOk(s'.driver, s'.calls[i]) {
      CallsKept(s.driver, s'.driver, s.calls[i]);
    }
    assert s.driver.Tail(h.raw) <= s'.driver.Tail(h.raw);
  }

  /** The driver's part of a call's step. */
  lemma CallStepExtends(h: Handles, s: System, s': System)
    requires Inv(h, s) && CallStep(h, s, s')
    ensures s'.driver.Ok() && Extends(s.driver, s'.driver)
  {
    LaunchOk(s.driver, h.raw);
    RecordOk(s.driver, h.evOut, h.raw);
    WaitOk(s.driver, h.raw, h.evIn);
    if |s.calls| > 0 {
      RecordOk(s.driver, h.evIn, s.calls[|s.calls| - 1].caller);
      WaitOk(s.driver, s.calls[|s.calls| - 1].caller, h.evOut);
    }
  }

  lemma CallKeepsInv(h: Handles, s: System, s': System)
    requires Inv(h, s) && CallStep(h, s, s')
    ensures Inv(h, s') && Extends(s.driver, s'.driver)
  {
    CallStepExtends(h, s, s');
    var d', last := s'.driver, |s.calls| - 1;
    forall i | 0 <= i < |s'.calls| ensures CallOk(d', s'.calls[i]) {
      if i < |s.calls| { CallsKept(s.driver, d', s.calls[i]); }
    }
  }

  lemma NextKeepsInv(h: Handles, s: System, s': System)
    requires Inv(h, s) && Next(h, s, s')
    ensures Inv(h, s') && Extends(s.driver, s'.driver)
  {
    if CallStep(h, s, s') { CallKeepsInv(h, s, s'); } else { ForeignKeepsInv(h, s, s'); }
  }

  ghost predicate IsRun(h: Handles, run: seq<System>) {
    && |run| > 0 && run[0].pc == Idle && run[0].calls == [] && (exists d :: Built(h, d, run[0].driver))
    && forall n :: 0 <= n < |run| - 1 ==> StepAt(h, run, n)
  }

  ghost predicate StepAt(h: Handles, run: seq<System>, n: nat)
    requires n + 1 < |run|
  {
    Next(h, run[n], run[n + 1])
  }

  lemma {:induction false} RunInv(h: Handles, run: seq<System>, n: nat)
    requires IsRun(h, run) && n < |run|
    ensures Inv(h, run[n])
    decreases n
  {
    if n > 0 {
      RunInv(h, run, n - 1);
      assert StepAt(h, run, n - 1);
      NextKeepsInv(h, run[n - 1], run[n]);
    }
  }

  /** A call's caller and start never change, and a call that is over does not change at all. */
  lemma CallsOnlyGrow(h: Handles, s: System, s': System, c: nat)
    requires Inv(h, s) && Next(h, s, s') && c < |s.calls|
    ensures c < |s'.calls| && s'.calls[c].caller == s.calls[c].caller && s'.calls[c].start == s.calls[c].start
    ensures s.calls[c].over ==> s'.calls[c] == s.calls[c]
  {
    if s.pc.Idle? && CallStep(h, s, s') { assert s'.calls[c] == s'.calls[..|s.calls|][c]; }
  }

  lemma RunStep(h: Handles, run: seq<System>, n: nat)
    requires IsRun(h, run) && n + 1 < |run|
    ensures Inv(h, run[n]) && Inv(h, run[n + 1]) && Next(h, run[n], run[n + 1])
  {
    RunInv(h, run, n);
    RunInv(h, run, n + 1);
    assert StepAt(h, run, n);
  }

  /** Operation `i` of stream `st` is in the stream's tail, and call `c`, if it has begun on that stream, waits
      for it. */
  ghost predicate Awaited(s: System, st: nat, i: nat, c: nat) {
    && i in s.driver.Tail(st) && c <= |s.calls|
    && (c < |s.calls| && s.calls[c].caller == st ==> i in s.calls[c].start)
  }

  lemma StepAwaits(h: Handles, s: System, s': System, st: nat, i: nat, c: nat)
    requires Inv(h, s) && Next(h, s, s') && Awaited(s, st, i, c)
    ensures Awaited(s', st, i, c)
  {
    NextKeepsInv(h, s, s');
    assert s.driver.Tail(st) <= s'.driver.Tail(st);
    if c < |s.calls| { CallsOnlyGrow(h, s, s', c); }
  }

  /** Work the caller's stream was given before a call stays in its tail and so is in the call's start. */
  lemma {:induction false} EarlierWorkIsAwaited(h: Handles, run: seq<System>, a: nat, b: nat, st: nat, i: nat, c: nat)
    requires IsRun(h, run) && a <= b < |run| && Awaited(run[a], st, i, c)
    ensures Awaited(run[b], st, i, c)
    decreases b
  {
    if a < b {
      EarlierWorkIsAwaited(h, run, a, b - 1, st, i, c);
      RunStep(h, run, b - 1);
      StepAwaits(h, run[b - 1], run[b], st, i, c);
    }
  }

  /** Everything enqueued on the caller's stream before a call precedes every kernel of the call. */
  lemma WorkBeforePrecedesKernels(h: Handles, run: seq<System>, a: nat, b: nat, c: nat, i: nat, kernel: nat)
    requires IsRun(h, run) && a <= b < |run| && c == |run[a].calls| < |run[b].calls|
    requires i < |run[a].driver.stream| && run[a].driver.stream[i] == run[b].calls[c].caller
    requires kernel in run[b].calls[c].kernels
    ensures kernel < |run[b].driver.before| && i in run[b].driver.before[kernel]
  {
    RunInv(h, run, a);
    RunInv(h, run, b);
    assert run[a].driver.Ok();
    EarlierWorkIsAwaited(h, run, a, b, run[a].driver.stream[i], i, c);
    assert CallOk(run[b].driver, run[b].calls[c]);
  }

  /** Every operation that stream `st` got from number `from` on waits for `kernels`. */
  ghost predicate LaterWaits(d: Driver, st: nat, from: nat, kernels: set<nat>) {
    && |d.before| == |d.stream|
    && forall j :: from <= j < |d.stream| && d.stream[j] == st ==> kernels <= d.before[j]
  }

  lemma StepOrders(h: Handles, s: System, s': System, c: nat, from: nat)
    requires Inv(h, s) && Next(h, s, s') && c < |s.calls| && s.calls[c].over
    requires LaterWaits(s.driver, s.calls[c].caller, from, s.calls[c].kernels)
    ensures LaterWaits(s'.driver, s.calls[c].caller, from, s.calls[c].kernels)
  {
    NextKeepsInv(h, s, s');
    var d, d' := s.driver, s'.driver;
    forall j | from <= j < |d'.stream| && d'.stream[j] == s.calls[c].caller
      ensures s.calls[c].kernels <= d'.before[j]
    {
      if j < |d.stream| {
        assert d'.stream[j] == d'.stream[..|d.stream|][j] && d'.before[j] == d'.before[..|d.before|][j];
      } else {
        NewestWaitsForTail(h, s, s', j);
        assert CallOk(d, s.calls[c]);
      }
    }
  }

  /** Every kernel of a call that has returned precedes everything enqueued on the caller's stream afterwards. */
  lemma {:induction false} KernelsPrecedeWorkAfter(h: Handles, run: seq<System>, a: nat, b: nat, c: nat)
    requires IsRun(h, run) && a <= b < |run| && c < |run[a].calls| && run[a].calls[c].over
    ensures c < |run[b].calls| && run[b].calls[c] == run[a].calls[c]
    ensures forall j :: |run[a].driver.stream| <= j < |run[b].driver.stream|
                        && run[b].driver.stream[j] == run[a].calls[c].caller ==>
              j < |run[b].driver.before| && run[a].calls[c].kernels <= run[b].driver.before[j]
    ensures LaterWaits(run[b].driver, run[a].calls[c].caller, |run[a].driver.stream|, run[a].calls[c].kernels)
    decreases b
  {
    if a < b {
      KernelsPrecedeWorkAfter(h, run, a, b - 1, c);
      RunStep(h, run, b - 1);
      CallsOnlyGrow(h, run[b - 1], run[b], c);
      StepOrders(h, run[b - 1], run[b], c, |run[a].driver.stream|);
    } else {
      RunInv(h, run, b);
    }
  }

  /** An operation that appears in a step waits for the tail its stream had before. */
  lemma NewestWaitsForTail(h: Handles, s: System, s': System, j: nat)
    requires Inv(h, s) && Next(h, s, s') && |s.driver.stream| <= j < |s'.driver.stream|
    ensures j < |s'.driver.before| && s'.driver.before[j] == s.driver.Tail(s'.driver.stream[j])
  {
  }
}
