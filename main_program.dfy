/**
 * The dual-port well of `MainProgramExe.py`: each cycle drains `outVolumeUl`
 * from the well's out port to the exhaust port, then delivers `inVolumeUl`
 * from the syringe to the in port, refilling the syringe first when its cached
 * plunger reading is below the volume to deliver. Also the idle loop of
 * `Vitals.sysDelay` and the program's polling loop over its wells.
 */
module MainProgram {
  import opened Wrappers
  import opened Devices
  import Schedule
  import Accounting

  // ---------------------------------------------------------------------
  // Vitals.sysDelay: idle until `periodS` has elapsed, reporting progress.
  // ---------------------------------------------------------------------

  /** What one run of the delay loop produced: whether it saw the period end,
      how many clock readings it took, and the counter value at every report it
      emitted, in order. A report with counter value `k` announces
      `ReportedSeconds(k, report_s)` seconds of the delay done. */
  datatype DelayOutcome = DelayOutcome(complete: bool, ticks: nat, reports: seq<nat>)

  /** The progress figure a report prints: `iteration * report_s`. */
  function ReportedSeconds(iteration: nat, reportS: real): real
  {
    iteration as real * reportS
  }

  /** `later` preceded by `ticks` clock readings that emitted `reports`. */
  function AfterTicks(ticks: nat, reports: seq<nat>, later: DelayOutcome): DelayOutcome
  {
    DelayOutcome(later.complete, ticks + later.ticks, reports + later.reports)
  }

  /** The report test of the loop: `floor(elapsed / report_s) >= iteration`. */
  predicate ReportDue(elapsed: real, reportS: real, iteration: nat)
    requires reportS != 0.0
  {
    (elapsed / reportS).Floor >= iteration
  }

  /** The delay loop run over the clock readings `tocs`, `iteration` reports
      having been made already. */
  function DelayRun(tic: real, tocs: seq<real>, periodS: real, reportS: Option<real>, iteration: nat): DelayOutcome
    requires reportS != Some(0.0)
    decreases |tocs|
  {
    if tocs == [] then DelayOutcome(false, 0, [])
    else if tocs[0] - tic >= periodS then DelayOutcome(true, 1, [])
    else if reportS.Some? && ReportDue(tocs[0] - tic, reportS.value, iteration) then
      AfterTicks(1, [iteration], DelayRun(tic, tocs[1..], periodS, reportS, iteration + 1))
    else
      AfterTicks(1, [], DelayRun(tic, tocs[1..], periodS, reportS, iteration))
  }

  /** The loop completes on the first reading at which the period has elapsed,
      and only then; without such a reading it consumes the whole clock. */
  lemma {:induction false} DelayRunCompletesAtFirstElapsed(tic: real, tocs: seq<real>, periodS: real, reportS: Option<real>, iteration: nat)
    requires reportS != Some(0.0)
    ensures var r := DelayRun(tic, tocs, periodS, reportS, iteration);
      && (r.complete <==> exists k :: 0 <= k < |tocs| && tocs[k] - tic >= periodS)
      && (r.complete ==> 1 <= r.ticks <= |tocs| && tocs[r.ticks - 1] - tic >= periodS)
      && (r.complete ==> forall k :: 0 <= k < r.ticks - 1 ==> tocs[k] - tic < periodS)
      && (!r.complete ==> r.ticks == |tocs|)
    decreases |tocs|
  {
    if tocs != [] && tocs[0] - tic < periodS {
      var report := reportS.Some? && ReportDue(tocs[0] - tic, reportS.value, iteration);
      var next := if report then iteration + 1 else iteration;
      DelayRunCompletesAtFirstElapsed(tic, tocs[1..], periodS, reportS, next);
      var rest := DelayRun(tic, tocs[1..], periodS, reportS, next);
      if rest.complete {
        var k :| 0 <= k < |tocs[1..]| && tocs[1..][k] - tic >= periodS;
        assert tocs[k + 1] - tic >= periodS;
      } else {
        forall k | 0 <= k < |tocs| ensures tocs[k] - tic < periodS {
          if k > 0 { assert tocs[k] == tocs[1..][k - 1]; }
        }
      }
      forall k | 0 <= k < rest.ticks ensures tocs[k] - tic < periodS {
        if k > 0 { assert tocs[k] == tocs[1..][k - 1]; }
      }
    }
  }

  /** Each report advances the counter by exactly one, so the reports carry
      consecutive counter values; without `report_s` nothing is reported. */
  lemma {:induction false} DelayRunReportsConsecutive(tic: real, tocs: seq<real>, periodS: real, reportS: Option<real>, iteration: nat)
    requires reportS != Some(0.0)
    ensures reportS.None? ==> DelayRun(tic, tocs, periodS, reportS, iteration).reports == []
    ensures forall k :: 0 <= k < |DelayRun(tic, tocs, periodS, reportS, iteration).reports| ==>
              DelayRun(tic, tocs, periodS, reportS, iteration).reports[k] == iteration + k
    decreases |tocs|
  {
    if tocs != [] && tocs[0] - tic < periodS {
      if reportS.Some? && ReportDue(tocs[0] - tic, reportS.value, iteration) {
        DelayRunReportsConsecutive(tic, tocs[1..], periodS, reportS, iteration + 1);
        var rest := DelayRun(tic, tocs[1..], periodS, reportS, iteration + 1).reports;
        assert DelayRun(tic, tocs, periodS, reportS, iteration).reports == [iteration] + rest;
        forall k | 0 < k < 1 + |rest| ensures ([iteration] + rest)[k] == iteration + k {
          assert ([iteration] + rest)[k] == rest[k - 1];
        }
      } else {
        DelayRunReportsConsecutive(tic, tocs[1..], periodS, reportS, iteration);

      }
    }
  }

  /** At most one report per clock reading, and none on the reading that
      completes the delay. */
  lemma {:induction false} DelayRunAtMostOneReportPerTick(tic: real, tocs: seq<real>, periodS: real, reportS: Option<real>, iteration: nat)
    requires reportS != Some(0.0)
    ensures var r := DelayRun(tic, tocs, periodS, reportS, iteration);
      |r.reports| + (if r.complete then 1 else 0) <= r.ticks
    decreases |tocs|
  {
    if tocs != [] && tocs[0] - tic < periodS {
      if reportS.Some? && ReportDue(tocs[0] - tic, reportS.value, iteration) {
        DelayRunAtMostOneReportPerTick(tic, tocs[1..], periodS, reportS, iteration + 1);
      } else {
        DelayRunAtMostOneReportPerTick(tic, tocs[1..], periodS, reportS, iteration);
      }
    }
  }

  lemma ScaleStrictlyMonotone(a: int, b: int, v: real)
    requires a < b && v > 0.0
    ensures a as real * v < b as real * v
  {
    assert b as real * v - a as real * v == (b - a) as real * v;
  }

  /** With a positive interval the printed progress figures strictly increase. */
  lemma ReportedSecondsStrictlyIncrease(tic: real, tocs: seq<real>, periodS: real, reportS: real)
    requires reportS > 0.0
    ensures var r := DelayRun(tic, tocs, periodS, Some(reportS), 0);
      forall i, j :: 0 <= i < j < |r.reports| ==>
        ReportedSeconds(r.reports[i], reportS) < ReportedSeconds(r.reports[j], reportS)
  {
    var r := DelayRun(tic, tocs, periodS, Some(reportS), 0);
    DelayRunReportsConsecutive(tic, tocs, periodS, Some(reportS), 0);
    forall i, j | 0 <= i < j < |r.reports|
      ensures ReportedSeconds(r.reports[i], reportS) < ReportedSeconds(r.reports[j], reportS)
    {
      assert r.reports[i] == i && r.reports[j] == j;
      ScaleStrictlyMonotone(i, j, reportS);
    }
  }

  /** System-level helper holding the pump and valve references. */
  class Vitals {
    const pump: Pump
    const dispValve: Valve?
    const aspirValve: Valve?

    constructor (pump: Pump, dispValve: Valve? := null, aspirValve: Valve? := null)
      ensures this.pump == pump && this.dispValve == dispValve && this.aspirValve == aspirValve
    {
      this.pump := pump;
      this.dispValve := dispValve;
      this.aspirValve := aspirValve;
    }

    /** `sysDelay`: `tic` is the clock reading taken on entry, `tocs` the
        reading taken at each pass of the loop. */
    method SysDelay(periodS: real, tic: real, tocs: seq<real>, reportS: Option<real> := Some(300.0))
      returns (complete: bool, ticks: nat, reports: seq<nat>)
      requires reportS != Some(0.0)
      ensures DelayOutcome(complete, ticks, reports) == DelayRun(tic, tocs, periodS, reportS, 0)
      ensures complete <==> exists k :: 0 <= k < |tocs| && tocs[k] - tic >= periodS
      ensures complete ==> 1 <= ticks <= |tocs| && tocs[ticks - 1] - tic >= periodS
      ensures complete ==> forall k :: 0 <= k < ticks - 1 ==> tocs[k] - tic < periodS
      ensures !complete ==> ticks == |tocs|
      ensures reportS.None? ==> reports == []
      ensures forall k :: 0 <= k < |reports| ==> reports[k] == k
      ensures |reports| + (if complete then 1 else 0) <= ticks
    {
      complete, ticks, reports := DelayLoop(periodS, tic, tocs, reportS);
      DelayRunCompletesAtFirstElapsed(tic, tocs, periodS, reportS, 0);
      DelayRunReportsConsecutive(tic, tocs, periodS, reportS, 0);
      DelayRunAtMostOneReportPerTick(tic, tocs, periodS, reportS, 0);
    }

    /** The polling loop of `sysDelay`, proved against `DelayRun`. */
    method DelayLoop(periodS: real, tic: real, tocs: seq<real>, reportS: Option<real>)
      returns (complete: bool, ticks: nat, reports: seq<nat>)
      requires reportS != Some(0.0)
      ensures DelayOutcome(complete, ticks, reports) == DelayRun(tic, tocs, periodS, reportS, 0)
    {
      complete, ticks, reports := false, 0, [];
      var iteration: nat := 0;
      while !complete && ticks < |tocs|
        invariant ticks <= |tocs|
        invariant complete ==> DelayRun(tic, tocs, periodS, reportS, 0) == DelayOutcome(true, ticks, reports)
        invariant !complete ==> DelayRun(tic, tocs, periodS, reportS, 0) ==
                                AfterTicks(ticks, reports, DelayRun(tic, tocs[ticks..], periodS, reportS, iteration))
        decreases |tocs| - ticks, !complete
      {
        var toc := tocs[ticks];
        SuffixTail(tocs, ticks);
        if toc - tic >= periodS {
          assert reports + [] == reports;
          complete := true;
        } else if reportS.Some? && ReportDue(toc - tic, reportS.value, iteration) {
          AfterTicksTwice(ticks, reports, [iteration], DelayRun(tic, tocs[ticks + 1..], periodS, reportS, iteration + 1));
          reports := reports + [iteration];
          iteration := iteration + 1;
        } else {
          AfterTicksTwice(ticks, reports, [], DelayRun(tic, tocs[ticks + 1..], periodS, reportS, iteration));
        }
        ticks := ticks + 1;
      }
    }
  }

  /** Two stretches of ticks, one after the other, make one stretch. */
  lemma AfterTicksTwice(ticks: nat, reports: seq<nat>, more: seq<nat>, later: DelayOutcome)
    ensures AfterTicks(ticks, reports, AfterTicks(1, more, later)) == AfterTicks(ticks + 1, reports + more, later)
  {
    assert reports + (more + later.reports) == (reports + more) + later.reports;
  }

  /** Dropping the first remaining reading of a suffix leaves the next suffix. */
  lemma SuffixTail(s: seq<real>, i: nat)
    requires i < |s|
    ensures s[i..][1..] == s[i + 1..]
  {
  }

  // ---------------------------------------------------------------------
  // Well: the command chains of one cycle, as values.
  // ---------------------------------------------------------------------

  /** The effective arguments of one replenishment cycle, after every omitted
      argument has fallen back to the well's own field. */
  datatype Plan = Plan(sourcePort: Port, inVolumeUl: real, inPort: Port, outVolumeUl: real, outPort: Port)

  /** A bound valve and the port the cycle switches it to. */
  datatype Route = Route(valveId: nat, port: Port)

  /** What the cycle's fixed command chain depends on besides the plan: the
      main drive speed, the exhaust port, and the aspirate and dispense valves
      when bound. */
  datatype Wiring = Wiring(speed: int, exhaustPort: Port, aspir: Option<Route>, disp: Option<Route>)

  /** Defaults of `fillSyringe`: its speed code and the absolute plunger
      position it draws to. */
  const FillSpeed: int := 14
  const FillPosition: int := 700

  /** Switch a valve, submit, and wait until it is ready with a 0.5 s grace. */
  function ValveSwitch(r: Route): seq<Event>
  {
    [ Event(ValveDevice(r.valveId), ChangePort(r.port)),
      Event(ValveDevice(r.valveId), ExecuteChain),
      Event(ValveDevice(r.valveId), WaitReady(0.5)) ]
  }

  /** The calls of `fillSyringe(sourcePort, speed)`, ending with the plunger
      read of its closing `checkSyringe`. */
  function FillEvents(sourcePort: Port, speed: int): seq<Event>
  {
    [ OnPump(SetSpeed(speed)), OnPump(ChangePort(sourcePort)), OnPump(DelayExec(1000)),
      OnPump(MovePlungerAbs(FillPosition)), OnPump(DelayExec(1000)),
      OnPump(ExecuteChain), OnPump(WaitReady(3.0)), OnPump(GetPlungerPos) ]
  }

  /** Submit the queued chain and wait until the device is ready. */
  function Submit(graceS: real): seq<Event>
  {
    [OnPump(ExecuteChain), OnPump(WaitReady(graceS))]
  }

  /** "Aspirate - dry pump": draw `volumeUl` from the out port, submit, push
      it to the exhaust port, submit. */
  function DrainEvents(outPort: Port, volumeUl: real, exhaustPort: Port): seq<Event>
  {
    [OnPump(Aspirate(outPort, volumeUl))] + Submit(2.0) + [OnPump(Dispense(exhaustPort, volumeUl))] + Submit(2.0)
  }

  /** "Dispense - wet pump": push `volumeUl` to the in port, let it settle,
      return the pump to the exhaust port, submit. */
  function DeliverEvents(inPort: Port, volumeUl: real, exhaustPort: Port): seq<Event>
  {
    [OnPump(Dispense(inPort, volumeUl)), OnPump(DelayExec(2000)), OnPump(ChangePort(exhaustPort))] + Submit(2.0)
  }

  /** The switch of an optional valve. */
  function SwitchIfBound(r: Option<Route>): seq<Event>
  {
    if r.Some? then ValveSwitch(r.value) else []
  }

  /** The pump and valve calls of a cycle after the refill decision: drain the
      well to the exhaust port, then deliver fresh volume to the in port. */
  function CycleMoves(w: Wiring, p: Plan): seq<Event>
  {
    [OnPump(SetSpeed(w.speed))]
    + SwitchIfBound(w.aspir)
    + DrainEvents(p.outPort, p.outVolumeUl, w.exhaustPort)
    + SwitchIfBound(w.disp)
    + DeliverEvents(p.inPort, p.inVolumeUl, w.exhaustPort)
  }

  /** The refill rule of `replenishmentCycle`: the cached reading is below the
      volume about to be delivered. */
  predicate NeedsRefill(cachedUl: real, inVolumeUl: real)
  {
    cachedUl < inVolumeUl
  }

  /** Every call of one cycle: check the syringe, refill it if needed, move
      the liquid, check the syringe again. */
  function CycleEvents(w: Wiring, p: Plan, refill: bool): seq<Event>
  {
    [OnPump(GetPlungerPos)]
    + (if refill then FillEvents(p.sourcePort, FillSpeed) else [])
    + CycleMoves(w, p)
    + [OnPump(GetPlungerPos)]
  }
  /** The plunger reads of one cycle: the opening and closing checks, and one
      more after a refill. */
  function CycleReads(refill: bool): (n: nat)
    ensures 2 <= n
  {
    if refill then 3 else 2
  }


  /** The pump's own calls, with every valve call removed. */
  function PumpOnly(events: seq<Event>): seq<Event>
  {
    if events == [] then []
    else (if events[0].device == PumpDevice then [events[0]] else []) + PumpOnly(events[1..])
  }

  lemma {:induction false} PumpOnlyDistributes(a: seq<Event>, b: seq<Event>)
    ensures PumpOnly(a + b) == PumpOnly(a) + PumpOnly(b)
    decreases |a|
  {
    if a != [] {
      assert (a + b)[0] == a[0];
      assert (a + b)[1..] == a[1..] + b;
      PumpOnlyDistributes(a[1..], b);
    } else {
      assert a + b == b;
    }
  }

  lemma {:induction false} PumpOnlyKeepsPumpCalls(s: seq<Event>)
    requires forall i :: 0 <= i < |s| ==> s[i].device == PumpDevice
    ensures PumpOnly(s) == s
    decreases |s|
  {
    if s != [] {
      PumpOnlyKeepsPumpCalls(s[1..]);
    }
  }

  lemma {:induction false} PumpOnlyDropsValveCalls(s: seq<Event>)
    requires forall i :: 0 <= i < |s| ==> s[i].device != PumpDevice
    ensures PumpOnly(s) == []
    decreases |s|
  {
    if s != [] {
      PumpOnlyDropsValveCalls(s[1..]);
    }
  }

  /** Valves only route the liquid: with or without them the pump receives
      exactly the same calls in the same order. */
  lemma ValvesLeavePumpCallsUnchanged(w: Wiring, p: Plan)
    ensures PumpOnly(CycleMoves(w, p)) == CycleMoves(w.(aspir := None, disp := None), p)
  {
    var s := [OnPump(SetSpeed(w.speed))];
    var a := SwitchIfBound(w.aspir);
    var drain := DrainEvents(p.outPort, p.outVolumeUl, w.exhaustPort);
    var d := SwitchIfBound(w.disp);
    var deliver := DeliverEvents(p.inPort, p.inVolumeUl, w.exhaustPort);
    PumpOnlyDistributes(s + a + drain + d, deliver);
    PumpOnlyDistributes(s + a + drain, d);
    PumpOnlyDistributes(s + a, drain);
    PumpOnlyDistributes(s, a);
    PumpOnlyDropsValveCalls(a);
    PumpOnlyDropsValveCalls(d);
    PumpOnlyKeepsPumpCalls(s);
    PumpOnlyKeepsPumpCalls(drain);
    PumpOnlyKeepsPumpCalls(deliver);
    assert CycleMoves(w, p) == s + a + drain + d + deliver;
    assert CycleMoves(w.(aspir := None, disp := None), p) == s + [] + drain + [] + deliver;
  }

  lemma DrainVolume(outPort: Port, volumeUl: real, exhaustPort: Port, aspirate: bool)
    ensures PumpVolume(DrainEvents(outPort, volumeUl, exhaustPort), aspirate) == volumeUl
  {
    var x := [OnPump(Aspirate(outPort, volumeUl))];
    var y := [OnPump(Dispense(exhaustPort, volumeUl))];
    PumpVolumeDistributes(x + Submit(2.0) + y, Submit(2.0), aspirate);
    PumpVolumeDistributes(x + Submit(2.0), y, aspirate);
    PumpVolumeDistributes(x, Submit(2.0), aspirate);
    PumpVolumeOfNoMoves(Submit(2.0), aspirate);
    PumpVolumeOfSingleton(x[0], aspirate);
    PumpVolumeOfSingleton(y[0], aspirate);
  }

  lemma DeliverVolume(inPort: Port, volumeUl: real, exhaustPort: Port, aspirate: bool)
    ensures PumpVolume(DeliverEvents(inPort, volumeUl, exhaustPort), aspirate) == if aspirate then 0.0 else volumeUl
  {
    var x := [OnPump(Dispense(inPort, volumeUl))];
    var rest := [OnPump(DelayExec(2000)), OnPump(ChangePort(exhaustPort))] + Submit(2.0);
    assert DeliverEvents(inPort, volumeUl, exhaustPort) == x + rest;
    PumpVolumeDistributes(x, rest, aspirate);
    PumpVolumeOfNoMoves(rest, aspirate);
    PumpVolumeOfSingleton(x[0], aspirate);
  }

  lemma CycleVolume(w: Wiring, p: Plan, refill: bool, aspirate: bool)
    ensures PumpVolume(CycleEvents(w, p, refill), aspirate) ==
            p.outVolumeUl + (if aspirate then 0.0 else p.inVolumeUl)
  {
    var read := [OnPump(GetPlungerPos)];
    var f := if refill then FillEvents(p.sourcePort, FillSpeed) else [];
    var m := CycleMoves(w, p);
    PumpVolumeDistributes(read + f + m, read, aspirate);
    PumpVolumeDistributes(read + f, m, aspirate);
    PumpVolumeDistributes(read, f, aspirate);
    PumpVolumeOfNoMoves(read, aspirate);
    PumpVolumeOfNoMoves(f, aspirate);
    CycleMovesVolume(w, p, aspirate);
  }

  /** The moves after the refill decision draw the out volume and push out
      the out volume and the in volume. */
  lemma CycleMovesVolume(w: Wiring, p: Plan, aspirate: bool)
    ensures PumpVolume(CycleMoves(w, p), aspirate) ==
            p.outVolumeUl + (if aspirate then 0.0 else p.inVolumeUl)
  {
    var s := [OnPump(SetSpeed(w.speed))];
    var a := SwitchIfBound(w.aspir);
    var drain := DrainEvents(p.outPort, p.outVolumeUl, w.exhaustPort);
    var d := SwitchIfBound(w.disp);
    var deliver := DeliverEvents(p.inPort, p.inVolumeUl, w.exhaustPort);
    PumpVolumeDistributes(s + a + drain + d, deliver, aspirate);
    PumpVolumeDistributes(s + a + drain, d, aspirate);
    PumpVolumeDistributes(s + a, drain, aspirate);
    PumpVolumeDistributes(s, a, aspirate);
    PumpVolumeOfNoMoves(s, aspirate);
    PumpVolumeOfNoMoves(a, aspirate);
    PumpVolumeOfNoMoves(d, aspirate);
    DrainVolume(p.outPort, p.outVolumeUl, w.exhaustPort, aspirate);
    DeliverVolume(p.inPort, p.inVolumeUl, w.exhaustPort, aspirate);
  }

  /** Volume balance of one cycle: the pump draws exactly the out volume (the
      refill moves the plunger, it does not aspirate) and pushes out exactly
      the out volume (to the exhaust) plus the in volume (to the well). */
  lemma CycleVolumeBalance(w: Wiring, p: Plan, refill: bool)
    ensures PumpVolume(CycleEvents(w, p, refill), true) == p.outVolumeUl
    ensures PumpVolume(CycleEvents(w, p, refill), false) == p.outVolumeUl + p.inVolumeUl
  {
    CycleVolume(w, p, refill, true);
    CycleVolume(w, p, refill, false);
  }

  /** The refill chain (the only absolute plunger move of a cycle) is issued
      exactly when the reading taken at the start of the cycle is below the
      volume to deliver. */
  lemma RefillIffReadingBelowInVolume(w: Wiring, p: Plan, reading: int)
    ensures OnPump(MovePlungerAbs(FillPosition)) in CycleEvents(w, p, NeedsRefill(reading as real, p.inVolumeUl))
            <==> reading as real < p.inVolumeUl
  {
    var refill := NeedsRefill(reading as real, p.inVolumeUl);
    var f := if refill then FillEvents(p.sourcePort, FillSpeed) else [];
    assert CycleEvents(w, p, refill) == [OnPump(GetPlungerPos)] + f + (CycleMoves(w, p) + [OnPump(GetPlungerPos)]);
    assert OnPump(MovePlungerAbs(FillPosition)) !in CycleMoves(w, p);
    if refill {
      assert f[3] == OnPump(MovePlungerAbs(FillPosition));
    }
  }

  // ---------------------------------------------------------------------
  // Well: the object.
  // ---------------------------------------------------------------------

  /** `self.state` of a well. */
  datatype WellState = WellState(
    iteration: nat, inVolume: real, outVolume: real,
    dispValve: bool, aspirValve: bool, syringeVolume: real)

  class Well {
    const pump: Pump
    const sourcePort: Port
    const inPort: Port
    const outPort: Port
    const exhaustPort: Port
    const inVolumeUl: real
    const outVolumeUl: real
    const periodS: real
    const tic: int
    const speed: int
    const name: string
    const dispValve: Valve?
    const dispPort: Port
    const aspirValve: Valve?
    const aspirPort: Port
    var state: WellState

    /** The valve flags record which valves were supplied, and every device
        records onto the pump's command log. */
    ghost predicate Valid()
      reads this
    {
      && (state.dispValve <==> dispValve != null)
      && (state.aspirValve <==> aspirValve != null)
      && (dispValve != null ==> dispValve.bus == pump.bus)
      && (aspirValve != null ==> aspirValve.bus == pump.bus)
    }

    constructor (pump: Pump, sourcePort: int, inPort: int, outPort: int, exhaustPort: int,
                 inVolumeUl: real, outVolumeUl: real, periodS: real, tic: real,
                 speed: int := 12, dispValve: Valve? := null, dispPort: Port := NoPort,
                 aspirValve: Valve? := null, aspirPort: Port := NoPort, name: string := "")
      requires dispValve != null ==> dispValve.bus == pump.bus
      requires aspirValve != null ==> aspirValve.bus == pump.bus
      ensures Valid()
      ensures this.pump == pump && this.speed == speed && this.name == name
      ensures this.sourcePort == Numbered(sourcePort) && this.inPort == Numbered(inPort)
      ensures this.outPort == Numbered(outPort) && this.exhaustPort == Numbered(exhaustPort)
      ensures this.inVolumeUl == inVolumeUl && this.outVolumeUl == outVolumeUl
      ensures this.periodS == periodS && this.tic == Schedule.Trunc(tic)
      ensures this.dispValve == dispValve && this.dispPort == dispPort
      ensures this.aspirValve == aspirValve && this.aspirPort == aspirPort
      ensures state == WellState(0, 0.0, 0.0, dispValve != null, aspirValve != null, 0.0)
    {
      this.pump := pump;
      this.sourcePort := Numbered(sourcePort);
      this.inPort := Numbered(inPort);
      this.outPort := Numbered(outPort);
      this.exhaustPort := Numbered(exhaustPort);
      this.inVolumeUl := inVolumeUl;
      this.outVolumeUl := outVolumeUl;
      this.periodS := periodS;
      this.tic := Schedule.Trunc(tic);
      this.speed := speed;
      this.name := name;
      this.dispValve := dispValve;
      this.dispPort := dispPort;
      this.aspirValve := aspirValve;
      this.aspirPort := aspirPort;
      state := WellState(0, 0.0, 0.0, dispValve != null, aspirValve != null, 0.0);
    }

    /** The routing the cycle uses, read from the valve flags. */
    ghost function Routing(): Wiring
      reads this
      requires Valid()
    {
      Wiring(speed, exhaustPort,
             if state.aspirValve then Some(Route(aspirValve.id, aspirPort)) else None,
             if state.dispValve then Some(Route(dispValve.id, dispPort)) else None)
    }

    /** The arguments a call of `replenishmentCycle` takes effect with. */
    function EffectivePlan(sourcePort: Option<Port>, inVolumeUl: Option<real>, inPort: Option<Port>,
                           outVolumeUl: Option<real>, outPort: Option<Port>): (p: Plan)
      ensures sourcePort.None? ==> p.sourcePort == this.sourcePort
      ensures inVolumeUl.None? ==> p.inVolumeUl == this.inVolumeUl
      ensures inPort.None? ==> p.inPort == this.inPort
      ensures outVolumeUl.None? ==> p.outVolumeUl == this.outVolumeUl
      ensures outPort.None? ==> p.outPort == this.outPort
      ensures sourcePort.Some? ==> p.sourcePort == sourcePort.value
      ensures inVolumeUl.Some? ==> p.inVolumeUl == inVolumeUl.value
      ensures inPort.Some? ==> p.inPort == inPort.value
      ensures outVolumeUl.Some? ==> p.outVolumeUl == outVolumeUl.value
      ensures outPort.Some? ==> p.outPort == outPort.value
    {
      Plan(sourcePort.GetOr(this.sourcePort), inVolumeUl.GetOr(this.inVolumeUl), inPort.GetOr(this.inPort),
           outVolumeUl.GetOr(this.outVolumeUl), outPort.GetOr(this.outPort))
    }

    /** `queryStatus(t)`: due exactly from the start of period number
        `iteration`; reads the state and changes nothing. */
    function QueryStatus(t: real): (due: bool)
      reads this
      requires periodS != 0.0
      ensures periodS > 0.0 ==> (due <==> t >= tic as real + state.iteration as real * periodS)
      ensures periodS < 0.0 ==> (due <==> t <= tic as real + state.iteration as real * periodS)
      ensures state.iteration == 0 && t == tic as real ==> due
      ensures periodS > 0.0 && t < tic as real ==> !due
    {
      Schedule.DueIffBoundaryReached(t, tic, periodS, state.iteration);
      Schedule.IsDue(t, tic, periodS, state.iteration)
    }

    /** Whether a cycle with default arguments refills, when its first plunger
        read is the pump's read number `start`. */
    function DefaultRefill(start: nat): bool
    {
      NeedsRefill(pump.positionAt(start) as real, inVolumeUl)
    }

    /** The routing of the supplied valves. `Valid()` ties the valve flags of
        the state to it, so it is the routing every cycle of the well uses. */
    function SuppliedWiring(): (w: Wiring)
      ensures Valid() ==> w == Routing()
    {
      Wiring(speed, exhaustPort,
             if aspirValve != null then Some(Route(aspirValve.id, aspirPort)) else None,
             if dispValve != null then Some(Route(dispValve.id, dispPort)) else None)
    }

    /** Every call of a cycle with default arguments whose first plunger read
        is the pump's read number `start`. */
    function DefaultCycle(start: nat): seq<Event>
    {
      CycleEvents(SuppliedWiring(), EffectivePlan(None, None, None, None, None), DefaultRefill(start))
    }

    /** Accounting of a well driven only with default arguments: the totals
        are the per-cycle volumes times the number of cycles. */
    ghost predicate DefaultAccounting()
      reads this
    {
      && state.inVolume == state.iteration as real * inVolumeUl
      && state.outVolume == state.iteration as real * outVolumeUl
    }

    /** `checkSyringe`: caches the raw plunger position. */
    method CheckSyringe()
      modifies this, pump
      ensures state == old(state).(syringeVolume := pump.positionAt(old(pump.readCount)) as real)
      ensures pump.readCount == old(pump.readCount) + 1 && pump.chainCount == old(pump.chainCount)
      ensures pump.bus.log == old(pump.bus.log) + [OnPump(GetPlungerPos)]
      modifies pump.bus
    {
      var plungerPos := pump.GetPlungerPos();
      state := state.(syringeVolume := plungerPos as real);
    }

    /** `fillSyringe`: draws the plunger to position 700 from the source port,
        then refreshes the cache. */
    method FillSyringe(sourcePort: Option<Port> := None, speed: int := FillSpeed)
      modifies this, pump, pump.bus
      ensures pump.bus.log == old(pump.bus.log) + FillEvents(sourcePort.GetOr(this.sourcePort), speed)
      ensures pump.readCount == old(pump.readCount) + 1 && pump.chainCount == old(pump.chainCount) + 1
      ensures state == old(state).(syringeVolume := pump.positionAt(old(pump.readCount)) as real)
    {
      var port := sourcePort.GetOr(this.sourcePort);
      pump.SetSpeed(speed);
      pump.ChangePort(port);
      pump.DelayExec(1000);
      pump.MovePlungerAbs(FillPosition);
      pump.DelayExec(1000);
      var delay := pump.ExecuteChain();
      pump.WaitReady(3.0);
      CheckSyringe();
    }

    /** `replenishmentCycle`: one drain-and-deliver cycle with the accounting
        update; the cache ends equal to the last reading taken. */
    method ReplenishmentCycle(sourcePort: Option<Port> := None, inVolumeUl: Option<real> := None,
                              inPort: Option<Port> := None, outVolumeUl: Option<real> := None,
                              outPort: Option<Port> := None)
      requires Valid()
      modifies this, pump, pump.bus
      ensures Valid() && Routing() == old(Routing())
      ensures var p := EffectivePlan(sourcePort, inVolumeUl, inPort, outVolumeUl, outPort);
              var refill := NeedsRefill(pump.positionAt(old(pump.readCount)) as real, p.inVolumeUl);
              && pump.bus.log == old(pump.bus.log) + CycleEvents(Routing(), p, refill)
              && pump.readCount == old(pump.readCount) + (if refill then 3 else 2)
              && pump.chainCount == old(pump.chainCount) + (if refill then 4 else 3)
              && state == old(state).(iteration := old(state.iteration) + 1,
                                      inVolume := old(state.inVolume) + p.inVolumeUl,
                                      outVolume := old(state.outVolume) + p.outVolumeUl,
                                      syringeVolume := pump.positionAt(pump.readCount - 1) as real)
      ensures inVolumeUl.None? && outVolumeUl.None? && old(DefaultAccounting()) ==> DefaultAccounting()
    {
      var p := EffectivePlan(sourcePort, inVolumeUl, inPort, outVolumeUl, outPort);
      ghost var w := Routing();
      ghost var log0 := pump.bus.log;
      var refill := CheckSyringeFill(p.sourcePort, p.inVolumeUl);
      ghost var log1 := pump.bus.log;
      MoveLiquid(p);
      ghost var log2 := pump.bus.log;
      CloseCycle(p);
      Accounting.TotalAfterNextCycle(old(state.iteration), this.inVolumeUl);
      Accounting.TotalAfterNextCycle(old(state.iteration), this.outVolumeUl);
      ConcatFour(log0, [OnPump(GetPlungerPos)] + (if refill then FillEvents(p.sourcePort, FillSpeed) else []),
                 CycleMoves(w, p), [OnPump(GetPlungerPos)]);
    }

    /** The accounting update that ends a cycle, followed by the closing
        `checkSyringe`. */
    method CloseCycle(p: Plan)
      modifies this, pump, pump.bus
      ensures state == old(state).(iteration := old(state.iteration) + 1,
                                   inVolume := old(state.inVolume) + p.inVolumeUl,
                                   outVolume := old(state.outVolume) + p.outVolumeUl,
                                   syringeVolume := pump.positionAt(old(pump.readCount)) as real)
      ensures pump.readCount == old(pump.readCount) + 1 && pump.chainCount == old(pump.chainCount)
      ensures pump.bus.log == old(pump.bus.log) + [OnPump(GetPlungerPos)]
    {
      state := state.(iteration := state.iteration + 1,
                      inVolume := state.inVolume + p.inVolumeUl,
                      outVolume := state.outVolume + p.outVolumeUl);
      CheckSyringe();
    }

    /** The liquid movements of a cycle: the drain half, then the delivery
        half. */
    method MoveLiquid(p: Plan)
      requires Valid()
      modifies pump, pump.bus
      ensures pump.bus.log == old(pump.bus.log) + CycleMoves(Routing(), p)
      ensures pump.readCount == old(pump.readCount) && pump.chainCount == old(pump.chainCount) + 3
    {
      ghost var w := Routing();
      ghost var log0 := pump.bus.log;
      ghost var drain := [OnPump(SetSpeed(speed))] + SwitchIfBound(w.aspir) + DrainEvents(p.outPort, p.outVolumeUl, exhaustPort);
      ghost var deliver := SwitchIfBound(w.disp) + DeliverEvents(p.inPort, p.inVolumeUl, exhaustPort);
      DrainStage(p.outPort, p.outVolumeUl);
      ghost var log1 := pump.bus.log;
      assert log1 == log0 + drain;
      DeliverStage(p.inPort, p.inVolumeUl);
      assert pump.bus.log == log1 + deliver;
      AppendAssoc(drain, SwitchIfBound(w.disp), DeliverEvents(p.inPort, p.inVolumeUl, exhaustPort));
      assert CycleMoves(w, p) == drain + deliver;
      AppendAssoc(log0, drain, deliver);
    }

    /** "Check syringe fill": read the plunger, and refill the syringe from
        `src` when the reading is below `inVol`. */
    method CheckSyringeFill(src: Port, inVol: real) returns (refill: bool)
      modifies this, pump, pump.bus
      ensures refill == NeedsRefill(pump.positionAt(old(pump.readCount)) as real, inVol)
      ensures pump.bus.log == old(pump.bus.log) + ([OnPump(GetPlungerPos)]
                              + (if refill then FillEvents(src, FillSpeed) else []))
      ensures pump.readCount == old(pump.readCount) + (if refill then 2 else 1)
      ensures pump.chainCount == old(pump.chainCount) + (if refill then 1 else 0)
      ensures state == old(state).(syringeVolume := pump.positionAt(pump.readCount - 1) as real)
    {
      CheckSyringe();
      refill := state.syringeVolume < inVol;
      if state.syringeVolume < inVol {
        FillSyringe(Some(src));
      }
    }

    /** The drain half of a cycle ("aspirate - dry pump"): the main speed, the
        aspirate valve's switch when bound, then out port to exhaust. */
    method DrainStage(outP: Port, outVol: real)
      requires Valid()
      modifies pump, pump.bus
      ensures pump.bus.log == old(pump.bus.log) + [OnPump(SetSpeed(speed))] + SwitchIfBound(Routing().aspir)
                              + DrainEvents(outP, outVol, exhaustPort)
      ensures pump.readCount == old(pump.readCount) && pump.chainCount == old(pump.chainCount) + 2
    {
      ghost var log0 := pump.bus.log;
      pump.SetSpeed(speed);
      if state.aspirValve {
        aspirValve.ChangePort(aspirPort);
        aspirValve.ExecuteChain();
        aspirValve.WaitReady(0.5);
      }
      assert pump.bus.log == log0 + [OnPump(SetSpeed(speed))] + SwitchIfBound(Routing().aspir);
      DrainPump(outP, outVol);
    }

    /** The pump's part of the drain: out port to syringe, syringe to exhaust,
        each move submitted with a two-second grace. */
    method DrainPump(outP: Port, outVol: real)
      modifies pump, pump.bus
      ensures pump.bus.log == old(pump.bus.log) + DrainEvents(outP, outVol, exhaustPort)
      ensures pump.readCount == old(pump.readCount) && pump.chainCount == old(pump.chainCount) + 2
    {
      ghost var log1 := pump.bus.log;
      pump.Aspirate(outP, outVol);
      var delay := pump.ExecuteChain();
      pump.WaitReady(2.0);
      assert pump.bus.log == log1 + [OnPump(Aspirate(outP, outVol))] + Submit(2.0);
      pump.Dispense(exhaustPort, outVol);
      delay := pump.ExecuteChain();
      pump.WaitReady(2.0);
      assert pump.bus.log == log1 + [OnPump(Aspirate(outP, outVol))] + Submit(2.0)
                             + [OnPump(Dispense(exhaustPort, outVol))] + Submit(2.0);
    }

    /** The delivery half of a cycle ("dispense - wet pump"): the dispense
        valve's switch when bound, then syringe to in port. */
    method DeliverStage(inP: Port, inVol: real)
      requires Valid()
      modifies pump, pump.bus
      ensures pump.bus.log == old(pump.bus.log) + SwitchIfBound(Routing().disp) + DeliverEvents(inP, inVol, exhaustPort)
      ensures pump.readCount == old(pump.readCount) && pump.chainCount == old(pump.chainCount) + 1
    {
      if state.dispValve {
        dispValve.ChangePort(dispPort);
        dispValve.ExecuteChain();
        dispValve.WaitReady(0.5);
      }
      pump.Dispense(inP, inVol);
      pump.DelayExec(2000);
      pump.ChangePort(exhaustPort);
      var delay := pump.ExecuteChain();
      pump.WaitReady(2.0);
    }
  }

  // ---------------------------------------------------------------------
  // The program's polling loop.
  // ---------------------------------------------------------------------

  /** The wells of the program: distinct, valid, with a non-zero period, all
      driven by the one pump. */
  ghost predicate WellsOnPump(pump: Pump, wells: seq<Well>)
    reads wells
  {
    && (forall i, j :: 0 <= i < j < |wells| ==> wells[i] != wells[j])
    && (forall i :: 0 <= i < |wells| ==> wells[i].pump == pump && wells[i].periodS != 0.0 && wells[i].Valid())
  }

  /** The pump's read number after the default cycles of the wells at the
      indices `ran`, in that order, when the first read of the first one is
      read number `start`. */
  function ReadsAfter(wells: seq<Well>, ran: seq<nat>, start: nat): (n: nat)
    requires forall k :: 0 <= k < |ran| ==> ran[k] < |wells|
    ensures start + |ran| <= n
  {
    if ran == [] then start
    else
      var before := ReadsAfter(wells, ran[..|ran| - 1], start);
      before + CycleReads(wells[ran[|ran| - 1]].DefaultRefill(before))
  }

  /** The runs of the wells at the indices `ran`, in that order: each well
      runs its default cycle, starting at the read number the runs before it
      left on the pump. */
  function SweepCycles(wells: seq<Well>, ran: seq<nat>, start: nat): (cycles: seq<seq<Event>>)
    requires forall k :: 0 <= k < |ran| ==> ran[k] < |wells|
    ensures |cycles| == |ran|
  {
    if ran == [] then []
    else
      var before := ran[..|ran| - 1];
      SweepCycles(wells, before, start)
      + [wells[ran[|ran| - 1]].DefaultCycle(ReadsAfter(wells, before, start))]
  }

  /** Run `k` of a sweep is the default cycle of well `ran[k]`, started at the
      read number the first `k` runs left. */
  lemma {:induction false} SweepCycleAt(wells: seq<Well>, ran: seq<nat>, start: nat, k: nat)
    requires forall j :: 0 <= j < |ran| ==> ran[j] < |wells|
    requires k < |ran|
    ensures SweepCycles(wells, ran, start)[k] == wells[ran[k]].DefaultCycle(ReadsAfter(wells, ran[..k], start))
  {
    var before := ran[..|ran| - 1];
    if k < |ran| - 1 {
      SweepCycleAt(wells, before, start, k);
      assert before[..k] == ran[..k];
    } else {
      assert before == ran[..k];
    }
  }

  /** What one sweep does to the state of well `w`: one cycle further on, with
      its volumes counted, when it ran, and nothing otherwise. */
  predicate Swept(w: Well, before: WellState, after: WellState, ran: bool)
  {
    if ran then
      && after.iteration == before.iteration + 1
      && after.inVolume == before.inVolume + w.inVolumeUl
      && after.outVolume == before.outVolume + w.outVolumeUl
    else
      after == before
  }

  /** One pass over the wells with the clock reading `toc` taken at the start
      of the tick: every well due at `toc` runs exactly one cycle, in list
      order; the others are left untouched and send nothing. Returns the
      indices that ran; the pump receives their default cycles one after the
      other (`SweepCycles`), and its read and chain counters advance by
      exactly those cycles' reads and chains. */
  method Sweep(pump: Pump, wells: seq<Well>, toc: real) returns (ran: seq<nat>)
    requires WellsOnPump(pump, wells)
    modifies wells, pump, pump.bus
    ensures WellsOnPump(pump, wells)
    ensures forall k :: 0 <= k < |ran| ==> ran[k] < |wells|
    ensures forall k, l :: 0 <= k < l < |ran| ==> ran[k] < ran[l]
    ensures forall i :: 0 <= i < |wells| ==> (i in ran <==> old(wells[i].QueryStatus(toc)))
    ensures forall i :: 0 <= i < |wells| && i !in ran ==> wells[i].state == old(wells[i].state)
    ensures forall i :: 0 <= i < |wells| && i in ran ==>
              && wells[i].state.iteration == old(wells[i].state.iteration) + 1
              && wells[i].state.inVolume == old(wells[i].state.inVolume) + wells[i].inVolumeUl
              && wells[i].state.outVolume == old(wells[i].state.outVolume) + wells[i].outVolumeUl
    ensures forall i :: 0 <= i < |wells| && old(wells[i].DefaultAccounting()) ==> wells[i].DefaultAccounting()
    ensures pump.bus.log == old(pump.bus.log) + Concat(SweepCycles(wells, ran, old(pump.readCount)))
    ensures pump.readCount == ReadsAfter(wells, ran, old(pump.readCount))
    ensures pump.chainCount - old(pump.chainCount) == pump.readCount - old(pump.readCount) + |ran|
    ensures forall k {:trigger wells[ran[k]].state} :: 0 <= k < |ran| ==>
              wells[ran[k]].state.syringeVolume == pump.positionAt(LastReads(wells, ran, old(pump.readCount))[k]) as real
  {
    ghost var before := seq(|wells|, j requires 0 <= j < |wells| reads wells => wells[j].state);
    ghost var due := seq(|wells|, j requires 0 <= j < |wells| =>
                           wells[j].periodS != 0.0
                           && Schedule.IsDue(toc, wells[j].tic, wells[j].periodS, before[j].iteration));
    ghost var accounted := seq(|wells|, j requires 0 <= j < |wells| reads wells => wells[j].DefaultAccounting());
    assert forall j :: 0 <= j < |wells| ==> before[j] == old(wells[j].state);
    assert forall j :: 0 <= j < |wells| ==> accounted[j] == old(wells[j].DefaultAccounting());
    ran := SweepAll(pump, wells, toc, due, before, accounted);
    Schedule.DueIndicesMembers(due, |wells|);
    assert forall j :: 0 <= j < |wells| ==> (j in ran <==> due[j]);
  }

  /** The read number of the last reading of each run of a sweep, in run
      order. */
  function LastReads(wells: seq<Well>, ran: seq<nat>, start: nat): (last: seq<nat>)
    requires forall k :: 0 <= k < |ran| ==> ran[k] < |wells|
    ensures |last| == |ran|
  {
    if ran == [] then [] else LastReads(wells, ran[..|ran| - 1], start) + [ReadsAfter(wells, ran, start) - 1]
  }

  /** The last reading of run `k` is the read just before the read number
      the first `k + 1` runs leave on the pump. */
  lemma {:induction false} LastReadAt(wells: seq<Well>, ran: seq<nat>, start: nat, k: nat)
    requires forall j :: 0 <= j < |ran| ==> ran[j] < |wells|
    requires k < |ran|
    ensures LastReads(wells, ran, start)[k] + 1 == ReadsAfter(wells, ran[..k + 1], start)
  {
    var before := ran[..|ran| - 1];
    if k < |ran| - 1 {
      LastReadAt(wells, before, start, k);
      assert before[..k + 1] == ran[..k + 1];
    } else {
      assert ran[..k + 1] == ran;
    }
  }

  /** One more run adds its last reading at the end. */
  lemma LastReadsSnoc(wells: seq<Well>, ran: seq<nat>, i: nat, start: nat)
    requires forall k :: 0 <= k < |ran| ==> ran[k] < |wells|
    requires i < |wells|
    ensures LastReads(wells, ran + [i], start)
            == LastReads(wells, ran, start) + [ReadsAfter(wells, ran + [i], start) - 1]
  {
    assert (ran + [i])[..|ran|] == ran;
  }

  /** The loop of a sweep, from the first well to the last. */
  method SweepAll(pump: Pump, wells: seq<Well>, toc: real,
                  ghost due: seq<bool>, ghost before: seq<WellState>, ghost accounted: seq<bool>)
    returns (ran: seq<nat>)
    requires WellsOnPump(pump, wells)
    requires |wells| == |due| == |before| == |accounted|
    requires forall j :: 0 <= j < |wells| ==>
               due[j] == Schedule.IsDue(toc, wells[j].tic, wells[j].periodS, before[j].iteration)
    requires SweptSoFar(pump, wells, 0, [], due, before, accounted, pump.bus.log, pump.readCount, pump.chainCount)
    modifies wells, pump, pump.bus
    ensures WellsOnPump(pump, wells)
    ensures SweptSoFar(pump, wells, |wells|, ran, due, before, accounted,
                       old(pump.bus.log), old(pump.readCount), old(pump.chainCount))
    ensures CachedSoFar(pump, wells, ran, old(pump.readCount))
  {
    ran := [];
    for i := 0 to |wells|
      invariant SweepState(pump, wells, i, ran, due, before, accounted,
                           old(pump.bus.log), old(pump.readCount), old(pump.chainCount))
    {
      ran := SweepStep(pump, wells, toc, i, ran, due, before, accounted,
                       old(pump.bus.log), old(pump.readCount), old(pump.chainCount));
    }
  }

  /** One visit keeps the caches of the earlier runs of a sweep, and adds
      that of well `i` when it ran: on the cached volumes before
      (`volumes0`) and after (`volumes`) the visit. */
  lemma CacheKept(volumes0: seq<real>, volumes: seq<real>, positionAt: nat -> int, wells: seq<Well>,
                  due: seq<bool>, ran0: seq<nat>, ran: seq<nat>, i: nat, start: nat, readCount: nat)
    requires i < |wells| == |due| == |volumes0| == |volumes|
    requires ran0 == Schedule.DueIndices(due, i) && ran == Schedule.DueIndices(due, i + 1)
    requires readCount == ReadsAfter(wells, ran, start)
    requires due[i] ==> readCount >= 1 && volumes[i] == positionAt(readCount - 1) as real
    requires forall j :: 0 <= j < |wells| && j != i ==> volumes[j] == volumes0[j]
    requires Cached(volumes0, positionAt, wells, ran0, start)
    ensures Cached(volumes, positionAt, wells, ran, start)
  {
    var last, last0 := LastReads(wells, ran, start), LastReads(wells, ran0, start);
    if due[i] {
      assert ran == ran0 + [i];
      LastReadsSnoc(wells, ran0, i, start);
      assert last == last0 + [readCount - 1];
    } else {
      assert ran == ran0;
    }
    forall k | 0 <= k < |ran|
      ensures volumes[ran[k]] == positionAt(last[k]) as real
    {
      if k < |ran0| {
        assert ran[k] == ran0[k] < i && last[k] == last0[k];
        assert volumes0[ran0[k]] == positionAt(last0[k]) as real;
      }
    }
  }

  /** What a visit of well `i` does to the caches: the other wells keep
      theirs (`volumes0` is the caches before), and well `i`, when it ran,
      holds the last reading. */
  ghost predicate Recached(pump: Pump, wells: seq<Well>, volumes0: seq<real>, i: nat, ran: bool)
    reads pump, wells
    requires i < |wells|
  {
    var volumes := Volumes(wells);
    && |volumes0| == |wells|
    && (forall j :: 0 <= j < |wells| && j != i ==> volumes[j] == volumes0[j])
    && (ran ==> HoldsLastReading(pump, wells[i]))
  }

  /** A visit that keeps `Recached` extends the caches of the wells that
      ran to the wells below `i + 1`. */
  lemma CacheStep(pump: Pump, wells: seq<Well>, volumes0: seq<real>, due: seq<bool>,
                  ran0: seq<nat>, ran: seq<nat>, i: nat, start: nat)
    requires i < |wells| == |due|
    requires ran0 == Schedule.DueIndices(due, i) && ran == Schedule.DueIndices(due, i + 1)
    requires pump.readCount == ReadsAfter(wells, ran, start)
    requires Recached(pump, wells, volumes0, i, due[i])
    requires Cached(volumes0, pump.positionAt, wells, ran0, start)
    ensures CachedSoFar(pump, wells, ran, start)
  {
    CacheKept(volumes0, Volumes(wells), pump.positionAt, wells, due, ran0, ran, i, start, pump.readCount);
    CachedVolumes(pump, wells, ran, start);
  }

  /** Well `w` holds, as its cached syringe volume, the last reading the
      pump has reported. */
  ghost predicate HoldsLastReading(pump: Pump, w: Well)
    reads pump, w
  {
    pump.readCount >= 1 && w.state.syringeVolume == pump.positionAt(pump.readCount - 1) as real
  }

  /** Each well that ran in a sweep holds the last reading of its own cycle. */
  ghost predicate CachedSoFar(pump: Pump, wells: seq<Well>, ran: seq<nat>, start: nat)
    reads wells, pump
    requires forall k :: 0 <= k < |ran| ==> ran[k] < |wells|
  {
    forall k {:trigger wells[ran[k]].state} :: 0 <= k < |ran| ==>
      wells[ran[k]].state.syringeVolume == pump.positionAt(LastReads(wells, ran, start)[k]) as real
  }

  /** `CachedSoFar` on the wells, and `Cached` on their volumes, say the
      same. */
  lemma CachedVolumes(pump: Pump, wells: seq<Well>, ran: seq<nat>, start: nat)
    requires forall k :: 0 <= k < |ran| ==> ran[k] < |wells|
    ensures CachedSoFar(pump, wells, ran, start) <==> Cached(Volumes(wells), pump.positionAt, wells, ran, start)
  {
    var volumes := Volumes(wells);
    assert forall k :: 0 <= k < |ran| ==> volumes[ran[k]] == wells[ran[k]].state.syringeVolume;
  }

  /** The cached syringe volume of each well. */
  ghost function Volumes(wells: seq<Well>): (v: seq<real>)
    reads wells
    ensures |v| == |wells| && forall j {:trigger v[j]} :: 0 <= j < |wells| ==> v[j] == wells[j].state.syringeVolume
  {
    seq(|wells|, j requires 0 <= j < |wells| reads wells => wells[j].state.syringeVolume)
  }

  /** Each well that ran in a sweep holds the last reading of its own cycle
      (read number `LastReads(wells, ran, start)[k]` for run `k`) in
      `volumes`. */
  ghost predicate Cached(volumes: seq<real>, positionAt: nat -> int, wells: seq<Well>, ran: seq<nat>, start: nat)
    requires forall k :: 0 <= k < |ran| ==> ran[k] < |wells| == |volumes|
  {
    forall k :: 0 <= k < |ran| ==> volumes[ran[k]] == positionAt(LastReads(wells, ran, start)[k]) as real
  }

  /** The state of a sweep after the wells below index `i`: `ran` lists those
      of them that were due, each of them advanced by one cycle and the rest
      left as they were (`before`); the wells whose volumes matched their
      cycle count (`accounted`) still do; and the pump has received the runs
      of `ran`, advancing its counters by theirs. */
  ghost predicate SweptSoFar(pump: Pump, wells: seq<Well>, i: nat, ran: seq<nat>, due: seq<bool>,
                             before: seq<WellState>, accounted: seq<bool>,
                             log0: seq<Event>, reads0: nat, chains0: nat)
    reads wells, pump, pump.bus
    requires i <= |wells| == |due| == |before| == |accounted|
  {
    && ran == Schedule.DueIndices(due, i)
    && (forall j :: 0 <= j < |wells| ==> Swept(wells[j], before[j], wells[j].state, j < i && due[j]))
    && (forall j :: 0 <= j < |wells| && accounted[j] ==> wells[j].DefaultAccounting())
    && pump.bus.log == log0 + Concat(SweepCycles(wells, ran, reads0))
    && pump.readCount == ReadsAfter(wells, ran, reads0)
    && pump.chainCount - chains0 == pump.readCount - reads0 + |ran|
  }

  /** The state of the sweep loop after the wells below index `i`. */
  ghost predicate SweepState(pump: Pump, wells: seq<Well>, i: nat, ran: seq<nat>, due: seq<bool>,
                             before: seq<WellState>, accounted: seq<bool>,
                             log0: seq<Event>, reads0: nat, chains0: nat)
    reads wells, pump, pump.bus
    requires i <= |wells| == |due| == |before| == |accounted|
  {
    && WellsOnPump(pump, wells)
    && SweptSoFar(pump, wells, i, ran, due, before, accounted, log0, reads0, chains0)
    && CachedSoFar(pump, wells, ran, reads0)
  }

  /** One turn of the sweep loop: visits well `i` and extends the sweep's
      state, and the caches of the wells that ran, to the wells below
      `i + 1`. */
  method SweepStep(pump: Pump, wells: seq<Well>, toc: real, i: nat, ran: seq<nat>, ghost due: seq<bool>,
                   ghost before: seq<WellState>, ghost accounted: seq<bool>,
                   ghost log0: seq<Event>, ghost reads0: nat, ghost chains0: nat)
    returns (ran': seq<nat>)
    requires i < |wells| == |due| == |before| == |accounted|
    requires SweepState(pump, wells, i, ran, due, before, accounted, log0, reads0, chains0)
    requires forall j :: 0 <= j < |wells| ==>
               due[j] == Schedule.IsDue(toc, wells[j].tic, wells[j].periodS, before[j].iteration)
    modifies wells[i], pump, pump.bus
    ensures SweepState(pump, wells, i + 1, ran', due, before, accounted, log0, reads0, chains0)
  {
    ghost var volumes0 := Volumes(wells);
    CachedVolumes(pump, wells, ran, reads0);
    assert ran == Schedule.DueIndices(due, i);
    ran' := SweepVisit(pump, wells, toc, i, ran, due, before, accounted, log0, reads0, chains0, volumes0);
    CacheStep(pump, wells, volumes0, due, ran, ran', i, reads0);
  }

  /** The visit of one turn of the sweep loop: visits well `i` and extends
      the sweep's state to the wells below `i + 1`. */
  method SweepVisit(pump: Pump, wells: seq<Well>, toc: real, i: nat, ran: seq<nat>, ghost due: seq<bool>,
                   ghost before: seq<WellState>, ghost accounted: seq<bool>,
                   ghost log0: seq<Event>, ghost reads0: nat, ghost chains0: nat, ghost volumes0: seq<real>)
    returns (ran': seq<nat>)
    requires WellsOnPump(pump, wells)
    requires i < |wells| == |due| == |before| == |accounted|
    requires volumes0 == Volumes(wells)
    requires forall j :: 0 <= j < |wells| ==>
               due[j] == Schedule.IsDue(toc, wells[j].tic, wells[j].periodS, before[j].iteration)
    requires SweptSoFar(pump, wells, i, ran, due, before, accounted, log0, reads0, chains0)
    modifies wells[i], pump, pump.bus
    ensures WellsOnPump(pump, wells)
    ensures SweptSoFar(pump, wells, i + 1, ran', due, before, accounted, log0, reads0, chains0)
    ensures Recached(pump, wells, volumes0, i, due[i])
  {
    var ranNow;
    ghost var run;
    ghost var log1, reads1, chains1 := pump.bus.log, pump.readCount, pump.chainCount;
    assert wells[i].state == before[i];
    ranNow, run := Visit(pump, wells, i, toc, volumes0);
    assert ranNow == due[i];
    assert Swept(wells[i], before[i], wells[i].state, due[i]);
    assert accounted[i] ==> wells[i].DefaultAccounting();
    assert Schedule.DueIndices(due, i + 1) == ran + (if ranNow then [i] else []);
    assert forall j :: 0 <= j < |wells| ==> Swept(wells[j], before[j], wells[j].state, j < i + 1 && due[j]);
    assert forall j :: 0 <= j < |wells| && accounted[j] ==> wells[j].DefaultAccounting();
    SweepBookkeeping(wells, ran, i, ranNow, reads0, chains0, log0, log1, reads1, chains1,
                     run, pump.bus.log, pump.readCount, pump.chainCount);
    ran' := ran;
    if ranNow {
      var next: nat := i;
      ran' := ran + [next];
    }
  }

  /** The counters and the log after one more visit in a sweep, on values:
      from the pump's log and counters before and after visiting well `i`. */
  lemma SweepBookkeeping(wells: seq<Well>, ran: seq<nat>, i: nat, ranNow: bool,
                         firstRead: nat, firstChain: nat, log0: seq<Event>,
                         log1: seq<Event>, reads1: nat, chains1: nat,
                         run: seq<Event>, log2: seq<Event>, reads2: nat, chains2: nat)
    requires forall k :: 0 <= k < |ran| ==> ran[k] < |wells|
    requires i < |wells|
    requires log1 == log0 + Concat(SweepCycles(wells, ran, firstRead))
    requires reads1 == ReadsAfter(wells, ran, firstRead) && chains1 - firstChain == reads1 - firstRead + |ran|
    requires log2 == log1 + run
    requires !ranNow ==> run == [] && reads2 == reads1 && chains2 == chains1
    requires ranNow ==> && run == wells[i].DefaultCycle(reads1)
                        && reads2 == reads1 + CycleReads(wells[i].DefaultRefill(reads1))
                        && chains2 == chains1 + (reads2 - reads1) + 1
    ensures var ran' := if ranNow then ran + [i] else ran;
            && log2 == log0 + Concat(SweepCycles(wells, ran', firstRead))
            && reads2 == ReadsAfter(wells, ran', firstRead)
            && chains2 - firstChain == reads2 - firstRead + |ran'|
  {
    if ranNow {
      SweepLogStep(wells, ran, i, firstRead, log0, run);
    }
  }

  /** The bookkeeping of one more run in a sweep: the log and the read
      number it leaves. */
  lemma SweepLogStep(wells: seq<Well>, ran: seq<nat>, i: nat, start: nat, prefix: seq<Event>, run: seq<Event>)
    requires forall k :: 0 <= k < |ran| ==> ran[k] < |wells|
    requires i < |wells|
    requires run == wells[i].DefaultCycle(ReadsAfter(wells, ran, start))
    ensures (prefix + Concat(SweepCycles(wells, ran, start))) + run
            == prefix + Concat(SweepCycles(wells, ran + [i], start))
    ensures ReadsAfter(wells, ran + [i], start)
            == ReadsAfter(wells, ran, start) + CycleReads(wells[i].DefaultRefill(ReadsAfter(wells, ran, start)))
  {
    var cycles := SweepCycles(wells, ran, start);
    assert (ran + [i])[..|ran|] == ran;
    assert SweepCycles(wells, ran + [i], start) == cycles + [run];
    ConcatSnoc(cycles, run);
    AppendAssoc(prefix, Concat(cycles), run);
  }

  /** One step of a sweep: the well at index `i` runs its default cycle,
      `run`, when it is due at `toc`, and otherwise sends nothing; no other
      well changes. */
  method Visit(pump: Pump, wells: seq<Well>, i: nat, toc: real, ghost volumes0: seq<real>)
    returns (due: bool, ghost run: seq<Event>)
    requires WellsOnPump(pump, wells) && i < |wells|
    requires volumes0 == Volumes(wells)
    modifies wells[i], pump, pump.bus
    ensures WellsOnPump(pump, wells)
    ensures due == Schedule.IsDue(toc, wells[i].tic, wells[i].periodS, old(wells[i].state.iteration))
    ensures forall j :: 0 <= j < |wells| && j != i ==> wells[j].state == old(wells[j].state)
    ensures pump.bus.log == old(pump.bus.log) + run
    ensures !due ==> && run == []
                     && wells[i].state == old(wells[i].state)
                     && pump.readCount == old(pump.readCount)
                     && pump.chainCount == old(pump.chainCount)
    ensures due ==>
              && wells[i].state.iteration == old(wells[i].state.iteration) + 1
              && wells[i].state.inVolume == old(wells[i].state.inVolume) + wells[i].inVolumeUl
              && wells[i].state.outVolume == old(wells[i].state.outVolume) + wells[i].outVolumeUl
    ensures due ==> run == wells[i].DefaultCycle(old(pump.readCount))
    ensures due ==> pump.readCount == old(pump.readCount) + CycleReads(wells[i].DefaultRefill(old(pump.readCount)))
    ensures Recached(pump, wells, volumes0, i, due)
    ensures due ==> pump.chainCount == old(pump.chainCount) + (pump.readCount - old(pump.readCount)) + 1
    ensures old(wells[i].DefaultAccounting()) ==> wells[i].DefaultAccounting()
  {
    var well := wells[i];
    ghost var start := pump.readCount;
    due := well.QueryStatus(toc);
    run := [];
    if due {
      well.ReplenishmentCycle();
      run := well.DefaultCycle(start);
    }
  }

  /** The program's main loop: one clock reading per tick; stop, before
      visiting any well, at the first reading at which `duration` has elapsed
      since `tic`; otherwise sweep the wells. */
  method RunExperiment(pump: Pump, wells: seq<Well>, tic: real, duration: real, tocs: seq<real>)
    returns (complete: bool, ticks: nat)
    requires WellsOnPump(pump, wells)
    modifies wells, pump, pump.bus
    ensures WellsOnPump(pump, wells)
    ensures complete <==> exists k :: 0 <= k < |tocs| && tocs[k] - tic >= duration
    ensures complete ==> 1 <= ticks <= |tocs| && tocs[ticks - 1] - tic >= duration
    ensures complete ==> forall k :: 0 <= k < ticks - 1 ==> tocs[k] - tic < duration
    ensures !complete ==> ticks == |tocs|
    ensures forall i :: 0 <= i < |wells| ==>
              old(wells[i].state.iteration) <= wells[i].state.iteration
              <= old(wells[i].state.iteration) + (if complete then ticks - 1 else ticks)
    ensures forall i :: 0 <= i < |wells| && old(wells[i].DefaultAccounting()) ==> wells[i].DefaultAccounting()
  {
    complete, ticks := false, 0;
    while !complete && ticks < |tocs|
      invariant ticks <= |tocs|
      invariant WellsOnPump(pump, wells)
      invariant forall k :: 0 <= k < ticks - (if complete then 1 else 0) ==> tocs[k] - tic < duration
      invariant complete ==> 1 <= ticks && tocs[ticks - 1] - tic >= duration
      invariant forall i :: 0 <= i < |wells| ==>
                  old(wells[i].state.iteration) <= wells[i].state.iteration
                  <= old(wells[i].state.iteration) + (if complete then ticks - 1 else ticks)
      invariant forall i :: 0 <= i < |wells| && old(wells[i].DefaultAccounting()) ==> wells[i].DefaultAccounting()
      decreases |tocs| - ticks, !complete
    {
      var toc := tocs[ticks];
      ticks := ticks + 1;
      if toc - tic >= duration {
        complete := true;
      } else {
        SweepTick(pump, wells, toc);
      }
    }
  }

  /** What the main loop needs of one sweep: every well advances by at most
      one cycle and keeps its accounting. */
  method SweepTick(pump: Pump, wells: seq<Well>, toc: real)
    requires WellsOnPump(pump, wells)
    modifies wells, pump, pump.bus
    ensures WellsOnPump(pump, wells)
    ensures forall i :: 0 <= i < |wells| ==>
              old(wells[i].state.iteration) <= wells[i].state.iteration <= old(wells[i].state.iteration) + 1
    ensures forall i :: 0 <= i < |wells| && old(wells[i].DefaultAccounting()) ==> wells[i].DefaultAccounting()
  {
    var ran := Sweep(pump, wells, toc);
  }
}
