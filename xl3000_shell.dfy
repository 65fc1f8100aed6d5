/**
 * The delivery-only well of the XP3000 shell program: each cycle reads the
 * plunger, refills the syringe to full stroke when the cached volume is
 * within a 25% margin of the volume to deliver, and dispenses that volume to
 * the in port. Plunger positions are converted to microlitres against the
 * pump's syringe size.
 */
module Xl3000Shell {
  import opened Wrappers
  import opened Devices
  import Schedule
  import Accounting

  // ---------------------------------------------------------------------
  // Plunger positions and volumes.
  // ---------------------------------------------------------------------

  /** Plunger increments of a full stroke. */
  const FullScale: int := 3000

  /** `checkSyringe`'s conversion: `(position / 3000) * syringe_ul`. */
  function PositionToVolume(position: int, syringeUl: real): real
  {
    (position as real / FullScale as real) * syringeUl
  }

  /** The inverse conversion, for a syringe of non-zero size. */
  function VolumeToPosition(volumeUl: real, syringeUl: real): real
    requires syringeUl != 0.0
  {
    volumeUl / syringeUl * FullScale as real
  }

  /** An empty syringe reads 0 µL; a full stroke reads the syringe size. */
  lemma EmptyAndFullStroke(syringeUl: real)
    ensures PositionToVolume(0, syringeUl) == 0.0
    ensures PositionToVolume(FullScale, syringeUl) == syringeUl
  {
  }

  lemma ProductOfNonNegatives(a: real, b: real)
    requires 0.0 <= a && 0.0 <= b
    ensures 0.0 <= a * b
  {
  }

  /** The conversion is linear in the position. */
  lemma PositionToVolumeDifference(p1: int, p2: int, syringeUl: real)
    ensures PositionToVolume(p2, syringeUl) - PositionToVolume(p1, syringeUl)
            == ((p2 - p1) as real / FullScale as real) * syringeUl
  {
    var a := p1 as real / FullScale as real;
    var b := p2 as real / FullScale as real;
    assert b - a == (p2 - p1) as real / FullScale as real;
    assert b * syringeUl - a * syringeUl == (b - a) * syringeUl;
  }

  /** For a syringe of non-negative size, a further-drawn plunger never reads
      less volume. */
  lemma PositionToVolumeMonotone(p1: int, p2: int, syringeUl: real)
    requires 0.0 <= syringeUl
    requires p1 <= p2
    ensures PositionToVolume(p1, syringeUl) <= PositionToVolume(p2, syringeUl)
  {
    PositionToVolumeDifference(p1, p2, syringeUl);
    ProductOfNonNegatives((p2 - p1) as real / FullScale as real, syringeUl);
  }

  /** The reading determines the position: converting back recovers it. */
  lemma VolumeRoundTrip(position: int, syringeUl: real)
    requires syringeUl != 0.0
    ensures VolumeToPosition(PositionToVolume(position, syringeUl), syringeUl) == position as real
  {
    var q := position as real / FullScale as real;
    assert q * syringeUl / syringeUl == q;
    assert q * FullScale as real == position as real;
  }

  // ---------------------------------------------------------------------
  // The refill rule.
  // ---------------------------------------------------------------------

  /** `deliveryCycle`'s refill rule: the cached volume is at most 1.25 times
      the volume about to be delivered. */
  predicate NeedsRefill(cachedUl: real, inVolumeUl: real)
  {
    cachedUl <= 1.25 * inVolumeUl
  }

  /** A skipped refill leaves more than a quarter of the delivered volume
      in the syringe after delivery; a cache of exactly 1.25 times the
      volume already triggers a refill. */
  lemma SkippedRefillLeavesMargin(cachedUl: real, inVolumeUl: real)
    ensures NeedsRefill(1.25 * inVolumeUl, inVolumeUl)
    ensures !NeedsRefill(cachedUl, inVolumeUl) ==> cachedUl - inVolumeUl > 0.25 * inVolumeUl
  {
  }

  /** Straight after a full-stroke fill the cache holds the syringe size, so
      the next cycle refills again exactly when the syringe holds no more
      than 1.25 deliveries, i.e. when the volume is at least 80% of it. */
  lemma FullSyringeRefillThreshold(syringeUl: real, inVolumeUl: real)
    ensures NeedsRefill(PositionToVolume(FullScale, syringeUl), inVolumeUl) <==> 0.8 * syringeUl <= inVolumeUl
  {
    EmptyAndFullStroke(syringeUl);
  }

  // ---------------------------------------------------------------------
  // The command chains of one cycle, as values.
  // ---------------------------------------------------------------------

  /** Default speed code of `fillSyringe`. */
  const FillSpeed: int := 10

  /** The effective arguments of one delivery cycle, after every omitted
      argument has fallen back to the well's own field. */
  datatype Plan = Plan(inVolumeUl: real, inPort: Port, sourcePort: Port)

  /** The calls of `fillSyringe(sourcePort, speed)`: draw the plunger to full
      stroke from the source port, submit, call `waitReady` with the value
      the submit returned (`delayS`), then read the plunger. */
  function FillEvents(sourcePort: Port, speed: int, delayS: real): seq<Event>
  {
    [ OnPump(SetSpeed(speed)), OnPump(ChangePort(sourcePort)), OnPump(DelayExec(1000)),
      OnPump(MovePlungerAbs(FullScale)), OnPump(DelayExec(1000)),
      OnPump(ExecuteChain), OnPump(WaitReady(delayS)), OnPump(GetPlungerPos) ]
  }

  /** The dispense of a cycle: push the volume to the in port, settle, turn
      back to the source port, submit, and call `waitReady` with the value
      the submit returned (`delayS`). */
  function DispenseEvents(speed: int, p: Plan, delayS: real): seq<Event>
  {
    [ OnPump(SetSpeed(speed)), OnPump(Dispense(p.inPort, p.inVolumeUl)), OnPump(DelayExec(1000)),
      OnPump(ChangePort(p.sourcePort)), OnPump(ExecuteChain), OnPump(WaitReady(delayS)) ]
  }

  /** Every call of one cycle: read the plunger, refill if needed, dispense.
      `fillDelayS` and `dispenseDelayS` are the values `executeChain`
      returned for the two submitted chains. */
  function CycleEvents(speed: int, p: Plan, refill: bool, fillDelayS: real, dispenseDelayS: real): seq<Event>
  {
    [OnPump(GetPlungerPos)]
    + (if refill then FillEvents(p.sourcePort, FillSpeed, fillDelayS) else [])
    + DispenseEvents(speed, p, dispenseDelayS)
  }
  /** The plunger reads of one cycle, which are also its chains: a second
      read and chain come with a refill. */
  function CycleReads(refill: bool): (n: nat)
    ensures 1 <= n
  {
    if refill then 2 else 1
  }


  /** A cycle pushes out exactly the delivered volume and aspirates nothing:
      the refill moves the plunger to an absolute position instead. */
  lemma CycleDispensesInVolume(speed: int, p: Plan, refill: bool, fillDelayS: real, dispenseDelayS: real)
    ensures PumpVolume(CycleEvents(speed, p, refill, fillDelayS, dispenseDelayS), false) == p.inVolumeUl
    ensures PumpVolume(CycleEvents(speed, p, refill, fillDelayS, dispenseDelayS), true) == 0.0
  {
    var read := [OnPump(GetPlungerPos)];
    var f := if refill then FillEvents(p.sourcePort, FillSpeed, fillDelayS) else [];
    var s := [OnPump(SetSpeed(speed))];
    var x := [OnPump(Dispense(p.inPort, p.inVolumeUl))];
    var rest := [OnPump(DelayExec(1000)), OnPump(ChangePort(p.sourcePort)), OnPump(ExecuteChain),
                 OnPump(WaitReady(dispenseDelayS))];
    assert DispenseEvents(speed, p, dispenseDelayS) == s + x + rest;
    assert CycleEvents(speed, p, refill, fillDelayS, dispenseDelayS) == read + f + s + x + rest;
    PumpVolumeDistributes(read + f + s + x, rest, false);
    PumpVolumeDistributes(read + f + s, x, false);
    PumpVolumeDistributes(read + f, s, false);
    PumpVolumeDistributes(read, f, false);
    PumpVolumeOfNoMoves(read, false);
    PumpVolumeOfNoMoves(f, false);
    PumpVolumeOfNoMoves(s, false);
    PumpVolumeOfNoMoves(rest, false);
    PumpVolumeOfSingleton(x[0], false);
    PumpVolumeDistributes(read + f + s + x, rest, true);
    PumpVolumeDistributes(read + f + s, x, true);
    PumpVolumeDistributes(read + f, s, true);
    PumpVolumeDistributes(read, f, true);
    PumpVolumeOfNoMoves(read, true);
    PumpVolumeOfNoMoves(f, true);
    PumpVolumeOfNoMoves(s, true);
    PumpVolumeOfNoMoves(x, true);
    PumpVolumeOfNoMoves(rest, true);
  }

  /** The cycle ends with the submit of the dispense chain and a `waitReady`
      given the value that submit returned, and nothing after the dispense
      reads the plunger: the cache is not refreshed after delivery. */
  lemma CycleEndsWithoutReread(speed: int, p: Plan, refill: bool, fillDelayS: real, dispenseDelayS: real)
    ensures var c := CycleEvents(speed, p, refill, fillDelayS, dispenseDelayS);
            && |c| >= 6
            && c[|c| - 1] == OnPump(WaitReady(dispenseDelayS))
            && c[|c| - 2] == OnPump(ExecuteChain)
            && c[|c| - 5] == OnPump(Dispense(p.inPort, p.inVolumeUl))
            && forall j :: |c| - 5 <= j < |c| ==> c[j].cmd != GetPlungerPos
  {
    var pre := [OnPump(GetPlungerPos)] + (if refill then FillEvents(p.sourcePort, FillSpeed, fillDelayS) else []);
    var d := DispenseEvents(speed, p, dispenseDelayS);
    var c := CycleEvents(speed, p, refill, fillDelayS, dispenseDelayS);
    assert c == pre + d;
    assert forall j :: |c| - 6 <= j < |c| ==> c[j] == d[j - |pre|];
  }

  /** The refill chain (the only absolute plunger move of a cycle) is issued
      exactly when the cache is within the refill margin. */
  lemma RefillIffCacheWithinMargin(speed: int, p: Plan, cachedUl: real, fillDelayS: real, dispenseDelayS: real)
    ensures OnPump(MovePlungerAbs(FullScale))
            in CycleEvents(speed, p, NeedsRefill(cachedUl, p.inVolumeUl), fillDelayS, dispenseDelayS)
            <==> cachedUl <= 1.25 * p.inVolumeUl
  {
    var refill := NeedsRefill(cachedUl, p.inVolumeUl);
    var f := if refill then FillEvents(p.sourcePort, FillSpeed, fillDelayS) else [];
    var d := DispenseEvents(speed, p, dispenseDelayS);
    assert CycleEvents(speed, p, refill, fillDelayS, dispenseDelayS) == [OnPump(GetPlungerPos)] + f + d;
    assert OnPump(MovePlungerAbs(FullScale)) !in d;
    if refill {
      assert f[3] == OnPump(MovePlungerAbs(FullScale));
    }
  }

  // ---------------------------------------------------------------------
  // Well: the object.
  // ---------------------------------------------------------------------

  /** The well's `state` record. */
  datatype WellState = WellState(iteration: nat, inVolume: real, syringeVolume: real)

  /** One isolated experiment fed from `sourcePort` through `inPort`. */
  class Well {
    const pump: Pump
    const inPort: Port
    const sourcePort: Port
    const inVolumeUl: real
    const periodS: real
    const speed: int
    const tic: int
    const name: string
    var state: WellState

    /** Stores the settings, truncates the start time to whole seconds and
        zeroes the counters. */
    constructor (pump: Pump, inPort: Port, sourcePort: Port, inVolumeUl: real, periodS: real,
                 speed: int, tic: real, name: string := "")
      ensures this.pump == pump && this.inPort == inPort && this.sourcePort == sourcePort
      ensures this.inVolumeUl == inVolumeUl && this.periodS == periodS && this.speed == speed
      ensures this.tic == Schedule.Trunc(tic) && this.name == name
      ensures state == WellState(0, 0.0, 0.0)
    {
      this.pump := pump;
      this.inPort := inPort;
      this.sourcePort := sourcePort;
      this.inVolumeUl := inVolumeUl;
      this.periodS := periodS;
      this.speed := speed;
      this.tic := Schedule.Trunc(tic);
      this.name := name;
      state := WellState(0, 0.0, 0.0);
    }

    /** The arguments a call of `deliveryCycle` takes effect with. */
    function EffectivePlan(inVolumeUl: Option<real>, inPort: Option<Port>, sourcePort: Option<Port>): (p: Plan)
      ensures inVolumeUl.None? ==> p.inVolumeUl == this.inVolumeUl
      ensures inPort.None? ==> p.inPort == this.inPort
      ensures sourcePort.None? ==> p.sourcePort == this.sourcePort
      ensures inVolumeUl.Some? ==> p.inVolumeUl == inVolumeUl.value
      ensures inPort.Some? ==> p.inPort == inPort.value
      ensures sourcePort.Some? ==> p.sourcePort == sourcePort.value
    {
      Plan(inVolumeUl.GetOr(this.inVolumeUl), inPort.GetOr(this.inPort), sourcePort.GetOr(this.sourcePort))
    }

    /** `queryStatus(t)`: the same due rule as the main program's wells. */
    function QueryStatus(t: real): (due: bool)
      reads this
      requires periodS != 0.0
      ensures periodS > 0.0 ==> (due <==> t >= tic as real + state.iteration as real * periodS)
      ensures periodS < 0.0 ==> (due <==> t <= tic as real + state.iteration as real * periodS)
      ensures state.iteration == 0 && t == tic as real ==> due
    {
      Schedule.DueIffBoundaryReached(t, tic, periodS, state.iteration);
      Schedule.IsDue(t, tic, periodS, state.iteration)
    }

    /** Accounting of a well driven only with default arguments. */
    ghost predicate DefaultAccounting()
      reads this
    {
      state.inVolume == state.iteration as real * inVolumeUl
    }

    /** Whether a cycle with default arguments refills, when its first plunger
        read is the pump's read number `start`. */
    function DefaultRefill(start: nat): bool
    {
      NeedsRefill(PositionToVolume(pump.positionAt(start), pump.syringeUl), inVolumeUl)
    }

    /** The log of a cycle with default arguments whose first plunger read is
        read number `firstRead` and whose first chain is chain number `firstChain`. */
    function DefaultCycle(firstRead: nat, firstChain: nat): seq<Event>
    {
      var refill := DefaultRefill(firstRead);
      CycleEvents(speed, EffectivePlan(None, None, None), refill,
                  pump.delayAt(firstChain), pump.delayAt(firstChain + (if refill then 1 else 0)))
    }

    /** `checkSyringe`: caches the reading converted to microlitres. */
    method CheckSyringe()
      modifies this, pump, pump.bus
      ensures state == old(state).(syringeVolume := PositionToVolume(pump.positionAt(old(pump.readCount)), pump.syringeUl))
      ensures pump.readCount == old(pump.readCount) + 1 && pump.chainCount == old(pump.chainCount)
      ensures pump.bus.log == old(pump.bus.log) + [OnPump(GetPlungerPos)]
    {
      var plungerPos := pump.GetPlungerPos();
      state := state.(syringeVolume := (plungerPos as real / FullScale as real) * pump.syringeUl);
    }

    /** `fillSyringe`: draws the plunger to full stroke from the source port,
        submits, calls `waitReady` with the value the submit returned, then
        refreshes the cache. */
    method FillSyringe(sourcePort: Option<Port> := None, speed: int := FillSpeed)
      modifies this, pump, pump.bus
      ensures pump.bus.log == old(pump.bus.log)
                              + FillEvents(sourcePort.GetOr(this.sourcePort), speed, pump.delayAt(old(pump.chainCount)))
      ensures pump.readCount == old(pump.readCount) + 1 && pump.chainCount == old(pump.chainCount) + 1
      ensures state == old(state).(syringeVolume := PositionToVolume(pump.positionAt(old(pump.readCount)), pump.syringeUl))
    {
      var port := sourcePort.GetOr(this.sourcePort);
      pump.SetSpeed(speed);
      pump.ChangePort(port);
      pump.DelayExec(1000);
      pump.MovePlungerAbs(FullScale);
      pump.DelayExec(1000);
      var delay := pump.ExecuteChain();
      pump.WaitReady(delay);
      CheckSyringe();
    }

    /** `deliveryCycle`: check the syringe, refill it when the cache is within
        the margin, dispense, and update the accounting. The cache keeps the
        last reading taken, from before the dispense. */
    method DeliveryCycle(inVolumeUl: Option<real> := None, inPort: Option<Port> := None,
                         sourcePort: Option<Port> := None)
      modifies this, pump, pump.bus
      ensures var p := EffectivePlan(inVolumeUl, inPort, sourcePort);
              var refill := NeedsRefill(PositionToVolume(pump.positionAt(old(pump.readCount)), pump.syringeUl),
                                        p.inVolumeUl);
              && pump.bus.log == old(pump.bus.log)
                                 + CycleEvents(speed, p, refill, pump.delayAt(old(pump.chainCount)),
                                               pump.delayAt(old(pump.chainCount) + (if refill then 1 else 0)))
              && pump.readCount == old(pump.readCount) + (if refill then 2 else 1)
              && pump.chainCount == old(pump.chainCount) + (if refill then 2 else 1)
              && state == WellState(old(state.iteration) + 1, old(state.inVolume) + p.inVolumeUl,
                                    PositionToVolume(pump.positionAt(pump.readCount - 1), pump.syringeUl))
      ensures inVolumeUl.None? && old(DefaultAccounting()) ==> DefaultAccounting()
    {
      var p := EffectivePlan(inVolumeUl, inPort, sourcePort);
      ghost var log0 := pump.bus.log;
      ghost var chain0 := pump.chainCount;
      var refill := CheckSyringeFill(p.sourcePort, p.inVolumeUl);
      ghost var fill := if refill then FillEvents(p.sourcePort, FillSpeed, pump.delayAt(chain0)) else [];
      ghost var log1 := pump.bus.log;
      assert log1 == log0 + ([OnPump(GetPlungerPos)] + fill);
      DispenseStage(p);
      assert pump.bus.log == log1 + DispenseEvents(speed, p, pump.delayAt(pump.chainCount - 1));
      AppendAssoc(log0, [OnPump(GetPlungerPos)] + fill, DispenseEvents(speed, p, pump.delayAt(pump.chainCount - 1)));
      state := state.(iteration := state.iteration + 1, inVolume := state.inVolume + p.inVolumeUl);
      Accounting.TotalAfterNextCycle(old(state.iteration), this.inVolumeUl);
    }

    /** "Check syringe fill": read the plunger, and refill from `src` when
        the cache is within the margin of `inVol`. */
    method CheckSyringeFill(src: Port, inVol: real) returns (refill: bool)
      modifies this, pump, pump.bus
      ensures refill == NeedsRefill(PositionToVolume(pump.positionAt(old(pump.readCount)), pump.syringeUl), inVol)
      ensures pump.bus.log == old(pump.bus.log)
                              + ([OnPump(GetPlungerPos)]
                                 + (if refill then FillEvents(src, FillSpeed, pump.delayAt(old(pump.chainCount))) else []))
      ensures pump.readCount == old(pump.readCount) + (if refill then 2 else 1)
      ensures pump.chainCount == old(pump.chainCount) + (if refill then 1 else 0)
      ensures state == old(state).(syringeVolume := PositionToVolume(pump.positionAt(pump.readCount - 1), pump.syringeUl))
    {
      CheckSyringe();
      refill := state.syringeVolume <= 1.25 * inVol;
      if refill {
        FillSyringe(Some(src));
      }
    }

    /** The dispense chain of a cycle, ending with a `waitReady` given the
        value its submit returned. */
    method DispenseStage(p: Plan)
      modifies pump, pump.bus
      ensures pump.bus.log == old(pump.bus.log) + DispenseEvents(speed, p, pump.delayAt(old(pump.chainCount)))
      ensures pump.readCount == old(pump.readCount) && pump.chainCount == old(pump.chainCount) + 1
    {
      pump.SetSpeed(speed);
      pump.Dispense(p.inPort, p.inVolumeUl);
      pump.DelayExec(1000);
      pump.ChangePort(p.sourcePort);
      var delay := pump.ExecuteChain();
      pump.WaitReady(delay);
    }
  }

  // ---------------------------------------------------------------------
  // The program's polling loop.
  // ---------------------------------------------------------------------

  /** The wells of the program: distinct, with a non-zero period, all driven
      by the one pump. */
  ghost predicate WellsOnPump(pump: Pump, wells: seq<Well>)
    reads wells
  {
    && (forall i, j :: 0 <= i < j < |wells| ==> wells[i] != wells[j])
    && (forall i :: 0 <= i < |wells| ==> wells[i].pump == pump && wells[i].periodS != 0.0)
  }

  /** The pump's read number after the default cycles of the wells at the
      indices `ran`, in that order, when the first read of the first one is
      read number `start`. */
  function ReadsAfter(wells: seq<Well>, ran: seq<nat>, start: nat): (n: nat)
    requires forall k :: 0 <= k < |ran| ==> ran[k] < |wells|
    ensures start + |ran| <= n
  {
    if ran == [] then start
    else
      var before := ReadsAfter(wells, ran[..|ran| - 1], start);
      before + CycleReads(wells[ran[|ran| - 1]].DefaultRefill(before))
  }

  /** The runs of the wells at the indices `ran`, in that order, when the
      first one starts at read number `firstRead` and chain number `firstChain`: each
      well runs its default cycle, starting where the runs before it left the
      pump's counters, which advance together. */
  function SweepCycles(wells: seq<Well>, ran: seq<nat>, firstRead: nat, firstChain: nat): (cycles: seq<seq<Event>>)
    requires forall k :: 0 <= k < |ran| ==> ran[k] < |wells|
    ensures |cycles| == |ran|
  {
    if ran == [] then []
    else
      var before := ran[..|ran| - 1];
      var r := ReadsAfter(wells, before, firstRead);
      SweepCycles(wells, before, firstRead, firstChain)
      + [wells[ran[|ran| - 1]].DefaultCycle(r, firstChain + (r - firstRead))]
  }

  /** Run `k` of a sweep is the default cycle of well `ran[k]`, started at the
      counters the first `k` runs left: read number `r` and the chain as many
      further on. */
  lemma {:induction false} SweepCycleAt(wells: seq<Well>, ran: seq<nat>, firstRead: nat, firstChain: nat, k: nat, r: nat)
    requires forall j :: 0 <= j < |ran| ==> ran[j] < |wells|
    requires k < |ran|
    requires r == ReadsAfter(wells, ran[..k], firstRead)
    ensures SweepCycles(wells, ran, firstRead, firstChain)[k]
            == wells[ran[k]].DefaultCycle(r, firstChain + (r - firstRead))
  {
    var before := ran[..|ran| - 1];
    if k < |ran| - 1 {
      assert before[..k] == ran[..k] && before[k] == ran[k];
      SweepCyclesKeep(wells, ran, firstRead, firstChain, k);
      SweepCycleAt(wells, before, firstRead, firstChain, k, r);
    } else {
      assert before == ran[..k];
      SweepCycleLast(wells, ran, firstRead, firstChain);
    }
  }

  /** The last run of a sweep starts where the runs before it left the counters. */
  lemma SweepCycleLast(wells: seq<Well>, ran: seq<nat>, firstRead: nat, firstChain: nat)
    requires forall j :: 0 <= j < |ran| ==> ran[j] < |wells|
    requires ran != []
    ensures var r := ReadsAfter(wells, ran[..|ran| - 1], firstRead);
            SweepCycles(wells, ran, firstRead, firstChain)[|ran| - 1]
            == wells[ran[|ran| - 1]].DefaultCycle(r, firstChain + (r - firstRead))
  {
  }

  /** A later run leaves the earlier runs of a sweep as they were. */
  lemma SweepCyclesKeep(wells: seq<Well>, ran: seq<nat>, firstRead: nat, firstChain: nat, k: nat)
    requires forall j :: 0 <= j < |ran| ==> ran[j] < |wells|
    requires k < |ran| - 1
    ensures SweepCycles(wells, ran, firstRead, firstChain)[k]
            == SweepCycles(wells, ran[..|ran| - 1], firstRead, firstChain)[k]
  {
  }

  /** What one sweep does to the state of well `w`: one cycle further on, with
      its volume counted, when it ran, and nothing otherwise. */
  predicate Swept(w: Well, before: WellState, after: WellState, ran: bool)
  {
    if ran then
      && after.iteration == before.iteration + 1
      && after.inVolume == before.inVolume + w.inVolumeUl
    else
      after == before
  }

  /** One pass over the wells with the clock reading `toc` taken at the start
      of the tick: every well due at `toc` runs exactly one cycle, in list
      order; the others are left untouched and send nothing. Returns the
      indices that ran; the pump receives their default cycles one after the
      other (`SweepCycles`), and its read and chain counters advance by
      exactly those cycles' reads and chains. */
  method Sweep(pump: Pump, wells: seq<Well>, toc: real) returns (ran: seq<nat>)
    requires WellsOnPump(pump, wells)
    modifies wells, pump, pump.bus
    ensures WellsOnPump(pump, wells)
    ensures forall k :: 0 <= k < |ran| ==> ran[k] < |wells|
    ensures forall k, l :: 0 <= k < l < |ran| ==> ran[k] < ran[l]
    ensures forall i :: 0 <= i < |wells| ==> (i in ran <==> old(wells[i].QueryStatus(toc)))
    ensures forall i :: 0 <= i < |wells| && i !in ran ==> wells[i].state == old(wells[i].state)
    ensures forall i :: 0 <= i < |wells| && i in ran ==>
              && wells[i].state.iteration == old(wells[i].state.iteration) + 1
              && wells[i].state.inVolume == old(wells[i].state.inVolume) + wells[i].inVolumeUl
    ensures forall i :: 0 <= i < |wells| && old(wells[i].DefaultAccounting()) ==> wells[i].DefaultAccounting()
    ensures pump.bus.log
            == old(pump.bus.log) + Concat(SweepCycles(wells, ran, old(pump.readCount), old(pump.chainCount)))
    ensures pump.readCount == ReadsAfter(wells, ran, old(pump.readCount))
    ensures pump.chainCount - old(pump.chainCount) == pump.readCount - old(pump.readCount)
    ensures forall k {:trigger wells[ran[k]].state} :: 0 <= k < |ran| ==>
              wells[ran[k]].state.syringeVolume
              == PositionToVolume(pump.positionAt(LastReads(wells, ran, old(pump.readCount))[k]), pump.syringeUl)
  {
    ghost var before := seq(|wells|, j requires 0 <= j < |wells| reads wells => wells[j].state);
    ghost var due := seq(|wells|, j requires 0 <= j < |wells| =>
                           wells[j].periodS != 0.0
                           && Schedule.IsDue(toc, wells[j].tic, wells[j].periodS, before[j].iteration));
    ghost var accounted := seq(|wells|, j requires 0 <= j < |wells| reads wells => wells[j].DefaultAccounting());
    assert forall j :: 0 <= j < |wells| ==> before[j] == old(wells[j].state);
    assert forall j :: 0 <= j < |wells| ==> accounted[j] == old(wells[j].DefaultAccounting());
    ran := SweepAll(pump, wells, toc, due, before, accounted);
    Schedule.DueIndicesMembers(due, |wells|);
    assert forall j :: 0 <= j < |wells| ==> (j in ran <==> due[j]);
  }

  /** The read number of the last reading of each run of a sweep, in run
      order. */
  function LastReads(wells: seq<Well>, ran: seq<nat>, start: nat): (last: seq<nat>)
    requires forall k :: 0 <= k < |ran| ==> ran[k] < |wells|
    ensures |last| == |ran|
  {
    if ran == [] then [] else LastReads(wells, ran[..|ran| - 1], start) + [ReadsAfter(wells, ran, start) - 1]
  }

  /** The last reading of run `k` is the read just before the read number
      the first `k + 1` runs leave on the pump. */
  lemma {:induction false} LastReadAt(wells: seq<Well>, ran: seq<nat>, start: nat, k: nat)
    requires forall j :: 0 <= j < |ran| ==> ran[j] < |wells|
    requires k < |ran|
    ensures LastReads(wells, ran, start)[k] + 1 == ReadsAfter(wells, ran[..k + 1], start)
  {
    var before := ran[..|ran| - 1];
    if k < |ran| - 1 {
      LastReadAt(wells, before, start, k);
      assert before[..k + 1] == ran[..k + 1];
    } else {
      assert ran[..k + 1] == ran;
    }
  }

  /** One more run adds its last reading at the end. */
  lemma LastReadsSnoc(wells: seq<Well>, ran: seq<nat>, i: nat, start: nat)
    requires forall k :: 0 <= k < |ran| ==> ran[k] < |wells|
    requires i < |wells|
    ensures LastReads(wells, ran + [i], start)
            == LastReads(wells, ran, start) + [ReadsAfter(wells, ran + [i], start) - 1]
  {
    assert (ran + [i])[..|ran|] == ran;
  }

  /** The loop of a sweep, from the first well to the last. */
  method SweepAll(pump: Pump, wells: seq<Well>, toc: real,
                  ghost due: seq<bool>, ghost before: seq<WellState>, ghost accounted: seq<bool>)
    returns (ran: seq<nat>)
    requires WellsOnPump(pump, wells)
    requires |wells| == |due| == |before| == |accounted|
    requires forall j :: 0 <= j < |wells| ==>
               due[j] == Schedule.IsDue(toc, wells[j].tic, wells[j].periodS, before[j].iteration)
    requires SweptSoFar(pump, wells, 0, [], due, before, accounted, pump.bus.log, pump.readCount, pump.chainCount)
    modifies wells, pump, pump.bus
    ensures WellsOnPump(pump, wells)
    ensures SweptSoFar(pump, wells, |wells|, ran, due, before, accounted,
                       old(pump.bus.log), old(pump.readCount), old(pump.chainCount))
    ensures CachedSoFar(pump, wells, ran, old(pump.readCount))
  {
    ran := [];
    for i := 0 to |wells|
      invariant SweepState(pump, wells, i, ran, due, before, accounted,
                           old(pump.bus.log), old(pump.readCount), old(pump.chainCount))
    {
      ran := SweepStep(pump, wells, toc, i, ran, due, before, accounted,
                       old(pump.bus.log), old(pump.readCount), old(pump.chainCount));
    }
  }

  /** One visit keeps the caches of the earlier runs of a sweep, and adds
      that of well `i` when it ran: on the cached volumes before
      (`volumes0`) and after (`volumes`) the visit. */
  lemma CacheKept(volumes0: seq<real>, volumes: seq<real>, positionAt: nat -> int, syringeUl: real,
                  wells: seq<Well>, due: seq<bool>, ran0: seq<nat>, ran: seq<nat>, i: nat, start: nat,
                  readCount: nat)
    requires i < |wells| == |due| == |volumes0| == |volumes|
    requires ran0 == Schedule.DueIndices(due, i) && ran == Schedule.DueIndices(due, i + 1)
    requires readCount == ReadsAfter(wells, ran, start)
    requires due[i] ==> readCount >= 1 && volumes[i] == PositionToVolume(positionAt(readCount - 1), syringeUl)
    requires forall j :: 0 <= j < |wells| && j != i ==> volumes[j] == volumes0[j]
    requires Cached(volumes0, positionAt, syringeUl, wells, ran0, start)
    ensures Cached(volumes, positionAt, syringeUl, wells, ran, start)
  {
    var last, last0 := LastReads(wells, ran, start), LastReads(wells, ran0, start);
    if due[i] {
      assert ran == ran0 + [i];
      LastReadsSnoc(wells, ran0, i, start);
      assert last == last0 + [readCount - 1];
    } else {
      assert ran == ran0;
    }
    forall k | 0 <= k < |ran|
      ensures volumes[ran[k]] == PositionToVolume(positionAt(last[k]), syringeUl)
    {
      if k < |ran0| {
        assert ran[k] == ran0[k] < i && last[k] == last0[k];
        assert volumes0[ran0[k]] == PositionToVolume(positionAt(last0[k]), syringeUl);
      }
    }
  }

  /** What a visit of well `i` does to the caches: the other wells keep
      theirs (`volumes0` is the caches before), and well `i`, when it ran,
      holds the volume of the last reading. */
  ghost predicate Recached(pump: Pump, wells: seq<Well>, volumes0: seq<real>, i: nat, ran: bool)
    reads pump, wells
    requires i < |wells|
  {
    var volumes := Volumes(wells);
    && |volumes0| == |wells|
    && (forall j :: 0 <= j < |wells| && j != i ==> volumes[j] == volumes0[j])
    && (ran ==> HoldsLastReading(pump, wells[i]))
  }

  /** A visit that keeps `Recached` extends the caches of the wells that
      ran to the wells below `i + 1`. */
  lemma CacheStep(pump: Pump, wells: seq<Well>, volumes0: seq<real>, due: seq<bool>,
                  ran0: seq<nat>, ran: seq<nat>, i: nat, start: nat)
    requires i < |wells| == |due|
    requires ran0 == Schedule.DueIndices(due, i) && ran == Schedule.DueIndices(due, i + 1)
    requires pump.readCount == ReadsAfter(wells, ran, start)
    requires Recached(pump, wells, volumes0, i, due[i])
    requires Cached(volumes0, pump.positionAt, pump.syringeUl, wells, ran0, start)
    ensures CachedSoFar(pump, wells, ran, start)
  {
    CacheKept(volumes0, Volumes(wells), pump.positionAt, pump.syringeUl, wells, due, ran0, ran, i, start,
              pump.readCount);
    CachedVolumes(pump, wells, ran, start);
  }

  /** Well `w` holds, as its cached syringe volume, the volume of the last
      reading the pump has reported. */
  ghost predicate HoldsLastReading(pump: Pump, w: Well)
    reads pump, w
  {
    && pump.readCount >= 1
    && w.state.syringeVolume == PositionToVolume(pump.positionAt(pump.readCount - 1), pump.syringeUl)
  }

  /** Each well that ran in a sweep holds the last reading of its own cycle,
      read number `LastReads(wells, ran, start)[k]` for run `k`. */
  ghost predicate CachedSoFar(pump: Pump, wells: seq<Well>, ran: seq<nat>, start: nat)
    reads wells, pump
    requires forall k :: 0 <= k < |ran| ==> ran[k] < |wells|
  {
    forall k {:trigger wells[ran[k]].state} :: 0 <= k < |ran| ==>
      wells[ran[k]].state.syringeVolume
      == PositionToVolume(pump.positionAt(LastReads(wells, ran, start)[k]), pump.syringeUl)
  }

  /** `CachedSoFar` on the wells, and `Cached` on their volumes, say the
      same. */
  lemma CachedVolumes(pump: Pump, wells: seq<Well>, ran: seq<nat>, start: nat)
    requires forall k :: 0 <= k < |ran| ==> ran[k] < |wells|
    ensures CachedSoFar(pump, wells, ran, start)
            <==> Cached(Volumes(wells), pump.positionAt, pump.syringeUl, wells, ran, start)
  {
    var volumes := Volumes(wells);
    assert forall k :: 0 <= k < |ran| ==> volumes[ran[k]] == wells[ran[k]].state.syringeVolume;
  }

  /** The cached syringe volume of each well. */
  ghost function Volumes(wells: seq<Well>): (v: seq<real>)
    reads wells
    ensures |v| == |wells| && forall j {:trigger v[j]} :: 0 <= j < |wells| ==> v[j] == wells[j].state.syringeVolume
  {
    seq(|wells|, j requires 0 <= j < |wells| reads wells => wells[j].state.syringeVolume)
  }

  /** Each well that ran in a sweep holds the volume of the last reading of
      its own cycle (read number `LastReads(wells, ran, start)[k]` for run
      `k`) in `volumes`. */
  ghost predicate Cached(volumes: seq<real>, positionAt: nat -> int, syringeUl: real, wells: seq<Well>,
                         ran: seq<nat>, start: nat)
    requires forall k :: 0 <= k < |ran| ==> ran[k] < |wells| == |volumes|
  {
    forall k :: 0 <= k < |ran| ==>
      volumes[ran[k]] == PositionToVolume(positionAt(LastReads(wells, ran, start)[k]), syringeUl)
  }

  /** The state of a sweep after the wells below index `i`: `ran` lists those
      of them that were due, each of them advanced by one cycle and the rest
      left as they were (`before`); the wells whose volume matched their cycle
      count (`accounted`) still do; and the pump has received the runs of
      `ran`, advancing its counters by theirs. */
  ghost predicate SweptSoFar(pump: Pump, wells: seq<Well>, i: nat, ran: seq<nat>, due: seq<bool>,
                             before: seq<WellState>, accounted: seq<bool>,
                             log0: seq<Event>, reads0: nat, chains0: nat)
    reads wells, pump, pump.bus
    requires i <= |wells| == |due| == |before| == |accounted|
  {
    && ran == Schedule.DueIndices(due, i)
    && (forall j :: 0 <= j < |wells| ==> Swept(wells[j], before[j], wells[j].state, j < i && due[j]))
    && (forall j :: 0 <= j < |wells| && accounted[j] ==> wells[j].DefaultAccounting())
    && pump.bus.log == log0 + Concat(SweepCycles(wells, ran, reads0, chains0))
    && pump.readCount == ReadsAfter(wells, ran, reads0)
    && pump.chainCount - chains0 == pump.readCount - reads0
  }

  /** The state of the sweep loop after the wells below index `i`. */
  ghost predicate SweepState(pump: Pump, wells: seq<Well>, i: nat, ran: seq<nat>, due: seq<bool>,
                             before: seq<WellState>, accounted: seq<bool>,
                             log0: seq<Event>, reads0: nat, chains0: nat)
    reads wells, pump, pump.bus
    requires i <= |wells| == |due| == |before| == |accounted|
  {
    && WellsOnPump(pump, wells)
    && SweptSoFar(pump, wells, i, ran, due, before, accounted, log0, reads0, chains0)
    && CachedSoFar(pump, wells, ran, reads0)
  }

  /** One turn of the sweep loop: visits well `i` and extends the sweep's
      state, and the caches of the wells that ran, to the wells below
      `i + 1`. */
  method SweepStep(pump: Pump, wells: seq<Well>, toc: real, i: nat, ran: seq<nat>, ghost due: seq<bool>,
                   ghost before: seq<WellState>, ghost accounted: seq<bool>,
                   ghost log0: seq<Event>, ghost reads0: nat, ghost chains0: nat)
    returns (ran': seq<nat>)
    requires i < |wells| == |due| == |before| == |accounted|
    requires SweepState(pump, wells, i, ran, due, before, accounted, log0, reads0, chains0)
    requires forall j :: 0 <= j < |wells| ==>
               due[j] == Schedule.IsDue(toc, wells[j].tic, wells[j].periodS, before[j].iteration)
    modifies wells[i], pump, pump.bus
    ensures SweepState(pump, wells, i + 1, ran', due, before, accounted, log0, reads0, chains0)
  {
    ghost var volumes0 := Volumes(wells);
    CachedVolumes(pump, wells, ran, reads0);
    assert ran == Schedule.DueIndices(due, i);
    ran' := SweepVisit(pump, wells, toc, i, ran, due, before, accounted, log0, reads0, chains0, volumes0);
    CacheStep(pump, wells, volumes0, due, ran, ran', i, reads0);
  }

  /** The visit of one turn of the sweep loop: visits well `i` and extends
      the sweep's state to the wells below `i + 1`. */
  method SweepVisit(pump: Pump, wells: seq<Well>, toc: real, i: nat, ran: seq<nat>, ghost due: seq<bool>,
                   ghost before: seq<WellState>, ghost accounted: seq<bool>,
                   ghost log0: seq<Event>, ghost reads0: nat, ghost chains0: nat, ghost volumes0: seq<real>)
    returns (ran': seq<nat>)
    requires WellsOnPump(pump, wells)
    requires i < |wells| == |due| == |before| == |accounted|
    requires volumes0 == Volumes(wells)
    requires forall j :: 0 <= j < |wells| ==>
               due[j] == Schedule.IsDue(toc, wells[j].tic, wells[j].periodS, before[j].iteration)
    requires SweptSoFar(pump, wells, i, ran, due, before, accounted, log0, reads0, chains0)
    modifies wells[i], pump, pump.bus
    ensures WellsOnPump(pump, wells)
    ensures SweptSoFar(pump, wells, i + 1, ran', due, before, accounted, log0, reads0, chains0)
    ensures Recached(pump, wells, volumes0, i, due[i])
  {
    var ranNow;
    ghost var run;
    ghost var log1, reads1, chains1 := pump.bus.log, pump.readCount, pump.chainCount;
    assert wells[i].state == before[i];
    ranNow, run := Visit(pump, wells, i, toc, volumes0);
    assert ranNow == due[i];
    assert Swept(wells[i], before[i], wells[i].state, due[i]);
    assert accounted[i] ==> wells[i].DefaultAccounting();
    assert Schedule.DueIndices(due, i + 1) == ran + (if ranNow then [i] else []);
    assert forall j :: 0 <= j < |wells| ==> Swept(wells[j], before[j], wells[j].state, j < i + 1 && due[j]);
    assert forall j :: 0 <= j < |wells| && accounted[j] ==> wells[j].DefaultAccounting();
    SweepBookkeeping(wells, ran, i, ranNow, reads0, chains0, log0, log1, reads1, chains1,
                     run, pump.bus.log, pump.readCount, pump.chainCount);
    ran' := ran;
    if ranNow {
      var next: nat := i;
      ran' := ran + [next];
    }
  }

  /** The counters and the log after one more visit in a sweep, on values:
      from the pump's log and counters before and after visiting well `i`. */
  lemma SweepBookkeeping(wells: seq<Well>, ran: seq<nat>, i: nat, ranNow: bool,
                         firstRead: nat, firstChain: nat, log0: seq<Event>,
                         log1: seq<Event>, reads1: nat, chains1: nat,
                         run: seq<Event>, log2: seq<Event>, reads2: nat, chains2: nat)
    requires forall k :: 0 <= k < |ran| ==> ran[k] < |wells|
    requires i < |wells|
    requires log1 == log0 + Concat(SweepCycles(wells, ran, firstRead, firstChain))
    requires reads1 == ReadsAfter(wells, ran, firstRead) && chains1 - firstChain == reads1 - firstRead
    requires log2 == log1 + run
    requires !ranNow ==> run == [] && reads2 == reads1 && chains2 == chains1
    requires ranNow ==> && run == wells[i].DefaultCycle(reads1, chains1)
                        && reads2 == reads1 + CycleReads(wells[i].DefaultRefill(reads1))
                        && chains2 - chains1 == reads2 - reads1
    ensures var ran' := if ranNow then ran + [i] else ran;
            && log2 == log0 + Concat(SweepCycles(wells, ran', firstRead, firstChain))
            && reads2 == ReadsAfter(wells, ran', firstRead)
            && chains2 - firstChain == reads2 - firstRead
  {
    if ranNow {
      SweepLogStep(wells, ran, i, firstRead, firstChain, log0, run);
    }
  }

  /** The bookkeeping of one more run in a sweep: the log and the read
      number it leaves. */
  lemma SweepLogStep(wells: seq<Well>, ran: seq<nat>, i: nat, firstRead: nat, firstChain: nat,
                     prefix: seq<Event>, run: seq<Event>)
    requires forall k :: 0 <= k < |ran| ==> ran[k] < |wells|
    requires i < |wells|
    requires var r := ReadsAfter(wells, ran, firstRead);
             run == wells[i].DefaultCycle(r, firstChain + (r - firstRead))
    ensures (prefix + Concat(SweepCycles(wells, ran, firstRead, firstChain))) + run
            == prefix + Concat(SweepCycles(wells, ran + [i], firstRead, firstChain))
    ensures ReadsAfter(wells, ran + [i], firstRead)
            == ReadsAfter(wells, ran, firstRead) + CycleReads(wells[i].DefaultRefill(ReadsAfter(wells, ran, firstRead)))
  {
    var cycles := SweepCycles(wells, ran, firstRead, firstChain);
    SweepCyclesSnoc(wells, ran, i, firstRead, firstChain);
    ConcatSnoc(cycles, run);
    AppendAssoc(prefix, Concat(cycles), run);
  }

  /** One more run at the end of a sweep adds its default cycle, started
      where the earlier runs left the counters. */
  lemma SweepCyclesSnoc(wells: seq<Well>, ran: seq<nat>, i: nat, firstRead: nat, firstChain: nat)
    requires forall k :: 0 <= k < |ran| ==> ran[k] < |wells|
    requires i < |wells|
    ensures var r := ReadsAfter(wells, ran, firstRead);
            && SweepCycles(wells, ran + [i], firstRead, firstChain)
               == SweepCycles(wells, ran, firstRead, firstChain) + [wells[i].DefaultCycle(r, firstChain + (r - firstRead))]
            && ReadsAfter(wells, ran + [i], firstRead) == r + CycleReads(wells[i].DefaultRefill(r))
  {
    assert (ran + [i])[..|ran|] == ran;
  }

  /** One step of a sweep: the well at index `i` runs its default cycle,
      `run`, when it is due at `toc`, and otherwise sends nothing; no other
      well changes. */
  method Visit(pump: Pump, wells: seq<Well>, i: nat, toc: real, ghost volumes0: seq<real>)
    returns (due: bool, ghost run: seq<Event>)
    requires WellsOnPump(pump, wells) && i < |wells|
    requires volumes0 == Volumes(wells)
    modifies wells[i], pump, pump.bus
    ensures WellsOnPump(pump, wells)
    ensures due == Schedule.IsDue(toc, wells[i].tic, wells[i].periodS, old(wells[i].state.iteration))
    ensures forall j :: 0 <= j < |wells| && j != i ==> wells[j].state == old(wells[j].state)
    ensures pump.bus.log == old(pump.bus.log) + run
    ensures !due ==> && run == []
                     && wells[i].state == old(wells[i].state)
                     && pump.readCount == old(pump.readCount)
                     && pump.chainCount == old(pump.chainCount)
    ensures due ==>
              && wells[i].state.iteration == old(wells[i].state.iteration) + 1
              && wells[i].state.inVolume == old(wells[i].state.inVolume) + wells[i].inVolumeUl
    ensures due ==> run == wells[i].DefaultCycle(old(pump.readCount), old(pump.chainCount))
    ensures due ==> pump.readCount == old(pump.readCount) + CycleReads(wells[i].DefaultRefill(old(pump.readCount)))
    ensures due ==> pump.chainCount - old(pump.chainCount) == pump.readCount - old(pump.readCount)
    ensures Recached(pump, wells, volumes0, i, due)
    ensures old(wells[i].DefaultAccounting()) ==> wells[i].DefaultAccounting()
  {
    var well := wells[i];
    ghost var firstRead := pump.readCount;
    ghost var firstChain := pump.chainCount;
    due := well.QueryStatus(toc);
    run := [];
    if due {
      well.DeliveryCycle();
      run := well.DefaultCycle(firstRead, firstChain);
    }
  }

  /** The program's main loop: one clock reading per tick; stop, before
      visiting any well, at the first reading at which `duration` has elapsed
      since `tic`; otherwise sweep the wells. */
  method RunExperiment(pump: Pump, wells: seq<Well>, tic: real, duration: real, tocs: seq<real>)
    returns (complete: bool, ticks: nat)
    requires WellsOnPump(pump, wells)
    modifies wells, pump, pump.bus
    ensures WellsOnPump(pump, wells)
    ensures complete <==> exists k :: 0 <= k < |tocs| && tocs[k] - tic >= duration
    ensures complete ==> 1 <= ticks <= |tocs| && tocs[ticks - 1] - tic >= duration
    ensures complete ==> forall k :: 0 <= k < ticks - 1 ==> tocs[k] - tic < duration
    ensures !complete ==> ticks == |tocs|
    ensures forall i :: 0 <= i < |wells| ==>
              old(wells[i].state.iteration) <= wells[i].state.iteration
              <= old(wells[i].state.iteration) + (if complete then ticks - 1 else ticks)
    ensures forall i :: 0 <= i < |wells| && old(wells[i].DefaultAccounting()) ==> wells[i].DefaultAccounting()
  {
    complete, ticks := false, 0;
    while !complete && ticks < |tocs|
      invariant ticks <= |tocs|
      invariant WellsOnPump(pump, wells)
      invariant forall k :: 0 <= k < ticks - (if complete then 1 else 0) ==> tocs[k] - tic < duration
      invariant complete ==> 1 <= ticks && tocs[ticks - 1] - tic >= duration
      invariant forall i :: 0 <= i < |wells| ==>
                  old(wells[i].state.iteration) <= wells[i].state.iteration
                  <= old(wells[i].state.iteration) + (if complete then ticks - 1 else ticks)
      invariant forall i :: 0 <= i < |wells| && old(wells[i].DefaultAccounting()) ==> wells[i].DefaultAccounting()
      decreases |tocs| - ticks, !complete
    {
      var toc := tocs[ticks];
      ticks := ticks + 1;
      if toc - tic >= duration {
        complete := true;
      } else {
        SweepTick(pump, wells, toc);
      }
    }
  }

  /** What the main loop needs of one sweep: every well advances by at most
      one cycle and keeps its accounting. */
  method SweepTick(pump: Pump, wells: seq<Well>, toc: real)
    requires WellsOnPump(pump, wells)
    modifies wells, pump, pump.bus
    ensures WellsOnPump(pump, wells)
    ensures forall i :: 0 <= i < |wells| ==>
              old(wells[i].state.iteration) <= wells[i].state.iteration <= old(wells[i].state.iteration) + 1
    ensures forall i :: 0 <= i < |wells| && old(wells[i].DefaultAccounting()) ==> wells[i].DefaultAccounting()
  {
    var ran := Sweep(pump, wells, toc);
  }
}
