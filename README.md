# Servo pump well controller — a Dafny model

This project models the per-channel controller of the servo pump apps.
A *well* is one isolated experiment fed by a syringe pump. The program polls
a list of wells; each well that is due runs a cycle of pump commands and
updates its running totals. The model covers two programs:

- `MainProgramExe.py` drives dual-port wells. One **replenishment cycle**
  does four things:
  - It reads the plunger. If the cached reading is below the volume to
    deliver, it refills the syringe (plunger to position 700 at speed 14).
  - It drains the out volume from the out port to the exhaust port.
  - It delivers the in volume to the in port.
  - It reads the plunger again.

  Optional aspirate and dispense valves are switched before the drain and
  before the delivery. `Vitals.sysDelay` idles until a period has passed,
  reporting progress every `report_s` seconds.
- `xl3000shell.py` drives delivery-only wells. One **delivery cycle** does
  two things:
  - It reads the plunger and converts the reading to microlitres as
    `(position / 3000) * syringe_ul`. If that is at most 1.25 times the
    volume to deliver, it refills to full stroke (position 3000 at speed 10).
  - It dispenses the volume to the in port, submits the chain, and calls
    `waitReady` with the value `executeChain` returned.

  There is no second read, so the cache keeps the last reading taken before
  the dispense.

Both wells share the **due rule**: a well is due at time `t` when
`floor((t - tic) / period_s) >= iteration`, where `iteration` is the number
of cycles it has completed. Both programs share the **polling loop**:
- Take one clock reading per tick.
- Stop as soon as `duration` has elapsed.
- Otherwise visit the wells in list order and run one cycle on each well
  that is due at that reading.

The pump and valves are mocks (module `Devices`). Every driver call is
appended to one shared command log, `Bus.log`. A contract that states the
log therefore fixes the exact order of commands across the pump and its
valves. The values the hardware reports come from oracles fixed when the
mock is built:
- `positionAt(k)` is the plunger position returned by the k-th read.
- `delayAt(k)` is the value returned by the k-th `executeChain`.

The cycle methods, a well's visit and a sweep are specified against
functions on values:
- `MainProgram.CycleEvents` and `Xl3000Shell.CycleEvents` give the exact
  command sequence of one cycle, and `MainProgram.DelayRun` the outcome of
  the delay loop.
- `SweepCycles` gives the log of one sweep: the default cycles of the wells
  that ran, in list order, each starting at the pump counters the cycles
  before it left. `LastReads` gives, for each of those wells, the number of
  the last reading of its cycle, which it holds as its cache.
- Lemmas prove what those sequences do: volume balance, when the refill
  happens, command order, reporting.

The main loops (`RunExperiment`) are stated per well, by bounds; they do not
state the log (see "Left out").

Files:
- `wrappers.dfy`: `Option`, which stands for Python's `None` defaults.
- `devices.dfy`: ports, commands, the mock pump and valves, and totals over
  a command log.
- `schedule.dfy`: the due rule, `int(tic)` and the list of due wells of
  a sweep.
- `accounting.dfy`: the cycle-count arithmetic of the running totals.
- `main_program.dfy`: `MainProgramExe.py`.
- `xl3000_shell.dfy`: `xl3000shell.py`.

Notes on the code as written:
- The due rule uses `>=`. A fresh well is therefore due at its start time
  (`Schedule.FreshWellDueAtStart`).
- A late well catches up one cycle per sweep until it is back on schedule.
  On a single check it runs at most one cycle (`Schedule.CatchUpOneCyclePerCheck`).
- In `MainProgramExe.py` the speed is set before the aspirate valve is
  switched (line 173).
- In `MainProgramExe.py`, `checkSyringe` caches the raw plunger position,
  and the refill test compares it with a microlitre volume. Whether the
  driver reports that position in microlitres depends on the pump driver,
  which is not part of this model. The model keeps the raw comparison.
- The fill in `MainProgramExe.py` draws to position 700 and calls
  `waitReady(delay=3)`. The fill in `xl3000shell.py` draws to 3000 and
  passes the value `executeChain` returned to `waitReady` as its first
  argument. Which driver parameter that argument binds is up to the driver,
  which is not part of this model; the log records the value passed.

## Model

| member | source | states |
|---|---|---|
| Schedule.Trunc | Python/Servo_Pump/Apps/MainProgramExe.py:120 | `int(tic)` truncates toward zero: for a non-negative start time the result is the whole-second floor, for a negative one the ceiling |
| Schedule.DueIffBoundaryReached | Python/Servo_Pump/Apps/MainProgramExe.py:150-153 | with a positive period, `floor((t - tic)/period) >= iteration` holds exactly when `t >= tic + iteration * period`; with a negative period, exactly when `t <= tic + iteration * period` |
| Schedule.NeverDueBeforeStart | Python/Servo_Pump/Apps/MainProgramExe.py:150-153 | with a positive period no well is due before its start time, whatever its iteration |
| Schedule.FreshWellDueAtStart | Python/Servo_Pump/Apps/xl3000shell.py:52-55 | a well that has completed no cycle is due at its start time |
| Schedule.DueIsMonotoneInTime | Python/Servo_Pump/Apps/MainProgramExe.py:150-153 | a well that is due stays due at every later time with the same iteration count |
| Schedule.DueIsAntitoneInIteration | Python/Servo_Pump/Apps/MainProgramExe.py:150-153 | a well with more completed cycles is never due where one with fewer is not |
| Schedule.CatchUpOneCyclePerCheck | Python/Servo_Pump/Apps/MainProgramExe.py:283-288 | after a due cycle the well is due again at the same time exactly when the next period boundary has passed, so a late well catches up one cycle per check and then stops at the number of whole periods elapsed |
| Schedule.ThirtySecondSchedule | Python/Servo_Pump/Apps/MainProgramExe.py:269 | for the program's 30 s well, cycle 0 is due at the start, cycle 1 first at +30 s (not at +29 s), cycle 2 first at +60 s (not at +59 s) |
| MainProgram.DelayRunCompletesAtFirstElapsed | Python/Servo_Pump/Apps/MainProgramExe.py:62-66 | the delay loop completes exactly when some reading has `toc - tic >= period_s`, on the first such reading; otherwise it consumes every reading |
| MainProgram.DelayRunReportsConsecutive | Python/Servo_Pump/Apps/MainProgramExe.py:67-75 | the k-th report carries counter value `iteration + k`; with `report_s` None nothing is reported |
| MainProgram.DelayRunAtMostOneReportPerTick | Python/Servo_Pump/Apps/MainProgramExe.py:62-76 | at most one report per reading, and none on the reading that completes the delay |
| MainProgram.ReportedSecondsStrictlyIncrease | Python/Servo_Pump/Apps/MainProgramExe.py:72-75 | with a positive `report_s` the printed progress figures `iteration * report_s` strictly increase |
| MainProgram.Vitals.constructor | Python/Servo_Pump/Apps/MainProgramExe.py:12-24 | stores the pump and the optional valve references |
| MainProgram.Vitals.SysDelay | Python/Servo_Pump/Apps/MainProgramExe.py:41-76 | the loop's outcome equals `DelayRun` on the readings: completes iff the period elapses at some reading, stops at the first one, reports with consecutive counters from 0, at most one per tick, none without `report_s` |
| MainProgram.Vitals.DelayLoop | Python/Servo_Pump/Apps/MainProgramExe.py:62-76 | the loop over the readings ends with the outcome `DelayRun` gives: completion, the readings it consumed and the report counters |
| MainProgram.ValvesLeavePumpCallsUnchanged | Python/Servo_Pump/Apps/MainProgramExe.py:173-197 | valves only add their own switch calls: the pump's calls in a cycle with valves are exactly those of the same cycle without them, in the same order |
| MainProgram.CycleVolumeBalance | Python/Servo_Pump/Apps/MainProgramExe.py:180-197 | one cycle aspirates exactly the out volume and dispenses exactly the out volume plus the in volume, with or without a refill |
| MainProgram.RefillIffReadingBelowInVolume | Python/Servo_Pump/Apps/MainProgramExe.py:170-172 | the refill's move to position 700 occurs in a cycle exactly when the first reading is below the in volume |
| MainProgram.Well.constructor | Python/Servo_Pump/Apps/MainProgramExe.py:85-140 | stores the settings with numbered ports, truncates `tic`, zeroes the counters and sets each valve flag exactly when that valve was supplied |
| MainProgram.Well.EffectivePlan | Python/Servo_Pump/Apps/MainProgramExe.py:163-167 | each omitted argument falls back to the well's own field, each supplied one is used as given |
| MainProgram.Well.QueryStatus | Python/Servo_Pump/Apps/MainProgramExe.py:142-153 | due exactly from `tic + iteration * period_s` on (for a positive period), a fresh well is due at `tic`, nothing is due before `tic`; changes nothing |
| MainProgram.Well.CheckSyringe | Python/Servo_Pump/Apps/MainProgramExe.py:205-213 | one plunger read; the cache becomes the raw reading, nothing else in the state changes |
| MainProgram.Well.FillSyringe | Python/Servo_Pump/Apps/MainProgramExe.py:215-232 | issues speed, source port, 1000 ms delay, move to 700, 1000 ms delay, execute, wait 3 s, then one read; the cache becomes that reading |
| MainProgram.Well.ReplenishmentCycle | Python/Servo_Pump/Apps/MainProgramExe.py:155-203 | the command log grows by exactly `CycleEvents` for the effective arguments, with the refill iff the first reading is below the in volume; the iteration grows by 1 and the totals by the effective volumes; the cache is the last reading; default calls keep totals equal to iteration times the per-cycle volumes |
| MainProgram.Well.CheckSyringeFill | Python/Servo_Pump/Apps/MainProgramExe.py:169-172 | reads the plunger and runs the fill exactly when that reading is below the in volume |
| MainProgram.Well.MoveLiquid | Python/Servo_Pump/Apps/MainProgramExe.py:173-197 | issues exactly the drain then delivery calls of `CycleMoves`, with each valve switch where its flag is set |
| MainProgram.Well.DrainStage | Python/Servo_Pump/Apps/MainProgramExe.py:173-186 | speed, optional aspirate-valve switch, aspirate from the out port, execute, wait 2 s, dispense to exhaust, execute, wait 2 s |
| MainProgram.Well.DrainPump | Python/Servo_Pump/Apps/MainProgramExe.py:180-186 | the log grows by exactly `DrainEvents`: aspirate from the out port, execute, wait 2 s, dispense to exhaust, execute, wait 2 s; no reading is taken and the chain counter advances by 2 |
| MainProgram.Well.DeliverStage | Python/Servo_Pump/Apps/MainProgramExe.py:188-197 | optional dispense-valve switch, dispense to the in port, 2000 ms delay, exhaust port, execute, wait 2 s |
| MainProgram.Well.CloseCycle | Python/Servo_Pump/Apps/MainProgramExe.py:199-203 | the iteration grows by one, the totals by the given volumes, and the cache becomes a fresh reading |
| MainProgram.Visit | Python/Servo_Pump/Apps/MainProgramExe.py:286-287 | the well runs exactly when it is due at `toc` with its iteration count before the visit. When it runs, the log grows by exactly its default cycle (`DefaultCycle`), with the refill decided by the pump's next reading. Its iteration grows by 1 and its totals by its volumes. The read counter advances by that cycle's reads and the chain counter by its chains, and the cache is the cycle's last reading. When it does not run, the log, the counters and the well are unchanged. No other well changes |
| MainProgram.Sweep | Python/Servo_Pump/Apps/MainProgramExe.py:282-288 | against one reading `toc`, the wells that ran are exactly those due at `toc` in the state before the sweep, in list order, each once. Those advance by one cycle and their own volumes; the rest are untouched. The log grows by exactly `SweepCycles`: the default cycles of the wells that ran, one after the other. The read counter ends where those cycles leave it, and the chain counter advances by their reads plus one per cycle. Each well that ran holds, as its cache, the last reading of its own cycle (`LastReads`) |
| MainProgram.LastReadAt | Python/Servo_Pump/Apps/MainProgramExe.py:282-288 | the reading cached by the `k`-th well that ran is the last one of the first `k + 1` cycles of the sweep, one below the read counter they leave |
| MainProgram.CacheKept | Python/Servo_Pump/Apps/MainProgramExe.py:283-287 | one visit keeps the caches of the wells that ran before it, and adds that of the visited well, the last reading, when it ran |
| MainProgram.SweepCycleAt | Python/Servo_Pump/Apps/MainProgramExe.py:282-288 | cycle `k` of a sweep's log is the default cycle of the `k`-th well that ran, started at the read number the first `k` cycles left |
| Schedule.DueIndicesMembers | Python/Servo_Pump/Apps/MainProgramExe.py:282-288 | the wells listed as run by a sweep are exactly those below the list length that are due, in increasing order |
| MainProgram.RunExperiment | Python/Servo_Pump/Apps/MainProgramExe.py:278-290 | stops iff some reading has `duration` elapsed, at the first such reading and before visiting any well; each well runs at most one cycle per sweep; default accounting is kept |
| Xl3000Shell.EmptyAndFullStroke | Python/Servo_Pump/Apps/xl3000shell.py:86-88 | position 0 reads 0 µL and position 3000 reads the syringe size |
| Xl3000Shell.PositionToVolumeDifference | Python/Servo_Pump/Apps/xl3000shell.py:86-88 | the conversion is linear: the difference of two readings is the difference of positions scaled by `syringe_ul / 3000` |
| Xl3000Shell.PositionToVolumeMonotone | Python/Servo_Pump/Apps/xl3000shell.py:86-88 | for a non-negative syringe size a larger position never reads less volume |
| Xl3000Shell.VolumeRoundTrip | Python/Servo_Pump/Apps/xl3000shell.py:86-88 | for a non-zero syringe size the converted reading determines the position: converting back gives it exactly |
| Xl3000Shell.SkippedRefillLeavesMargin | Python/Servo_Pump/Apps/xl3000shell.py:68-69 | a cache of exactly 1.25 times the volume triggers a refill; a skipped refill means the cache exceeds the volume by more than a quarter of it |
| Xl3000Shell.FullSyringeRefillThreshold | Python/Servo_Pump/Apps/xl3000shell.py:68-69 | after a full-stroke read the next cycle refills exactly when the volume is at least 80% of the syringe size |
| Xl3000Shell.CycleDispensesInVolume | Python/Servo_Pump/Apps/xl3000shell.py:66-76 | one cycle dispenses exactly the in volume and aspirates nothing, with or without a refill |
| Xl3000Shell.CycleEndsWithoutReread | Python/Servo_Pump/Apps/xl3000shell.py:71-79 | the cycle ends with execute and then a `waitReady` given the value that execute returned, and no plunger read follows the dispense |
| Xl3000Shell.RefillIffCacheWithinMargin | Python/Servo_Pump/Apps/xl3000shell.py:66-69 | the move to full stroke occurs in a cycle exactly when the cache is at most 1.25 times the volume |
| Xl3000Shell.Well.constructor | Python/Servo_Pump/Apps/xl3000shell.py:11-42 | stores the settings, truncates `tic`, zeroes the counters |
| Xl3000Shell.Well.EffectivePlan | Python/Servo_Pump/Apps/xl3000shell.py:62-64 | each omitted argument falls back to the well's own field, each supplied one is used as given |
| Xl3000Shell.Well.QueryStatus | Python/Servo_Pump/Apps/xl3000shell.py:44-55 | the same due rule: due exactly from `tic + iteration * period_s` on (for a positive period), a fresh well is due at `tic` |
| Xl3000Shell.Well.CheckSyringe | Python/Servo_Pump/Apps/xl3000shell.py:81-88 | one plunger read; the cache becomes `(position / 3000) * syringe_ul` |
| Xl3000Shell.Well.FillSyringe | Python/Servo_Pump/Apps/xl3000shell.py:90-108 | issues speed, source port, 1000 ms delay, move to 3000, 1000 ms delay, execute, a `waitReady` given the value that execute returned, then one read; the cache becomes that reading converted |
| Xl3000Shell.Well.DeliveryCycle | Python/Servo_Pump/Apps/xl3000shell.py:57-79 | the command log grows by exactly `CycleEvents` for the effective arguments, with the refill iff the converted first reading is at most 1.25 times the volume, and each `waitReady` given the value its execute returned; the iteration grows by 1 and the in total by the volume; the cache is the last reading taken before the dispense |
| Xl3000Shell.Well.CheckSyringeFill | Python/Servo_Pump/Apps/xl3000shell.py:66-69 | reads the plunger and runs the fill exactly when the converted reading is at most 1.25 times the volume |
| Xl3000Shell.Well.DispenseStage | Python/Servo_Pump/Apps/xl3000shell.py:71-76 | speed, dispense to the in port, 1000 ms delay, source port, execute, a `waitReady` given the value that execute returned |
| Xl3000Shell.Visit | Python/Servo_Pump/Apps/xl3000shell.py:168-169 | the well runs exactly when it is due at `toc` with its iteration count before the visit. When it runs, the log grows by exactly its default cycle (`DefaultCycle`): the refill is decided by the pump's next reading, and each `waitReady` gets the value of the next `executeChain`. Its iteration and in total advance. The read and chain counters advance together by that cycle's reads, and the cache is the cycle's last reading, converted. When it does not run, the log, the counters and the well are unchanged. No other well changes |
| Xl3000Shell.Sweep | Python/Servo_Pump/Apps/xl3000shell.py:165-170 | against one reading `toc`, the wells that ran are exactly those due at `toc` in the state before the sweep, in list order, each once. Those advance by one cycle and their volume; the rest are untouched. The log grows by exactly `SweepCycles`: the default cycles of the wells that ran, one after the other. The read counter ends where those cycles leave it, and the chain counter advances by as much. Each well that ran holds, as its cache, the volume of the last reading of its own cycle (`LastReads`) |
| Xl3000Shell.LastReadAt | Python/Servo_Pump/Apps/xl3000shell.py:165-170 | the reading cached by the `k`-th well that ran is the last one of the first `k + 1` cycles of the sweep, one below the read counter they leave |
| Xl3000Shell.CacheKept | Python/Servo_Pump/Apps/xl3000shell.py:66-69 | one visit keeps the caches of the wells that ran before it, and adds that of the visited well, the volume of the last reading, when it ran |
| Xl3000Shell.SweepCycleAt | Python/Servo_Pump/Apps/xl3000shell.py:165-170 | cycle `k` of a sweep's log is the default cycle of the `k`-th well that ran, started at the read number the first `k` cycles left and at the chain number as far past the first chain |
| Xl3000Shell.RunExperiment | Python/Servo_Pump/Apps/xl3000shell.py:160-171 | stops iff some reading has `duration` elapsed, at the first such reading and before visiting any well; each well runs at most one cycle per sweep; default accounting is kept |

## Left out

- The `tecancavro` pump drivers (`CentrisB`, `XP3000`) and the `TecanAPISerial` transport are not part of this model. They are replaced by mocks that log each call and never fail, so driver errors and timeouts are not modelled.
- The `time.sleep` calls are left out: they only pace the hardware.
- Each `time.time()` becomes a clock-reading parameter. A loop that runs until a time has passed is given a finite list of readings. It also ends when the list runs out, and its contract says what happens in that case.
- `print`, `time.strftime` and the `statusReport` methods are left out because they only produce console output. `sysDelay`'s `name` argument is used only in that output and is dropped.
- `Vitals.autoWash` is left out because it has no body in the source.
- Floating point is modelled as exact real arithmetic, with no rounding.
- `xl3000shell.py`'s `position / 3000` is taken as true division (Python 3).
- Plunger positions are integers.
- In `__main__`, the hardware set-up and configuration are left out: pump construction, `init`, the initial `setSpeed`, and the well list literals. `xl3000shell.py`'s one `fillSyringe()` before the loop is left out for the same reason.
- The ports of `xl3000shell.py`'s `Well` are taken as given, numbered or lettered (the program uses `'I'` and `'O'`).
- The ports of `MainProgramExe.py`'s `Well` go through `int()`. A failed conversion is not modelled.
- A valve port left as `None` becomes the `NoPort` selector.
- MainProgram.Vitals.SysDelay: requires `report_s` to be non-zero. With `report_s == 0` the source fails with a division by zero only on a reading before the delay ends, and that failure is not modelled.
- MainProgram.Well.QueryStatus: requires a non-zero period, because a zero period fails with a division by zero in the source.
- Xl3000Shell.Well.QueryStatus: requires a non-zero period, for the same reason.
- MainProgram.Well.constructor: requires each supplied valve to log onto the pump's command log. This is a property of the mocks, so that one log orders every call, not a demand of the source.
- MainProgram.Well.ReplenishmentCycle: requires the well's valves to log onto its pump's command log, for the same reason.
- MainProgram.Sweep: requires the wells to be distinct objects that share the one pump. Each well's valves must log onto that pump's command log. This is how both programs build their well lists.
- Xl3000Shell.Sweep: requires the wells to be distinct objects that share the one pump.
- MainProgram.RunExperiment: does not state the command log or the pump counters over the whole run. It bounds each well's cycles by the number of sweeps and keeps default accounting. The exact number of cycles depends on the readings, and each sweep's exact log is stated by MainProgram.Sweep.
- Xl3000Shell.RunExperiment: does not state the log or the counters either. It bounds each well's cycles the same way, with each sweep's exact log stated by Xl3000Shell.Sweep.
