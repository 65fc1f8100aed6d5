/**
 * Mock pump and valve drivers. The real drivers talk to the hardware over a
 * serial link; here every call is appended, in call order, to one shared
 * command log, and every value the hardware would report (the plunger
 * position, the time estimate of an executed chain) comes from an oracle
 * fixed when the mock is built.
 */
module Devices {

  /** A port selector as the driver receives it: a numbered port, a lettered
      port, or Python's `None` (a valve bound without a port). */
  datatype Port = Numbered(n: int) | Lettered(letter: string) | NoPort

  /** One driver call. `GetPlungerPos` is the read of the plunger position.
      `WaitReady` records the one argument `waitReady` is given: the `delay`
      keyword in MainProgramExe.py, the first positional argument in
      xl3000shell.py; the driver that interprets it is not part of this model. */
  datatype Cmd =
    | SetSpeed(code: int)
    | ChangePort(port: Port)
    | Aspirate(port: Port, volumeUl: real)
    | Dispense(port: Port, volumeUl: real)
    | MovePlungerAbs(position: int)
    | DelayExec(ms: int)
    | ExecuteChain
    | WaitReady(delayS: real)
    | GetPlungerPos

  datatype Device = PumpDevice | ValveDevice(id: nat)

  datatype Event = Event(device: Device, cmd: Cmd)

  function OnPump(c: Cmd): Event
  {
    Event(PumpDevice, c)
  }

  /** The shared record of every driver call, in the order the calls were made. */
  class Bus {
    var log: seq<Event>

    constructor ()
      ensures log == []
    {
      log := [];
    }
  }

  /** A syringe pump. `positionAt(k)` is the plunger position reported by the
      k-th read (counting from 0), `delayAt(k)` the value returned by the k-th
      `executeChain`. */
  class Pump {
    const bus: Bus
    const syringeUl: real
    const positionAt: nat -> int
    const delayAt: nat -> real
    var readCount: nat
    var chainCount: nat

    constructor (bus: Bus, syringeUl: real, positionAt: nat -> int, delayAt: nat -> real)
      ensures this.bus == bus && this.syringeUl == syringeUl
      ensures this.positionAt == positionAt && this.delayAt == delayAt
      ensures readCount == 0 && chainCount == 0
    {
      this.bus := bus;
      this.syringeUl := syringeUl;
      this.positionAt := positionAt;
      this.delayAt := delayAt;
      readCount := 0;
      chainCount := 0;
    }

    method SetSpeed(code: int)
      modifies bus
      ensures bus.log == old(bus.log) + [OnPump(Cmd.SetSpeed(code))]
    {
      bus.log := bus.log + [OnPump(Cmd.SetSpeed(code))];
    }

    method ChangePort(port: Port)
      modifies bus
      ensures bus.log == old(bus.log) + [OnPump(Cmd.ChangePort(port))]
    {
      bus.log := bus.log + [OnPump(Cmd.ChangePort(port))];
    }

    method Aspirate(port: Port, volumeUl: real)
      modifies bus
      ensures bus.log == old(bus.log) + [OnPump(Cmd.Aspirate(port, volumeUl))]
    {
      bus.log := bus.log + [OnPump(Cmd.Aspirate(port, volumeUl))];
    }

    method Dispense(port: Port, volumeUl: real)
      modifies bus
      ensures bus.log == old(bus.log) + [OnPump(Cmd.Dispense(port, volumeUl))]
    {
      bus.log := bus.log + [OnPump(Cmd.Dispense(port, volumeUl))];
    }

    method MovePlungerAbs(position: int)
      modifies bus
      ensures bus.log == old(bus.log) + [OnPump(Cmd.MovePlungerAbs(position))]
    {
      bus.log := bus.log + [OnPump(Cmd.MovePlungerAbs(position))];
    }

    method DelayExec(ms: int)
      modifies bus
      ensures bus.log == old(bus.log) + [OnPump(Cmd.DelayExec(ms))]
    {
      bus.log := bus.log + [OnPump(Cmd.DelayExec(ms))];
    }

    /** Submits the queued chain; returns what the driver returns for it,
        `delayAt` of the chain's number. */
    method ExecuteChain() returns (delay: real)
      modifies this`chainCount, bus
      ensures delay == delayAt(old(chainCount)) && chainCount == old(chainCount) + 1
      ensures bus.log == old(bus.log) + [OnPump(Cmd.ExecuteChain)]
    {
      delay := delayAt(chainCount);
      chainCount := chainCount + 1;
      bus.log := bus.log + [OnPump(Cmd.ExecuteChain)];
    }

    method WaitReady(delayS: real)
      modifies bus
      ensures bus.log == old(bus.log) + [OnPump(Cmd.WaitReady(delayS))]
    {
      bus.log := bus.log + [OnPump(Cmd.WaitReady(delayS))];
    }

    method GetPlungerPos() returns (pos: int)
      modifies this`readCount, bus
      ensures pos == positionAt(old(readCount)) && readCount == old(readCount) + 1
      ensures bus.log == old(bus.log) + [OnPump(Cmd.GetPlungerPos)]
    {
      pos := positionAt(readCount);
      readCount := readCount + 1;
      bus.log := bus.log + [OnPump(Cmd.GetPlungerPos)];
    }
  }

  /** A selector valve: the subset of the pump's driver calls a valve offers. */
  class Valve {
    const bus: Bus
    const id: nat

    constructor (bus: Bus, id: nat)
      ensures this.bus == bus && this.id == id
    {
      this.bus := bus;
      this.id := id;
    }

    method ChangePort(port: Port)
      modifies bus
      ensures bus.log == old(bus.log) + [Event(ValveDevice(id), Cmd.ChangePort(port))]
    {
      bus.log := bus.log + [Event(ValveDevice(id), Cmd.ChangePort(port))];
    }

    method ExecuteChain()
      modifies bus
      ensures bus.log == old(bus.log) + [Event(ValveDevice(id), Cmd.ExecuteChain)]
    {
      bus.log := bus.log + [Event(ValveDevice(id), Cmd.ExecuteChain)];
    }

    method WaitReady(delayS: real)
      modifies bus
      ensures bus.log == old(bus.log) + [Event(ValveDevice(id), Cmd.WaitReady(delayS))]
    {
      bus.log := bus.log + [Event(ValveDevice(id), Cmd.WaitReady(delayS))];
    }
  }

  // ---------------------------------------------------------------------
  // Totals over a command log.
  // ---------------------------------------------------------------------

  /** The volume one call moves through the pump: its aspirated volume
      (`aspirate` true) or its dispensed volume (`aspirate` false). */
  function Moved(e: Event, aspirate: bool): real
  {
    if e.device != PumpDevice then 0.0
    else if aspirate && e.cmd.Aspirate? then e.cmd.volumeUl
    else if !aspirate && e.cmd.Dispense? then e.cmd.volumeUl
    else 0.0
  }

  /** The total volume of the pump's aspirate calls (`aspirate` true) or of
      its dispense calls (`aspirate` false). */
  function PumpVolume(events: seq<Event>, aspirate: bool): real
  {
    if events == [] then 0.0 else Moved(events[0], aspirate) + PumpVolume(events[1..], aspirate)
  }

  lemma {:induction false} PumpVolumeDistributes(a: seq<Event>, b: seq<Event>, aspirate: bool)
    ensures PumpVolume(a + b, aspirate) == PumpVolume(a, aspirate) + PumpVolume(b, aspirate)
    decreases |a|
  {
    if a != [] {
      assert (a + b)[0] == a[0];
      assert (a + b)[1..] == a[1..] + b;
      PumpVolumeDistributes(a[1..], b, aspirate);
    } else {
      assert a + b == b;
    }
  }

  lemma {:induction false} PumpVolumeOfNoMoves(s: seq<Event>, aspirate: bool)
    requires forall i :: 0 <= i < |s| ==> Moved(s[i], aspirate) == 0.0
    ensures PumpVolume(s, aspirate) == 0.0
    decreases |s|
  {
    if s != [] {
      PumpVolumeOfNoMoves(s[1..], aspirate);
    }
  }

  lemma PumpVolumeOfSingleton(e: Event, aspirate: bool)
    ensures PumpVolume([e], aspirate) == Moved(e, aspirate)
  {
    assert [e][1..] == [];
  }

  /** The logs of several consecutive runs, one after the other. */
  function Concat<T>(runs: seq<seq<T>>): seq<T>
  {
    if runs == [] then [] else Concat(runs[..|runs| - 1]) + runs[|runs| - 1]
  }

  /** Appending one more run to the runs appends its log. */
  lemma ConcatSnoc<T>(runs: seq<seq<T>>, last: seq<T>)
    ensures Concat(runs + [last]) == Concat(runs) + last
  {
    assert (runs + [last])[..|runs|] == runs;
  }

  lemma ConcatFour<T>(a: seq<T>, b: seq<T>, c: seq<T>, d: seq<T>)
    ensures a + (b + c + d) == ((a + b) + c) + d
  {
  }

  lemma AppendAssoc<T>(a: seq<T>, b: seq<T>, c: seq<T>)
    ensures (a + b) + c == a + (b + c)
  {
  }
}
