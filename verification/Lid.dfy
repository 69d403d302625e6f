/** The lid policy: reports and ticks in, effects for the agent to carry out. */
module Lid {
  import opened Wrappers

  /** A reading of the caller's monotonic clock. */
  type Monotonic = nat

  datatype Effect =
    | ScreenOff
    | ScreenOn
    | RadiosOff
    | RadiosRestore
    | CpuCap(capped: bool)
    | ShutdownAlert(delay: nat)
    | ShutdownCancelled
    | PowerOff

  datatype Action = PowerSave | Shutdown

  datatype Config = Config(action: Action, radiosOff: bool, cpuThrottle: bool, delay: nat)

  /** What is to be put back. */
  datatype Saving = Saving(radios: bool, cpu: bool)

  datatype State = State(
    closed: Option<bool>,
    saving: Option<Saving>,
    shutdownAt: Option<Monotonic>,
    poweringOff: bool)

  const INITIAL: State := State(None, None, None, false)

  function Undone(saving: Saving): seq<Effect> {
    [ScreenOn] + (if saving.radios then [RadiosRestore] else []) + (if saving.cpu then [CpuCap(false)] else [])
  }

  function Closed(c: Config, s: State, now: Monotonic): (State, seq<Effect>) {
    match c.action
    case PowerSave =>
      (s.(saving := Some(Saving(c.radiosOff, c.cpuThrottle))),
       [ScreenOff] + (if c.radiosOff then [RadiosOff] else []) + (if c.cpuThrottle then [CpuCap(true)] else []))
    case Shutdown =>
      if s.poweringOff then (s, []) else (s.(shutdownAt := Some(now + c.delay)), [ShutdownAlert(c.delay)])
  }

  function Opened(s: State): (State, seq<Effect>) {
    (s.(saving := None, shutdownAt := None),
     (if s.saving.Some? then Undone(s.saving.value) else [ScreenOn])
     + (if s.shutdownAt.Some? then [ShutdownCancelled] else []))
  }

  datatype Event = Report(closed: bool, now: Monotonic) | Tick(now: Monotonic) | Stop

  function Step(c: Config, s: State, e: Event): (State, seq<Effect>) {
    match e
    case Report(closed, now) =>
      var s' := s.(closed := Some(closed));
      if s.closed == Some(false) && closed then Closed(c, s', now)
      else if s.closed == Some(true) && !closed then Opened(s')
      else (s', [])
    case Tick(now) =>
      if s.shutdownAt.Some? && now >= s.shutdownAt.value && s.closed == Some(true) && !s.poweringOff
      then (s.(shutdownAt := None, poweringOff := true), [PowerOff])
      else (s, [])
    case Stop =>
      (s.(shutdownAt := None, saving := None), if s.saving.Some? then Undone(s.saving.value) else [])
  }

  class Lid {
    const config: Config
    var closed: Option<bool>
    var saving: Option<Saving>
    var shutdownAt: Option<Monotonic>
    var poweringOff: bool

    constructor (config: Config)
      ensures this.config == config && Snapshot() == INITIAL
    {
      this.config, closed, saving, shutdownAt, poweringOff := config, None, None, None, false;
    }

    function Snapshot(): State
      reads this
    {
      State(closed, saving, shutdownAt, poweringOff)
    }

    /** Only a change of state acts, and the first report is none. */
    method OnReport(closed: bool, now: Monotonic) returns (effects: seq<Effect>)
      modifies this
      ensures (Snapshot(), effects) == Step(config, old(Snapshot()), Report(closed, now))
    {
      var before := this.closed;
      this.closed := Some(closed);
      if before == Some(false) && closed {
        effects := OnClose(now);
      } else if before == Some(true) && !closed {
        effects := OnOpen();
      } else {
        effects := [];
      }
    }

    method OnTick(now: Monotonic) returns (effects: seq<Effect>)
      modifies this
      ensures (Snapshot(), effects) == Step(config, old(Snapshot()), Tick(now))
    {
      if shutdownAt.Some? && now >= shutdownAt.value && closed == Some(true) && !poweringOff {
        shutdownAt := None;
        poweringOff := true;
        effects := [PowerOff];
      } else {
        effects := [];
      }
    }

    /** The agent stops: whatever is down goes up, and no poweroff is due any more. */
    method RestoreAll() returns (effects: seq<Effect>)
      modifies this
      ensures (Snapshot(), effects) == Step(config, old(Snapshot()), Stop)
    {
      shutdownAt := None;
      var taken := saving;
      saving := None;
      if taken.Some? {
        effects := Undo(taken.value);
      } else {
        effects := [];
      }
    }

    method OnClose(now: Monotonic) returns (effects: seq<Effect>)
      modifies this
      ensures (Snapshot(), effects) == Closed(config, old(Snapshot()), now)
    {
      match config.action {
        case PowerSave =>
          var down := Saving(config.radiosOff, config.cpuThrottle);
          saving := Some(down);
          effects := [ScreenOff];
          if down.radios {
            effects := effects + [RadiosOff];
          }
          if down.cpu {
            effects := effects + [CpuCap(true)];
          }
          assert effects == Closed(config, old(Snapshot()), now).1;
        case Shutdown =>
          if poweringOff {
            return [];
          }
          shutdownAt := Some(now + config.delay);
          effects := [ShutdownAlert(config.delay)];
      }
    }

    method OnOpen() returns (effects: seq<Effect>)
      modifies this
      ensures (Snapshot(), effects) == Opened(old(Snapshot()))
    {
      var taken := saving;
      saving := None;
      if taken.Some? {
        effects := Undo(taken.value);
      } else {
        effects := [ScreenOn];
      }
      if shutdownAt.Some? {
        shutdownAt := None;
        effects := effects + [ShutdownCancelled];
      }
      assert effects == Opened(old(Snapshot())).1;
    }

    static method Undo(saving: Saving) returns (effects: seq<Effect>)
      ensures effects == Undone(saving)
    {
      effects := [ScreenOn];
      if saving.radios {
        effects := effects + [RadiosRestore];
      }
      if saving.cpu {
        effects := effects + [CpuCap(false)];
      }
    }
  }
}
