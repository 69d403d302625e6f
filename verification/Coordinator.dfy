/**
 * What the battery's advice leads to: when a poweroff is placed, taken over, or cancelled.
 *
 * `Begin`, `Looked`, `Asked`, `Confirmed` and `Retracted` are what happens between one operation on
 * logind and the next. `Decide` puts them together into one poll, and `ShutdownCoordinator` is the
 * stateful object the daemon keeps, proved to do exactly that to itself and to logind.
 */
module Coordinator {
  import opened Wrappers
  import opened Clock
  import opened Logind

  const SHUTDOWN_MESSAGE: string :=
    "UPS battery critical: powering off to protect the filesystem. Restore mains power to cancel."

  datatype Level = OnMains | OnBattery | Low | Critical | Unknown

  datatype Advice = NoAdvice | AdviseShutdown | HeldForUptime(remaining: nat)

  datatype Decision = Decision(level: Level, advice: Advice, confirmedRecovery: bool) {
    predicate Advises() {
      advice.AdviseShutdown?
    }

    /** The one decision that may cancel. */
    predicate Recovers() {
      !Advises() && level.OnMains? && confirmedRecovery
    }

    /** Neither: nothing is done, whatever the reason. */
    predicate Holds() {
      !Advises() && !Recovers()
    }
  }

  datatype Action =
    | NoAction
    | Scheduled(at: Time)
    | Adopted(at: Time)
    | AlreadyPending(at: Time)
    | Cancelled
    | OverriddenByOperator
    | WouldSchedule
    | WouldCancel
    | Failed

  /** What the daemon was configured with. */
  datatype Config = Config(delay: nat, dryRun: bool)

  datatype State = State(ours: Option<Time>, dryPending: Option<Time>, stoodDown: bool)

  const FRESH: State := State(None, None, false)

  /** The power command a poll issued, if any, and whether it was accepted. */
  datatype Call = NoCall | ScheduleCall(accepted: bool) | CancelCall(accepted: bool)

  datatype Outcome = Outcome(state: State, logind: Option<Shutdown>, action: Action, call: Call)

  predicate OccursAt(text: string, part: string, i: int) {
    0 <= i <= |text| - |part| && text[i..i + |part|] == part
  }

  predicate Contains(text: string, part: string) {
    exists i | 0 <= i <= |text| :: OccursAt(text, part, i)
  }

  predicate IsOurs(message: Option<string>) {
    message.Some? && Contains(message.value, SHUTDOWN_MESSAGE)
  }

  /** The next operation on logind, or the end of the poll. */
  datatype Next =
    | Done(action: Action)
    | Look(advising: bool)        // read what is pending
    | Ask(at: Time)               // read its wall message
    | Place                       // schedule
    | Confirm(intended: Time)     // read the deadline back
    | Retract                     // cancel

  function Begin(c: Config, s: State, d: Decision, now: Time): (State, Next) {
    if d.Advises() then
      if s.stoodDown then (s, Done(NoAction))
      else if !c.dryRun then (s, Look(true))
      else if s.dryPending.Some? then (s, Done(NoAction))
      else (s.(dryPending := Some(now + c.delay)), Done(WouldSchedule))
    else if d.Recovers() then
      var s' := s.(stoodDown := false);
      if c.dryRun then (s'.(dryPending := None), Done(if s.dryPending.Some? then WouldCancel else NoAction))
      else if s.ours.None? then (s', Done(NoAction))
      else (s', Look(false))
    else (s, Done(NoAction))
  }

  function Looked(s: State, advising: bool, r: Reading): (State, Next) {
    if !advising then
      if r.At? && s.ours.Some? && !SameShutdown(s.ours.value, r.at) then (s.(ours := None), Done(NoAction))
      else (s, Retract)
    else if s.ours.Some? then
      match r
      case CannotTell => (s, Done(NoAction))
      case Nothing => (s.(ours := None, stoodDown := true), Done(OverriddenByOperator))
      case At(at) =>
        if SameShutdown(s.ours.value, at) then (s, Done(NoAction))
        else (s.(ours := None, stoodDown := true), Done(AlreadyPending(at)))
    else if r.At? then (s, Ask(r.at))
    else (s, Place)
  }

  function Asked(s: State, at: Time, message: Option<string>): (State, Action) {
    if IsOurs(message) then (s.(ours := Some(at)), Adopted(at)) else (s, AlreadyPending(at))
  }

  function Confirmed(s: State, intended: Time, back: Reading): (State, Action) {
    var at := Reported(back, intended);
    (s.(ours := Some(at)), Scheduled(at))
  }

  function Retracted(s: State, cancelled: bool): (State, Action) {
    if cancelled then (s.(ours := None), Cancelled) else (s, Failed)
  }

  /** One poll, start to finish. */
  function Decide(c: Config, s: State, l: Option<Shutdown>, d: Decision, w: Weather): Outcome {
    var (s, next) := Begin(c, s, d, w.now);
    if next.Look? then
      var (s, next) := Looked(s, next.advising, Read(l, w.readable));
      match next
      case Done(action) => Outcome(s, l, action, NoCall)
      case Ask(at) =>
        var l := Changed(l, w.beforeWall);
        var (s, action) := Asked(s, at, Wall(l, w.wallReadable));
        Outcome(s, l, action, NoCall)
      case Retract =>
        var (s, action) := Retracted(s, w.cancels);
        Outcome(s, AfterCancel(l, w), action, CancelCall(w.cancels))
      case _ =>
        var l := AfterSchedule(l, SHUTDOWN_MESSAGE, Actor.Coordinator, w);
        if w.accepts then
          var (s, action) := Confirmed(s, Intended(c.delay, w.now), Read(l, w.backReadable));
          Outcome(s, l, action, ScheduleCall(true))
        else Outcome(s, l, Failed, ScheduleCall(false))
    else Outcome(s, l, if next.Done? then next.action else NoAction, NoCall)
  }

  /** The coordinator as the daemon keeps it, from poll to poll. */
  class ShutdownCoordinator {
    const power: Manager
    const config: Config
    /** The time by which the coordinator knows its own poweroff. */
    var ours: Option<Time>
    /** Its stand-in in a dry run. */
    var dryPending: Option<Time>
    /** No further scheduling until a recovery. */
    var stoodDown: bool

    constructor (power: Manager, config: Config)
      ensures this.power == power && this.config == config
      ensures Snapshot() == FRESH
    {
      this.power, this.config := power, config;
      ours, dryPending, stoodDown := None, None, false;
    }

    function Snapshot(): State
      reads this
    {
      State(ours, dryPending, stoodDown)
    }

    method WallMessageIsOurs(w: Weather) returns (mine: bool)
      modifies power
      ensures power.slot == Changed(old(power.slot), w.beforeWall)
      ensures mine <==> IsOurs(Wall(power.slot, w.wallReadable))
    {
      var m := power.WallMessage(w);
      return m.Some? && Contains(m.value, SHUTDOWN_MESSAGE);
    }

    method OnDecision(d: Decision, w: Weather) returns (action: Action)
      modifies this, power
      ensures var o := Decide(config, old(Snapshot()), old(power.slot), d, w);
        Snapshot() == o.state && power.slot == o.logind && action == o.action
    {
      if d.Advises() {
        action := OnAdvice(d, w);
      } else if d.level.OnMains? && d.confirmedRecovery {
        action := OnRecovery(d, w);
      } else {
        action := NoAction;
      }
    }

    method OnAdvice(d: Decision, w: Weather) returns (action: Action)
      requires d.Advises()
      modifies this, power
      ensures var o := Decide(config, old(Snapshot()), old(power.slot), d, w);
        Snapshot() == o.state && power.slot == o.logind && action == o.action
    {
      if stoodDown {
        return NoAction;
      }
      if config.dryRun {
        if dryPending.Some? {
          return NoAction;
        }
        dryPending := Some(w.now + config.delay);
        return WouldSchedule;
      }
      var found := power.Pending(w.readable);
      if ours.Some? {
        match found {
          case CannotTell =>
            return NoAction;
          case Nothing =>
            ours, stoodDown := None, true;
            return OverriddenByOperator;
          case At(at) =>
            if SameShutdown(ours.value, at) {
              return NoAction;
            }
            ours, stoodDown := None, true;
            return AlreadyPending(at);
        }
      }
      if found.At? {
        var mine := WallMessageIsOurs(w);
        if mine {
          ours := Some(found.at);
          return Adopted(found.at);
        }
        return AlreadyPending(found.at);
      }
      var r := power.SchedulePoweroff(config.delay, SHUTDOWN_MESSAGE, Actor.Coordinator, w);
      match r {
        case Ok(at) =>
          ours := Some(at);
          return Scheduled(at);
        case Err(_) =>
          return Failed;
      }
    }

    method OnRecovery(d: Decision, w: Weather) returns (action: Action)
      requires d.Recovers()
      modifies this, power
      ensures var o := Decide(config, old(Snapshot()), old(power.slot), d, w);
        Snapshot() == o.state && power.slot == o.logind && action == o.action
    {
      stoodDown := false;
      if config.dryRun {
        var had := dryPending.Some?;
        dryPending := None;
        return if had then WouldCancel else NoAction;
      }
      if ours.None? {
        return NoAction;
      }
      var found := power.Pending(w.readable);
      if found.At? && !SameShutdown(ours.value, found.at) {
        ours := None;
        return NoAction;
      }
      var r := power.Cancel(w);
      match r {
        case Ok(_) =>
          ours := None;
          return Cancelled;
        case Err(_) =>
          return Failed;
      }
    }
  }
}
