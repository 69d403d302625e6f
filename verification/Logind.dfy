/**
 * logind's one pending shutdown, and the reads and commands every actor reaches it through.
 *
 * Each read and each command is a process of its own. Any of them can fail without the others, and
 * anybody else may act between one and the next. `Weather` fixes those outcomes for one decision; leaving
 * it arbitrary is what "any environment" means in the lemmas.
 */
module Logind {
  import opened Wrappers
  import opened Clock

  const SAME_SHUTDOWN_TOLERANCE: int := 90 * SECOND

  /** Times this close are taken for one shutdown's. */
  predicate SameShutdown(a: Time, b: Time) {
    (if a >= b then a - b else b - a) <= SAME_SHUTDOWN_TOLERANCE
  }

  /** Who placed a shutdown. No command reveals it: it exists so that theorems can speak of it. */
  datatype Actor = Coordinator | CaseButton | WakeRequest | Operator

  datatype Shutdown = Shutdown(at: Time, message: string, who: Actor)

  /** A read's answer; a read that fails is an answer of its own kind. */
  datatype Reading = CannotTell | Nothing | At(at: Time)

  function Read(l: Option<Shutdown>, works: bool): Reading {
    if !works then CannotTell else if l.Some? then At(l.value.at) else Nothing
  }

  /** The wall message, if it can be read and is not empty. */
  function Wall(l: Option<Shutdown>, works: bool): Option<string> {
    if works && l.Some? && l.value.message != "" then Some(l.value.message) else None
  }

  /** What everybody else did to the slot in a gap between two of a caller's operations. */
  datatype Change = Quiet | Becomes(slot: Option<Shutdown>)

  function Changed(l: Option<Shutdown>, change: Change): Option<Shutdown> {
    match change case Quiet => l case Becomes(slot) => slot
  }

  datatype Weather = Weather(
    readable: bool,          // the pending shutdown can be read
    beforeWall: Change,      // between that read and the wall message's
    wallReadable: bool,      // the wall message can be read
    beforeCommand: Change,   // between the last read and the command
    accepts: bool,           // a schedule command is accepted
    cancels: bool,           // a cancel command is accepted
    now: Time,               // the clock when a schedule command is prepared
    placed: Time,            // the deadline logind takes for it
    beforeReadback: Change,  // between an accepted schedule command and its read-back
    backReadable: bool)      // that read works

  /** `shutdown` takes whole minutes: rounded up, and never the immediate "+0". */
  function Minutes(delay: nat): (m: nat)
    ensures m >= 1
    ensures m * 60 >= delay / SECOND
    ensures m == 1 || (m - 1) * 60 < delay / SECOND
  {
    var m := (delay / SECOND + 59) / 60;
    if m < 1 then 1 else m
  }

  function Intended(delay: nat, now: Time): Time {
    now + Minutes(delay) * 60 * SECOND
  }

  /** The estimate is the delay from now, in whole minutes, at least one and rounded up. */
  lemma EstimateIsClose(delay: nat, now: Time)
    ensures var ahead := Intended(delay, now) - now;
      && ahead % 60_000_000_000 == 0 && ahead >= 60_000_000_000
      && delay / 1_000_000_000 * 1_000_000_000 <= ahead
      && (ahead == 60_000_000_000 || ahead < delay / 1_000_000_000 * 1_000_000_000 + 60_000_000_000)
  {
    var m := Minutes(delay);
    assert Intended(delay, now) - now == m * 60_000_000_000;
  }

  /** What to report of a shutdown whose command has already run. */
  function Reported(back: Reading, intended: Time): Time {
    if back.At? then back.at else intended
  }

  /** The command's own estimate is within the tolerance of the deadline logind took. */
  predicate Prompt(delay: nat, now: Time, placed: Time) {
    SameShutdown(Intended(delay, now), placed)
  }

  function AfterSchedule(l: Option<Shutdown>, message: string, who: Actor, w: Weather): Option<Shutdown> {
    if w.accepts then Changed(Some(Shutdown(w.placed, message, who)), w.beforeReadback)
    else Changed(l, w.beforeCommand)
  }

  /** The time reported for an accepted command, from the slot as the read-back finds it. */
  function ScheduledTime(delay: nat, after: Option<Shutdown>, w: Weather): Time {
    Reported(Read(after, w.backReadable), Intended(delay, w.now))
  }

  function AfterCancel(l: Option<Shutdown>, w: Weather): Option<Shutdown> {
    if w.cancels then None else Changed(l, w.beforeCommand)
  }

  /** logind itself: one slot, which a new schedule replaces. */
  class Manager {
    var slot: Option<Shutdown>

    constructor (slot: Option<Shutdown>)
      ensures this.slot == slot
    {
      this.slot := slot;
    }

    /** Everybody else's turn. */
    method OthersAct(change: Change)
      modifies this
      ensures slot == Changed(old(slot), change)
    {
      match change {
        case Quiet =>
        case Becomes(s) => slot := s;
      }
    }

    method SchedulePoweroff(delay: nat, message: string, who: Actor, w: Weather)
      returns (r: Result<Time, ()>)
      modifies this
      ensures slot == AfterSchedule(old(slot), message, who, w)
      ensures r == if w.accepts then Ok(ScheduledTime(delay, slot, w)) else Err(())
    {
      var minutes := (delay / SECOND + 59) / 60;
      if minutes < 1 {
        minutes := 1;
      }
      var intended := w.now + minutes * 60 * SECOND;
      OthersAct(w.beforeCommand);
      if !w.accepts {
        return Err(());
      }
      slot := Some(Shutdown(w.placed, message, who));
      OthersAct(w.beforeReadback);
      // From here on the caller has a shutdown to answer for, whatever the read-back says.
      var back := Pending(w.backReadable);
      return Ok(if back.At? then back.at else intended);
    }

    method Cancel(w: Weather) returns (r: Result<(), ()>)
      modifies this
      ensures slot == AfterCancel(old(slot), w)
      ensures r.Ok? <==> w.cancels
    {
      OthersAct(w.beforeCommand);
      if !w.cancels {
        return Err(());
      }
      slot := None;
      return Ok(());
    }

    method Pending(works: bool) returns (r: Reading)
      ensures r == Read(slot, works)
    {
      if !works {
        return CannotTell;
      }
      match slot {
        case Some(s) => return At(s.at);
        case None => return Nothing;
      }
    }

    method WallMessage(w: Weather) returns (r: Option<string>)
      modifies this
      ensures slot == Changed(old(slot), w.beforeWall)
      ensures r == Wall(slot, w.wallReadable)
    {
      OthersAct(w.beforeWall);
      if w.wallReadable && slot.Some? && slot.value.message != "" {
        return Some(slot.value.message);
      }
      return None;
    }
  }
}
