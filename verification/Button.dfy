/** The case button: from edges to presses, and from a press to a command. */
module Button {
  import opened Wrappers
  import opened Clock
  import opened Logind

  const MILLISECOND: nat := 1_000_000
  const PULSE_MIN: nat := 10 * MILLISECOND
  const PULSE_MAX: nat := 40 * MILLISECOND
  const MIN_GAP: nat := 1_000 * MILLISECOND
  const DELAY: nat := 60_000 * MILLISECOND

  const MESSAGE: string :=
    "The Argon case button was pressed: powering off in one minute. Press it again to cancel."

  /** A reading of the kernel's monotonic clock, in nanoseconds. */
  type Monotonic = nat

  datatype Edge = Rising(at: Monotonic) | Falling(at: Monotonic)

  datatype Why = NotConfigured | Bounce | SomeoneElses | Unreadable

  datatype Action = Schedule | Cancel | Ignore(why: Why)

  datatype State = State(ours: Option<Time>, last: Option<Monotonic>)

  const FRESH: State := State(None, None)

  predicate IsPress(width: nat) {
    PULSE_MIN <= width <= PULSE_MAX
  }

  function Width(start: Monotonic, end: Monotonic): nat {
    if end >= start then end - start else 0
  }

  /** The record after the wall message has been read: exactly the button's wording makes the shutdown its own. */
  function Recognised(s: State, at: Time, message: Option<string>): State {
    if message == Some(MESSAGE) then s.(ours := Some(at)) else s
  }

  function Pressed(armed: bool, s: State, now: Monotonic, p: Reading): (State, Action) {
    if !armed then (s, Ignore(NotConfigured))
    else if s.last.Some? && Width(s.last.value, now) < MIN_GAP then (s, Ignore(Bounce))
    else
      var s := s.(last := Some(now));
      match p
      case CannotTell => (s, Ignore(Unreadable))
      case At(at) =>
        if s.ours == Some(at) then (s, Cancel) else (s.(ours := None), Ignore(SomeoneElses))
      case Nothing => (s.(ours := None), Schedule)
  }

  /** The next operation on logind, or the end of the press. */
  datatype Next =
    | Done(action: Action, done: bool)
    | Look(now: Monotonic)                  // read what is pending
    | Ask(now: Monotonic, at: Time)         // read its wall message
    | Place                                 // schedule
    | Confirm(intended: Time)               // read the deadline back
    | Retract                               // cancel

  function Judged(armed: bool, full: bool, s: State, now: Monotonic, p: Reading): (State, Next) {
    var (s, action) := Pressed(armed, s, now, p);
    match action
    case Schedule => (s, if full then Place else Done(action, false))
    case Cancel => (s, Retract)
    case Ignore(_) => (s, Done(action, false))
  }

  function Looked(armed: bool, full: bool, s: State, now: Monotonic, p: Reading): (State, Next) {
    if p.At? then (s, Ask(now, p.at)) else Judged(armed, full, s, now, p)
  }

  function Asked(armed: bool, full: bool, s: State, now: Monotonic, at: Time, message: Option<string>): (State, Next) {
    Judged(armed, full, Recognised(s, at, message), now, At(at))
  }

  function Confirmed(s: State, intended: Time, back: Reading): State {
    s.(ours := Some(Reported(back, intended)))
  }

  datatype Outcome = Outcome(state: State, logind: Option<Shutdown>, action: Action, done: bool)

  function Carried(s: State, l: Option<Shutdown>, next: Next, w: Weather): Outcome {
    match next
    case Retract => Outcome(if w.cancels then s.(ours := None) else s, AfterCancel(l, w), Cancel, w.cancels)
    case Done(action, done) => Outcome(s, l, action, done)
    case _ =>
      var l := AfterSchedule(l, MESSAGE, CaseButton, w);
      if w.accepts then Outcome(Confirmed(s, Intended(DELAY, w.now), Read(l, w.backReadable)), l, Schedule, true)
      else Outcome(s, l, Schedule, false)
  }

  /** One press, start to finish: read logind, recognise, decide, act. */
  function Handle(armed: bool, full: bool, s: State, l: Option<Shutdown>, now: Monotonic, w: Weather): Outcome {
    var (s, next) := Looked(armed, full, s, now, Read(l, w.readable));
    match next
    case Ask(_, at) =>
      var l := Changed(l, w.beforeWall);
      var (s, next) := Asked(armed, full, s, now, at, Wall(l, w.wallReadable));
      Carried(s, l, next, w)
    case _ => Carried(s, l, next, w)
  }

  class Button {
    const armed: bool
    /** The time by which the button knows its own poweroff. */
    var ours: Option<Time>
    /** The press that bounces are measured from. */
    var last: Option<Monotonic>

    constructor (armed: bool)
      ensures this.armed == armed && Snapshot() == FRESH
    {
      this.armed, ours, last := armed, None, None;
    }

    function Snapshot(): State
      reads this
    {
      State(ours, last)
    }

    method Press(now: Monotonic, pending: Reading) returns (action: Action)
      modifies this
      ensures (Snapshot(), action) == Pressed(armed, old(Snapshot()), now, pending)
    {
      if !armed {
        return Ignore(NotConfigured);
      }
      if last.Some? && Width(last.value, now) < MIN_GAP {
        return Ignore(Bounce);
      }
      last := Some(now);
      match pending {
        case CannotTell =>
          return Ignore(Unreadable);
        case At(at) =>
          if ours == Some(at) {
            return Cancel;
          }
          ours := None;
          return Ignore(SomeoneElses);
        case Nothing =>
          ours := None;
          return Schedule;
      }
    }

    method Placed(at: Time)
      modifies this
      ensures Snapshot() == old(Snapshot()).(ours := Some(at))
    {
      ours := Some(at);
    }

    method Cancelled()
      modifies this
      ensures Snapshot() == old(Snapshot()).(ours := None)
    {
      ours := None;
    }
  }

  /** Reads the message of whatever is pending, and takes it over if the wording is the button's. */
  method Recognise(button: Button, power: Manager, pending: Reading, w: Weather)
    modifies button, power
    ensures pending.At? ==>
      && power.slot == Changed(old(power.slot), w.beforeWall)
      && button.Snapshot() == Recognised(old(button.Snapshot()), pending.at, Wall(power.slot, w.wallReadable))
    ensures !pending.At? ==> power.slot == old(power.slot) && button.Snapshot() == old(button.Snapshot())
  {
    if pending.At? {
      var m := power.WallMessage(w);
      if m == Some(MESSAGE) {
        button.Placed(pending.at);
      }
    }
  }

  /** Carries out what a press asks for. */
  method Act(button: Button, power: Manager, now: Monotonic, pending: Reading, full: bool, w: Weather)
    returns (action: Action, done: bool)
    modifies button, power
    ensures var (s, next) := Judged(button.armed, full, old(button.Snapshot()), now, pending);
      Outcome(button.Snapshot(), power.slot, action, done) == Carried(s, old(power.slot), next, w)
  {
    action := button.Press(now, pending);
    done := false;
    match action {
      case Schedule =>
        if full {
          var r := power.SchedulePoweroff(DELAY, MESSAGE, CaseButton, w);
          if r.Ok? {
            button.Placed(r.value);
            done := true;
          }
        }
      case Cancel =>
        var r := power.Cancel(w);
        if r.Ok? {
          button.Cancelled();
          done := true;
        }
      case Ignore(_) =>
    }
  }

  /** The body of the watching loop for one pulse that is a press. */
  method OnPress(button: Button, power: Manager, now: Monotonic, full: bool, w: Weather)
    returns (action: Action, done: bool)
    modifies button, power
    ensures Outcome(button.Snapshot(), power.slot, action, done)
         == Handle(button.armed, full, old(button.Snapshot()), old(power.slot), now, w)
  {
    var pending := power.Pending(w.readable);
    Recognise(button, power, pending, w);
    action, done := Act(button, power, now, pending, full, w);
  }

  /** Edge `i` ends a press: it falls, the edge before it rose, and the pulse has a press's width. */
  predicate EndsPress(edges: seq<Edge>, i: int) {
    && 1 <= i < |edges|
    && edges[i].Falling?
    && edges[i - 1].Rising?
    && IsPress(Width(edges[i - 1].at, edges[i].at))
  }

  function PressTimes(edges: seq<Edge>, n: nat): seq<Monotonic>
    requires n <= |edges|
  {
    if n == 0 then []
    else PressTimes(edges, n - 1) + if EndsPress(edges, n - 1) then [edges[n - 1].at] else []
  }

  /**
   * The watching loop's pairing of edges: exactly the pulses made of a rise directly followed by
   * a fall, of a press's width. A fall with no rise, a repeated rise and a glitch give nothing.
   */
  method PairEdges(edges: seq<Edge>) returns (presses: seq<Monotonic>)
    ensures presses == PressTimes(edges, |edges|)
  {
    presses := [];
    var rising: Option<Monotonic> := None;
    for i := 0 to |edges|
      invariant presses == PressTimes(edges, i)
      invariant rising == if i > 0 && edges[i - 1].Rising? then Some(edges[i - 1].at) else None
    {
      match edges[i] {
        case Rising(at) =>
          rising := Some(at);
        case Falling(at) =>
          if rising.Some? {
            var start := rising.value;
            rising := None;
            if IsPress(Width(start, at)) {
              presses := presses + [at];
            }
          }
      }
    }
  }
}
