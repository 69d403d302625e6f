/**
 * The actors around one logind, operation by operation: the UPS thread, which polls the battery
 * and serves wake requests, the button's thread, and operators. Nothing locks logind, so between
 * any two operations of one of them anybody else may act.
 */
module Protocol {
  import opened Wrappers
  import opened Clock
  import opened Logind
  import opened Calendar
  import opened History
  import C = Coordinator
  import B = Button
  import Wake

  datatype Setup = Setup(config: C.Config, armed: bool, full: bool)

  /** Where the UPS thread is: between jobs, inside a poll, or about to schedule a wake's poweroff. */
  datatype UpsThread = Idle | Polling(next: C.Next) | Waking(wake: UpsTime)

  /** Where the button's thread is. */
  datatype ButtonThread = Waiting | Pressing(next: B.Next)

  datatype World = World(
    slot: Option<Shutdown>,
    coord: C.State,
    ups: UpsThread,
    button: B.State,
    finger: ButtonThread,
    past: History)

  datatype Step =
    | StartPoll(decision: C.Decision, clock: Time)
    | StartWake(wake: UpsTime)
    | UpsReads(works: bool)
    | UpsActs(accepted: bool, clock: Time, placed: Time)
    | StartPress(now: B.Monotonic)
    | ButtonReads(works: bool)
    | ButtonActs(accepted: bool, clock: Time, placed: Time)
    | OperatorSchedules(at: Time, message: string)
    | OperatorCancels
    | RestartDaemon

  function Noted(before: Option<Time>, after: Option<Time>, h: History, me: Actor): History {
    if before.Some? && after.None? then Then(h, GaveUp(me)) else h
  }

  function Sight(w: World, works: bool): Seen {
    if works then Saw(w.slot) else Blind
  }

  // ---- The UPS thread ------------------------------------------------------------------------

  /** The coordinator's poll goes on, or ends. */
  function Settled(w: World, s: C.State, next: C.Next, advising: bool, h: History): World {
    if next.Done? then w.(coord := s, ups := Idle, past := Then(h, PollEnded(advising, next.action)))
    else w.(coord := s, ups := Polling(next), past := h)
  }

  function PollStarts(setup: Setup, w: World, d: C.Decision, clock: Time): World {
    var (s, next) := C.Begin(setup.config, w.coord, d, clock);
    Settled(w, s, next, d.Advises(), Then(w.past, PollBegan(d)))
  }

  function CoordLooks(w: World, advising: bool, works: bool): World {
    var (s, next) := C.Looked(w.coord, advising, Read(w.slot, works));
    var h := Then(w.past, Event.Looked(Actor.Coordinator, Sight(w, works)));
    Settled(w, s, next, advising, Noted(w.coord.ours, s.ours, h, Actor.Coordinator))
  }

  function CoordAsks(w: World, at: Time, works: bool): World {
    var (s, action) := C.Asked(w.coord, at, Wall(w.slot, works));
    var h := if action.Adopted? then Then(w.past, Event.Adopted(Actor.Coordinator, at)) else w.past;
    Settled(w, s, C.Done(action), true, h)
  }

  function CoordConfirms(w: World, intended: Time, works: bool): World {
    var back := Read(w.slot, works);
    var (s, action) := C.Confirmed(w.coord, intended, back);
    Settled(w, s, C.Done(action), true,
            Then(w.past, Event.Confirmed(Actor.Coordinator, Reported(back, intended), Sight(w, works))))
  }

  function CoordPlaces(setup: Setup, w: World, accepted: bool, clock: Time, placed: Time): World {
    if !accepted then Settled(w, w.coord, C.Done(C.Failed), true, w.past)
    else
      var s := Shutdown(placed, C.SHUTDOWN_MESSAGE, Actor.Coordinator);
      var intended := Intended(setup.config.delay, clock);
      Settled(w.(slot := Some(s)), w.coord, C.Confirm(intended), true, Then(w.past, Event.Placed(s, intended)))
  }

  function CoordRetracts(w: World, accepted: bool): World {
    var (s, action) := C.Retracted(w.coord, accepted);
    if accepted
    then Settled(w.(slot := None), s, C.Done(action), false, Then(w.past, Cleared(Actor.Coordinator, w.slot)))
    else Settled(w, s, C.Done(action), false, w.past)
  }

  /** The last act of a wake request: it schedules without looking at what is pending. */
  function WakePlaces(w: World, wake: UpsTime, accepted: bool, clock: Time, placed: Time): World {
    if !accepted then w.(ups := Idle)
    else
      var s := Shutdown(placed, Wake.PoweroffMessage(wake), Actor.WakeRequest);
      var intended := Intended(Wake.POWEROFF_DELAY * SECOND, clock);
      w.(slot := Some(s), ups := Idle, past := Then(w.past, Event.Placed(s, intended)))
  }

  // ---- The button's thread -------------------------------------------------------------------

  function Pressed(w: World, s: B.State, next: B.Next, h: History): World {
    w.(button := s, finger := if next.Done? then Waiting else Pressing(next), past := h)
  }

  function ButtonLooks(setup: Setup, w: World, now: B.Monotonic, works: bool): World {
    var (s, next) := B.Looked(setup.armed, setup.full, w.button, now, Read(w.slot, works));
    var h := Then(w.past, Event.Looked(CaseButton, Sight(w, works)));
    Pressed(w, s, next, Noted(w.button.ours, s.ours, h, CaseButton))
  }

  function ButtonAsks(setup: Setup, w: World, now: B.Monotonic, at: Time, works: bool): World {
    var message := Wall(w.slot, works);
    var (s, next) := B.Asked(setup.armed, setup.full, w.button, now, at, message);
    var h := if message == Some(B.MESSAGE) then Then(w.past, Event.Adopted(CaseButton, at)) else w.past;
    Pressed(w, s, next, Noted(w.button.ours, s.ours, h, CaseButton))
  }

  function ButtonConfirms(w: World, intended: Time, works: bool): World {
    var back := Read(w.slot, works);
    Pressed(w, B.Confirmed(w.button, intended, back), B.Done(B.Schedule, true),
            Then(w.past, Event.Confirmed(CaseButton, Reported(back, intended), Sight(w, works))))
  }

  function ButtonPlaces(w: World, accepted: bool, clock: Time, placed: Time): World {
    if !accepted then w.(finger := Waiting)
    else
      var s := Shutdown(placed, B.MESSAGE, CaseButton);
      var intended := Intended(B.DELAY, clock);
      Pressed(w.(slot := Some(s)), w.button, B.Confirm(intended), Then(w.past, Event.Placed(s, intended)))
  }

  function ButtonRetracts(w: World, accepted: bool): World {
    if !accepted then w.(finger := Waiting)
    else
      Pressed(w.(slot := None), w.button.(ours := None), B.Done(B.Cancel, true),
              Then(w.past, Cleared(CaseButton, w.slot)))
  }

  // ---- Steps ---------------------------------------------------------------------------------

  function UpsStep(setup: Setup, w: World, step: Step): World {
    match w.ups
    case Idle =>
      (match step
       case StartPoll(d, clock) => PollStarts(setup, w, d, clock)
       case StartWake(wake) => w.(ups := Waking(wake))
       case _ => w)
    case Waking(wake) => if step.UpsActs? then WakePlaces(w, wake, step.accepted, step.clock, step.placed) else w
    case Polling(next) =>
      if step.UpsReads? then
        match next
        case Look(advising) => CoordLooks(w, advising, step.works)
        case Ask(at) => CoordAsks(w, at, step.works)
        case Confirm(intended) => CoordConfirms(w, intended, step.works)
        case _ => w
      else if step.UpsActs? then
        match next
        case Place => CoordPlaces(setup, w, step.accepted, step.clock, step.placed)
        case Retract => CoordRetracts(w, step.accepted)
        case _ => w
      else w
  }

  function ButtonStep(setup: Setup, w: World, step: Step): World {
    match w.finger
    case Waiting => if step.StartPress? then w.(finger := Pressing(B.Look(step.now))) else w
    case Pressing(next) =>
      if step.ButtonReads? then
        match next
        case Look(now) => ButtonLooks(setup, w, now, step.works)
        case Ask(now, at) => ButtonAsks(setup, w, now, at, step.works)
        case Confirm(intended) => ButtonConfirms(w, intended, step.works)
        case _ => w
      else if step.ButtonActs? then
        match next
        case Place => ButtonPlaces(w, step.accepted, step.clock, step.placed)
        case Retract => ButtonRetracts(w, step.accepted)
        case _ => w
      else w
  }

  /** A step its thread is not ready for does nothing. A restart may come in the middle of anything. */
  function Next(setup: Setup, w: World, step: Step): World {
    match step
    case OperatorSchedules(at, message) =>
      var s := Shutdown(at, message, Operator);
      w.(slot := Some(s), past := Then(w.past, Event.Placed(s, at)))
    case OperatorCancels => w.(slot := None, past := Then(w.past, Cleared(Operator, w.slot)))
    case RestartDaemon => World(w.slot, C.FRESH, Idle, B.FRESH, Waiting, Then(w.past, Restarted))
    case _ => if IsButtons(step) then ButtonStep(setup, w, step) else UpsStep(setup, w, step)
  }

  predicate IsButtons(step: Step) {
    step.StartPress? || step.ButtonReads? || step.ButtonActs?
  }

  function Run(setup: Setup, w: World, steps: seq<Step>): World
    decreases |steps|
  {
    if steps == [] then w else Run(setup, Next(setup, w, steps[0]), steps[1..])
  }

  function Boot(pending: Option<Shutdown>): World {
    World(pending, C.FRESH, Idle, B.FRESH, Waiting, Start(pending))
  }

  // ---- What every step keeps -----------------------------------------------------------------

  /** What the coordinator knows at each point of a poll. */
  predicate PollKnows(w: World) {
    w.ups.Polling? ==>
      match w.ups.next
      case Done(_) => false
      case Look(advising) =>
        if advising then ActsOnAdvice(w.past) else w.coord.ours.Some? && ActsOnRecovery(w.past)
      case Ask(at) => w.coord.ours.None? && SawAt(w.past, Actor.Coordinator, at)
      case Place => w.coord.ours.None? && SawRoom(w.past, Actor.Coordinator) && ActsOnAdvice(w.past)
      case Confirm(intended) =>
        && w.coord.ours.None?
        && JustPlaced(w.past, Actor.Coordinator).Some?
        && JustPlaced(w.past, Actor.Coordinator).value.1 == intended
      case Retract =>
        w.coord.ours.Some? && CouldBe(w.past, w.coord.ours.value) && ActsOnRecovery(w.past)
  }

  /** What the button knows at each point of a press. */
  predicate PressKnows(w: World) {
    w.finger.Pressing? ==>
      match w.finger.next
      case Done(_, _) => false
      case Look(_) => true
      case Ask(_, at) => SawAt(w.past, CaseButton, at)
      case Place => w.button.ours.None? && SawRoom(w.past, CaseButton)
      case Confirm(intended) =>
        JustPlaced(w.past, CaseButton).Some? && JustPlaced(w.past, CaseButton).value.1 == intended
      case Retract => w.button.ours.Some? && SawAt(w.past, CaseButton, w.button.ours.value)
  }

  ghost predicate Inv(w: World) {
    && w.slot == SlotAt(w.past)
    && w.coord.ours == Claim(w.past, Actor.Coordinator)
    && w.button.ours == Claim(w.past, CaseButton)
    && AllEntitled(w.past)
    && PollKnows(w)
    && PressKnows(w)
    && (w.coord.stoodDown && AllPrompt(w.past, Actor.Coordinator) ==> !Alone(w.past, Actor.Coordinator))
  }

  predicate Owned(e: Event, me: Actor) {
    match e
    case Placed(s, _) => s.who == me
    case Cleared(who, _) => who == me
    case Looked(who, _) => who == me
    case Adopted(who, _) => who == me
    case Confirmed(who, _, _) => who == me
    case GaveUp(who) => who == me
    case PollBegan(_) => false
    case PollEnded(_, _) => false
    case Restarted => true
  }

  /** What others do changes nothing in what an actor remembers of its own doing. */
  lemma OthersEvent(h: History, e: Event, me: Actor)
    requires !Owned(e, me)
    ensures Claim(Then(h, e), me) == Claim(h, me)
    ensures View(Then(h, e), me) == View(h, me)
    ensures JustPlaced(Then(h, e), me) == JustPlaced(h, me)
    ensures !e.PollBegan? && !e.Restarted? ==> LatestDecision(Then(h, e)) == LatestDecision(h)
  {
  }

  /** Ending a poll adds nothing to what the history says of anybody. */
  lemma SettledKeeps(w: World, s: C.State, next: C.Next, advising: bool, h: History)
    requires Inv(w.(coord := s, ups := if next.Done? then Idle else Polling(next), past := h))
    ensures Inv(Settled(w, s, next, advising, h))
  {
    hide Signed;
  }

  lemma PollStartKeeps(setup: Setup, w: World, d: C.Decision, clock: Time)
    requires Inv(w) && w.ups.Idle?
    ensures Inv(PollStarts(setup, w, d, clock))
  {
    hide Signed;
    var (s, next) := C.Begin(setup.config, w.coord, d, clock);
    var h := Then(w.past, PollBegan(d));
    OthersEvent(w.past, h.last, Actor.Coordinator);
    OthersEvent(w.past, h.last, CaseButton);
    assert Alone(h, Actor.Coordinator) == Alone(w.past, Actor.Coordinator);
    assert AllPrompt(h, Actor.Coordinator) == AllPrompt(w.past, Actor.Coordinator);
    SettledKeeps(w, s, next, d.Advises(), h);
  }

  /** A coordinator left alone still finds its shutdown where it was, and does not stand down. */
  lemma AloneFindsItsOwn(w: World)
    requires Inv(w) && w.coord.ours.Some?
    requires AllPrompt(w.past, Actor.Coordinator) && Alone(w.past, Actor.Coordinator)
    ensures w.slot.Some? && SameShutdown(w.coord.ours.value, w.slot.value.at)
  {
    AloneIsUndisturbed(w.past, Actor.Coordinator);
    OriginIsCurrent(w.past, Actor.Coordinator);
  }

  lemma CoordLooksKeeps(w: World, advising: bool, works: bool)
    requires Inv(w) && w.ups == Polling(C.Look(advising))
    ensures Inv(CoordLooks(w, advising, works))
  {
    hide Signed;
    var (s, next) := C.Looked(w.coord, advising, Read(w.slot, works));
    var h := Then(w.past, Event.Looked(Actor.Coordinator, Sight(w, works)));
    var noted := Noted(w.coord.ours, s.ours, h, Actor.Coordinator);
    OthersEvent(w.past, h.last, CaseButton);
    OthersEvent(h, GaveUp(Actor.Coordinator), CaseButton);
    if w.coord.ours.Some? && AllPrompt(w.past, Actor.Coordinator) && Alone(w.past, Actor.Coordinator) {
      AloneFindsItsOwn(w);
    }
    assert Claim(h, Actor.Coordinator) == w.coord.ours && View(h, Actor.Coordinator) == Sight(w, works);
    assert AllEntitled(h) && SlotAt(h) == w.slot;
    assert Alone(h, Actor.Coordinator) == Alone(w.past, Actor.Coordinator);
    assert AllPrompt(h, Actor.Coordinator) == AllPrompt(w.past, Actor.Coordinator);
    SettledKeeps(w, s, next, advising, noted);
  }

  lemma CoordAsksKeeps(w: World, at: Time, works: bool)
    requires Inv(w) && w.ups == Polling(C.Ask(at))
    ensures Inv(CoordAsks(w, at, works))
  {
    hide Signed;
    var (s, action) := C.Asked(w.coord, at, Wall(w.slot, works));
    OthersEvent(w.past, Event.Adopted(Actor.Coordinator, at), CaseButton);
    SettledKeeps(w, s, C.Done(action), true,
                 if action.Adopted? then Then(w.past, Event.Adopted(Actor.Coordinator, at)) else w.past);
  }

  lemma CoordConfirmsKeeps(w: World, intended: Time, works: bool)
    requires Inv(w) && w.ups == Polling(C.Confirm(intended))
    ensures Inv(CoordConfirms(w, intended, works))
  {
    hide Signed;
    var back := Read(w.slot, works);
    var (s, action) := C.Confirmed(w.coord, intended, back);
    SettledKeeps(w, s, C.Done(action), true,
                 Then(w.past, Event.Confirmed(Actor.Coordinator, Reported(back, intended), Sight(w, works))));
  }

  lemma CoordPlacesKeeps(setup: Setup, w: World, accepted: bool, clock: Time, placed: Time)
    requires Inv(w) && w.ups == Polling(C.Place)
    ensures Inv(CoordPlaces(setup, w, accepted, clock, placed))
  {
  }

  lemma CoordRetractsKeeps(w: World, accepted: bool)
    requires Inv(w) && w.ups == Polling(C.Retract)
    ensures Inv(CoordRetracts(w, accepted))
  {
    hide Signed;
    var (s, action) := C.Retracted(w.coord, accepted);
    if accepted {
      SettledKeeps(w.(slot := None), s, C.Done(action), false, Then(w.past, Cleared(Actor.Coordinator, w.slot)));
    } else {
      SettledKeeps(w, s, C.Done(action), false, w.past);
    }
  }

  lemma WakePlacesKeeps(w: World, wake: UpsTime, accepted: bool, clock: Time, placed: Time)
    requires Inv(w) && w.ups == Waking(wake)
    ensures Inv(WakePlaces(w, wake, accepted, clock, placed))
  {
    hide Wake.PoweroffMessage;
  }

  lemma ButtonLooksKeeps(setup: Setup, w: World, now: B.Monotonic, works: bool)
    requires Inv(w) && w.finger == Pressing(B.Look(now))
    ensures Inv(ButtonLooks(setup, w, now, works))
  {
    hide Signed;
    var h := Then(w.past, Event.Looked(CaseButton, Sight(w, works)));
    OthersEvent(w.past, h.last, Actor.Coordinator);
    OthersEvent(h, GaveUp(CaseButton), Actor.Coordinator);
    assert Claim(h, CaseButton) == w.button.ours && View(h, CaseButton) == Sight(w, works);
    assert AllEntitled(h) && SlotAt(h) == w.slot;
    assert Alone(h, Actor.Coordinator) == Alone(w.past, Actor.Coordinator);
    assert AllPrompt(h, Actor.Coordinator) == AllPrompt(w.past, Actor.Coordinator);
  }

  lemma ButtonAsksKeeps(setup: Setup, w: World, now: B.Monotonic, at: Time, works: bool)
    requires Inv(w) && w.finger == Pressing(B.Ask(now, at))
    ensures Inv(ButtonAsks(setup, w, now, at, works))
  {
    hide Signed;
    OthersEvent(w.past, Event.Adopted(CaseButton, at), Actor.Coordinator);
    OthersEvent(w.past, GaveUp(CaseButton), Actor.Coordinator);
  }

  lemma ButtonConfirmsKeeps(w: World, intended: Time, works: bool)
    requires Inv(w) && w.finger == Pressing(B.Confirm(intended))
    ensures Inv(ButtonConfirms(w, intended, works))
  {
    hide Signed;
  }

  lemma ButtonPlacesKeeps(w: World, accepted: bool, clock: Time, placed: Time)
    requires Inv(w) && w.finger == Pressing(B.Place)
    ensures Inv(ButtonPlaces(w, accepted, clock, placed))
  {
  }

  lemma ButtonRetractsKeeps(w: World, accepted: bool)
    requires Inv(w) && w.finger == Pressing(B.Retract)
    ensures Inv(ButtonRetracts(w, accepted))
  {
    hide Signed;
  }

  lemma UpsStepKeeps(setup: Setup, w: World, step: Step)
    requires Inv(w)
    ensures Inv(UpsStep(setup, w, step))
  {
    hide Inv, PollStarts, CoordLooks, CoordAsks, CoordConfirms, CoordPlaces, CoordRetracts, WakePlaces;
    match w.ups
    case Idle =>
      if step.StartPoll? {
        PollStartKeeps(setup, w, step.decision, step.clock);
      } else if step.StartWake? {
        WakeStartKeeps(w, step.wake);
      }
    case Waking(wake) =>
      if step.UpsActs? {
        WakePlacesKeeps(w, wake, step.accepted, step.clock, step.placed);
      }
    case Polling(next) =>
      if step.UpsReads? {
        match next
        case Look(advising) => CoordLooksKeeps(w, advising, step.works);
        case Ask(at) => CoordAsksKeeps(w, at, step.works);
        case Confirm(intended) => CoordConfirmsKeeps(w, intended, step.works);
        case _ =>
      } else if step.UpsActs? {
        match next
        case Place => CoordPlacesKeeps(setup, w, step.accepted, step.clock, step.placed);
        case Retract => CoordRetractsKeeps(w, step.accepted);
        case _ =>
      }
  }

  lemma WakeStartKeeps(w: World, wake: UpsTime)
    requires Inv(w)
    ensures Inv(w.(ups := Waking(wake)))
  {
  }

  lemma PressStartKeeps(w: World, now: B.Monotonic)
    requires Inv(w)
    ensures Inv(w.(finger := Pressing(B.Look(now))))
  {
  }

  lemma ButtonStepKeeps(setup: Setup, w: World, step: Step)
    requires Inv(w)
    ensures Inv(ButtonStep(setup, w, step))
  {
    hide Inv, ButtonLooks, ButtonAsks, ButtonConfirms, ButtonPlaces, ButtonRetracts;
    match w.finger
    case Waiting =>
      if step.StartPress? {
        PressStartKeeps(w, step.now);
      }
    case Pressing(next) =>
      if step.ButtonReads? {
        match next
        case Look(now) => ButtonLooksKeeps(setup, w, now, step.works);
        case Ask(now, at) => ButtonAsksKeeps(setup, w, now, at, step.works);
        case Confirm(intended) => ButtonConfirmsKeeps(w, intended, step.works);
        case _ =>
      } else if step.ButtonActs? {
        match next
        case Place => ButtonPlacesKeeps(w, step.accepted, step.clock, step.placed);
        case Retract => ButtonRetractsKeeps(w, step.accepted);
        case _ =>
      }
  }

  lemma NextKeeps(setup: Setup, w: World, step: Step)
    requires Inv(w)
    ensures Inv(Next(setup, w, step))
  {
    hide UpsStep, ButtonStep, C.SHUTDOWN_MESSAGE, B.MESSAGE;
    match step
    case OperatorSchedules(_, _) =>
    case OperatorCancels =>
    case RestartDaemon =>
    case _ =>
      if IsButtons(step) {
        ButtonStepKeeps(setup, w, step);
      } else {
        UpsStepKeeps(setup, w, step);
      }
  }

  /**
   * Over every interleaving of the operations of polls, presses, wake requests and operators, with
   * restarts at any point, both actors' records are the claims read off the history, and every
   * event of the history was entitled.
   */
  lemma {:induction false} RunKeeps(setup: Setup, w: World, steps: seq<Step>)
    requires Inv(w)
    ensures Inv(Run(setup, w, steps))
    decreases |steps|
  {
    hide Inv, Next;
    if steps != [] {
      NextKeeps(setup, w, steps[0]);
      RunKeeps(setup, Next(setup, w, steps[0]), steps[1..]);
    }
  }
}
