/**
 * The coordinator's and the button's objects run each job in one call, told by a weather what
 * everybody else does in its gaps. Here that weather is earned: whatever steps others take between
 * the operations of a job, its own steps lead where the object's specification leads.
 */
module ObjectSteps {
  import opened Wrappers
  import opened Clock
  import opened Logind
  import opened History
  import opened Ownership
  import opened Protocol
  import C = Coordinator
  import B = Button

  // ---- A poll ---------------------------------------------------------------------------------

  predicate OthersThanUps(steps: seq<Step>) {
    forall i | 0 <= i < |steps| :: IsButtons(steps[i]) || IsOperators(steps[i])
  }

  lemma {:induction false} OthersLeavePoll(setup: Setup, w: World, steps: seq<Step>)
    requires OthersThanUps(steps)
    ensures Run(setup, w, steps).coord == w.coord && Run(setup, w, steps).ups == w.ups
    decreases |steps|
  {
    hide B.MESSAGE, B.Looked, B.Asked;
    if steps != [] {
      assert IsButtons(steps[0]) || IsOperators(steps[0]);
      OthersLeavePoll(setup, Next(setup, w, steps[0]), steps[1..]);
    }
  }

  /** The operation a poll is ready for, going as the weather has it. */
  function PollOperation(next: C.Next, x: Weather): Step {
    match next
    case Look(_) => UpsReads(x.readable)
    case Ask(_) => UpsReads(x.wallReadable)
    case Confirm(_) => UpsReads(x.backReadable)
    case Place => UpsActs(x.accepts, x.now, x.placed)
    case _ => UpsActs(x.cancels, x.now, x.placed)
  }

  /** Everybody else's turn, then the poll's next operation, if it is not over. */
  function PollGoesOn(setup: Setup, w: World, others: seq<Step>, x: Weather): World {
    if !w.ups.Polling? then w
    else Next(setup, Run(setup, w, others), PollOperation(w.ups.next, x))
  }

  /** What one operation of a poll comes to, on values. */
  function Operated(setup: Setup, s: C.State, next: C.Next, slot: Option<Shutdown>, x: Weather)
    : (C.State, C.Next, Option<Shutdown>)
  {
    match next
    case Look(advising) =>
      var (s, next) := C.Looked(s, advising, Read(slot, x.readable));
      (s, next, slot)
    case Ask(at) =>
      var (s, action) := C.Asked(s, at, Wall(slot, x.wallReadable));
      (s, C.Done(action), slot)
    case Confirm(intended) =>
      var (s, action) := C.Confirmed(s, intended, Read(slot, x.backReadable));
      (s, C.Done(action), slot)
    case Place =>
      if x.accepts
      then (s, C.Confirm(Intended(setup.config.delay, x.now)),
            Some(Shutdown(x.placed, C.SHUTDOWN_MESSAGE, Actor.Coordinator)))
      else (s, C.Done(C.Failed), slot)
    case _ =>
      var (s, action) := C.Retracted(s, x.cancels);
      (s, C.Done(action), if x.cancels then None else slot)
  }

  predicate Stands(w: World, s: C.State, next: C.Next, advising: bool) {
    && w.coord == s
    && w.ups == (if next.Done? then Idle else Polling(next))
    && (next.Done? ==> w.past.Then? && w.past.last == PollEnded(advising, next.action))
  }

  predicate Fits(next: C.Next, advising: bool) {
    match next
    case Done(_) => false
    case Look(a) => a == advising
    case Retract => !advising
    case _ => advising
  }

  lemma OperationLeads(setup: Setup, w: World, others: seq<Step>, x: Weather, advising: bool)
    requires OthersThanUps(others) && w.ups.Polling? && Fits(w.ups.next, advising)
    ensures
      var (s, next, slot) := Operated(setup, w.coord, w.ups.next, Run(setup, w, others).slot, x);
      var w' := PollGoesOn(setup, w, others, x);
      Stands(w', s, next, advising) && w'.slot == slot
  {
    hide C.SHUTDOWN_MESSAGE, C.Looked, C.Asked, C.Confirmed, C.Retracted, Minutes, ButtonStep, Run;
    OthersLeavePoll(setup, w, others);
  }

  /** The operations of a poll, one after another on values, with the slots they find. */
  lemma DecideIsOperations(setup: Setup, s: C.State, advising: bool, d: C.Decision, x: Weather,
                           a: Option<Shutdown>, b: Option<Shutdown>, c: Option<Shutdown>)
    requires C.Begin(setup.config, s, d, x.now).1 == C.Look(advising)
    ensures
      var y := x.(beforeWall := Becomes(b), beforeCommand := Becomes(b), beforeReadback := Becomes(c));
      var o := C.Decide(setup.config, s, a, d, y);
      var (s0, next0) := C.Begin(setup.config, s, d, x.now);
      var (s1, next1, l1) := Operated(setup, s0, next0, a, x);
      && advising == d.Advises()
      && (next1.Done? ==> o.state == s1 && o.action == next1.action && o.logind == l1)
      && (!next1.Done? ==>
            Fits(next1, advising) &&
            var (s2, next2, l2) := Operated(setup, s1, next1, b, x);
            && (next2.Done? ==> o.state == s2 && o.action == next2.action && o.logind == l2)
            && (!next2.Done? ==>
                  Fits(next2, advising) &&
                  var (s3, next3, l3) := Operated(setup, s2, next2, c, x);
                  next3.Done? && o.state == s3 && o.action == next3.action && o.logind == l3))
  {
    hide C.SHUTDOWN_MESSAGE, C.Contains, Minutes;
  }

  /**
   * A poll of the object is a poll of this system: whatever the button and operators do before
   * each of its operations, its steps lead where `Decide` leads, in the weather they make.
   */
  lemma PollIsItsSteps(
    setup: Setup, w: World, d: C.Decision, x: Weather, g0: seq<Step>, g1: seq<Step>, g2: seq<Step>)
    requires w.ups.Idle? && OthersThanUps(g0) && OthersThanUps(g1) && OthersThanUps(g2)
    ensures
      var w0 := Next(setup, w, StartPoll(d, x.now));
      var w1 := PollGoesOn(setup, w0, g0, x);
      var w2 := PollGoesOn(setup, w1, g1, x);
      var w3 := PollGoesOn(setup, w2, g2, x);
      var found := if w0.ups.Polling? then Run(setup, w0, g0).slot else w.slot;
      var y := x.(beforeWall := Becomes(Run(setup, w1, g1).slot), beforeCommand := Becomes(Run(setup, w1, g1).slot),
                  beforeReadback := Becomes(Run(setup, w2, g2).slot));
      var o := C.Decide(setup.config, w.coord, found, d, y);
      && w3.ups.Idle? && w3.coord == o.state && w3.slot == o.logind
      && w3.past.Then? && w3.past.last == PollEnded(d.Advises(), o.action)
  {
    hide C.Decide, C.Looked, C.Asked, C.Confirmed, Operated, PollGoesOn, Run;
    var w0 := Next(setup, w, StartPoll(d, x.now));
    var w1 := PollGoesOn(setup, w0, g0, x);
    var w2 := PollGoesOn(setup, w1, g1, x);
    var next := C.Begin(setup.config, w.coord, d, x.now).1;
    if next.Look? {
      var a, b, c := Run(setup, w0, g0).slot, Run(setup, w1, g1).slot, Run(setup, w2, g2).slot;
      DecideIsOperations(setup, w.coord, next.advising, d, x, a, b, c);
      OperationLeads(setup, w0, g0, x, d.Advises());
      if w1.ups.Polling? {
        OperationLeads(setup, w1, g1, x, d.Advises());
        if w2.ups.Polling? {
          OperationLeads(setup, w2, g2, x, d.Advises());
        } else {
          PollIsOver(setup, w2, g2, x);
        }
      } else {
        PollIsOver(setup, w1, g1, x);
        PollIsOver(setup, w2, g2, x);
      }
    } else {
      BeginsDone(setup, w, d, x);
      PollIsOver(setup, w0, g0, x);
      PollIsOver(setup, w1, g1, x);
      PollIsOver(setup, w2, g2, x);
    }
  }

  lemma PollIsOver(setup: Setup, w: World, others: seq<Step>, x: Weather)
    requires !w.ups.Polling?
    ensures PollGoesOn(setup, w, others, x) == w
  {
  }

  lemma BeginsDone(setup: Setup, w: World, d: C.Decision, x: Weather)
    requires w.ups.Idle? && !C.Begin(setup.config, w.coord, d, x.now).1.Look?
    ensures C.Begin(setup.config, w.coord, d, x.now).1.Done?
    ensures forall y: Weather, l | y.now == x.now ::
      C.Decide(setup.config, w.coord, l, d, y)
        == var (s, next) := C.Begin(setup.config, w.coord, d, x.now); C.Outcome(s, l, next.action, C.NoCall)
  {
  }

  // ---- A press --------------------------------------------------------------------------------

  predicate OthersThanButton(steps: seq<Step>) {
    forall i | 0 <= i < |steps| :: !IsButtons(steps[i]) && !steps[i].RestartDaemon?
  }

  lemma {:induction false} OthersLeavePress(setup: Setup, w: World, steps: seq<Step>)
    requires OthersThanButton(steps)
    ensures Run(setup, w, steps).button == w.button && Run(setup, w, steps).finger == w.finger
    decreases |steps|
  {
    hide C.SHUTDOWN_MESSAGE, C.Begin, C.Looked, C.Asked;
    if steps != [] {
      assert !IsButtons(steps[0]) && !steps[0].RestartDaemon?;
      OthersLeavePress(setup, Next(setup, w, steps[0]), steps[1..]);
    }
  }

  function PressOperation(next: B.Next, x: Weather): Step {
    match next
    case Look(_) => ButtonReads(x.readable)
    case Ask(_, _) => ButtonReads(x.wallReadable)
    case Confirm(_) => ButtonReads(x.backReadable)
    case Place => ButtonActs(x.accepts, x.now, x.placed)
    case _ => ButtonActs(x.cancels, x.now, x.placed)
  }

  /** Everybody else's turn, then the press's next operation, if it is not over. */
  function PressGoesOn(setup: Setup, w: World, others: seq<Step>, x: Weather): World {
    if !w.finger.Pressing? then w
    else Next(setup, Run(setup, w, others), PressOperation(w.finger.next, x))
  }

  /** What one operation of a press comes to, on values. */
  function Worked(setup: Setup, s: B.State, next: B.Next, slot: Option<Shutdown>, x: Weather)
    : (B.State, B.Next, Option<Shutdown>)
  {
    match next
    case Look(now) =>
      var (s, next) := B.Looked(setup.armed, setup.full, s, now, Read(slot, x.readable));
      (s, next, slot)
    case Ask(now, at) =>
      var (s, next) := B.Asked(setup.armed, setup.full, s, now, at, Wall(slot, x.wallReadable));
      (s, next, slot)
    case Confirm(intended) =>
      (B.Confirmed(s, intended, Read(slot, x.backReadable)), B.Done(B.Schedule, true), slot)
    case Place =>
      if x.accepts
      then (s, B.Confirm(Intended(B.DELAY, x.now)), Some(Shutdown(x.placed, B.MESSAGE, CaseButton)))
      else (s, B.Done(B.Schedule, false), slot)
    case _ =>
      if x.cancels then (s.(ours := None), B.Done(B.Cancel, true), None) else (s, B.Done(B.Cancel, false), slot)
  }

  lemma PressLeads(setup: Setup, w: World, others: seq<Step>, x: Weather)
    requires OthersThanButton(others) && w.finger.Pressing? && !w.finger.next.Done?
    ensures
      var (s, next, slot) := Worked(setup, w.button, w.finger.next, Run(setup, w, others).slot, x);
      var w' := PressGoesOn(setup, w, others, x);
      w'.button == s && w'.finger == (if next.Done? then Waiting else Pressing(next)) && w'.slot == slot
  {
    hide B.MESSAGE, B.Looked, B.Asked, B.Confirmed, Minutes, UpsStep, Run;
    OthersLeavePress(setup, w, others);
  }

  predicate Acts(next: B.Next) {
    next.Place? || next.Retract?
  }

  lemma HandleIsOperations(setup: Setup, s: B.State, now: B.Monotonic, x: Weather,
                           a: Option<Shutdown>, b: Option<Shutdown>, c: Option<Shutdown>, d: Option<Shutdown>)
    ensures
      var y := x.(beforeWall := Becomes(b), beforeCommand := Becomes(c), beforeReadback := Becomes(d));
      var o := B.Handle(setup.armed, setup.full, s, a, now, y);
      var (s1, next1, l1) := Worked(setup, s, B.Look(now), a, x);
      var (s2, next2, l2) := if next1.Ask? then Worked(setup, s1, next1, b, x) else (s1, next1, l1);
      && (next2.Done? ==> o.state == s2 && o.logind == l2)
      && (!next2.Done? ==>
            Acts(next2) &&
            var (s3, next3, l3) := Worked(setup, s2, next2, c, x);
            && (next3.Done? ==> o.state == s3 && o.logind == l3)
            && (!next3.Done? ==>
                  next3.Confirm? &&
                  var (s4, next4, l4) := Worked(setup, s3, next3, d, x);
                  next4.Done? && o.state == s4 && o.logind == l4))
  {
    hide B.MESSAGE, Minutes;
  }

  lemma PressIsOver(setup: Setup, w: World, others: seq<Step>, x: Weather)
    requires !w.finger.Pressing?
    ensures PressGoesOn(setup, w, others, x) == w
  {
  }

  /**
   * A press of the object is a press of this system: whatever polls, wake requests and operators
   * do before each of its operations, its steps lead where `Handle` leads, in the weather they make.
   */
  lemma PressIsItsSteps(
    setup: Setup, w: World, now: B.Monotonic, x: Weather, g0: seq<Step>, g1: seq<Step>, g2: seq<Step>, g3: seq<Step>)
    requires w.finger.Waiting?
    requires OthersThanButton(g0) && OthersThanButton(g1) && OthersThanButton(g2) && OthersThanButton(g3)
    ensures
      var w0 := Next(setup, w, StartPress(now));
      var w1 := PressGoesOn(setup, w0, g0, x);
      var w2 := if w1.finger.Pressing? && w1.finger.next.Ask? then PressGoesOn(setup, w1, g1, x) else w1;
      var w3 := PressGoesOn(setup, w2, g2, x);
      var w4 := PressGoesOn(setup, w3, g3, x);
      var y := x.(beforeWall := Becomes(Run(setup, w1, g1).slot), beforeCommand := Becomes(Run(setup, w2, g2).slot),
                  beforeReadback := Becomes(Run(setup, w3, g3).slot));
      var o := B.Handle(setup.armed, setup.full, w.button, Run(setup, w0, g0).slot, now, y);
      w4.finger.Waiting? && w4.button == o.state && w4.slot == o.logind
  {
    hide B.Handle, B.Looked, B.Asked, B.Confirmed, Worked, PressGoesOn, Run;
    var w0 := Next(setup, w, StartPress(now));
    var w1 := PressGoesOn(setup, w0, g0, x);
    var asked := w1.finger.Pressing? && w1.finger.next.Ask?;
    var w2 := if asked then PressGoesOn(setup, w1, g1, x) else w1;
    var w3 := PressGoesOn(setup, w2, g2, x);
    var a, b := Run(setup, w0, g0).slot, Run(setup, w1, g1).slot;
    var c, d := Run(setup, w2, g2).slot, Run(setup, w3, g3).slot;
    HandleIsOperations(setup, w.button, now, x, a, b, c, d);
    PressLeads(setup, w0, g0, x);
    if asked {
      PressLeads(setup, w1, g1, x);
    }
    if w2.finger.Pressing? {
      PressLeads(setup, w2, g2, x);
    } else {
      PressIsOver(setup, w2, g2, x);
    }
    if w3.finger.Pressing? {
      PressLeads(setup, w3, g3, x);
    } else {
      PressIsOver(setup, w3, g3, x);
    }
  }
}
