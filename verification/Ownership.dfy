/** Who may cancel what, and when a critical battery is protected: theorems over every run. */
module Ownership {
  import opened Wrappers
  import opened Clock
  import opened Logind
  import opened History
  import opened Protocol
  import opened Calendar
  import C = Coordinator
  import B = Button
  import Wake

  function After(setup: Setup, pending: Option<Shutdown>, steps: seq<Step>): World {
    Run(setup, Boot(pending), steps)
  }

  lemma Reachable(setup: Setup, pending: Option<Shutdown>, steps: seq<Step>)
    requires pending.Some? ==> Signed(pending.value)
    ensures Inv(After(setup, pending, steps))
  {
    RunKeeps(setup, Boot(pending), steps);
  }

  /** `e` is an event of some run, right after `before`. */
  predicate Happens(setup: Setup, pending: Option<Shutdown>, steps: seq<Step>, before: History, e: Event) {
    Within(Then(before, e), After(setup, pending, steps).past)
  }

  // ---- Ownership -----------------------------------------------------------------------------

  /**
   * A coordinator cancel follows a shutdown it placed or adopted and has not let go of. What it
   * removes is within the tolerance of that record, unless its read failed or somebody else, of
   * any kind, changed the slot after it; and if nobody else has touched the slot since the record
   * was made, it is that very shutdown.
   */
  lemma CoordinatorOwnership(setup: Setup, pending: Option<Shutdown>, steps: seq<Step>, before: History, e: Event)
    requires pending.Some? ==> Signed(pending.value)
    requires e.Cleared? && e.who.Coordinator? && Happens(setup, pending, steps, before, e)
    ensures e.found == SlotAt(before) && Claim(before, e.who).Some?
    ensures var record := Claim(before, e.who).value;
      && (e.found.Some? && !SameShutdown(record, e.found.value.at) ==>
            View(before, e.who).Blind? || Stale(before, e.who))
      && (!View(before, e.who).Blind? && !Stale(before, e.who) ==> View(before, e.who) == Saw(e.found))
      && (!Disturbed(before, e.who) ==> e.found.Some? && Origin(before, e.who) == Saw(e.found))
  {
    Reachable(setup, pending, steps);
    EntitledThroughout(After(setup, pending, steps).past, before, e);
    ViewIsCurrent(before, e.who);
    if !Disturbed(before, e.who) {
      OriginIsCurrent(before, e.who);
    }
  }

  /** A button cancel removes a shutdown of exactly its record's time, unless anybody else came in between. */
  lemma ButtonOwnership(setup: Setup, pending: Option<Shutdown>, steps: seq<Step>, before: History, e: Event)
    requires pending.Some? ==> Signed(pending.value)
    requires e.Cleared? && e.who.CaseButton? && Happens(setup, pending, steps, before, e)
    ensures e.found == SlotAt(before) && Claim(before, e.who).Some?
    ensures SawAt(before, e.who, Claim(before, e.who).value)
    ensures !Stale(before, e.who) ==> e.found.Some? && e.found.value.at == Claim(before, e.who).value
    ensures !Disturbed(before, e.who) ==> e.found.Some? && Origin(before, e.who) == Saw(e.found)
  {
    Reachable(setup, pending, steps);
    EntitledThroughout(After(setup, pending, steps).past, before, e);
    ViewIsCurrent(before, e.who);
    if !Disturbed(before, e.who) {
      OriginIsCurrent(before, e.who);
    }
  }

  /**
   * What an actor takes for its own by message was its own or an operator's. The one exception
   * needs an operator: time and message are two reads, and between them somebody else's shutdown
   * was replaced by one an operator worded like the actor's.
   */
  lemma AdoptionIsSound(setup: Setup, pending: Option<Shutdown>, steps: seq<Step>, before: History, e: Event)
    requires pending.Some? ==> Signed(pending.value)
    requires e.Adopted? && Happens(setup, pending, steps, before, e)
    ensures SawAt(before, e.who, e.record)
    ensures var seen := View(before, e.who).slot.value;
      seen.who == e.who || seen.who.Operator?
      || (Stale(before, e.who) && SlotAt(before).Some? && SlotAt(before).value.who.Operator?
          && Recognises(e.who, SlotAt(before).value.message))
  {
    Reachable(setup, pending, steps);
    EntitledThroughout(After(setup, pending, steps).past, before, e);
    SlotIsSigned(before);
    RecognisedIsOwn(e.who, SlotAt(before).value);
    ViewIsCurrent(before, e.who);
    if Stale(before, e.who) {
      StaleIsAnothers(before, e.who);
    }
  }

  /** No actor that keeps a record ever schedules a second poweroff while it answers for one. */
  lemma NeverPlacesTwice(setup: Setup, pending: Option<Shutdown>, steps: seq<Step>, before: History, e: Event)
    requires pending.Some? ==> Signed(pending.value)
    requires e.Placed? && KeepsRecord(e.s.who) && Happens(setup, pending, steps, before, e)
    ensures Claim(before, e.s.who).None?
  {
    Reachable(setup, pending, steps);
    EntitledThroughout(After(setup, pending, steps).past, before, e);
  }

  // ---- What calls for a command --------------------------------------------------------------

  /**
   * The coordinator cancels only in a poll whose decision has mains back and that confirmed, with
   * no advice to shut down; and schedules only in one that has that advice.
   */
  lemma CommandsFollowDecisions(setup: Setup, pending: Option<Shutdown>, steps: seq<Step>, before: History, e: Event)
    requires pending.Some? ==> Signed(pending.value)
    requires Happens(setup, pending, steps, before, e)
    ensures e.Cleared? && e.who.Coordinator? ==>
      && LatestDecision(before).Some?
      && var d := LatestDecision(before).value;
         d.level.OnMains? && d.confirmedRecovery && !d.advice.AdviseShutdown?
    ensures e.Placed? && e.s.who.Coordinator? ==>
      LatestDecision(before).Some? && LatestDecision(before).value.advice.AdviseShutdown?
  {
    Reachable(setup, pending, steps);
    EntitledThroughout(After(setup, pending, steps).past, before, e);
  }

  /** Any other decision leaves every state and the slot alone, and the thread at its rest. */
  lemma OthersHold(setup: Setup, w: World, d: C.Decision, clock: Time)
    requires w.ups.Idle?
    requires !d.advice.AdviseShutdown? && !(d.level.OnMains? && d.confirmedRecovery)
    ensures Next(setup, w, StartPoll(d, clock))
         == w.(past := Then(Then(w.past, PollBegan(d)), PollEnded(false, C.NoAction)))
  {
  }

  /**
   * Neither actor schedules over a shutdown it can see: the button saw nothing pending, and the
   * coordinator saw nothing or could not see. So what they replace, if anything, came after the look.
   */
  lemma SchedulesOnlyIntoRoom(setup: Setup, pending: Option<Shutdown>, steps: seq<Step>, before: History, e: Event)
    requires pending.Some? ==> Signed(pending.value)
    requires e.Placed? && KeepsRecord(e.s.who) && Happens(setup, pending, steps, before, e)
    ensures View(before, e.s.who) == Saw(None) || (e.s.who.Coordinator? && View(before, e.s.who).Blind?)
    ensures View(before, e.s.who).Saw? && !Stale(before, e.s.who) ==> SlotAt(before).None?
  {
    Reachable(setup, pending, steps);
    EntitledThroughout(After(setup, pending, steps).past, before, e);
    ViewIsCurrent(before, e.s.who);
  }

  /** A record made by placing is the deadline read back, and the estimate only where there was none to read. */
  lemma RecordIsReadBack(setup: Setup, pending: Option<Shutdown>, steps: seq<Step>, before: History, e: Event)
    requires pending.Some? ==> Signed(pending.value)
    requires e.Confirmed? && Happens(setup, pending, steps, before, e)
    ensures JustPlaced(before, e.who).Some?
    ensures var (s, estimate) := JustPlaced(before, e.who).value;
      && (e.back == Saw(SlotAt(before)) || e.back.Blind?)
      && (e.back.Blind? || SlotAt(before).None? ==> e.record == estimate)
      && (e.back.Saw? && SlotAt(before).Some? ==> e.record == SlotAt(before).value.at)
      && (e.back.Saw? && !Stale(before, e.who) ==> e.record == s.at)
  {
    Reachable(setup, pending, steps);
    EntitledThroughout(After(setup, pending, steps).past, before, e);
    ViewIsCurrent(before, e.who);
  }

  // ---- Protection ----------------------------------------------------------------------------

  predicate IsOperators(step: Step) {
    step.OperatorSchedules? || step.OperatorCancels?
  }

  /** This step ends a poll that advised shutdown. */
  predicate EndsAdvised(setup: Setup, w: World, step: Step) {
    var past := Next(setup, w, step).past;
    past != w.past && past.Then? && past.last.PollEnded? && past.last.advising
  }

  /**
   * When a poll that advised shutdown ends, a shutdown is pending, or the schedule call failed, or
   * the coordinator has stood down; or else somebody else changed the slot in the middle of the
   * poll, or logind could not be read and somebody else has touched the slot since the record.
   */
  lemma Protection(setup: Setup, pending: Option<Shutdown>, steps: seq<Step>, step: Step)
    requires pending.Some? ==> Signed(pending.value)
    requires !setup.config.dryRun && EndsAdvised(setup, After(setup, pending, steps), step)
    ensures var w := Next(setup, After(setup, pending, steps), step);
      || w.slot.Some?
      || w.past.last.action.Failed?
      || w.coord.stoodDown
      || Stale(w.past, Actor.Coordinator)
      || (View(w.past, Actor.Coordinator).Blind? && Disturbed(w.past, Actor.Coordinator))
  {
    Reachable(setup, pending, steps);
    EndsProtected(setup, After(setup, pending, steps), step);
  }

  /** Nothing was pending, and none of the excuses holds. */
  predicate Exposed(w: World) {
    && w.slot.None? && !w.coord.stoodDown && !Stale(w.past, Actor.Coordinator)
    && (View(w.past, Actor.Coordinator).Blind? ==> !Disturbed(w.past, Actor.Coordinator))
    && !(w.past.Then? && w.past.last.PollEnded? && w.past.last.action.Failed?)
  }

  lemma LookProtects(w: World, works: bool)
    requires Inv(w) && w.ups == Polling(C.Look(true)) && CoordLooks(w, true, works).ups.Idle?
    ensures !Exposed(CoordLooks(w, true, works))
  {
    hide Signed, C.SHUTDOWN_MESSAGE, B.MESSAGE;
    var h := Then(w.past, Event.Looked(Actor.Coordinator, Sight(w, works)));
    if w.coord.ours.Some? && !Disturbed(w.past, Actor.Coordinator) {
      OriginIsCurrent(w.past, Actor.Coordinator);
    }
    assert View(h, Actor.Coordinator) == Sight(w, works);
    assert Disturbed(h, Actor.Coordinator) == Disturbed(w.past, Actor.Coordinator);
  }

  lemma AskProtects(w: World, at: Time, works: bool)
    requires Inv(w) && w.ups == Polling(C.Ask(at))
    ensures !Exposed(CoordAsks(w, at, works))
  {
    hide Signed, C.SHUTDOWN_MESSAGE, B.MESSAGE;
    ViewIsCurrent(w.past, Actor.Coordinator);
    var h := Then(w.past, Event.Adopted(Actor.Coordinator, at));
    assert Stale(h, Actor.Coordinator) == Stale(w.past, Actor.Coordinator);
  }

  lemma ConfirmProtects(w: World, intended: Time, works: bool)
    requires Inv(w) && w.ups == Polling(C.Confirm(intended))
    ensures !Exposed(CoordConfirms(w, intended, works))
  {
    hide Signed, C.SHUTDOWN_MESSAGE, B.MESSAGE;
    ViewIsCurrent(w.past, Actor.Coordinator);
    var h := Then(w.past, Event.Confirmed(Actor.Coordinator, Reported(Read(w.slot, works), intended), Sight(w, works)));
    assert Stale(h, Actor.Coordinator) == Stale(w.past, Actor.Coordinator);
  }

  lemma ButtonEndsNoPoll(setup: Setup, w: World, step: Step)
    requires IsButtons(step) || IsOperators(step) || step.RestartDaemon?
    ensures !EndsAdvised(setup, w, step)
  {
    hide C.SHUTDOWN_MESSAGE, B.MESSAGE, B.Looked, B.Asked;
  }

  lemma EndsProtected(setup: Setup, w: World, step: Step)
    requires Inv(w) && !setup.config.dryRun && EndsAdvised(setup, w, step)
    ensures !Exposed(Next(setup, w, step))
  {
    hide Inv, CoordLooks, CoordAsks, CoordConfirms, ButtonStep, C.SHUTDOWN_MESSAGE, B.MESSAGE, Exposed;
    if IsButtons(step) || IsOperators(step) || step.RestartDaemon? {
      ButtonEndsNoPoll(setup, w, step);
    } else if w.ups.Idle? {
      StartProtects(setup, w, step);
    } else if w.ups.Polling? && step.UpsReads? {
      match w.ups.next
      case Look(advising) => LookEndsAdvised(setup, w, advising, step.works);
      case Ask(at) => AskProtects(w, at, step.works);
      case Confirm(intended) => ConfirmProtects(w, intended, step.works);
      case _ =>
    } else {
      ActEndsFailed(setup, w, step);
    }
  }

  lemma LookEndsAdvised(setup: Setup, w: World, advising: bool, works: bool)
    requires Inv(w) && w.ups == Polling(C.Look(advising)) && EndsAdvised(setup, w, UpsReads(works))
    ensures !Exposed(CoordLooks(w, advising, works))
  {
    hide Inv, Exposed;
    LookProtects(w, works);
  }

  lemma StartProtects(setup: Setup, w: World, step: Step)
    requires w.ups.Idle? && !setup.config.dryRun && EndsAdvised(setup, w, step)
    requires !IsButtons(step) && !IsOperators(step) && !step.RestartDaemon?
    ensures !Exposed(Next(setup, w, step))
  {
    hide C.SHUTDOWN_MESSAGE, B.MESSAGE;
  }

  lemma ActEndsFailed(setup: Setup, w: World, step: Step)
    requires !w.ups.Idle? && !step.UpsReads? && EndsAdvised(setup, w, step)
    requires !IsButtons(step) && !IsOperators(step) && !step.RestartDaemon?
    ensures !Exposed(Next(setup, w, step))
  {
    hide C.SHUTDOWN_MESSAGE, B.MESSAGE;
  }

  /** With prompt deadlines, the coordinator stands down only if somebody else touched the slot since its record. */
  lemma StandsDownForAReason(setup: Setup, pending: Option<Shutdown>, steps: seq<Step>, step: Step)
    requires pending.Some? ==> Signed(pending.value)
    requires AllPrompt(After(setup, pending, steps).past, Actor.Coordinator)
    requires !After(setup, pending, steps).coord.stoodDown
    requires Next(setup, After(setup, pending, steps), step).coord.stoodDown
    ensures Claim(After(setup, pending, steps).past, Actor.Coordinator).Some?
    ensures Disturbed(After(setup, pending, steps).past, Actor.Coordinator)
  {
    Reachable(setup, pending, steps);
    var w := After(setup, pending, steps);
    if w.coord.ours.Some? && !Disturbed(w.past, Actor.Coordinator) {
      OriginIsCurrent(w.past, Actor.Coordinator);
    }
  }

  /** Left alone, every poll that advises shutdown ends with one pending or reports that scheduling failed. */
  lemma AloneIsProtected(setup: Setup, pending: Option<Shutdown>, steps: seq<Step>, step: Step)
    requires pending.Some? ==> Signed(pending.value)
    requires !setup.config.dryRun && EndsAdvised(setup, After(setup, pending, steps), step)
    requires var w := Next(setup, After(setup, pending, steps), step);
      Alone(w.past, Actor.Coordinator) && AllPrompt(w.past, Actor.Coordinator)
    ensures var w := Next(setup, After(setup, pending, steps), step);
      w.slot.Some? || w.past.last.action.Failed?
  {
    Reachable(setup, pending, steps);
    Protection(setup, pending, steps, step);
    NextKeeps(setup, After(setup, pending, steps), step);
    AloneIsUndisturbed(Next(setup, After(setup, pending, steps), step).past, Actor.Coordinator);
  }

  /** Every schedule command of the coordinator is carried out within the tolerance of its estimate. */
  predicate PromptRun(setup: Setup, w: World, steps: seq<Step>)
    decreases |steps|
  {
    steps != [] ==>
      && (steps[0].UpsActs? && w.ups == Polling(C.Place) ==>
            Prompt(setup.config.delay, steps[0].clock, steps[0].placed))
      && PromptRun(setup, Next(setup, w, steps[0]), steps[1..])
  }

  lemma PromptNext(setup: Setup, w: World, step: Step)
    requires AllPrompt(w.past, Actor.Coordinator)
    requires step.UpsActs? && w.ups == Polling(C.Place) ==> Prompt(setup.config.delay, step.clock, step.placed)
    ensures AllPrompt(Next(setup, w, step).past, Actor.Coordinator)
  {
    hide C.SHUTDOWN_MESSAGE, B.MESSAGE, Minutes, C.Begin, C.Looked, C.Asked, B.Looked, B.Asked;
    var h := Next(setup, w, step).past;
    if h != w.past && h.before != w.past {
      assert AllPrompt(h.before.before, Actor.Coordinator);
    }
  }

  /** Then every record made while nobody else interfered is within the tolerance of the truth, read back or not. */
  lemma {:induction false} PromptRuns(setup: Setup, w: World, steps: seq<Step>)
    requires AllPrompt(w.past, Actor.Coordinator) && PromptRun(setup, w, steps) && Inv(w)
    ensures AllPrompt(Run(setup, w, steps).past, Actor.Coordinator)
    ensures var v := Run(setup, w, steps);
      v.coord.ours.Some? && !Disturbed(v.past, Actor.Coordinator) ==>
        v.slot.Some? && SameShutdown(v.coord.ours.value, v.slot.value.at)
    decreases |steps|
  {
    if steps == [] {
      if w.coord.ours.Some? && !Disturbed(w.past, Actor.Coordinator) {
        OriginIsCurrent(w.past, Actor.Coordinator);
      }
    } else {
      hide Next, Inv;
      PromptNext(setup, w, steps[0]);
      NextKeeps(setup, w, steps[0]);
      PromptRuns(setup, Next(setup, w, steps[0]), steps[1..]);
    }
  }

  // ---- The boundary of ownership, by example -------------------------------------------------

  /** A run, world by world. */
  predicate Chain(setup: Setup, worlds: seq<World>, steps: seq<Step>) {
    && |worlds| == |steps| + 1
    && forall i | 0 <= i < |steps| :: worlds[i + 1] == Next(setup, worlds[i], steps[i])
  }

  lemma {:induction false} ChainRuns(setup: Setup, worlds: seq<World>, steps: seq<Step>)
    requires Chain(setup, worlds, steps)
    ensures Run(setup, worlds[0], steps) == worlds[|steps|]
    decreases |steps|
  {
    hide Next;
    if steps != [] {
      assert forall i | 0 <= i < |steps| - 1 :: worlds[1..][i + 1] == Next(setup, worlds[1..][i], steps[1..][i]);
      ChainRuns(setup, worlds[1..], steps[1..]);
    }
  }

  lemma {:induction false} RunsOn(setup: Setup, w: World, a: seq<Step>, b: seq<Step>)
    ensures Run(setup, w, a + b) == Run(setup, Run(setup, w, a), b)
    decreases |a|
  {
    hide Next;
    if a == [] {
      assert a + b == b;
    } else {
      assert (a + b)[0] == a[0] && (a + b)[1..] == a[1..] + b;
      RunsOn(setup, Next(setup, w, a[0]), a[1..], b);
    }
  }

  const MINUTE: int := 60 * SECOND

  /** A press that places the button's poweroff, one minute out, at clock reading 0. */
  const PLACING: seq<Step> :=
    [StartPress(0), ButtonReads(true), ButtonActs(true, 0, MINUTE), ButtonReads(true)]

  lemma PressPlaces(setup: Setup, w: World)
    requires setup.armed && setup.full && w.finger.Waiting? && w.slot.None?
    requires w.button.last.None?
    ensures Run(setup, w, PLACING) ==
      var s := Shutdown(MINUTE, B.MESSAGE, CaseButton);
      var looked := Then(w.past, Event.Looked(CaseButton, Saw(None)));
      var gone := if w.button.ours.Some? then Then(looked, GaveUp(CaseButton)) else looked;
      w.(slot := Some(s), button := B.State(Some(MINUTE), Some(0)),
         past := Then(Then(gone, Event.Placed(s, MINUTE)), Event.Confirmed(CaseButton, MINUTE, Saw(Some(s)))))
  {
    hide B.MESSAGE, C.SHUTDOWN_MESSAGE, UpsStep;
    var w1 := Next(setup, w, PLACING[0]);
    var w2 := Next(setup, w1, PLACING[1]);
    var w3 := Next(setup, w2, PLACING[2]);
    var w4 := Next(setup, w3, PLACING[3]);
    ChainRuns(setup, [w, w1, w2, w3, w4], PLACING);
  }

  /** A second press that has read its own poweroff, and a wake's poweroff scheduled before its cancel. */
  function Overtaken(wake: UpsTime): seq<Step> {
    [StartPress(B.MIN_GAP), ButtonReads(true), ButtonReads(false), StartWake(wake),
     UpsActs(true, 0, 2 * MINUTE), ButtonActs(true, 0, 0)]
  }

  /** No operator is needed: a press's cancel can remove a wake's poweroff that came in between. */
  lemma PressTakesAnothers(setup: Setup, wake: UpsTime)
    requires setup.armed && setup.full
    ensures var w := After(setup, None, PLACING + Overtaken(wake));
      && w.slot.None? && w.past.Then?
      && w.past.last == Cleared(CaseButton, Some(Shutdown(2 * MINUTE, Wake.PoweroffMessage(wake), Actor.WakeRequest)))
      && Claim(w.past.before, CaseButton) == Some(MINUTE)
  {
    hide B.MESSAGE, C.SHUTDOWN_MESSAGE, Wake.PoweroffMessage;
    PressPlaces(setup, Boot(None));
    var w0 := Run(setup, Boot(None), PLACING);
    var steps := Overtaken(wake);
    var w1 := Next(setup, w0, steps[0]);
    var w2 := Next(setup, w1, steps[1]);
    var w3 := Next(setup, w2, steps[2]);
    assert w3.finger == Pressing(B.Retract) && w3.button.ours == Some(MINUTE);
    var w4 := Next(setup, w3, steps[3]);
    var w5 := Next(setup, w4, steps[4]);
    assert w5.slot == Some(Shutdown(2 * MINUTE, Wake.PoweroffMessage(wake), Actor.WakeRequest));
    var w6 := Next(setup, w5, steps[5]);
    ChainRuns(setup, [w0, w1, w2, w3, w4, w5, w6], steps);
    RunsOn(setup, Boot(None), PLACING, steps);
    OthersEvent(w4.past, w5.past.last, CaseButton);
  }

  /** A battery poweroff two minutes out, cancelled by an operator. */
  function Withdrawn(advised: C.Decision): seq<Step> {
    [StartPoll(advised, 0), UpsReads(true), UpsActs(true, 0, 2 * MINUTE), UpsReads(true), OperatorCancels]
  }

  function Recovery(recovered: C.Decision): seq<Step> {
    [StartPoll(recovered, 0), UpsReads(true), UpsActs(true, 0, 0)]
  }

  /**
   * Time is the only evidence of ownership between polls: a button's poweroff, placed within the
   * tolerance of a battery poweroff an operator has since cancelled, is cancelled as if it were it.
   */
  lemma NearbyShutdownIsTakenForOurs(setup: Setup, advised: C.Decision, recovered: C.Decision)
    requires !setup.config.dryRun && setup.armed && setup.full
    requires advised.Advises() && recovered.Recovers()
    ensures var w := After(setup, None, Withdrawn(advised) + PLACING + Recovery(recovered));
      && w.past.Then? && w.past.before.Then?
      && w.past.before.last == Cleared(Actor.Coordinator, Some(Shutdown(MINUTE, B.MESSAGE, CaseButton)))
  {
    hide B.MESSAGE, C.SHUTDOWN_MESSAGE, ButtonStep, UpsStep, Next;
    var w0 := Boot(None);
    WithdrawnLeaves(setup, w0, advised);
    var w5 := Run(setup, w0, Withdrawn(advised));
    PressPlaces(setup, w5);
    var w6 := Run(setup, w5, PLACING);
    RecoveryCancels(setup, w6, recovered);
    RunsOn(setup, w0, Withdrawn(advised), PLACING);
    RunsOn(setup, w0, Withdrawn(advised) + PLACING, Recovery(recovered));
  }

  lemma WithdrawnLeaves(setup: Setup, w0: World, advised: C.Decision)
    requires w0.ups.Idle? && w0.coord == C.FRESH && w0.slot.None?
    requires !setup.config.dryRun && advised.Advises()
    ensures var w := Run(setup, w0, Withdrawn(advised));
      && w.slot.None? && w.ups.Idle? && w.coord == C.FRESH.(ours := Some(2 * MINUTE))
      && w.button == w0.button && w.finger == w0.finger
  {
    hide B.MESSAGE, C.SHUTDOWN_MESSAGE, ButtonStep;
    var first := Withdrawn(advised);
    var w1 := Next(setup, w0, first[0]);
    var w2 := Next(setup, w1, first[1]);
    var w3 := Next(setup, w2, first[2]);
    var w4 := Next(setup, w3, first[3]);
    var w5 := Next(setup, w4, first[4]);
    ChainRuns(setup, [w0, w1, w2, w3, w4, w5], first);
  }

  lemma RecoveryCancels(setup: Setup, w: World, recovered: C.Decision)
    requires w.ups.Idle? && w.coord == C.FRESH.(ours := Some(2 * MINUTE))
    requires w.slot.Some? && w.slot.value.at == MINUTE
    requires !setup.config.dryRun && recovered.Recovers()
    ensures var past := Run(setup, w, Recovery(recovered)).past;
      past.Then? && past.before.Then? && past.before.last == Cleared(Actor.Coordinator, w.slot)
  {
    hide B.MESSAGE, C.SHUTDOWN_MESSAGE, ButtonStep;
    var last := Recovery(recovered);
    var w1 := Next(setup, w, last[0]);
    var w2 := Next(setup, w1, last[1]);
    var w3 := Next(setup, w2, last[2]);
    ChainRuns(setup, [w, w1, w2, w3], last);
  }
}
