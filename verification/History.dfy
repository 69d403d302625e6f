/**
 * What has happened to logind's slot, and what each actor did about it, one operation at a time.
 *
 * The history is the reference: who may cancel what is judged from it alone. The functions below
 * read off it, for one actor, the shutdown it answers for, what it last saw, and whether anybody
 * else has changed the slot since.
 */
module History {
  import opened Wrappers
  import opened Clock
  import opened Logind
  import opened Calendar
  import C = Coordinator
  import B = Button
  import Wake
  import Messages

  /** What a read told the actor: nothing, or the slot as it was. */
  datatype Seen = Blind | Saw(slot: Option<Shutdown>)

  datatype Event =
    | Placed(s: Shutdown, intended: Time)        // an accepted schedule command, and its estimate
    | Cleared(who: Actor, found: Option<Shutdown>)  // an accepted cancel, and what it removed
    | Looked(who: Actor, seen: Seen)             // a read of what is pending, to decide on
    | Adopted(who: Actor, record: Time)          // the record taken from what was seen
    | Confirmed(who: Actor, record: Time, back: Seen)  // the record of what was placed, after its read-back
    | GaveUp(who: Actor)                         // the record dropped
    | PollBegan(decision: C.Decision)            // a poll acts on this decision, until the next begins
    | PollEnded(advising: bool, action: C.Action)
    | Restarted

  datatype History = Start(pending: Option<Shutdown>) | Then(before: History, last: Event)

  /** `h` is a moment of the history `all`. */
  predicate Within(h: History, all: History) {
    h == all || (all.Then? && Within(h, all.before))
  }

  function SlotAt(h: History): Option<Shutdown> {
    match h
    case Start(pending) => pending
    case Then(before, e) =>
      match e
      case Placed(s, _) => Some(s)
      case Cleared(_, _) => None
      case _ => SlotAt(before)
  }

  /** The shutdown `me` answers for. */
  function Claim(h: History, me: Actor): Option<Time> {
    match h
    case Start(_) => None
    case Then(before, e) =>
      match e
      case Adopted(who, record) => if who == me then Some(record) else Claim(before, me)
      case Confirmed(who, record, _) => if who == me then Some(record) else Claim(before, me)
      case GaveUp(who) => if who == me then None else Claim(before, me)
      case Cleared(who, _) => if who == me then None else Claim(before, me)
      case Restarted => None
      case _ => Claim(before, me)
  }

  /** What `me` last knew of the slot, by placing, cancelling or looking. */
  function View(h: History, me: Actor): Seen {
    match h
    case Start(_) => Blind
    case Then(before, e) =>
      match e
      case Placed(s, _) => if s.who == me then Saw(Some(s)) else View(before, me)
      case Cleared(who, _) => if who == me then Saw(None) else View(before, me)
      case Looked(who, seen) => if who == me then seen else View(before, me)
      case _ => View(before, me)
  }

  /** Somebody else changed the slot after that. */
  predicate Stale(h: History, me: Actor) {
    match h
    case Start(_) => false
    case Then(before, e) =>
      match e
      case Placed(s, _) => s.who != me
      case Cleared(who, _) => who != me
      case Looked(who, _) => who != me && Stale(before, me)
      case _ => Stale(before, me)
  }

  /** What `me` has placed and not looked at or cancelled since, with its estimate. */
  function JustPlaced(h: History, me: Actor): Option<(Shutdown, Time)> {
    match h
    case Start(_) => None
    case Then(before, e) =>
      match e
      case Placed(s, intended) => if s.who == me then Some((s, intended)) else JustPlaced(before, me)
      case Cleared(who, _) => if who == me then None else JustPlaced(before, me)
      case Looked(who, _) => if who == me then None else JustPlaced(before, me)
      case _ => JustPlaced(before, me)
  }

  /** The shutdown `me` had in view when it made its record. */
  function Origin(h: History, me: Actor): Seen {
    match h
    case Start(_) => Blind
    case Then(before, e) =>
      if (e.Adopted? || e.Confirmed?) && e.who == me then View(before, me) else Origin(before, me)
  }

  /** Somebody else changed the slot after `me` placed or saw the shutdown its record is of. */
  predicate Disturbed(h: History, me: Actor) {
    match h
    case Start(_) => false
    case Then(before, e) =>
      match e
      case Adopted(who, _) => if who == me then Stale(before, me) else Disturbed(before, me)
      case Confirmed(who, _, _) => if who == me then Stale(before, me) else Disturbed(before, me)
      case Placed(s, _) => s.who != me || Disturbed(before, me)
      case Cleared(who, _) => who != me || Disturbed(before, me)
      case _ => Disturbed(before, me)
  }

  /** Nobody but `me` ever changed the slot. */
  predicate Alone(h: History, me: Actor) {
    h.Then? ==>
      && Alone(h.before, me)
      && (h.last.Placed? ==> h.last.s.who == me)
      && (h.last.Cleared? ==> h.last.who == me)
  }

  /** Every deadline logind took from `me` was within the tolerance of its estimate. */
  predicate AllPrompt(h: History, me: Actor) {
    h.Then? ==>
      && AllPrompt(h.before, me)
      && (h.last.Placed? && h.last.s.who == me ==> SameShutdown(h.last.intended, h.last.s.at))
  }

  // ---- What each event was entitled to -------------------------------------------------------

  /** A shutdown's wall message fits the actor that placed it; an operator may write anything. */
  ghost predicate Signed(s: Shutdown) {
    match s.who
    case Coordinator => s.message == C.SHUTDOWN_MESSAGE
    case CaseButton => s.message == B.MESSAGE
    case WakeRequest => exists t :: s.message == Wake.PoweroffMessage(t)
    case Operator => true
  }

  /** The wall message by which `me` takes a pending shutdown for its own. */
  predicate Recognises(me: Actor, message: string) {
    match me
    case Coordinator => C.Contains(message, C.SHUTDOWN_MESSAGE)
    case _ => message == B.MESSAGE
  }

  /** `me` looked and saw a shutdown at this time. */
  predicate SawAt(h: History, me: Actor, at: Time) {
    View(h, me).Saw? && View(h, me).slot.Some? && View(h, me).slot.value.at == at
  }

  /** After placing, the record is the time of what the read-back found, and only without one the estimate. */
  predicate ReadBack(h: History, me: Actor, record: Time, back: Seen) {
    && JustPlaced(h, me).Some?
    && (back.Saw? ==> back.slot == SlotAt(h))
    && record == if back.Saw? && back.slot.Some? then back.slot.value.at else JustPlaced(h, me).value.1
  }

  /** The decision the latest poll acts on. */
  function LatestDecision(h: History): Option<C.Decision> {
    match h
    case Start(_) => None
    case Then(before, e) =>
      match e
      case PollBegan(d) => Some(d)
      case Restarted => None
      case _ => LatestDecision(before)
  }

  predicate CallsForShutdown(d: C.Decision) {
    d.advice.AdviseShutdown?
  }

  predicate MainsConfirmed(d: C.Decision) {
    d.level.OnMains? && d.confirmedRecovery && !d.advice.AdviseShutdown?
  }

  predicate ActsOnAdvice(h: History) {
    LatestDecision(h).Some? && CallsForShutdown(LatestDecision(h).value)
  }

  predicate ActsOnRecovery(h: History) {
    LatestDecision(h).Some? && MainsConfirmed(LatestDecision(h).value)
  }

  /** An actor schedules only if it saw nothing pending; the coordinator also if it could not see. */
  predicate SawRoom(h: History, me: Actor) {
    View(h, me) == Saw(None) || (me.Coordinator? && View(h, me).Blind?)
  }

  /** The two actors that remember a shutdown as theirs. */
  predicate KeepsRecord(me: Actor) {
    me.Coordinator? || me.CaseButton?
  }

  ghost predicate Entitled(before: History, e: Event) {
    match e
    case Placed(s, _) =>
      && Signed(s)
      && (KeepsRecord(s.who) ==> Claim(before, s.who).None? && SawRoom(before, s.who))
      && (s.who.Coordinator? ==> ActsOnAdvice(before))
    case Looked(_, seen) => seen.Saw? ==> seen.slot == SlotAt(before)
    case Cleared(who, found) =>
      && found == SlotAt(before)
      && (who.Coordinator? ==>
            Claim(before, who).Some? && CouldBe(before, Claim(before, who).value) && ActsOnRecovery(before))
      && (who.CaseButton? ==> Claim(before, who).Some? && SawAt(before, who, Claim(before, who).value))
    case Adopted(who, record) =>
      && KeepsRecord(who)
      && SawAt(before, who, record)
      && SlotAt(before).Some? && Recognises(who, SlotAt(before).value.message)
    case Confirmed(who, record, back) => ReadBack(before, who, record, back)
    case _ => true
  }

  /** What the coordinator saw, if it could see and anything was there, is within the tolerance. */
  predicate CouldBe(h: History, record: Time) {
    var seen := View(h, Actor.Coordinator);
    seen.Saw? && seen.slot.Some? ==> SameShutdown(record, seen.slot.value.at)
  }

  ghost predicate AllEntitled(h: History) {
    match h
    case Start(pending) => pending.Some? ==> Signed(pending.value)
    case Then(before, e) => AllEntitled(before) && Entitled(before, e)
  }

  // ---- What follows from that alone ----------------------------------------------------------

  lemma {:induction false} EntitledThroughout(all: History, before: History, e: Event)
    requires AllEntitled(all) && Within(Then(before, e), all)
    ensures AllEntitled(before) && Entitled(before, e)
  {
    if all != Then(before, e) {
      EntitledThroughout(all.before, before, e);
    }
  }

  /** Unless somebody else changed the slot since, what was seen is what is there. */
  lemma {:induction false} ViewIsCurrent(h: History, me: Actor)
    requires AllEntitled(h)
    ensures !Stale(h, me) && View(h, me).Saw? ==> SlotAt(h) == View(h, me).slot
    ensures JustPlaced(h, me).Some? ==> View(h, me) == Saw(Some(JustPlaced(h, me).value.0))
  {
    if h.Then? {
      ViewIsCurrent(h.before, me);
    }
  }

  /** Undisturbed, the shutdown a record was made of is still pending. */
  lemma {:induction false} OriginIsCurrent(h: History, me: Actor)
    requires KeepsRecord(me) && AllEntitled(h) && Claim(h, me).Some? && !Disturbed(h, me)
    ensures Origin(h, me).Saw? && Origin(h, me).slot.Some? && SlotAt(h) == Origin(h, me).slot
    ensures AllPrompt(h, me) ==> SameShutdown(Claim(h, me).value, Origin(h, me).slot.value.at)
  {
    ViewIsCurrent(h.before, me);
    if (h.last.Adopted? || h.last.Confirmed?) && h.last.who == me {
      if h.last.Confirmed? && AllPrompt(h, me) {
        EstimateIsNear(h.before, me);
      }
    } else {
      OriginIsCurrent(h.before, me);
    }
  }

  lemma {:induction false} EstimateIsNear(h: History, me: Actor)
    requires AllPrompt(h, me) && JustPlaced(h, me).Some?
    ensures SameShutdown(JustPlaced(h, me).value.1, JustPlaced(h, me).value.0.at)
  {
    if !(h.last.Placed? && h.last.s.who == me) {
      EstimateIsNear(h.before, me);
    }
  }

  /** What somebody else left in the slot since is not of one's own placing. */
  lemma {:induction false} StaleIsAnothers(h: History, me: Actor)
    requires Stale(h, me) && SlotAt(h).Some?
    ensures SlotAt(h).value.who != me
  {
    if !h.last.Placed? {
      StaleIsAnothers(h.before, me);
    }
  }

  lemma {:induction false} AloneIsUndisturbed(h: History, me: Actor)
    requires Alone(h, me)
    ensures !Stale(h, me) && !Disturbed(h, me)
  {
    if h.Then? {
      AloneIsUndisturbed(h.before, me);
    }
  }

  lemma {:induction false} SlotIsSigned(h: History)
    requires AllEntitled(h) && SlotAt(h).Some?
    ensures Signed(SlotAt(h).value)
  {
    if h.Then? && !h.last.Placed? {
      SlotIsSigned(h.before);
    }
  }

  /** A message an actor recognises is its own, or an operator's. */
  lemma RecognisedIsOwn(me: Actor, s: Shutdown)
    requires KeepsRecord(me)
    requires Signed(s) && Recognises(me, s.message)
    ensures s.who == me || s.who.Operator?
  {
    Messages.ButtonMessageIsNotOurs();
    if s.who.WakeRequest? {
      var t :| s.message == Wake.PoweroffMessage(t);
      Messages.WakeMessageIsNotOurs(t);
    }
  }
}
