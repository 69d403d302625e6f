/**
 * The timed promise: a wake schedule never comes due while the machine is running.
 *
 * A world is a running machine with its clock, the schedule the UPS holds, and the loop's own
 * bookkeeping. The clock counts nanoseconds; the rules see it rounded down to whole seconds. Time
 * passes, rounds of the loop check the schedule when one is due, which takes time as well, and
 * requests are served; a cancelled poweroff is simply a run in which time goes on.
 */
module WakeLoop {
  import opened Wrappers
  import opened Calendar
  import opened Clock
  import opened UpsLink
  import opened Wake
  import opened WakeRequest
  import L = Logind

  datatype World = World(
    now: nat,
    wake: Option<UpsTime>,
    nextCheck: nat,
    lastRound: nat,        // when the last round was over
    lastCheck: nat)        // when the last check was over

  datatype Step =
    | Wait(time: nat)
    | Round(readable: bool, park: SetOutcome, took: nat)
    | Serve(at: nat, lag: nat, ex: Exchanges, x: L.Weather)

  const CHECK_INTERVAL: nat := CHECK_EVERY * SECOND

  function Earlier(now: nat, lag: nat): nat {
    if lag <= now then now - lag else 0
  }

  /**
   * One step of a machine in full mode. A round looks at the schedule only when a check is due; it
   * judges by the clock as the check begins, and the next check counts from its end.
   */
  function Next(w: World, step: Step): World {
    match step
    case Wait(time) => w.(now := w.now + time)
    case Round(readable, park, took) =>
      if w.now >= w.nextCheck then
        var end := w.now + took;
        World(end, Checked(w.wake, true, UnixSeconds(w.now), readable, park), end + CHECK_INTERVAL, end, end)
      else w.(lastRound := w.now)
    case Serve(at, lag, ex, x) =>
      w.(wake := Requested(w.wake, None, at, true, UnixSeconds(Earlier(w.now, lag)), ex, x).wake)
  }

  /** The thread's own bookkeeping for one round after a successful poll. */
  class UpsThread {
    const ups: Ups
    var clock: nat
    var nextCheck: nat
    var lastRound: nat
    var lastCheck: nat

    constructor (ups: Ups, now: nat)
      ensures this.ups == ups && clock == nextCheck == lastRound == lastCheck == now
    {
      this.ups := ups;
      clock, nextCheck, lastRound, lastCheck := now, now, now, now;
    }

    function Snapshot(): World
      reads this, ups
    {
      World(clock, ups.wake, nextCheck, lastRound, lastCheck)
    }

    method Round(readable: bool, park: SetOutcome, took: nat)
      requires Holdable(ups.wake) && ups.wakeWrites
      modifies this, ups
      ensures Snapshot() == Next(old(Snapshot()), Step.Round(readable, park, took))
    {
      if clock >= nextCheck {
        CheckWake(ups, true, UnixSeconds(clock), readable, park);
        clock := clock + took;
        nextCheck := clock + CHECK_INTERVAL;
        lastCheck := clock;
      }
      lastRound := clock;
    }

    method Serve(power: L.Manager, at: nat, lag: nat, ex: Exchanges, x: L.Weather) returns (response: Response)
      requires Holdable(ups.wake) && ups.wakeWrites
      modifies ups, power
      ensures Snapshot() == Next(old(Snapshot()), Step.Serve(at, lag, ex, x))
    {
      var asked := UnixSeconds(Earlier(clock, lag));
      RequestIgnoresSlot(ups.wake, power.slot, at, asked, ex, x);
      response := HandleRequest(ups, power, at, true, asked, ex, x);
    }
  }

  lemma RequestIgnoresSlot(
    wake: Option<UpsTime>, slot: Option<L.Shutdown>, at: nat, now: nat, ex: Exchanges, x: L.Weather)
    ensures Requested(wake, slot, at, true, now, ex, x).wake == Requested(wake, None, at, true, now, ex, x).wake
  {
  }

  function Run(w: World, steps: seq<Step>): World
    decreases |steps|
  {
    if steps == [] then w else Run(Next(w, steps[0]), steps[1..])
  }

  // ---- The promise ---------------------------------------------------------------------------

  /** The moment a schedule comes due, if its time can be told. */
  function Due(t: UpsTime): Option<nat> {
    match ToUnixSeconds(t)
    case Some(s) => Some(s * SECOND)
    case None => None
  }

  /** How long the schedule found at the start of this step stays on the device during it, at the most. */
  function Stands(w: World, step: Step): Option<nat> {
    match step
    case Wait(time) => Some(time)
    case Round(_, _, took) => if w.now >= w.nextCheck then Some(took) else None
    case Serve(_, _, _, _) => None
  }

  /** During this step a schedule comes due on the running machine, or one is there whose time cannot be told. */
  predicate BreaksPromise(w: World, step: Step) {
    && Stands(w, step).Some? && w.wake.Some?
    && var due := Due(w.wake.value);
       due.None? || w.now < due.value <= w.now + Stands(w, step).value
  }

  // ---- What is asked of the environment ------------------------------------------------------

  /** The longest time from one round to the next, and the longest a check takes. */
  datatype Pace = Pace(period: nat, check: nat)

  /** The last moment at which the next check can be over. */
  function LastChance(p: Pace, w: World): nat {
    (if w.now < w.nextCheck then w.nextCheck - 1 else w.lastRound) + p.period + p.check
  }

  /** The schedule's time can be told, and is past or comes after the next check's last chance. */
  predicate Secure(p: Pace, w: World) {
    w.wake.Some? ==>
      && Due(w.wake.value).Some?
      && !(w.now < Due(w.wake.value).value <= LastChance(p, w))
  }

  /** If this write stores something else, that is nothing to fear before the next check. */
  predicate Harmless(p: Pace, w: World, o: SetOutcome) {
    o.effect.Garbled? && DecodeSchedule(o.effect.payload).Some? ==>
      Secure(p, w.(wake := DecodeSchedule(o.effect.payload)))
  }

  /** After this write the device holds something other than before it. */
  predicate Replaces(o: SetOutcome) {
    o.effect.AsSent? || (o.effect.Garbled? && DecodeSchedule(o.effect.payload).Some?)
  }

  /** The set is answered, reads back as asked, and the poweroff is accepted. */
  predicate Succeeds(wake: Option<UpsTime>, t: UpsTime, ex: Exchanges, x: L.Weather) {
    ex.set_.answered && ex.readBack && x.accepts && ReadsAs(AfterSet(wake, true, t, ex.set_).0, t)
  }

  /**
   * Refused, successful, or leaving nothing to fear: the park's doing if the set was answered and
   * the park changed the device, and otherwise the set's.
   */
  predicate Recoverable(p: Pace, w: World, at: nat, asked: nat, ex: Exchanges, x: L.Weather) {
    match ScheduleFor(at, asked)
    case Err(_) => true
    case Ok(t) =>
      || Succeeds(w.wake, t, ex, x)
      || (if ex.set_.answered && Replaces(ex.park) then Harmless(p, w, ex.park) else Harmless(p, w, ex.set_))
  }

  /** How much older than its effect the clock reading of a request may be. */
  const MAX_LAG: nat := (MIN_LEAD - PARK_WINDOW - 1) * SECOND

  /**
   * Rounds and checks keep the pace, and checks can read and park; requests are judged by a clock
   * read at most 299 s before, and are recoverable; the clock has not reached the parked time.
   */
  predicate Legal(p: Pace, w: World, step: Step) {
    && UnixSeconds(w.now) + PARK_WINDOW < PARKED_UNTIL
    && match step
       case Wait(time) => w.now + time <= w.lastRound + p.period
       case Round(readable, park, took) => readable && park.effect.AsSent? && took <= p.check
       case Serve(at, lag, ex, x) => lag <= MAX_LAG && Recoverable(p, w, at, UnixSeconds(Earlier(w.now, lag)), ex, x)
  }

  predicate LegalRun(p: Pace, w: World, steps: seq<Step>)
    decreases |steps|
  {
    steps != [] ==> Legal(p, w, steps[0]) && LegalRun(p, Next(w, steps[0]), steps[1..])
  }

  /** The loop's own bookkeeping, since the first check. */
  predicate Kept(p: Pace, w: World) {
    && Holdable(w.wake)
    && w.nextCheck == w.lastCheck + CHECK_INTERVAL
    && w.lastCheck <= w.lastRound <= w.now <= w.lastRound + p.period
    && w.lastRound < w.nextCheck
  }

  /**
   * A check leaves what is due 601 s after the second it began in, and that second may be all but
   * over; so much is left for a round and two checks once the interval between checks is taken off.
   */
  const SLACK: nat := (PARK_WINDOW - CHECK_EVERY) * SECOND + 1

  predicate KeepsUp(p: Pace) {
    p.period + 2 * p.check <= SLACK
  }

  // ---- Safety --------------------------------------------------------------------------------

  lemma WholeSeconds(now: nat)
    ensures UnixSeconds(now) * SECOND <= now < (UnixSeconds(now) + 1) * SECOND
  {
  }

  lemma ParkIsSecure(p: Pace, w: World)
    requires KeepsUp(p) && Kept(p, w) && UnixSeconds(w.now) + PARK_WINDOW < PARKED_UNTIL
    ensures Encodable(PARK_AT) && PARK_AT.second.None?
    ensures Secure(p, w.(wake := Some(PARK_AT)))
  {
    hide ToUnixSeconds, UnixSeconds;
    ParkedInstant();
    WholeSeconds(w.now);
  }

  lemma CheckSecures(p: Pace, w: World, park: SetOutcome, took: nat)
    requires KeepsUp(p) && Holdable(w.wake) && park.effect.AsSent? && took <= p.check
    requires w.nextCheck <= w.now && UnixSeconds(w.now) + PARK_WINDOW < PARKED_UNTIL
    ensures Kept(p, Next(w, Round(true, park, took))) && Secure(p, Next(w, Round(true, park, took)))
  {
    hide ToUnixSeconds, UnixSeconds;
    ParkedInstant();
    WholeSeconds(w.now);
    assert Encodable(PARK_AT) && PARK_AT.second.None?;
  }

  lemma RequestedIsSecure(p: Pace, w: World, at: nat, lag: nat)
    requires KeepsUp(p) && Kept(p, w) && lag <= MAX_LAG
    requires Acceptable(at, UnixSeconds(Earlier(w.now, lag)))
    ensures ScheduleFor(at, UnixSeconds(Earlier(w.now, lag))).Ok?
    ensures var t := ScheduleFor(at, UnixSeconds(Earlier(w.now, lag))).value;
      t.second.None? && Encodable(t) && Secure(p, w.(wake := Some(t)))
  {
    hide ToUnixSeconds, FromUnixSeconds, IsReal, UnixSeconds, ScheduleFor;
    var asked := UnixSeconds(Earlier(w.now, lag));
    AcceptedRequest(at, asked);
    RealIsEncodable(ScheduleFor(at, asked).value);
    WholeSeconds(Earlier(w.now, lag));
  }

  lemma RequestKeepsBooks(p: Pace, w: World, step: Step)
    requires Kept(p, w) && step.Serve?
    ensures Kept(p, Next(w, step))
  {
    hide ToUnixSeconds, FromUnixSeconds, IsReal, UnixSeconds, ScheduleFor, DecodeSchedule, PoweroffMessage;
    var asked := UnixSeconds(Earlier(w.now, step.lag));
    if ScheduleFor(step.at, asked).Ok? {
      var t := ScheduleFor(step.at, asked).value;
      SetKeepsHoldable(w.wake, true, t, step.ex.set_);
      SetKeepsHoldable(AfterSet(w.wake, true, t, step.ex.set_).0, true, PARK_AT, step.ex.park);
    }
  }

  /** Exactly which requests leave a secure state secure. */
  lemma RequestExactly(p: Pace, w: World, at: nat, lag: nat, ex: Exchanges, x: L.Weather)
    requires KeepsUp(p) && Kept(p, w) && Secure(p, w)
    requires UnixSeconds(w.now) + PARK_WINDOW < PARKED_UNTIL && lag <= MAX_LAG
    ensures Secure(p, Next(w, Serve(at, lag, ex, x))) <==>
      Recoverable(p, w, at, UnixSeconds(Earlier(w.now, lag)), ex, x)
  {
    hide ToUnixSeconds, FromUnixSeconds, IsReal, UnixSeconds, ScheduleFor, DecodeSchedule, PoweroffMessage, Secure,
      Encodable, L.AfterSchedule, L.ScheduledTime;
    var asked := UnixSeconds(Earlier(w.now, lag));
    ParkIsSecure(p, w);
    AcceptedExactly(at, asked);
    if Acceptable(at, asked) {
      RequestedIsSecure(p, w, at, lag);
      var t := ScheduleFor(at, asked).value;
      SetKeepsHoldable(w.wake, true, t, ex.set_);
      var w1 := AfterSet(w.wake, true, t, ex.set_).0;
      assert ReadsAs(w1, t) ==> w1.value == t;
    }
  }

  lemma NextKeeps(p: Pace, w: World, step: Step)
    requires KeepsUp(p) && Kept(p, w) && Secure(p, w) && Legal(p, w, step)
    ensures Kept(p, Next(w, step)) && Secure(p, Next(w, step)) && !BreaksPromise(w, step)
  {
    hide Checked, Requested, Due, Recoverable, UnixSeconds;
    match step
    case Wait(_) =>
    case Round(_, park, took) =>
      if w.now >= w.nextCheck {
        CheckSecures(p, w, park, took);
      }
    case Serve(at, lag, ex, x) =>
      RequestKeepsBooks(p, w, step);
      RequestExactly(p, w, at, lag, ex, x);
  }

  /**
   * From a secure state on, however rounds, requests, cancelled poweroffs and link failures are
   * interleaved, the promise is kept -- as long as the longest time between rounds and twice the
   * longest check fit into 300 s.
   */
  lemma {:induction false} NeverDue(p: Pace, w: World, steps: seq<Step>, k: nat)
    requires KeepsUp(p) && Kept(p, w) && Secure(p, w)
    requires LegalRun(p, w, steps) && k < |steps|
    ensures !BreaksPromise(Run(w, steps[..k]), steps[k])
    decreases k
  {
    hide Next, Legal, Secure, BreaksPromise, Kept;
    NextKeeps(p, w, steps[0]);
    if k > 0 {
      NeverDue(p, Next(w, steps[0]), steps[1..], k - 1);
      assert steps[..k][1..] == steps[1..][..k - 1] && steps[..k][0] == steps[0];
    }
  }

  // ---- From what states, exactly -------------------------------------------------------------

  /** A run that may happen and breaks the promise in its step `k`. */
  predicate Breaks(p: Pace, w: World, steps: seq<Step>, k: nat) {
    k < |steps| && LegalRun(p, w, steps) && BreaksPromise(Run(w, steps[..k]), steps[k])
  }

  ghost predicate SafeFrom(p: Pace, w: World) {
    forall steps: seq<Step>, k: nat :: !Breaks(p, w, steps, k)
  }

  predicate NoRequests(steps: seq<Step>) {
    forall i | 0 <= i < |steps| :: !steps[i].Serve?
  }

  const FINE: SetOutcome := SetOutcome(AsSent, true)

  lemma BreaksAtOnce(p: Pace, w: World, step: Step)
    requires Legal(p, w, step) && BreaksPromise(w, step)
    ensures Breaks(p, w, [step], 0)
  {
    assert [step][1..] == [] && [step][..0] == [];
  }

  lemma BreaksLater(p: Pace, w: World, step: Step, rest: seq<Step>, k: nat)
    requires Legal(p, w, step) && Breaks(p, Next(w, step), rest, k)
    ensures Breaks(p, w, [step] + rest, k + 1)
  {
    hide Legal, Next, BreaksPromise;
    assert ([step] + rest)[1..] == rest;
    assert ([step] + rest)[..k + 1] == [step] + rest[..k];
    assert ([step] + rest[..k])[1..] == rest[..k];
  }

  /** Far from the parked time, waiting is only bounded by the pace. */
  lemma MayWait(p: Pace, w: World, until: nat)
    requires w.now <= until <= w.lastRound + p.period
    requires UnixSeconds(until) + PARK_WINDOW < PARKED_UNTIL
    ensures Legal(p, w, Wait(until - w.now))
  {
  }

  /**
   * What is not secure can break the promise without any further fault, at any pace: rounds go by
   * until just before the next check is due, then one comes as late and takes as long as it may.
   */
  lemma {:induction false} InsecureBreaks(p: Pace, w: World) returns (steps: seq<Step>, k: nat)
    requires p.period >= 1 && Kept(p, w) && !Secure(p, w)
    requires UnixSeconds(LastChance(p, w)) + PARK_WINDOW < PARKED_UNTIL
    ensures Breaks(p, w, steps, k) && NoRequests(steps)
    decreases w.nextCheck - w.lastRound
  {
    hide Due, Breaks, UnixSeconds;
    Ordered(w.now, LastChance(p, w));
    var due := Due(w.wake.value);
    var latest := w.lastRound + p.period;
    if due.None? {
      steps, k := [Wait(0)], 0;
      MayWait(p, w, w.now);
      BreaksAtOnce(p, w, Wait(0));
    } else if due.value <= latest {
      steps, k := [Wait(due.value - w.now)], 0;
      Ordered(due.value, LastChance(p, w));
      MayWait(p, w, due.value);
      BreaksAtOnce(p, w, Wait(due.value - w.now));
    } else if latest >= w.nextCheck && (w.now >= w.nextCheck || w.lastRound == w.nextCheck - 1) {
      var wait, round := Wait(latest - w.now), Round(true, FINE, p.check);
      steps, k := [wait] + [round], 1;
      Ordered(latest, LastChance(p, w));
      MayWait(p, w, latest);
      BreaksAtOnce(p, Next(w, wait), round);
      BreaksLater(p, w, wait, [round], 0);
    } else {
      var until := if w.nextCheck - 1 <= latest then w.nextCheck - 1 else latest;
      var wait, round := Wait(until - w.now), Round(true, FINE, 0);
      Ordered(until, LastChance(p, w));
      MayWait(p, w, until);
      var w1 := Next(w, wait);
      var w2 := Next(w1, round);
      assert w2 == w1.(lastRound := until);
      steps, k := InsecureBreaks(p, w2);
      BreaksLater(p, w1, round, steps, k);
      BreaksLater(p, w, wait, [round] + steps, k + 1);
      steps, k := [wait] + ([round] + steps), k + 2;
    }
  }

  lemma Ordered(a: nat, b: nat)
    requires a <= b
    ensures UnixSeconds(a) <= UnixSeconds(b)
  {
  }

  /** The states from which every run keeps the promise are exactly the secure ones. */
  lemma SecureExactly(p: Pace, w: World)
    requires p.period >= 1 && KeepsUp(p) && Kept(p, w)
    requires UnixSeconds(LastChance(p, w)) + PARK_WINDOW < PARKED_UNTIL
    ensures SafeFrom(p, w) <==> Secure(p, w)
  {
    hide Breaks, Secure, Kept;
    if Secure(p, w) {
      SecureIsSafe(p, w);
    } else {
      var steps, k := InsecureBreaks(p, w);
      assert Breaks(p, w, steps, k);
    }
  }

  lemma SecureIsSafe(p: Pace, w: World)
    requires KeepsUp(p) && Kept(p, w) && Secure(p, w)
    ensures SafeFrom(p, w)
  {
    hide Secure, Kept, BreaksPromise, LegalRun;
    forall steps: seq<Step>, k: nat ensures !Breaks(p, w, steps, k) {
      if k < |steps| && LegalRun(p, w, steps) {
        NeverDue(p, w, steps, k);
      }
    }
  }

  /** So from a secure state a request leaves every run keeping the promise exactly if it is recoverable. */
  lemma RecoverableExactly(p: Pace, w: World, at: nat, lag: nat, ex: Exchanges, x: L.Weather)
    requires p.period >= 1 && KeepsUp(p) && Kept(p, w) && Secure(p, w) && lag <= MAX_LAG
    requires UnixSeconds(LastChance(p, w)) + PARK_WINDOW < PARKED_UNTIL
    ensures SafeFrom(p, Next(w, Serve(at, lag, ex, x))) <==>
      Recoverable(p, w, at, UnixSeconds(Earlier(w.now, lag)), ex, x)
  {
    hide Recoverable, SafeFrom, Secure, Requested;
    Ordered(w.now, LastChance(p, w));
    RequestExactly(p, w, at, lag, ex, x);
    RequestKeepsBooks(p, w, Serve(at, lag, ex, x));
    SecureExactly(p, Next(w, Serve(at, lag, ex, x)));
  }

  // ---- From boot -----------------------------------------------------------------------------

  /** A machine that has just started, whatever the UPS was left holding: a check is due at once. */
  predicate Boots(w: World) {
    Holdable(w.wake) && w.nextCheck == w.lastRound == w.lastCheck == w.now
  }

  /** The first round's check brings the promise about. */
  lemma FirstCheck(p: Pace, w: World, first: Step)
    requires KeepsUp(p) && Boots(w) && first.Round? && Legal(p, w, first)
    ensures Kept(p, Next(w, first)) && Secure(p, Next(w, first))
  {
    hide Checked, Due, UnixSeconds;
    CheckSecures(p, w, first.park, first.took);
  }

  /** Every run that starts at a boot, with a check, keeps the promise from then on. */
  ghost predicate SafeWith(p: Pace) {
    forall w: World, first: Step :: Boots(w) && first.Round? && Legal(p, w, first) ==> SafeFrom(p, Next(w, first))
  }

  /** Exactly the paces that keep up keep the promise on every machine from boot on, to the nanosecond. */
  lemma ExactBound(p: Pace)
    requires p.period >= 1
    ensures SafeWith(p) <==> KeepsUp(p)
  {
    hide Breaks, Boots, Legal, Kept, Secure;
    if KeepsUp(p) {
      forall w: World, first: Step | Boots(w) && first.Round? && Legal(p, w, first)
        ensures SafeFrom(p, Next(w, first))
      {
        FirstCheck(p, w, first);
        SecureIsSafe(p, Next(w, first));
      }
    } else {
      var w, first, steps, k := OverdueRun(p);
      assert Breaks(p, Next(w, first), steps, k);
    }
  }

  /** What a faster pace allows, a slower one does too. */
  lemma {:induction false} SlowerAllows(fast: Pace, slow: Pace, w: World, steps: seq<Step>)
    requires fast.period <= slow.period && fast.check <= slow.check && NoRequests(steps)
    requires LegalRun(fast, w, steps)
    ensures LegalRun(slow, w, steps)
    decreases |steps|
  {
    hide Next, UnixSeconds;
    if steps != [] {
      assert !steps[0].Serve?;
      SlowerAllows(fast, slow, Next(w, steps[0]), steps[1..]);
    }
  }

  /** A boot just before the clock turns to the next second, with a schedule due 601 s after the one it shows. */
  const BOOTED: nat := 1_789_727_999

  lemma Left601(p: Pace) returns (w: World, first: Step)
    requires p.check <= SLACK
    ensures Boots(w) && first.Round? && Legal(p, w, first) && Kept(p, Next(w, first))
    ensures Next(w, first).wake.Some? && Due(Next(w, first).wake.value) == Some((BOOTED + 601) * SECOND)
    ensures Next(w, first).now == (BOOTED + 1) * SECOND - 1 + p.check
    ensures Next(w, first).lastRound == Next(w, first).lastCheck == Next(w, first).now
  {
    hide ToUnixSeconds, FromUnixSeconds, ScheduleFor, IsReal;
    var due := BOOTED + 601;
    AcceptedRequest(due, BOOTED - MIN_LEAD);
    var t := ScheduleFor(due, BOOTED - MIN_LEAD).value;
    RealIsEncodable(t);
    var now := (BOOTED + 1) * SECOND - 1;
    assert UnixSeconds(now) == BOOTED;
    w, first := World(now, Some(t), now, now, now), Round(true, FINE, p.check);
    assert Assess(Some(t), BOOTED) == Leave(t);
  }

  /** At any slower pace: that boot, and a next check as late and as long as may be. */
  lemma OverdueRun(p: Pace) returns (w: World, first: Step, steps: seq<Step>, k: nat)
    requires p.period >= 1 && !KeepsUp(p)
    ensures Boots(w) && first.Round? && Legal(p, w, first)
    ensures Breaks(p, Next(w, first), steps, k)
  {
    hide Due, Next, LegalRun, Boots, UnixSeconds;
    var check := if p.check <= SLACK / 2 + 1 then p.check else SLACK / 2 + 1;
    var fast := Pace(if p.period <= SLACK + 1 then p.period else SLACK + 1, check);
    w, first := Left601(fast);
    var w1 := Next(w, first);
    assert w1.now < (BOOTED + 601) * SECOND <= LastChance(fast, w1);
    FarFromParked(LastChance(fast, w1));
    steps, k := InsecureBreaks(fast, w1);
    SlowerAllows(fast, p, w1, steps);
  }

  lemma FarFromParked(at: nat)
    requires at <= (BOOTED + 1 + 4 * 601) * SECOND
    ensures UnixSeconds(at) + PARK_WINDOW < PARKED_UNTIL
  {
  }
}
