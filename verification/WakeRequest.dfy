/**
 * One wake request, and one round of the safety net, on a link that may lose writes or replies.
 *
 * The order is set, read back, schedule; what fails after an answered set is followed by a park.
 */
module WakeRequest {
  import opened Wrappers
  import opened Calendar
  import opened UpsLink
  import opened Wake
  import opened Clock
  import L = Logind

  /** How the exchanges of one request go: the set, the read-back, and a park if there is one. */
  datatype Exchanges = Exchanges(set_: SetOutcome, readBack: bool, park: SetOutcome)

  datatype Why =
    | NotFullMode
    | Refused(e: RequestError)
    | SetFailed
    | NotReadBack(parked: bool)
    | NotScheduled(parked: bool)

  datatype Response = Error(why: Why) | PoweroffScheduled(wakeUnix: nat, poweroffUnix: nat)

  datatype Outcome = Outcome(wake: Option<UpsTime>, slot: Option<L.Shutdown>, response: Response)

  const DELAY: nat := POWEROFF_DELAY * SECOND

  predicate ReadsAs(wake: Option<UpsTime>, t: UpsTime) {
    wake.Some? && SameMinute(wake.value, t)
  }

  /** The specification of a request: what the device and logind hold afterwards, and the answer. */
  function Requested(
    wake: Option<UpsTime>, slot: Option<L.Shutdown>, at: nat, full: bool, now: nat, ex: Exchanges, x: L.Weather): Outcome
  {
    if !full then Outcome(wake, slot, Error(NotFullMode))
    else
      match ScheduleFor(at, now)
      case Err(e) => Outcome(wake, slot, Error(Refused(e)))
      case Ok(t) =>
        var (w1, ok) := AfterSet(wake, full, t, ex.set_);
        if !ok then Outcome(w1, slot, Error(SetFailed))
        else if !ex.readBack || !ReadsAs(w1, t) then
          var (w2, parked) := AfterSet(w1, full, PARK_AT, ex.park);
          Outcome(w2, slot, Error(NotReadBack(parked)))
        else
          var slot' := L.AfterSchedule(slot, PoweroffMessage(t), L.WakeRequest, x);
          if x.accepts then
            Outcome(w1, slot', PoweroffScheduled(
              match ToUnixSeconds(t) case Some(s) => s case None => 0,
              UnixSeconds(L.ScheduledTime(DELAY, slot', x))))
          else
            var (w2, parked) := AfterSet(w1, full, PARK_AT, ex.park);
            Outcome(w2, slot', Error(NotScheduled(parked)))
  }

  /** Handles one control request, on the thread that owns the port. */
  method HandleRequest(
    ups: Ups, power: L.Manager, at: nat, full: bool, now: nat, ex: Exchanges, x: L.Weather)
    returns (response: Response)
    requires Holdable(ups.wake) && ups.wakeWrites == full
    modifies ups, power
    ensures Outcome(ups.wake, power.slot, response)
         == Requested(old(ups.wake), old(power.slot), at, full, now, ex, x)
  {
    hide ScheduleFor, ToUnixSeconds, PoweroffMessage, DecodeSchedule, L.ScheduledTime;
    if !full {
      return Error(NotFullMode);
    }
    var schedule := ScheduleFor(at, now);
    if schedule.Err? {
      return Error(Refused(schedule.error));
    }
    var t := schedule.value;
    SetKeepsHoldable(ups.wake, full, t, ex.set_);
    var ok := ups.SetWake(t, ex.set_);
    if !ok {
      return Error(SetFailed);
    }
    var got := ups.Wake(ex.readBack);
    if got.Err? || got.value.None? || !SameMinute(got.value.value, t) {
      var parked := ups.SetWake(PARK_AT, ex.park);
      return Error(NotReadBack(parked));
    }
    var r := power.SchedulePoweroff(DELAY, PoweroffMessage(t), L.WakeRequest, x);
    match r {
      case Ok(off) =>
        var unix := ToUnixSeconds(t);
        return PoweroffScheduled(if unix.Some? then unix.value else 0, UnixSeconds(off));
      case Err(_) =>
        var parked := ups.SetWake(PARK_AT, ex.park);
        return Error(NotScheduled(parked));
    }
  }

  /** The specification of one round of the safety net. */
  function Checked(wake: Option<UpsTime>, parkAllowed: bool, now: nat, readable: bool, park: SetOutcome): Option<UpsTime> {
    if readable && Assess(wake, now).Park? && parkAllowed
    then AfterSet(wake, parkAllowed, PARK_AT, park).0 else wake
  }

  /** One round of the safety net. */
  method CheckWake(ups: Ups, parkAllowed: bool, now: nat, readable: bool, park: SetOutcome)
    requires Holdable(ups.wake) && ups.wakeWrites == parkAllowed
    modifies ups
    ensures ups.wake == Checked(old(ups.wake), parkAllowed, now, readable, park)
  {
    var found := ups.Wake(readable);
    if found.Err? {
      return;
    }
    match Assess(found.value, now) {
      case Park(_, _) =>
        if parkAllowed {
          var _ := ups.SetWake(PARK_AT, park);
        }
      case _ =>
    }
  }

  /**
   * A round changes the device only where writes are allowed, the schedule could be read, and its
   * time cannot be told or is ten minutes off or less; a park that is stored then stands.
   */
  lemma NetActsExactly(wake: Option<UpsTime>, parkAllowed: bool, now: nat, readable: bool, park: SetOutcome)
    ensures var acts := parkAllowed && readable && wake.Some? &&
        (ToUnixSeconds(wake.value).None? || ToUnixSeconds(wake.value).value <= now + 600);
      var after := Checked(wake, parkAllowed, now, readable, park);
      && (!acts ==> after == wake)
      && (acts && park.effect.AsSent? ==> after == Some(PARK_AT))
      && (acts && park.effect.Untouched? ==> after == wake)
  {
    hide ToUnixSeconds, DecodeSchedule;
    AssessedExactly(wake, now);
  }

  // ---- The transaction -----------------------------------------------------------------------

  /** The shutdown estimate was prepared at most `lag` seconds after the request was judged. */
  predicate Follows(x: L.Weather, now: nat, lag: nat) {
    x.now <= (now + lag) * SECOND
  }

  /**
   * A success answer: the device holds the requested minute, at least the lead out, and our
   * poweroff was placed -- before the wake, if the command ran promptly -- and is pending unless
   * somebody else has acted since.
   */
  lemma SuccessMeansBothAreSet(
    wake: Option<UpsTime>, slot: Option<L.Shutdown>, at: nat, full: bool, now: nat, ex: Exchanges, x: L.Weather)
    ensures var o := Requested(wake, slot, at, full, now, ex, x);
      o.response.PoweroffScheduled? ==>
        && full
        && o.response.wakeUnix == at - at % 60 >= now + MIN_LEAD
        && o.wake.Some?
        && (Holdable(wake) ==> ToUnixSeconds(o.wake.value) == Some(o.response.wakeUnix))
        && o.slot == L.Changed(Some(L.Shutdown(x.placed, PoweroffMessage(o.wake.value), L.WakeRequest)), x.beforeReadback)
        && (L.Prompt(DELAY, x.now, x.placed) && Follows(x, now, 600) ==> x.placed < o.response.wakeUnix * SECOND)
  {
    hide FromUnixSeconds, ToUnixSeconds, IsReal;
    if Requested(wake, slot, at, full, now, ex, x).response.PoweroffScheduled? {
      var t := ScheduleFor(at, now).value;
      AcceptedExactly(at, now);
      AcceptedRequest(at, now);
      var w1 := AfterSet(wake, full, t, ex.set_).0;
      assert SameMinute(w1.value, t);
      if Holdable(wake) {
        SetKeepsHoldable(wake, full, t, ex.set_);
        assert w1.value == t;
      }
      assert L.Minutes(DELAY) == 1;
    }
  }

  /**
   * The poweroff time in a success answer: the deadline read back, rounded down to the second, or a
   * minute from the command where nothing could be read. If the command ran promptly, the time
   * given is before the wake's.
   */
  lemma AnswerTellsThePoweroff(
    wake: Option<UpsTime>, slot: Option<L.Shutdown>, at: nat, full: bool, now: nat, ex: Exchanges, x: L.Weather)
    requires Requested(wake, slot, at, full, now, ex, x).response.PoweroffScheduled?
    requires x.now >= 0 && x.placed >= 0
    ensures var o := Requested(wake, slot, at, full, now, ex, x);
      && (x.beforeReadback.Quiet? && x.backReadable ==> o.response.poweroffUnix == x.placed / 1_000_000_000)
      && (x.backReadable && o.slot.Some? ==> o.response.poweroffUnix == UnixSeconds(o.slot.value.at))
      && (!x.backReadable || o.slot.None? ==> o.response.poweroffUnix == x.now / 1_000_000_000 + 60)
      && (x.beforeReadback.Quiet? || !x.backReadable ==>
            -90_000_000_000 <= x.placed - x.now - 60_000_000_000 <= 90_000_000_000 && Follows(x, now, 600) ==>
              o.response.poweroffUnix < o.response.wakeUnix)
  {
    hide FromUnixSeconds, ToUnixSeconds, IsReal, PoweroffMessage, DecodeSchedule, AfterSet, ReadsAs;
    AcceptedExactly(at, now);
    AcceptedRequest(at, now);
    assert L.Minutes(DELAY) == 1;
  }

  /** Exactly when each answer is given; a park is reported done exactly if it was answered. */
  lemma AnswersExactly(
    wake: Option<UpsTime>, slot: Option<L.Shutdown>, at: nat, full: bool, now: nat, ex: Exchanges, x: L.Weather)
    ensures var r := Requested(wake, slot, at, full, now, ex, x).response;
      var lead := at - at % 60 - now;
      && (r == Error(NotFullMode) <==> !full)
      && (full && lead < 900 ==> r == Error(Refused(TooSoon(if lead < 0 then 0 else lead))))
      && (full && lead >= 900 && !Acceptable(at, now) ==> r == Error(Refused(OutOfRange)))
    ensures Acceptable(at, now) ==> ScheduleFor(at, now).Ok?
    ensures full && Acceptable(at, now) ==>
      var r, asked := Requested(wake, slot, at, full, now, ex, x).response, ScheduleFor(at, now).value;
      var held := ex.readBack && ReadsAs(AfterSet(wake, true, asked, ex.set_).0, asked);
      && (!ex.set_.answered <==> r == Error(SetFailed))
      && (ex.set_.answered && !held <==> r == Error(NotReadBack(ex.park.answered)))
      && (ex.set_.answered && held && !x.accepts <==> r == Error(NotScheduled(ex.park.answered)))
      && (ex.set_.answered && held && x.accepts <==> r.PoweroffScheduled?)
      && (ex.readBack && ex.set_.effect.AsSent? ==> held)
  {
    hide FromUnixSeconds, ToUnixSeconds, PoweroffMessage, DecodeSchedule, L.ScheduledTime, IsReal;
    AcceptedExactly(at, now);
    if Acceptable(at, now) {
      AcceptedRequest(at, now);
      RealIsEncodable(ScheduleFor(at, now).value);
    }
  }

  /** What an error answer leaves on the device, of a set that may have happened and a park that may have. */
  function LeftBehind(wake: Option<UpsTime>, t: UpsTime, ex: Exchanges): Option<UpsTime> {
    var afterSet := AfterSet(wake, true, t, ex.set_).0;
    if ex.set_.answered then AfterSet(afterSet, true, PARK_AT, ex.park).0 else afterSet
  }

  /**
   * An error answer places no poweroff, and before anything is sent leaves the device alone. After
   * that it leaves what the set and, if the set was answered, the park left there, whichever step
   * failed.
   */
  lemma ErrorLeavesNoWake(
    wake: Option<UpsTime>, slot: Option<L.Shutdown>, at: nat, full: bool, now: nat, ex: Exchanges, x: L.Weather)
    requires Requested(wake, slot, at, full, now, ex, x).response.Error?
    ensures var o := Requested(wake, slot, at, full, now, ex, x);
      && (o.slot == slot || o.slot == L.Changed(slot, x.beforeCommand))
      && (!full || !Acceptable(at, now) ==> o.wake == wake)
      && (full && Acceptable(at, now) ==>
            ScheduleFor(at, now).Ok? && o.wake == LeftBehind(wake, ScheduleFor(at, now).value, ex))
  {
    hide FromUnixSeconds, ToUnixSeconds, PoweroffMessage, DecodeSchedule, L.ScheduledTime, IsReal, ScheduleFor, SameMinute;
    AcceptedExactly(at, now);
    if Acceptable(at, now) {
      AcceptedRequest(at, now);
      RealIsEncodable(ScheduleFor(at, now).value);
    }
  }

  /**
   * When the machine stays on and would yet be woken. Where writes store what was sent or nothing, the requested minute is left exactly when it was
   * stored, or had been there before, and either its reply was lost or the park was.
   */
  lemma LiveAfterError(
    wake: Option<UpsTime>, slot: Option<L.Shutdown>, at: nat, now: nat, ex: Exchanges, x: L.Weather)
    requires !ex.set_.effect.Garbled? && !ex.park.effect.Garbled?
    requires Acceptable(at, now) && at - at % 60 != PARKED_UNTIL
    ensures ScheduleFor(at, now).Ok?
    ensures var o := Requested(wake, slot, at, true, now, ex, x);
      var asked := Some(ScheduleFor(at, now).value);
      o.response.Error? ==>
        (o.wake == asked <==>
           (ex.set_.effect.AsSent? || wake == asked) && (!ex.set_.answered || !ex.park.effect.AsSent?))
  {
    hide FromUnixSeconds, ToUnixSeconds, IsReal, Requested, DecodeSchedule;
    AcceptedRequest(at, now);
    RealIsEncodable(ScheduleFor(at, now).value);
    ParkedInstant();
    if Requested(wake, slot, at, true, now, ex, x).response.Error? {
      ErrorLeavesNoWake(wake, slot, at, true, now, ex, x);
    }
  }

  /** Even then, an unanswered or unparked write leaves only the requested minute, which has its lead. */
  lemma WithoutGarblingOnlyTheRequest(
    wake: Option<UpsTime>, slot: Option<L.Shutdown>, at: nat, full: bool, now: nat, ex: Exchanges, x: L.Weather)
    requires !ex.set_.effect.Garbled? && !ex.park.effect.Garbled?
    ensures var o := Requested(wake, slot, at, full, now, ex, x);
      || o.wake == wake
      || o.wake == Some(PARK_AT)
      || (ScheduleFor(at, now).Ok? && DueAt(o.wake, at - at % 60) && at - at % 60 >= now + MIN_LEAD)
  {
    hide FromUnixSeconds, ToUnixSeconds, IsReal, DecodeSchedule, PoweroffMessage, L.ScheduledTime, L.AfterSchedule;
    if ScheduleFor(at, now).Ok? {
      AcceptedExactly(at, now);
      AcceptedRequest(at, now);
    }
  }
}
