/**
 * The rules a wake schedule is judged and accepted by, and what follows from them together. All
 * instants are in seconds.
 */
module Wake {
  import opened Wrappers
  import opened Calendar
  import Numbers

  const PARK_AT: UpsTime := UpsTime(2097, 3, 21, 17, 42, None)

  const PARK_WINDOW: nat := 10 * 60
  const CHECK_EVERY: nat := 5 * 60
  const MIN_LEAD: nat := 15 * 60
  const POWEROFF_DELAY: nat := 60

  predicate SameMinute(a: UpsTime, b: UpsTime) {
    a.(second := None) == b.(second := None)
  }

  function PoweroffMessage(wake: UpsTime): string {
    "Powering off. The UPS will power this machine on again at "
    + Numbers.Padded(wake.year, 4) + "-" + Numbers.Padded(wake.month, 2) + "-" + Numbers.Padded(wake.day, 2)
    + " " + Numbers.Padded(wake.hour, 2) + ":" + Numbers.Padded(wake.minute, 2) + " UTC."
  }

  datatype ParkReason = DueSoon | Past | Unreadable

  datatype Assessment = Nothing | Leave(at: UpsTime) | Park(found: UpsTime, why: ParkReason)

  /** The verdict on what the UPS holds while the machine runs. */
  function Assess(schedule: Option<UpsTime>, now: nat): Assessment {
    if schedule.None? then Nothing
    else
      var found := schedule.value;
      match ToUnixSeconds(found)
      case None => Park(found, Unreadable)
      case Some(at) =>
        if at <= now then Park(found, Past)
        else if at - now <= PARK_WINDOW then Park(found, DueSoon)
        else Leave(found)
  }

  datatype RequestError = TooSoon(lead: nat) | OutOfRange

  /** The schedule for a requested instant, or why there is none. */
  function ScheduleFor(at: nat, now: nat): Result<UpsTime, RequestError> {
    var floored := at - at % 60;
    var lead := if floored >= now then floored - now else 0;
    if floored <= now || lead < MIN_LEAD then Err(TooSoon(lead))
    else
      match FromUnixSeconds(floored)
      case None => Err(OutOfRange)
      case Some(t) => Ok(t.(second := None))
  }

  // ---- What the rules promise ----------------------------------------------------------------

  /** A schedule is due at an instant the device can act on. */
  predicate DueAt(schedule: Option<UpsTime>, at: nat) {
    schedule.Some? && ToUnixSeconds(schedule.value) == Some(at)
  }

  const PARKED_UNTIL: nat := 4_014_726_120

  lemma ParkedInstant()
    ensures ToUnixSeconds(PARK_AT) == Some(PARKED_UNTIL)
  {
  }

  lemma RoundedDown(at: nat)
    ensures (at - at % 60) % 60 == 0 && at - at % 60 <= at < at - at % 60 + 60
  {
  }

  lemma SecondsDoNotMatter(t: UpsTime)
    requires IsReal(t) && t.second == Some(0)
    ensures IsReal(t.(second := None)) && ToUnixSeconds(t.(second := None)) == ToUnixSeconds(t)
  {
  }

  lemma WholeMinute(secs: nat)
    requires secs % 60 == 0 && DEVICE_START <= secs < DEVICE_END
    ensures FromUnixSeconds(secs).Some? && FromUnixSeconds(secs).value.second == Some(0)
  {
    hide CivilFromDays;
    DeviceInstants(secs);
    DivisionIsUnique(secs, 60, secs / SECONDS_PER_DAY * 1_440 + secs % SECONDS_PER_DAY / 60,
                     secs % SECONDS_PER_DAY % 60);
  }

  /** The lead is kept, and the device can hold the minute. */
  predicate Acceptable(at: nat, now: nat) {
    now + MIN_LEAD <= at - at % 60 && DEVICE_START <= at - at % 60 < DEVICE_END
  }

  /** Exactly which requests are accepted. */
  lemma AcceptedExactly(at: nat, now: nat)
    ensures ScheduleFor(at, now).Ok? <==> Acceptable(at, now)
    ensures ScheduleFor(at, now) == Err(OutOfRange) <==> now + MIN_LEAD <= at - at % 60 && !Acceptable(at, now)
  {
    hide FromUnixSeconds;
    DeviceInstants(at - at % 60);
  }

  /** An accepted request names its own instant rounded down to the minute, and has its lead. */
  lemma AcceptedRequest(at: nat, now: nat)
    requires Acceptable(at, now)
    ensures ScheduleFor(at, now).Ok?
    ensures var t := ScheduleFor(at, now).value;
      && t.second == None
      && IsReal(t)
      && ToUnixSeconds(t) == Some(at - at % 60)
      && now + MIN_LEAD <= at - at % 60 <= at < at - at % 60 + 60
  {
    hide FromUnixSeconds, ToUnixSeconds, IsReal;
    var floored := at - at % 60;
    AcceptedExactly(at, now);
    InstantRoundTrips(floored);
    RoundedDown(at);
    WholeMinute(floored);
    SecondsDoNotMatter(FromUnixSeconds(floored).value);
  }

  /**
   * The safety net leaves a freshly requested wake alone until the poweroff that comes with it,
   * and parks it the moment it enters the window: the poweroff was then cancelled.
   */
  lemma NetRespectsRequest(at: nat, now: nat, later: nat)
    requires Acceptable(at, now) && now <= later
    ensures ScheduleFor(at, now).Ok?
    ensures var t := ScheduleFor(at, now).value;
      && (later < now + (MIN_LEAD - PARK_WINDOW) ==> Assess(Some(t), later) == Leave(t))
      && (Assess(Some(t), later).Park? <==> later + PARK_WINDOW >= at - at % 60)
    ensures POWEROFF_DELAY + 60 < MIN_LEAD - PARK_WINDOW
  {
    hide FromUnixSeconds, ToUnixSeconds, IsReal, ScheduleFor;
    AcceptedRequest(at, now);
  }

  /** A parked schedule is left where it is until its own window, decades out. */
  lemma ParkedIsLeft(now: nat)
    ensures Assess(Some(PARK_AT), now) == Leave(PARK_AT) <==> now + PARK_WINDOW < PARKED_UNTIL
  {
    ParkedInstant();
  }

  /** The message shows the time as year, month, day, hour and minute, in digits of fixed width. */
  lemma MessageShowsTheTime(t: UpsTime)
    requires t.year <= 9_999 && t.month <= 99 && t.day <= 99 && t.hour <= 99 && t.minute <= 99
    ensures var m := PoweroffMessage(t);
      && |m| == 58 + 21
      && Shows(m[58..62], t.year) && m[62] == '-' && Shows(m[63..65], t.month) && m[65] == '-' && Shows(m[66..68], t.day)
      && m[68] == ' ' && Shows(m[69..71], t.hour) && m[71] == ':' && Shows(m[72..74], t.minute) && m[74..] == " UTC."
  {
    assert Numbers.Power10(4) == 10_000 && Numbers.Power10(2) == 100;
    Numbers.PaddedReads(t.year, 4);
    Numbers.PaddedReads(t.month, 2);
    Numbers.PaddedReads(t.day, 2);
    Numbers.PaddedReads(t.hour, 2);
    Numbers.PaddedReads(t.minute, 2);
    hide Numbers.Padded, Numbers.Value, Numbers.AllDigits;
    MessageParts(Numbers.Padded(t.year, 4), Numbers.Padded(t.month, 2), Numbers.Padded(t.day, 2),
                 Numbers.Padded(t.hour, 2), Numbers.Padded(t.minute, 2));
  }

  lemma MessageParts(year: string, month: string, day: string, hour: string, minute: string)
    requires |year| == 4 && |month| == |day| == |hour| == |minute| == 2
    ensures var m := "Powering off. The UPS will power this machine on again at "
        + year + "-" + month + "-" + day + " " + hour + ":" + minute + " UTC.";
      && |m| == 58 + 21
      && m[58..62] == year && m[62] == '-' && m[63..65] == month && m[65] == '-' && m[66..68] == day
      && m[68] == ' ' && m[69..71] == hour && m[71] == ':' && m[72..74] == minute && m[74..] == " UTC."
  {
  }

  predicate Shows(digits: string, n: nat) {
    Numbers.AllDigits(digits) && Numbers.Value(digits) == n
  }

  /** The verdict on a schedule, by the instant it is due. */
  lemma AssessedExactly(schedule: Option<UpsTime>, now: nat)
    ensures var a := Assess(schedule, now);
      && (a == Nothing <==> schedule.None?)
      && (schedule.Some? && ToUnixSeconds(schedule.value).None? ==> a == Park(schedule.value, Unreadable))
      && (forall at: nat | DueAt(schedule, at) ::
           && (a == Park(schedule.value, Past) <==> at <= now)
           && (a == Park(schedule.value, DueSoon) <==> now < at <= now + 600)
           && (a == Leave(schedule.value) <==> at > now + 600))
  {
    hide ToUnixSeconds;
  }
}
