/** What the fan's write stack keeps over every run. */
module FanRuns {
  import opened Wrappers
  import opened Bytes
  import opened FanStack
  import opened Numbers

  /** The firmware understands the configured dialect. */
  predicate Understands(kind: Dialect, dialect: Dialect) {
    kind.Register? || dialect.Legacy?
  }

  /** Exactly when a duty sent is the duty run: a register write to single-byte firmware pins it at full. */
  lemma DutyArrives(kind: Dialect, dialect: Dialect, m: Firmware, d: FanDuty)
    ensures Receive(kind, m, DutyBytes(dialect, d)).fan == PercentOf(d) <==>
      Understands(kind, dialect) || d == Percent(100)
    ensures !Understands(kind, dialect) ==> Receive(kind, m, DutyBytes(dialect, d)).fan == 100
    ensures Receive(kind, m, DutyBytes(dialect, d)) == m.(fan := Receive(kind, m, DutyBytes(dialect, d)).fan)
  {
  }

  // ---- The control task ----------------------------------------------------------------------

  function Run(setup: Setup, s: TaskState, moments: seq<Moment>): TaskState
    decreases |moments|
  {
    if moments == [] then s else Run(setup, Step(setup, s, moments[0]).0, moments[1..])
  }

  /** Iterations follow one another on a monotonic clock. */
  predicate InOrder(since: nat, moments: seq<Moment>)
    decreases |moments|
  {
    moments != [] ==>
      since <= moments[0].attempt.start <= moments[0].attempt.end && InOrder(moments[0].attempt.end, moments[1..])
  }

  function Later(since: nat, moments: seq<Moment>): nat
    decreases |moments|
  {
    if moments == [] then since else Later(moments[0].attempt.end, moments[1..])
  }

  /** After a frame the bus acknowledged, the next comes no sooner than the interval. */
  predicate Spaced(delivered: seq<Delivery>, minInterval: nat) {
    forall i, j | 0 <= i < j < |delivered| && delivered[i].acknowledged ::
      delivered[i].at + minInterval <= delivered[j].at
  }

  predicate AcknowledgedBefore(delivered: seq<Delivery>, t: Option<nat>) {
    forall i | 0 <= i < |delivered| && delivered[i].acknowledged :: t.Some? && delivered[i].at <= t.value
  }

  /** The data of the last frame that was acknowledged. */
  function LastAcknowledged(delivered: seq<Delivery>): Option<seq<byte>> {
    if delivered == [] then None
    else
      var last := delivered[|delivered| - 1];
      if last.acknowledged then Some(last.data) else LastAcknowledged(delivered[..|delivered| - 1])
  }

  /** The last frame that reached the firmware. */
  function Latest(delivered: seq<Delivery>): Option<seq<byte>> {
    if delivered == [] then None else Some(delivered[|delivered| - 1].data)
  }

  /** A frame that sets a duty ends in it. */
  predicate Sets(data: seq<byte>, fan: byte) {
    data != [] && data[|data| - 1] == fan
  }

  /** The fan runs what reached it last, and the fan task's record is what was acknowledged last. */
  predicate Truthful(setup: Setup, boot: Firmware, s: TaskState) {
    var line := s.Line();
    && s.mcu.shadow == s.lastWritten
    && line.firmware == boot.(fan := line.firmware.fan)
    && (setup.bottom.Wire? && Understands(setup.kind, setup.dialect) && line.delivered != [] ==>
          Sets(Latest(line.delivered).value, line.firmware.fan))
    && (setup.bottom.Wire? ==>
          LastAcknowledged(line.delivered)
          == if s.lastWritten.Some? then Some(DutyBytes(setup.dialect, s.lastWritten.value)) else None)
  }

  predicate Inv(setup: Setup, boot: Firmware, s: TaskState, since: nat) {
    && Truthful(setup, boot, s)
    && AcknowledgedBefore(s.Line().delivered, s.mcu.bus.lastWrite)
    && (s.mcu.bus.lastWrite.Some? ==> s.mcu.bus.lastWrite.value <= since)
    && Spaced(s.Line().delivered, setup.minInterval)
  }

  /** What a write changes: nothing, or one frame more, which is recorded as written if it was acknowledged. */
  lemma WriteChanges(setup: Setup, s: TaskState, d: FanDuty, a: Attempt)
    ensures var line, s' := s.Line(), WrittenIfChanged(setup, s, d, a).0;
      var frame := Delivery(a.start, DutyBytes(setup.dialect, d), a.bus.Works?);
      var done := s'.lastWritten == s'.mcu.shadow == Some(d) && s'.mcu.bus.lastWrite == Some(a.end);
      var kept := s'.lastWritten == s.lastWritten && s'.mcu.shadow == s.mcu.shadow
                  && s'.mcu.bus.lastWrite == s.mcu.bus.lastWrite;
      || (kept && s'.Line() == line)
      || (done && setup.bottom.DryRun? && s'.Line() == line.(recorded := s'.Line().recorded))
      || (setup.bottom.Wire? && !Limited(setup, s.mcu.bus, a)
          && (if frame.acknowledged then done else kept)
          && s'.Line() == line.(firmware := Receive(setup.kind, line.firmware, frame.data),
                                delivered := line.delivered + [frame]))
  {
    hide Receive, DutyBytes;
  }

  lemma DeliveredKeeps(setup: Setup, b: BusState, since: nat, frame: Delivery, end: nat)
    requires AcknowledgedBefore(b.line.delivered, b.lastWrite) && Spaced(b.line.delivered, setup.minInterval)
    requires since <= frame.at <= end && (b.lastWrite.Some? ==> b.lastWrite.value <= since)
    requires b.lastWrite.Some? ==> b.lastWrite.value + setup.minInterval <= frame.at
    ensures var more := b.line.delivered + [frame];
      && AcknowledgedBefore(more, if frame.acknowledged then Some(end) else b.lastWrite)
      && Spaced(more, setup.minInterval)
      && LastAcknowledged(more) == (if frame.acknowledged then Some(frame.data) else LastAcknowledged(b.line.delivered))
      && Latest(more) == Some(frame.data)
  {
    var more := b.line.delivered + [frame];
    assert more[..|more| - 1] == b.line.delivered;
  }

  lemma WriteKeeps(setup: Setup, boot: Firmware, s: TaskState, since: nat, d: FanDuty, a: Attempt)
    requires Inv(setup, boot, s, since) && since <= a.start <= a.end
    ensures Inv(setup, boot, WrittenIfChanged(setup, s, d, a).0, a.end)
  {
    WriteChanges(setup, s, d, a);
    DutyArrives(setup.kind, setup.dialect, s.Line().firmware, d);
    DutyBytesSet(setup.dialect, d);
    var before, s' := s.Line().delivered, WrittenIfChanged(setup, s, d, a).0;
    hide Receive, DutyBytes, WrittenIfChanged, Sets, Understands, LastAcknowledged, Latest, Spaced;
    if s'.Line().delivered != before {
      DeliveredKeeps(setup, s.mcu.bus, since, Delivery(a.start, DutyBytes(setup.dialect, d), a.bus.Works?), a.end);
    }
  }

  lemma DutyBytesSet(dialect: Dialect, d: FanDuty)
    ensures Sets(DutyBytes(dialect, d), PercentOf(d))
  {
  }

  lemma StepKeeps(setup: Setup, boot: Firmware, s: TaskState, since: nat, m: Moment)
    requires Inv(setup, boot, s, since) && since <= m.attempt.start <= m.attempt.end
    ensures Inv(setup, boot, Step(setup, s, m).0, m.attempt.end)
  {
    hide WrittenIfChanged;
    var s' := if m.temperature.Some? then s.(failures := 0, lastTemp := m.temperature)
              else s.(failures := if s.failures < U32_MAX then s.failures + 1 else U32_MAX);
    WriteKeeps(setup, boot, s', since, Wanted(setup, m), m.attempt);
  }

  /**
   * Over every run with the fan task as sole writer, whatever the sensor, the bus and the limiter
   * do: the fan runs what reached it last, the record is what was acknowledged last, a frame that
   * was acknowledged is followed no sooner than the interval, and neither power mode, power cut
   * nor bootloader is ever touched.
   */
  lemma {:induction false} RunKeeps(setup: Setup, boot: Firmware, s: TaskState, since: nat, moments: seq<Moment>)
    requires Inv(setup, boot, s, since) && InOrder(since, moments)
    ensures Inv(setup, boot, Run(setup, s, moments), Later(since, moments))
    decreases |moments|
  {
    if moments != [] {
      StepKeeps(setup, boot, s, since, moments[0]);
      RunKeeps(setup, boot, Step(setup, s, moments[0]).0, moments[0].attempt.end, moments[1..]);
    }
  }

  // ---- What the record is worth --------------------------------------------------------------

  /** If there is a record, the firmware runs it. */
  predicate Believes(s: TaskState) {
    s.lastWritten.Some? ==> s.Line().firmware.fan == PercentOf(s.lastWritten.value)
  }

  /**
   * From boot, over every run: the record is true exactly when the last frame to reach the fan set
   * the recorded duty. So it is true wherever every frame that got through was acknowledged.
   */
  lemma BeliefExactly(setup: Setup, boot: Firmware, since: nat, moments: seq<Moment>)
    requires InOrder(since, moments)
    requires setup.bottom.Wire? && Understands(setup.kind, setup.dialect)
    ensures var s := Run(setup, Initial(boot), moments);
      && (Believes(s) <==>
            s.lastWritten.None? || Latest(s.Line().delivered) == Some(DutyBytes(setup.dialect, s.lastWritten.value)))
      && ((forall i | 0 <= i < |moments| :: !moments[i].attempt.bus.Mute?) ==> Believes(s))
  {
    hide Step;
    RunKeeps(setup, boot, Initial(boot), since, moments);
    var s := Run(setup, Initial(boot), moments);
    if s.lastWritten.Some? {
      LatestIsADuty(setup, Initial(boot), moments);
      SameDutySameFrame(setup.dialect, Latest(s.Line().delivered).value, s.lastWritten.value);
    }
    if forall i | 0 <= i < |moments| :: !moments[i].attempt.bus.Mute? {
      NoneMuteAllHeard(setup, Initial(boot), moments);
    }
  }

  predicate IsDutyFrame(dialect: Dialect, data: seq<byte>) {
    match dialect
    case Legacy => |data| == 1
    case Register => |data| == 2 && data[0] == DUTY_REGISTER
  }

  lemma SameDutySameFrame(dialect: Dialect, data: seq<byte>, d: FanDuty)
    requires IsDutyFrame(dialect, data)
    ensures data == DutyBytes(dialect, d) <==> Sets(data, PercentOf(d))
  {
    if dialect.Register? {
      assert data == [data[0], data[1]];
    } else {
      assert data == [data[0]];
    }
  }

  /** An iteration lets at most one frame through, of the wanted duty. */
  lemma StepDelivers(setup: Setup, s: TaskState, m: Moment)
    ensures var before, after := s.Line().delivered, Step(setup, s, m).0.Line().delivered;
      || after == before
      || (!m.attempt.bus.Fails?
          && after == before + [Delivery(m.attempt.start, DutyBytes(setup.dialect, Wanted(setup, m)), m.attempt.bus.Works?)])
  {
  }

  lemma {:induction false} LatestIsADuty(setup: Setup, s: TaskState, moments: seq<Moment>)
    requires Latest(s.Line().delivered).Some? ==> IsDutyFrame(setup.dialect, Latest(s.Line().delivered).value)
    ensures var delivered := Run(setup, s, moments).Line().delivered;
      Latest(delivered).Some? ==> IsDutyFrame(setup.dialect, Latest(delivered).value)
    decreases |moments|
  {
    hide Step;
    if moments != [] {
      StepDelivers(setup, s, moments[0]);
      LatestIsADuty(setup, Step(setup, s, moments[0]).0, moments[1..]);
    }
  }

  predicate AllHeard(delivered: seq<Delivery>) {
    forall i | 0 <= i < |delivered| :: delivered[i].acknowledged
  }

  lemma {:induction false} NoneMuteAllHeard(setup: Setup, s: TaskState, moments: seq<Moment>)
    requires forall i | 0 <= i < |moments| :: !moments[i].attempt.bus.Mute?
    requires AllHeard(s.Line().delivered)
    ensures AllHeard(Run(setup, s, moments).Line().delivered)
    decreases |moments|
  {
    hide Step;
    if moments != [] {
      assert !moments[0].attempt.bus.Mute?;
      StepDelivers(setup, s, moments[0]);
      NoneMuteAllHeard(setup, Step(setup, s, moments[0]).0, moments[1..]);
    }
  }

  /**
   * One iteration from a true record makes it false exactly when a changed duty gets through and
   * is reported failed. The fan task then believes the old one, and will not write it again.
   */
  lemma MuteBreaksBelief(setup: Setup, s: TaskState, m: Moment)
    requires Believes(s) && setup.bottom.Wire? && Understands(setup.kind, setup.dialect)
    ensures Believes(Step(setup, s, m).0) <==>
      || s.lastWritten.None?
      || s.lastWritten == Some(Wanted(setup, m))
      || Limited(setup, s.mcu.bus, m.attempt)
      || !m.attempt.bus.Mute?
  {
  }

  /**
   * Why the fan task must be the only writer: the guard that restores a safe duty goes through the
   * same driver, and leaves the record true exactly when there is none, it is the safe duty, the
   * limiter is in the way, or the bus is down.
   */
  lemma GuardBreaksBelief(setup: Setup, s: TaskState, safe: FanDuty, a: Attempt)
    requires Believes(s) && setup.bottom.Wire? && Understands(setup.kind, setup.dialect)
    ensures Believes(s.(mcu := Driven(setup, s.mcu, SetFan(safe), a).0)) <==>
      s.lastWritten.None? || s.lastWritten == Some(safe) || Limited(setup, s.mcu.bus, a) || a.bus.Fails?
  {
  }

  /** `wrote` is reported exactly when a frame got through: to the firmware, or to a dry run's record. */
  lemma WroteMeansDelivered(setup: Setup, s: TaskState, m: Moment)
    ensures var (s', r) := Step(setup, s, m);
      && s.Line().delivered <= s'.Line().delivered && s.Line().recorded <= s'.Line().recorded
      && (r.Ok? && r.value.Applied? ==>
           (r.value.wrote <==>
             |s'.Line().delivered| + |s'.Line().recorded| == |s.Line().delivered| + |s.Line().recorded| + 1))
      && (r.Err? ==> s'.lastWritten == s.lastWritten
                     && (s'.Line() == s.Line() <==> !(setup.bottom.Wire? && m.attempt.bus.Mute?)))
  {
  }

  /** A duty is never lost: an iteration either has the fan at the wanted duty, or will try again. */
  lemma NothingIsForgotten(setup: Setup, s: TaskState, m: Moment)
    requires Believes(s) && setup.bottom.Wire? && Understands(setup.kind, setup.dialect)
    ensures var (s', r) := Step(setup, s, m);
      || s'.Line().firmware.fan == PercentOf(Wanted(setup, m))
      || (s'.lastWritten != Some(Wanted(setup, m))
          && (Limited(setup, s.mcu.bus, m.attempt) || r == Err(BusFailed)))
  {
    DutyArrives(setup.kind, setup.dialect, s.Line().firmware, Wanted(setup, m));
  }

  // ---- Other bottoms -------------------------------------------------------------------------

  /** A read-only transport delivers nothing, and the fan task never believes it did. */
  lemma {:induction false} ReadOnlyDeliversNothing(setup: Setup, s: TaskState, moments: seq<Moment>)
    requires setup.bottom.ReadOnly? && s.lastWritten.None?
    ensures var s' := Run(setup, s, moments);
      s'.Line() == s.Line() && s'.lastWritten.None?
    decreases |moments|
  {
    if moments != [] {
      ReadOnlyDeliversNothing(setup, Step(setup, s, moments[0]).0, moments[1..]);
    }
  }

  function Payloads(delivered: seq<Delivery>): seq<seq<byte>> {
    seq(|delivered|, i requires 0 <= i < |delivered| => delivered[i].data)
  }

  /** The dry run's double of a live state: the same, but for where frames went. */
  predicate Doubles(dry: TaskState, live: TaskState) {
    && dry.Line().recorded == Payloads(live.Line().delivered)
    && dry == live.(mcu := live.mcu.(bus := live.mcu.bus.(line := dry.Line())))
  }

  /** On a bus that works, a dry run writes down exactly the frames the live run delivers, in order. */
  lemma {:induction false} DryRunRecordsTheRun(setup: Setup, dry: TaskState, live: TaskState, moments: seq<Moment>)
    requires Doubles(dry, live)
    requires forall i | 0 <= i < |moments| :: moments[i].attempt.bus.Works?
    ensures Doubles(Run(setup.(bottom := DryRun), dry, moments), Run(setup.(bottom := Wire), live, moments))
    ensures Run(setup.(bottom := DryRun), dry, moments).Line().delivered == dry.Line().delivered
    ensures Run(setup.(bottom := DryRun), dry, moments).Line().firmware == dry.Line().firmware
    decreases |moments|
  {
    if moments != [] {
      var m := moments[0];
      assert m.attempt.bus.Works?;
      DoublesStep(setup, dry, live, m);
      DryRunRecordsTheRun(setup, Step(setup.(bottom := DryRun), dry, m).0, Step(setup.(bottom := Wire), live, m).0,
                          moments[1..]);
    }
  }

  lemma DoublesStep(setup: Setup, dry: TaskState, live: TaskState, m: Moment)
    requires Doubles(dry, live) && m.attempt.bus.Works?
    ensures Doubles(Step(setup.(bottom := DryRun), dry, m).0, Step(setup.(bottom := Wire), live, m).0)
    ensures Step(setup.(bottom := DryRun), dry, m).0.Line().delivered == dry.Line().delivered
    ensures Step(setup.(bottom := DryRun), dry, m).0.Line().firmware == dry.Line().firmware
  {
    var data := DutyBytes(setup.dialect, Wanted(setup, m));
    var before := live.Line().delivered;
    assert Payloads(before + [Delivery(m.attempt.start, data, true)]) == Payloads(before) + [data];
  }

  // ---- The driver ----------------------------------------------------------------------------

  datatype Request = Request(call: Call, attempt: Attempt)

  function Drives(setup: Setup, s: McuState, calls: seq<Request>): McuState
    decreases |calls|
  {
    if calls == [] then s else Drives(setup, Driven(setup, s, calls[0].call, calls[0].attempt).0, calls[1..])
  }

  /**
   * No sequence of driver calls, in either dialect on either firmware, enters the bootloader; and
   * the power cut is armed only by the call that arms it.
   */
  lemma {:induction false} DriverIsSafe(setup: Setup, s: McuState, calls: seq<Request>)
    ensures Drives(setup, s, calls).bus.line.firmware.bootloader == s.bus.line.firmware.bootloader
    ensures (forall i | 0 <= i < |calls| :: !calls[i].call.ArmPowerCut?) ==>
      Drives(setup, s, calls).bus.line.firmware.cutArmed == s.bus.line.firmware.cutArmed
    decreases |calls|
  {
    if calls != [] {
      var s' := Driven(setup, s, calls[0].call, calls[0].attempt).0;
      assert s'.bus.line.firmware.bootloader == s.bus.line.firmware.bootloader;
      assert !calls[0].call.ArmPowerCut? ==> s'.bus.line.firmware.cutArmed == s.bus.line.firmware.cutArmed;
      DriverIsSafe(setup, s', calls[1..]);
    }
  }

  /** The call's bytes reach the firmware. */
  predicate GetsThrough(setup: Setup, s: McuState, q: Request) {
    setup.bottom.Wire? && !q.call.EnterBootloader? && !Limited(setup, s.bus, q.attempt) && !q.attempt.bus.Fails?
  }

  /** The bytes of each call; a call that does not get through sends none. */
  lemma CallOnTheWire(setup: Setup, s: McuState, q: Request)
    ensures var before, after := s.bus.line, Driven(setup, s, q.call, q.attempt).0.bus.line;
      if !GetsThrough(setup, s, q) then after.delivered == before.delivered && after.firmware == before.firmware
      else
        && |after.delivered| == |before.delivered| + 1
        && after.delivered[..|before.delivered|] == before.delivered
        && var data := after.delivered[|before.delivered|].data;
        && (q.call == SetPowerMode(true) ==> data == [0xFE])
        && (q.call == SetPowerMode(false) ==> data == [0xFD])
        && (q.call == ArmPowerCut ==> data == [0xFF])
        && (q.call.SetFan? && setup.dialect.Legacy? ==> data == [PercentOf(q.call.duty)])
        && (q.call.SetFan? && setup.dialect.Register? ==> data == [0x80, PercentOf(q.call.duty)])
  {
    hide Receive;
  }

  /** The calls of a sequence that got through, in order. */
  function Through(setup: Setup, s: McuState, calls: seq<Request>): seq<Call>
    decreases |calls|
  {
    if calls == [] then []
    else
      (if GetsThrough(setup, s, calls[0]) then [calls[0].call] else [])
      + Through(setup, Driven(setup, s, calls[0].call, calls[0].attempt).0, calls[1..])
  }

  /** The last mode asked for, or the one before. */
  predicate LastMode(calls: seq<Call>, before: bool) {
    if calls == [] then before
    else LastMode(calls[1..], if calls[0].SetPowerMode? then calls[0].alwaysOn else before)
  }

  /** The last duty asked for, or the one before. */
  function LastDuty(calls: seq<Call>, before: byte): byte {
    if calls == [] then before
    else LastDuty(calls[1..], if calls[0].SetFan? then PercentOf(calls[0].duty) else before)
  }

  lemma OneCall(setup: Setup, s: McuState, q: Request)
    ensures var was, now := s.bus.line.firmware, Driven(setup, s, q.call, q.attempt).0.bus.line.firmware;
      if !GetsThrough(setup, s, q) then now == was
      else match q.call
        case SetFan(d) => now == was.(fan := now.fan) && (Understands(setup.kind, setup.dialect) ==> now.fan == PercentOf(d))
        case SetPowerMode(on) => now == if setup.kind.Legacy? then was.(alwaysOn := on) else was
        case ArmPowerCut => now == was.(cutArmed := true)
        case EnterBootloader => now == was
  {
  }

  /**
   * After every sequence of driver calls the firmware is exactly what the calls that got through
   * say: on single-byte firmware the power mode is the last one set, while the register firmware
   * never leaves its own; the cut is armed if and only if it was, or a call for it got through; and
   * the fan runs the last duty set, in a dialect that the firmware understands.
   */
  lemma {:induction false} DriverIsExact(setup: Setup, s: McuState, calls: seq<Request>)
    ensures var was, now := s.bus.line.firmware, Drives(setup, s, calls).bus.line.firmware;
      var through := Through(setup, s, calls);
      && now.alwaysOn == (if setup.kind.Legacy? then LastMode(through, was.alwaysOn) else was.alwaysOn)
      && (now.cutArmed <==> was.cutArmed || ArmPowerCut in through)
      && (Understands(setup.kind, setup.dialect) ==> now.fan == LastDuty(through, was.fan))
      && now.bootloader == was.bootloader
    decreases |calls|
  {
    hide Driven, GetsThrough, Understands;
    if calls != [] {
      OneCall(setup, s, calls[0]);
      var s' := Driven(setup, s, calls[0].call, calls[0].attempt).0;
      DriverIsExact(setup, s', calls[1..]);
      var rest := Through(setup, s', calls[1..]);
      assert GetsThrough(setup, s, calls[0]) ==> ([calls[0].call] + rest)[1..] == rest;
      assert [] + rest == rest;
    }
  }

  /** A refused write says how long to wait: that long is enough, and any less is not. */
  lemma WaitIsExact(setup: Setup, s: McuState, q: Request, later: Request)
    requires Driven(setup, s, q.call, q.attempt).1.Err? && Driven(setup, s, q.call, q.attempt).1.error.RateLimited?
    requires s.bus.lastWrite.Some? && s.bus.lastWrite.value <= q.attempt.start <= later.attempt.start
    requires !later.call.EnterBootloader?
    ensures var (s', r) := Driven(setup, s, q.call, q.attempt);
      && s' == s.(bus := s.bus.(suppressed := s.bus.suppressed + 1))
      && (later.attempt.start >= q.attempt.start + r.error.retryAfter <==>
            !(Driven(setup, s', later.call, later.attempt).1.Err?
              && Driven(setup, s', later.call, later.attempt).1.error.RateLimited?))
  {
    hide Receive;
  }

  /** After a write that worked, one is refused exactly if it comes sooner than the interval after its end. */
  lemma IntervalFromTheEnd(setup: Setup, s: McuState, q: Request, later: Request)
    requires Driven(setup, s, q.call, q.attempt).1.Ok? && !later.call.EnterBootloader?
    requires q.attempt.end <= later.attempt.start
    ensures var r := Driven(setup, Driven(setup, s, q.call, q.attempt).0, later.call, later.attempt).1;
      r.Err? && r.error.RateLimited? <==> later.attempt.start < q.attempt.end + setup.minInterval
  {
    hide Receive;
  }

  // ---- Reports -------------------------------------------------------------------------------

  /** What an iteration reports, and the only frame it can let through. */
  lemma ReportsExactly(setup: Setup, s: TaskState, m: Moment)
    ensures var (s', r) := Step(setup, s, m);
      var duty := if m.temperature.Some? then m.duty else setup.sensorFailDuty;
      && (r.Ok? && m.temperature.None? ==> r.value == SensorFailed(setup.sensorFailDuty, s'.failures))
      && (r.Ok? && m.temperature.Some? ==>
            r.value.Applied? && r.value.temperature == m.temperature.value && r.value.duty == m.duty)
      && (r.Err? <==>
            && s.lastWritten != Some(duty) && !Limited(setup, s.mcu.bus, m.attempt)
            && (setup.bottom.ReadOnly? || (setup.bottom.Wire? && !m.attempt.bus.Works?)))
      && (s'.Line().delivered == s.Line().delivered
          || (s'.Line().delivered == s.Line().delivered
                + [Delivery(m.attempt.start, DutyBytes(setup.dialect, duty), m.attempt.bus.Works?)]))
  {
    hide Receive, DutyBytes;
  }

  /** The failed readings at the end of a run, and before it if the run holds no other. */
  function Trailing(moments: seq<Moment>, before: nat): nat {
    if moments == [] then before
    else if moments[|moments| - 1].temperature.Some? then 0
    else Trailing(moments[..|moments| - 1], before) + 1
  }

  function LastReading(moments: seq<Moment>, before: Option<int>): Option<int> {
    if moments == [] then before
    else if moments[|moments| - 1].temperature.Some? then moments[|moments| - 1].temperature
    else LastReading(moments[..|moments| - 1], before)
  }

  lemma {:induction false} RunInTwo(setup: Setup, s: TaskState, moments: seq<Moment>, last: Moment)
    ensures Run(setup, s, moments + [last]) == Step(setup, Run(setup, s, moments), last).0
    decreases |moments|
  {
    hide Step;
    var all := moments + [last];
    if moments == [] {
      assert all[1..] == [];
    } else {
      assert all[1..] == moments[1..] + [last];
      RunInTwo(setup, Step(setup, s, moments[0]).0, moments[1..], last);
    }
  }

  lemma StepCounts(setup: Setup, s: TaskState, m: Moment)
    requires s.failures <= 4_294_967_295
    ensures var s' := Step(setup, s, m).0;
      if m.temperature.Some? then s'.failures == 0 && s'.lastTemp == m.temperature
      else s'.lastTemp == s.lastTemp && s'.failures == if s.failures == 4_294_967_295 then s.failures else s.failures + 1
  {
    hide Driven;
  }

  /** Over every run the failure count is that of the failed readings in a row, up to its width's limit. */
  lemma {:induction false} FailuresAreCounted(setup: Setup, s: TaskState, moments: seq<Moment>)
    requires s.failures <= 4_294_967_295
    ensures var n, s' := Trailing(moments, s.failures), Run(setup, s, moments);
      && s'.failures == (if n < 4_294_967_295 then n else 4_294_967_295)
      && s'.lastTemp == LastReading(moments, s.lastTemp)
    decreases |moments|
  {
    hide Step;
    if moments != [] {
      var most, last := moments[..|moments| - 1], moments[|moments| - 1];
      FailuresAreCounted(setup, s, most);
      assert most + [last] == moments;
      RunInTwo(setup, s, most, last);
      StepCounts(setup, Run(setup, s, most), last);
    }
  }
}
