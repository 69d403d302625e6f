/**
 * The fan's write stack: the control task over the MCU driver over a rate-limited bus over the
 * firmware. Each layer is an object; `Step` is what one iteration of the whole stack does, on
 * values.
 */
module FanStack {
  import opened Wrappers
  import opened Bytes
  import opened Numbers

  // ---- Duties --------------------------------------------------------------------------------

  datatype RawDuty = Off | Percent(p: nat)

  /** A running fan's percentage is 1 to 100; stopping is a choice of its own. */
  type FanDuty = d: RawDuty | d.Percent? ==> 1 <= d.p <= 100 witness Off

  const MIN_SPINNING_DUTY: nat := 10

  function PercentOf(d: FanDuty): byte {
    match d case Off => 0 case Percent(p) => p
  }

  /** Clamped into what the hardware can act on: some cooling never becomes none. */
  function Clamped(percent: byte): (d: FanDuty)
    ensures d.Off? <==> percent == 0
    ensures percent > 0 ==> PercentOf(d) >= MIN_SPINNING_DUTY
    ensures MIN_SPINNING_DUTY <= percent <= 100 ==> PercentOf(d) == percent
    ensures 0 < percent < 10 ==> PercentOf(d) == 10
    ensures percent > 100 ==> PercentOf(d) == 100
  {
    if percent == 0 then Off
    else if percent < MIN_SPINNING_DUTY then Percent(MIN_SPINNING_DUTY)
    else if percent <= 100 then Percent(percent)
    else Percent(100)
  }

  // ---- Firmware ------------------------------------------------------------------------------

  datatype Dialect = Legacy | Register

  datatype Firmware = Firmware(fan: byte, alwaysOn: bool, cutArmed: bool, bootloader: bool)

  const ARM_POWER_CUT: byte := 0xFF
  const MODE_ALWAYS_ON: byte := 0xFE
  const MODE_DEFAULT: byte := 0xFD
  const BOOTLOADER: byte := 0xBB
  const IR_WRITE: byte := 0xAA
  const DUTY_REGISTER: byte := 0x80
  const CUT_REGISTER: byte := 0x86

  function Capped(b: byte): byte {
    if b > 100 then 100 else b
  }

  /** Firmware with only the single-byte protocol: the first byte is a command, the rest ignored. */
  function LegacyReceive(m: Firmware, data: seq<byte>): Firmware {
    if data == [] then m
    else
      var b := data[0];
      if b == MODE_DEFAULT then m.(alwaysOn := false)
      else if b == MODE_ALWAYS_ON then m.(alwaysOn := true)
      else if b == ARM_POWER_CUT then m.(cutArmed := true)
      else if b == BOOTLOADER then m.(bootloader := true)
      else if b == IR_WRITE then m
      else m.(fan := Capped(b))
  }

  /** The newer firmware: two-byte register writes, and those single bytes it has kept. */
  function RegisterReceive(m: Firmware, data: seq<byte>): Firmware {
    if |data| >= 2 && data[0] == DUTY_REGISTER then m.(fan := Capped(data[1]))
    else if |data| >= 2 && data[0] == CUT_REGISTER && data[1] == 1 then m.(cutArmed := true)
    else if |data| == 1 then
      if data[0] <= 100 then m.(fan := data[0])
      else if data[0] == ARM_POWER_CUT then m.(cutArmed := true)
      else if data[0] == BOOTLOADER then m.(bootloader := true)
      else m
    else m
  }

  function Receive(kind: Dialect, m: Firmware, data: seq<byte>): Firmware {
    match kind case Legacy => LegacyReceive(m, data) case Register => RegisterReceive(m, data)
  }

  /** The bytes that set a duty in a dialect. */
  function DutyBytes(dialect: Dialect, d: FanDuty): seq<byte> {
    match dialect case Legacy => [PercentOf(d)] case Register => [DUTY_REGISTER, PercentOf(d)]
  }

  // ---- The stack on values, layer by layer ---------------------------------------------------

  /** What is at the bottom: the wire, a transport that refuses writes, or one that only records them. */
  datatype Bottom = Wire | ReadOnly | DryRun

  /** A frame that reached the firmware, when it was sent, and whether the bus said it got there. */
  datatype Delivery = Delivery(at: nat, data: seq<byte>, acknowledged: bool)

  datatype LineState = LineState(
    firmware: Firmware,
    delivered: seq<Delivery>,      // what reached the firmware
    recorded: seq<seq<byte>>)      // what a dry run wrote down instead

  datatype BusState = BusState(line: LineState, lastWrite: Option<nat>, suppressed: nat)

  datatype McuState = McuState(bus: BusState, shadow: Option<FanDuty>)

  datatype TaskState = TaskState(mcu: McuState, lastWritten: Option<FanDuty>, lastTemp: Option<int>, failures: nat) {
    function Line(): LineState { mcu.bus.line }
  }

  datatype Setup = Setup(bottom: Bottom, kind: Dialect, dialect: Dialect, minInterval: nat, sensorFailDuty: FanDuty)

  datatype Error = RateLimited(retryAfter: nat) | WriteBlocked | BusFailed

  /** How a write fares on the bus: it gets through, it does not, or it does and is reported failed. */
  datatype Bus = Works | Fails | Mute

  /** One attempt to write: when it starts and ends on the monotonic clock, and how the bus takes it. */
  datatype Attempt = Attempt(start: nat, end: nat, bus: Bus)

  /** The surroundings of one iteration: the sensor, what the controller makes of it, and the bus. */
  datatype Moment = Moment(temperature: Option<int>, duty: FanDuty, attempt: Attempt)

  datatype Report =
    | Applied(temperature: int, duty: FanDuty, wrote: bool)
    | SensorFailed(fallback: FanDuty, consecutive: nat)

  function Sent(setup: Setup, s: LineState, data: seq<byte>, a: Attempt): (LineState, Result<(), Error>) {
    match setup.bottom
    case ReadOnly => (s, Err(WriteBlocked))
    case DryRun => (s.(recorded := s.recorded + [data]), Ok(()))
    case Wire =>
      if a.bus.Fails? then (s, Err(BusFailed))
      else
        (s.(firmware := Receive(setup.kind, s.firmware, data),
            delivered := s.delivered + [Delivery(a.start, data, a.bus.Works?)]),
         if a.bus.Works? then Ok(()) else Err(BusFailed))
  }

  function Elapsed(since: nat, now: nat): nat {
    if now >= since then now - since else 0
  }

  predicate Limited(setup: Setup, s: BusState, a: Attempt) {
    s.lastWrite.Some? && Elapsed(s.lastWrite.value, a.start) < setup.minInterval
  }

  function Written(setup: Setup, s: BusState, data: seq<byte>, a: Attempt): (BusState, Result<(), Error>) {
    if Limited(setup, s, a) then
      (s.(suppressed := s.suppressed + 1),
       Err(RateLimited(setup.minInterval - Elapsed(s.lastWrite.value, a.start))))
    else
      var (line, r) := Sent(setup, s.line, data, a);
      (BusState(line, if r.Ok? then Some(a.end) else s.lastWrite, s.suppressed), r)
  }

  /** The driver's calls. The last one exists to be refused. */
  datatype Call = SetFan(duty: FanDuty) | SetPowerMode(alwaysOn: bool) | ArmPowerCut | EnterBootloader

  function Driven(setup: Setup, s: McuState, call: Call, a: Attempt): (McuState, Result<(), Error>) {
    match call
    case SetFan(d) =>
      var (bus, r) := Written(setup, s.bus, DutyBytes(setup.dialect, d), a);
      (McuState(bus, if r.Ok? then Some(d) else s.shadow), r)
    case SetPowerMode(alwaysOn) =>
      var (bus, r) := Written(setup, s.bus, [if alwaysOn then MODE_ALWAYS_ON else MODE_DEFAULT], a);
      (s.(bus := bus), r)
    case ArmPowerCut =>
      var (bus, r) := Written(setup, s.bus, [ARM_POWER_CUT], a);
      (s.(bus := bus), r)
    case EnterBootloader => (s, Err(WriteBlocked))
  }

  function WrittenIfChanged(setup: Setup, s: TaskState, d: FanDuty, a: Attempt): (TaskState, Result<bool, Error>) {
    if s.lastWritten == Some(d) then (s, Ok(false))
    else
      var (mcu, r) := Driven(setup, s.mcu, SetFan(d), a);
      match r
      case Ok(_) => (s.(mcu := mcu, lastWritten := Some(d)), Ok(true))
      case Err(RateLimited(_)) => (s.(mcu := mcu), Ok(false))
      case Err(e) => (s.(mcu := mcu), Err(e))
  }

  function Step(setup: Setup, s: TaskState, m: Moment): (TaskState, Result<Report, Error>) {
    match m.temperature
    case None =>
      var s := s.(failures := if s.failures < U32_MAX then s.failures + 1 else U32_MAX);
      var (s, r) := WrittenIfChanged(setup, s, setup.sensorFailDuty, m.attempt);
      (s, match r
          case Ok(_) => Ok(SensorFailed(setup.sensorFailDuty, s.failures))
          case Err(e) => Err(e))
    case Some(t) =>
      var s := s.(failures := 0, lastTemp := Some(t));
      var (s, r) := WrittenIfChanged(setup, s, m.duty, m.attempt);
      (s, match r
          case Ok(wrote) => Ok(Applied(t, m.duty, wrote))
          case Err(e) => Err(e))
  }

  /** The duty an iteration asks for. */
  function Wanted(setup: Setup, m: Moment): FanDuty {
    if m.temperature.Some? then m.duty else setup.sensorFailDuty
  }

  function Initial(firmware: Firmware): TaskState {
    TaskState(McuState(BusState(LineState(firmware, [], []), None, 0), None), None, None, 0)
  }

  // ---- The layers as objects -----------------------------------------------------------------

  /** The bottom of the stack, and the firmware behind it. */
  class Transport {
    const setup: Setup
    var firmware: Firmware
    var delivered: seq<Delivery>
    var recorded: seq<seq<byte>>

    constructor (setup: Setup, firmware: Firmware)
      ensures this.setup == setup && Snapshot() == LineState(firmware, [], [])
    {
      this.setup, this.firmware, delivered, recorded := setup, firmware, [], [];
    }

    function Snapshot(): LineState
      reads this
    {
      LineState(firmware, delivered, recorded)
    }

    method Write(data: seq<byte>, a: Attempt) returns (r: Result<(), Error>)
      modifies this
      ensures (Snapshot(), r) == Sent(setup, old(Snapshot()), data, a)
    {
      match setup.bottom {
        case ReadOnly =>
          return Err(WriteBlocked);
        case DryRun =>
          recorded := recorded + [data];
          return Ok(());
        case Wire =>
          if a.bus.Fails? {
            return Err(BusFailed);
          }
          firmware := Receive(setup.kind, firmware, data);
          delivered := delivered + [Delivery(a.start, data, a.bus.Works?)];
          return if a.bus.Works? then Ok(()) else Err(BusFailed);
      }
    }
  }

  /** The layer that refuses a write too soon after a success, and counts refusals. */
  class RateLimiter {
    const setup: Setup
    const inner: Transport
    var lastWrite: Option<nat>
    var suppressed: nat

    constructor (inner: Transport)
      ensures setup == inner.setup && this.inner == inner && lastWrite == None && suppressed == 0
    {
      setup, this.inner, lastWrite, suppressed := inner.setup, inner, None, 0;
    }

    function Snapshot(): BusState
      reads this, inner
    {
      BusState(inner.Snapshot(), lastWrite, suppressed)
    }

    method Write(data: seq<byte>, a: Attempt) returns (r: Result<(), Error>)
      requires inner.setup == setup
      modifies this, inner
      ensures (Snapshot(), r) == Written(setup, old(Snapshot()), data, a)
    {
      if lastWrite.Some? {
        var elapsed := Elapsed(lastWrite.value, a.start);
        if elapsed < setup.minInterval {
          suppressed := suppressed + 1;
          return Err(RateLimited(setup.minInterval - elapsed));
        }
      }
      r := inner.Write(data, a);
      if r.Ok? {
        lastWrite := Some(a.end);
      }
    }
  }

  /** The case MCU behind a bus, in the configured dialect. */
  class Mcu {
    const setup: Setup
    const bus: RateLimiter
    /** The duty of the last write that was reported to work. */
    var shadow: Option<FanDuty>

    constructor (bus: RateLimiter)
      ensures setup == bus.setup && this.bus == bus && shadow == None
    {
      setup, this.bus, shadow := bus.setup, bus, None;
    }

    predicate Wired() {
      bus.setup == setup && bus.inner.setup == setup
    }

    function Snapshot(): McuState
      reads this, bus, bus.inner
    {
      McuState(bus.Snapshot(), shadow)
    }

    method Drive(call: Call, a: Attempt) returns (r: Result<(), Error>)
      requires Wired()
      modifies this, bus, bus.inner
      ensures (Snapshot(), r) == Driven(setup, old(Snapshot()), call, a)
    {
      match call {
        case SetFan(duty) =>
          match setup.dialect {
            case Legacy => r := bus.Write([PercentOf(duty)], a);
            case Register => r := bus.Write([DUTY_REGISTER, PercentOf(duty)], a);
          }
          if r.Ok? {
            shadow := Some(duty);
          }
        case SetPowerMode(alwaysOn) =>
          r := bus.Write([if alwaysOn then MODE_ALWAYS_ON else MODE_DEFAULT], a);
        case ArmPowerCut =>
          r := bus.Write([ARM_POWER_CUT], a);
        case EnterBootloader =>
          r := Err(WriteBlocked);
      }
    }
  }

  /** The control task at the top of the stack. */
  class FanTask {
    const setup: Setup
    const mcu: Mcu
    var failures: nat
    var lastWritten: Option<FanDuty>
    var lastTemp: Option<int>

    constructor (mcu: Mcu)
      ensures setup == mcu.setup && this.mcu == mcu
      ensures failures == 0 && lastWritten == None && lastTemp == None
    {
      setup, this.mcu, failures, lastWritten, lastTemp := mcu.setup, mcu, 0, None, None;
    }

    predicate Wired() {
      mcu.setup == setup && mcu.Wired()
    }

    function Snapshot(): TaskState
      reads this, mcu, mcu.bus, mcu.bus.inner
    {
      TaskState(mcu.Snapshot(), lastWritten, lastTemp, failures)
    }

    /** A duty equal to the record costs no write. */
    method WriteIfChanged(duty: FanDuty, a: Attempt) returns (r: Result<bool, Error>)
      requires Wired()
      modifies this, mcu, mcu.bus, mcu.bus.inner
      ensures (Snapshot(), r) == WrittenIfChanged(setup, old(Snapshot()), duty, a)
    {
      if lastWritten == Some(duty) {
        return Ok(false);
      }
      var w := mcu.Drive(SetFan(duty), a);
      match w {
        case Ok(_) =>
          lastWritten := Some(duty);
          return Ok(true);
        // The limiter refused: the record stays as it was, so the next iteration tries again.
        case Err(RateLimited(_)) => return Ok(false);
        case Err(e) => return Err(e);
      }
    }

    /** One control iteration. */
    method Iterate(m: Moment) returns (r: Result<Report, Error>)
      requires Wired()
      modifies this, mcu, mcu.bus, mcu.bus.inner
      ensures (Snapshot(), r) == Step(setup, old(Snapshot()), m)
    {
      match m.temperature {
        case None =>
          failures := if failures < U32_MAX then failures + 1 else U32_MAX;
          var w := WriteIfChanged(setup.sensorFailDuty, m.attempt);
          if w.Err? {
            return Err(w.error);
          }
          return Ok(SensorFailed(setup.sensorFailDuty, failures));
        case Some(t) =>
          failures := 0;
          lastTemp := Some(t);
          var w := WriteIfChanged(m.duty, m.attempt);
          if w.Err? {
            return Err(w.error);
          }
          return Ok(Applied(t, m.duty, w.value));
      }
    }
  }
}
