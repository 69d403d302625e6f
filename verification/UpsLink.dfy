/**
 * The UPS's wake schedule across the serial link: the BCD bytes it travels as, the gate that lets
 * a write through, and the device that stores it.
 */
module UpsLink {
  import opened Bytes
  import opened Calendar
  import opened Wrappers

  // ---- BCD -----------------------------------------------------------------------------------

  function BcdEncode(value: byte): Option<byte> {
    if value > 99 then None else Some(value / 10 * 16 + value % 10)
  }

  function BcdDecode(b: byte): Option<byte> {
    if b % 16 > 9 || b / 16 > 9 then None else Some(b / 16 * 10 + b % 16)
  }

  lemma BcdRoundTrips(value: byte)
    requires value <= 99
    ensures BcdEncode(value).Some? && BcdDecode(BcdEncode(value).value) == Some(value)
  {
    Nibbles(value / 10, value % 10);
  }

  lemma Nibbles(high: nat, low: nat)
    requires high < 16 && low < 16
    ensures (high * 16 + low) / 16 == high && (high * 16 + low) % 16 == low
  {
  }

  /** What a five-byte schedule can express. */
  predicate Encodable(t: UpsTime) {
    2000 <= t.year <= 2099 && t.month <= 99 && t.day <= 99 && t.hour <= 99 && t.minute <= 99
  }

  lemma RealIsEncodable(t: UpsTime)
    requires IsReal(t)
    ensures Encodable(t)
  {
  }

  function EncodeSchedule(t: UpsTime): Option<seq<byte>> {
    if !Encodable(t) then None
    else Some([BcdEncode(t.year - 2000).value, BcdEncode(t.month).value, BcdEncode(t.day).value,
               BcdEncode(t.hour).value, BcdEncode(t.minute).value])
  }

  function DecodeSchedule(payload: seq<byte>): Option<UpsTime> {
    if |payload| != 5 || exists i | 0 <= i < 5 :: BcdDecode(payload[i]).None? then None
    else Some(UpsTime(2000 + BcdDecode(payload[0]).value, BcdDecode(payload[1]).value, BcdDecode(payload[2]).value,
                      BcdDecode(payload[3]).value, BcdDecode(payload[4]).value, None))
  }

  /** An empty answer means that no wake is set. */
  function DecodeOptionalSchedule(payload: seq<byte>): Result<Option<UpsTime>, ()> {
    if payload == [] then Ok(None)
    else
      match DecodeSchedule(payload)
      case Some(t) => Ok(Some(t))
      case None => Err(())
  }

  /** A schedule crosses the link exactly, to the minute. */
  lemma ScheduleRoundTrips(t: UpsTime)
    ensures EncodeSchedule(t).Some? <==> Encodable(t)
    ensures Encodable(t) ==> DecodeSchedule(EncodeSchedule(t).value) == Some(t.(second := None))
  {
    if Encodable(t) {
      BcdRoundTrips(t.year - 2000);
      BcdRoundTrips(t.month);
      BcdRoundTrips(t.day);
      BcdRoundTrips(t.hour);
      BcdRoundTrips(t.minute);
    }
  }

  /** Whatever bytes arrive, a decoded schedule is one the device can hold and send back. */
  lemma DecodedIsEncodable(payload: seq<byte>)
    requires DecodeSchedule(payload).Some?
    ensures Encodable(DecodeSchedule(payload).value) && DecodeSchedule(payload).value.second.None?
  {
  }

  // ---- The device and the link to it ---------------------------------------------------------

  /** What a set-wake request did to the device: nothing, what it said, or something else. */
  datatype Effect = Untouched | AsSent | Garbled(payload: seq<byte>)

  /** How a set-wake request went: its effect, and whether the expected reply came back. */
  datatype SetOutcome = SetOutcome(effect: Effect, answered: bool)

  /** What a schedule on the device can be. */
  predicate Holdable(wake: Option<UpsTime>) {
    wake.Some? ==> Encodable(wake.value) && wake.value.second.None?
  }

  function Stored(wake: Option<UpsTime>, payload: seq<byte>): Option<UpsTime> {
    match DecodeSchedule(payload)
    case Some(t) => Some(t)
    case None => wake
  }

  /** The device's schedule after `set_wake`, and whether the call reported success. */
  function AfterSet(wake: Option<UpsTime>, allowed: bool, t: UpsTime, o: SetOutcome): (Option<UpsTime>, bool) {
    if !Encodable(t) || !allowed then (wake, false)
    else
      match o.effect
      case Untouched => (wake, o.answered)
      case AsSent => (Some(t.(second := None)), o.answered)
      case Garbled(payload) => (Stored(wake, payload), o.answered)
  }

  /** Whatever the device then holds: what it held, what was sent, or what the bytes it heard say. */
  lemma SetLeaves(wake: Option<UpsTime>, allowed: bool, t: UpsTime, o: SetOutcome)
    ensures var (after, ok) := AfterSet(wake, allowed, t, o);
      && (ok <==> allowed && Encodable(t) && o.answered)
      && (!allowed || !Encodable(t) || o.effect.Untouched? ==> after == wake)
      && (allowed && Encodable(t) && o.effect.AsSent? ==>
            after == DecodeSchedule(EncodeSchedule(t).value) == Some(t.(second := None)))
      && (after == wake || after == Some(t.(second := None))
          || (o.effect.Garbled? && after == DecodeSchedule(o.effect.payload)))
  {
    ScheduleRoundTrips(t);
  }

  /** A byte that shows a number in two decimal digits, the tens in its high half. */
  predicate TwoDigits(b: byte, n: nat) {
    b % 16 <= 9 && b / 16 * 10 + b % 16 == n
  }

  lemma BcdShows(value: byte)
    requires value <= 99
    ensures BcdEncode(value).Some? && TwoDigits(BcdEncode(value).value, value)
  {
    Nibbles(value / 10, value % 10);
  }

  /** The five bytes of a schedule show its year in the century, month, day, hour and minute. */
  lemma ScheduleBytes(t: UpsTime)
    requires Encodable(t)
    ensures var sent := EncodeSchedule(t).value;
      && |sent| == 5
      && TwoDigits(sent[0], t.year - 2000) && TwoDigits(sent[1], t.month) && TwoDigits(sent[2], t.day)
      && TwoDigits(sent[3], t.hour) && TwoDigits(sent[4], t.minute)
  {
    hide BcdEncode, TwoDigits;
    BcdShows(t.year - 2000);
    BcdShows(t.month);
    BcdShows(t.day);
    BcdShows(t.hour);
    BcdShows(t.minute);
  }

  /** The UPS, driven through a gate that was built once from the mode. */
  class Ups {
    const wakeWrites: bool
    var wake: Option<UpsTime>

    constructor (wakeWrites: bool, wake: Option<UpsTime>)
      ensures this.wakeWrites == wakeWrites && this.wake == wake
    {
      this.wakeWrites, this.wake := wakeWrites, wake;
    }

    /** The device's side of a set: it stores what decodes, and ignores the rest. */
    method Receive(payload: seq<byte>)
      modifies this
      ensures wake == Stored(old(wake), payload)
    {
      match DecodeSchedule(payload) {
        case Some(t) => wake := Some(t);
        case None =>
      }
    }

    method SetWake(t: UpsTime, o: SetOutcome) returns (ok: bool)
      modifies this
      ensures (wake, ok) == AfterSet(old(wake), wakeWrites, t, o)
    {
      var payload := EncodeSchedule(t);
      if payload.None? {
        return false;
      }
      if !wakeWrites {
        return false;
      }
      match o.effect {
        case Untouched =>
        case AsSent =>
          ScheduleRoundTrips(t);
          Receive(payload.value);
        case Garbled(p) =>
          Receive(p);
      }
      return o.answered;
    }

    /** The device's side of a get-wake request. */
    method Answer() returns (payload: seq<byte>)
      requires Holdable(wake)
      ensures DecodeOptionalSchedule(payload) == Ok(wake)
    {
      if wake.None? {
        return [];
      }
      ScheduleRoundTrips(wake.value);
      return EncodeSchedule(wake.value).value;
    }

    method Wake(answered: bool) returns (r: Result<Option<UpsTime>, ()>)
      requires Holdable(wake)
      ensures r == if answered then Ok(wake) else Err(())
    {
      if !answered {
        return Err(());
      }
      var payload := Answer();
      return DecodeOptionalSchedule(payload);
    }
  }

  /** The device only ever holds what it can send back. */
  lemma SetKeepsHoldable(wake: Option<UpsTime>, allowed: bool, t: UpsTime, o: SetOutcome)
    requires Holdable(wake)
    ensures Holdable(AfterSet(wake, allowed, t, o).0)
  {
  }
}
