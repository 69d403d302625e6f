/** The UPS seen last, remembered across restarts: the printer and the parser of its record. */
module SeenUps {
  import opened Wrappers
  import opened Clock
  import opened Text
  import opened Numbers
  import opened KeyValue
  import opened Status

  datatype Seen = Seen(name: string, serial: Option<string>, lastSeen: Time)

  const EPOCH: Time := 0

  function SerialText(serial: Option<string>): string {
    if serial.Some? then OneLine(serial.value) else ""
  }

  function Print(s: Seen): string {
    Line("name", OneLine(s.name)) + "\n" + (
    Line("serial", SerialText(s.serial)) + "\n" + (
    Line("last_seen", Decimal(UnixSeconds(s.lastSeen))) + "\n" + ""))
  }

  /** What has been read so far. */
  datatype Partly = Partly(name: Option<string>, serial: Option<string>, lastSeen: Time)

  function Taken(p: Partly, k: string, v: string): Partly {
    if k == "name" && v != "" then p.(name := Some(v))
    else if k == "serial" && v != "" then p.(serial := Some(v))
    else if k == "last_seen" && ParseUnsigned(v, U64_MAX).Some?
    then p.(lastSeen := FromUnix(ParseUnsigned(v, U64_MAX).value))
    else p
  }

  function TakenAll(p: Partly, lines: seq<string>): Partly
    decreases |lines|
  {
    if lines == [] then p
    else TakenAll(match Pair(lines[0]) case Some((k, v)) => Taken(p, k, v) case None => p, lines[1..])
  }

  /** The unit on record, provided it has a name. */
  function ReadSeen(text: string): Option<Seen> {
    var p := TakenAll(Partly(None, None, EPOCH), Lines(text));
    if p.name.Some? then Some(Seen(p.name.value, p.serial, p.lastSeen)) else None
  }

  method ParseSeen(text: string) returns (r: Option<Seen>)
    ensures r == ReadSeen(text)
  {
    hide Pair, Lines, ParseUnsigned;
    var lines := Lines(text);
    var name, serial, lastSeen := None, None, EPOCH;
    var i := 0;
    while i < |lines|
      invariant i <= |lines|
      invariant TakenAll(Partly(None, None, EPOCH), lines) == TakenAll(Partly(name, serial, lastSeen), lines[i..])
    {
      assert lines[i..][1..] == lines[i + 1..];
      match Pair(lines[i]) {
        case None =>
        case Some((k, v)) =>
          if k == "name" && v != "" {
            name := Some(v);
          } else if k == "serial" && v != "" {
            serial := Some(v);
          } else if k == "last_seen" {
            var seconds := ParseUnsigned(v, U64_MAX);
            if seconds.Some? {
              lastSeen := FromUnix(seconds.value);
            }
          }
      }
      i := i + 1;
    }
    if name.None? {
      return None;
    }
    return Some(Seen(name.value, serial, lastSeen));
  }

  function Kept(text: string): Option<string> {
    if Trim(OneLine(text)) == "" then None else Some(Trim(OneLine(text)))
  }

  /** What a record can say of the unit; nothing, if its name has nothing to show. */
  function Remembered(s: Seen): Option<Seen> {
    match Kept(s.name)
    case None => None
    case Some(name) =>
      Some(Seen(name, if s.serial.Some? then Kept(s.serial.value) else None, FromUnix(UnixSeconds(s.lastSeen))))
  }

  lemma FirstTaken(p: Partly, key: string, value: string, rest: string)
    requires IsKey(key) && NoneIn(value, '\n')
    ensures TakenAll(p, Lines(Line(key, value) + "\n" + rest)) == TakenAll(Taken(p, key, Trim(value)), Lines(rest))
  {
    hide Lines, Taken, IsKey, Trim, Line;
    FirstPair(key, value, rest);
    var lines := Lines(Line(key, value) + "\n" + rest);
    assert lines[1..] == Lines(rest);
  }

  lemma SerialIsOneLine(serial: Option<string>)
    ensures NoneIn(SerialText(serial), '\n')
    ensures Trim(SerialText(serial)) == if serial.Some? then Trim(OneLine(serial.value)) else ""
  {
  }

  /** Any unit recorded is read back as itself, sanitised; one whose name shows nothing is no record. */
  lemma SeenRoundTrips(s: Seen)
    requires UnixSeconds(s.lastSeen) <= U64_MAX
    ensures ReadSeen(Print(s)) == Remembered(s)
  {
    hide Lines, Line, Trim, ParseUnsigned, Decimal, IsKey, NoneIn, OneLine, SerialText;
    SeenKeys();
    OneLineIsOne(s.name);
    SerialIsOneLine(s.serial);
    NumberReads(UnixSeconds(s.lastSeen), U64_MAX);
    var last := Line("last_seen", Decimal(UnixSeconds(s.lastSeen))) + "\n" + "";
    var more := Line("serial", SerialText(s.serial)) + "\n" + last;
    var p0 := Partly(None, None, EPOCH);
    var p1 := Taken(p0, "name", Trim(OneLine(s.name)));
    var p2 := Taken(p1, "serial", Trim(SerialText(s.serial)));
    FirstTaken(p0, "name", OneLine(s.name), more);
    FirstTaken(p1, "serial", SerialText(s.serial), last);
    FirstTaken(p2, "last_seen", Decimal(UnixSeconds(s.lastSeen)), "");
    NoLines();
  }

  lemma SeenKeys()
    ensures IsKey("name") && IsKey("serial") && IsKey("last_seen")
  {
  }

  /** So a restart settles the record: what was read back is read back the same from then on. */
  lemma RememberedSettles(s: Seen)
    requires Remembered(s).Some?
    ensures Remembered(Remembered(s).value) == Remembered(s)
  {
    hide Trim, OneLine;
    Settled(s.name);
    if s.serial.Some? {
      Settled(s.serial.value);
    }
    SecondsSettle(s.lastSeen);
  }

  lemma SecondsSettle(t: Time)
    ensures UnixSeconds(FromUnix(UnixSeconds(t))) == UnixSeconds(t)
  {
  }

  /** The file, line by line. */
  lemma SeenOnFile(s: Seen)
    ensures Print(s) ==
      Written([Line("name", OneLine(s.name))] + (
              [Line("serial", if s.serial.Some? then OneLine(s.serial.value) else "")] + (
              [Line("last_seen", Decimal(UnixSeconds(s.lastSeen)))] + [])))
  {
    hide Line, OneLine, Decimal, Written, UnixSeconds;
    var last := Line("last_seen", Decimal(UnixSeconds(s.lastSeen)));
    WrittenMore(Line("name", OneLine(s.name)), [Line("serial", SerialText(s.serial))] + ([last] + []));
    WrittenMore(Line("serial", SerialText(s.serial)), [last] + []);
    WrittenMore(last, []);
    NothingWritten();
  }
}
