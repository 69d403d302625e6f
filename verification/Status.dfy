/** The file through which the daemon tells desktop agents of the UPS: printer and parser. */
module Status {
  import opened Wrappers
  import opened Clock
  import opened Text
  import opened Numbers
  import opened KeyValue

  const VERSION: nat := 1

  datatype MissingUps = MissingUps(name: string, lastSeen: Option<Time>)

  datatype UpsStatus = UpsStatus(
    updated: Time,
    level: string,
    percent: Option<nat>,
    shutdownAt: Option<Time>,
    missing: Option<MissingUps>)

  datatype Error =
    | BadPercent
    | BadShutdownAt
    | UnsupportedVersion(found: nat)
    | MissingVersion
    | MissingUpdated
    | MissingLevel

  function OrEmpty(n: Option<nat>): string {
    if n.Some? then Decimal(n.value) else ""
  }

  function SecsOf(t: Option<Time>): Option<nat> {
    if t.Some? then Some(UnixSeconds(t.value)) else None
  }

  function FromSecsOf(s: Option<nat>): Option<Time> {
    if s.Some? then Some(FromUnix(s.value)) else None
  }

  function MissingText(m: MissingUps): string {
    Line("missing", OneLine(m.name)) + "\n" + (Line("last_seen", OrEmpty(SecsOf(m.lastSeen))) + "\n" + "")
  }

  function ToText(s: UpsStatus): string {
    Line("version", Decimal(VERSION)) + "\n" + (
    Line("updated", Decimal(UnixSeconds(s.updated))) + "\n" + (
    Line("level", s.level) + "\n" + (
    Line("percent", OrEmpty(s.percent)) + "\n" + (
    Line("shutdown_at", OrEmpty(SecsOf(s.shutdownAt))) + "\n" + (
    if s.missing.Some? then MissingText(s.missing.value) else "")))))
  }

  /** What has been read so far. */
  datatype Fields = Fields(
    version: Option<nat>,
    updated: Option<Time>,
    level: Option<string>,
    percent: Option<nat>,
    shutdownAt: Option<Time>,
    missingName: Option<string>,
    lastSeen: Option<Time>)

  const BLANK: Fields := Fields(None, None, None, None, None, None, None)

  function Keyed(f: Fields, k: string, v: string): Result<Fields, Error> {
    if k == "version" then Ok(f.(version := ParseUnsigned(v, U32_MAX)))
    else if k == "updated" then Ok(f.(updated := FromSecsOf(ParseUnsigned(v, U64_MAX))))
    else if k == "level" then Ok(f.(level := Some(v)))
    else if k == "percent" && v != "" then
      match ParseUnsigned(v, U8_MAX)
      case Some(p) => Ok(f.(percent := Some(p)))
      case None => Err(BadPercent)
    else if k == "shutdown_at" && v != "" then
      match ParseUnsigned(v, U64_MAX)
      case Some(s) => Ok(f.(shutdownAt := Some(FromUnix(s))))
      case None => Err(BadShutdownAt)
    else if k == "missing" then Ok(f.(missingName := Some(v)))
    else if k == "last_seen" then Ok(f.(lastSeen := FromSecsOf(ParseUnsigned(v, U64_MAX))))
    else Ok(f)
  }

  function TakeLine(f: Fields, line: string): Result<Fields, Error> {
    match Pair(line)
    case None => Ok(f)
    case Some((k, v)) => Keyed(f, k, v)
  }

  function TakeLines(f: Fields, lines: seq<string>): Result<Fields, Error>
    decreases |lines|
  {
    if lines == [] then Ok(f)
    else
      var next := TakeLine(f, lines[0]);
      if next.Err? then next else TakeLines(next.value, lines[1..])
  }

  function Finish(f: Fields): Result<UpsStatus, Error> {
    if f.version.None? then Err(MissingVersion)
    else if f.version.value != VERSION then Err(UnsupportedVersion(f.version.value))
    else if f.updated.None? then Err(MissingUpdated)
    else if f.level.None? then Err(MissingLevel)
    else
      Ok(UpsStatus(f.updated.value, f.level.value, f.percent, f.shutdownAt,
                   if f.missingName.Some? then Some(MissingUps(f.missingName.value, f.lastSeen)) else None))
  }

  function Parse(text: string): Result<UpsStatus, Error> {
    match TakeLines(BLANK, Lines(text))
    case Ok(f) => Finish(f)
    case Err(e) => Err(e)
  }

  /** The parser: one pass over the lines, filling in fields, giving up at a malformed number. */
  method ParseText(text: string) returns (r: Result<UpsStatus, Error>)
    ensures r == Parse(text)
  {
    hide Pair, Lines, ParseUnsigned;
    var lines := Lines(text);
    var f := BLANK;
    var i := 0;
    while i < |lines|
      invariant i <= |lines|
      invariant TakeLines(BLANK, lines) == TakeLines(f, lines[i..])
    {
      assert lines[i..][1..] == lines[i + 1..];
      match Pair(lines[i]) {
        case None =>
        case Some((k, v)) =>
          var percent, seconds := ParseUnsigned(v, U8_MAX), ParseUnsigned(v, U64_MAX);
          if k == "version" {
            f := f.(version := ParseUnsigned(v, U32_MAX));
          } else if k == "updated" {
            f := f.(updated := FromSecsOf(seconds));
          } else if k == "level" {
            f := f.(level := Some(v));
          } else if k == "percent" && v != "" {
            if percent.None? {
              return Err(BadPercent);
            }
            f := f.(percent := percent);
          } else if k == "shutdown_at" && v != "" {
            if seconds.None? {
              return Err(BadShutdownAt);
            }
            f := f.(shutdownAt := FromSecsOf(seconds));
          } else if k == "missing" {
            f := f.(missingName := Some(v));
          } else if k == "last_seen" {
            f := f.(lastSeen := FromSecsOf(seconds));
          }
      }
      i := i + 1;
    }
    r := Finish(f);
  }

  // ---- Reading undoes printing ---------------------------------------------------------------

  predicate Fits(s: UpsStatus) {
    && NoneIn(s.level, '\n')
    && (s.percent.Some? ==> s.percent.value <= U8_MAX)
    && UnixSeconds(s.updated) <= U64_MAX
    && (s.shutdownAt.Some? ==> UnixSeconds(s.shutdownAt.value) <= U64_MAX)
    && (s.missing.Some? && s.missing.value.lastSeen.Some? ==> UnixSeconds(s.missing.value.lastSeen.value) <= U64_MAX)
  }

  function WholeSeconds(t: Option<Time>): Option<Time> {
    FromSecsOf(SecsOf(t))
  }

  /** Times to the second and none before the epoch, the level trimmed, the name on one line and trimmed. */
  function Normal(s: UpsStatus): UpsStatus {
    UpsStatus(FromUnix(UnixSeconds(s.updated)), Trim(s.level), s.percent, WholeSeconds(s.shutdownAt),
              if s.missing.None? then None
              else Some(MissingUps(Trim(OneLine(s.missing.value.name)), WholeSeconds(s.missing.value.lastSeen))))
  }

  lemma FirstField(f: Fields, key: string, value: string, rest: string)
    requires IsKey(key) && NoneIn(value, '\n')
    ensures TakeLines(f, Lines(Line(key, value) + "\n" + rest)) ==
      var next := Keyed(f, key, Trim(value));
      if next.Err? then next else TakeLines(next.value, Lines(rest))
  {
    hide Lines, Keyed, IsKey, Trim, Line;
    FirstPair(key, value, rest);
    var lines := Lines(Line(key, value) + "\n" + rest);
    assert lines[1..] == Lines(rest);
  }

  lemma NumberReads(n: nat, max: nat)
    requires n <= max
    ensures NoneIn(Decimal(n), '\n') && Trim(Decimal(n)) == Decimal(n) && ParseUnsigned(Decimal(n), max) == Some(n)
  {
    TrimmedStays(Decimal(n));
    UnsignedRoundTrips(n, max);
  }

  lemma OptionReads(n: Option<nat>, max: nat)
    requires n.Some? ==> n.value <= max
    ensures NoneIn(OrEmpty(n), '\n') && Trim(OrEmpty(n)) == OrEmpty(n)
    ensures n.Some? <==> OrEmpty(n) != ""
    ensures ParseUnsigned(OrEmpty(n), max) == n
  {
    if n.Some? {
      NumberReads(n.value, max);
    }
  }

  lemma KeysAreKeys()
    ensures IsKey("version") && IsKey("updated") && IsKey("level") && IsKey("percent")
    ensures IsKey("shutdown_at") && IsKey("missing") && IsKey("last_seen")
  {
  }

  lemma MissingReads(f: Fields, m: MissingUps)
    requires m.lastSeen.Some? ==> UnixSeconds(m.lastSeen.value) <= U64_MAX
    ensures TakeLines(f, Lines(MissingText(m))) ==
      Ok(f.(missingName := Some(Trim(OneLine(m.name))), lastSeen := WholeSeconds(m.lastSeen)))
  {
    hide Lines, Line, Trim, OrEmpty, ParseUnsigned, OneLine, IsKey, NoneIn;
    KeysAreKeys();
    OneLineIsOne(m.name);
    OptionReads(SecsOf(m.lastSeen), U64_MAX);
    var last := Line("last_seen", OrEmpty(SecsOf(m.lastSeen))) + "\n" + "";
    FirstField(f, "missing", OneLine(m.name), last);
    FirstField(f.(missingName := Some(Trim(OneLine(m.name)))), "last_seen", OrEmpty(SecsOf(m.lastSeen)), "");
    NoLines();
  }

  lemma NoLines()
    ensures Lines("") == []
  {
  }

  /**
   * Whatever is published is read back: times to the second, the level trimmed, and a missing
   * UPS's name, whatever it contains, sanitised and trimmed and without effect on any other field.
   */
  lemma StatusRoundTrips(s: UpsStatus)
    requires Fits(s)
    ensures Parse(ToText(s)) == Ok(Normal(s))
  {
    hide Lines, Line, Trim, OrEmpty, ParseUnsigned, Decimal, IsKey, NoneIn, MissingText, OneLine, TakeLines;
    KeysAreKeys();
    NumberReads(VERSION, U32_MAX);
    NumberReads(UnixSeconds(s.updated), U64_MAX);
    OptionReads(s.percent, U8_MAX);
    OptionReads(SecsOf(s.shutdownAt), U64_MAX);
    var after5 := if s.missing.Some? then MissingText(s.missing.value) else "";
    var after4 := Line("shutdown_at", OrEmpty(SecsOf(s.shutdownAt))) + "\n" + after5;
    var after3 := Line("percent", OrEmpty(s.percent)) + "\n" + after4;
    var after2 := Line("level", s.level) + "\n" + after3;
    var after1 := Line("updated", Decimal(UnixSeconds(s.updated))) + "\n" + after2;
    var f1 := BLANK.(version := Some(VERSION));
    var f2 := f1.(updated := Some(FromUnix(UnixSeconds(s.updated))));
    var f3 := f2.(level := Some(Trim(s.level)));
    var f4 := f3.(percent := s.percent);
    var f5 := f4.(shutdownAt := WholeSeconds(s.shutdownAt));
    FirstField(BLANK, "version", Decimal(VERSION), after1);
    FirstField(f1, "updated", Decimal(UnixSeconds(s.updated)), after2);
    FirstField(f2, "level", s.level, after3);
    FirstField(f3, "percent", OrEmpty(s.percent), after4);
    FirstField(f4, "shutdown_at", OrEmpty(SecsOf(s.shutdownAt)), after5);
    if s.missing.Some? {
      MissingReads(f5, s.missing.value);
    } else {
      NoLines();
      NoMore(f5);
    }
  }

  lemma NoMore(f: Fields)
    ensures TakeLines(f, []) == Ok(f)
  {
  }

  // ---- Any text at all -----------------------------------------------------------------------

  /** The value of the last line with this key; where asked for, of the last that has a value. */
  function LastValue(lines: seq<string>, key: string, nonEmpty: bool): Option<string> {
    if lines == [] then None
    else
      var pair := Pair(lines[|lines| - 1]);
      if pair.Some? && pair.value.0 == key && (nonEmpty ==> pair.value.1 != "") then Some(pair.value.1)
      else LastValue(lines[..|lines| - 1], key, nonEmpty)
  }

  function LastNumber(lines: seq<string>, key: string, nonEmpty: bool, max: nat): Option<nat> {
    var v := LastValue(lines, key, nonEmpty);
    if v.Some? then ParseUnsigned(v.value, max) else None
  }

  predicate Has(line: string, key: string, max: nat) {
    var pair := Pair(line);
    pair.Some? && pair.value.0 == key && pair.value.1 != "" && ParseUnsigned(pair.value.1, max).None?
  }

  /** A line the parser gives up at, and what it says then. */
  function Complaint(line: string): Option<Error> {
    if Has(line, "percent", U8_MAX) then Some(BadPercent)
    else if Has(line, "shutdown_at", U64_MAX) then Some(BadShutdownAt)
    else None
  }

  predicate NoComplaints(lines: seq<string>) {
    forall i | 0 <= i < |lines| :: Complaint(lines[i]).None?
  }

  function LookedUp(lines: seq<string>): Fields {
    Fields(LastNumber(lines, "version", false, U32_MAX),
           FromSecsOf(LastNumber(lines, "updated", false, U64_MAX)),
           LastValue(lines, "level", false),
           LastNumber(lines, "percent", true, U8_MAX),
           FromSecsOf(LastNumber(lines, "shutdown_at", true, U64_MAX)),
           LastValue(lines, "missing", false),
           FromSecsOf(LastNumber(lines, "last_seen", false, U64_MAX)))
  }

  lemma OneLineMore(lines: seq<string>, line: string)
    ensures Complaint(line).Some? ==> TakeLine(LookedUp(lines), line) == Err(Complaint(line).value)
    ensures Complaint(line).None? ==> TakeLine(LookedUp(lines), line) == Ok(LookedUp(lines + [line]))
  {
    hide Pair, ParseUnsigned;
    assert (lines + [line])[..|lines|] == lines;
  }

  lemma {:induction false} TakenInTwo(f: Fields, lines: seq<string>, line: string)
    ensures TakeLines(f, lines + [line]) ==
      var first := TakeLines(f, lines);
      if first.Err? then first else TakeLine(first.value, line)
    decreases |lines|
  {
    hide TakeLine;
    var all := lines + [line];
    if lines == [] {
      assert all[1..] == [];
    } else {
      assert all[1..] == lines[1..] + [line];
      var next := TakeLine(f, lines[0]);
      if next.Ok? {
        TakenInTwo(next.value, lines[1..], line);
      }
    }
  }

  lemma {:induction false} LinesAreLookedUp(lines: seq<string>)
    ensures NoComplaints(lines) ==> TakeLines(BLANK, lines) == Ok(LookedUp(lines))
    ensures !NoComplaints(lines) ==>
      exists i | 0 <= i < |lines| ::
        NoComplaints(lines[..i]) && Complaint(lines[i]).Some? && TakeLines(BLANK, lines) == Err(Complaint(lines[i]).value)
    decreases |lines|
  {
    hide TakeLine, Complaint, LookedUp;
    if lines == [] {
      NothingLookedUp();
    } else {
      var n := |lines| - 1;
      var most := lines[..n];
      LinesAreLookedUp(most);
      assert most + [lines[n]] == lines;
      TakenInTwo(BLANK, most, lines[n]);
      OneLineMore(most, lines[n]);
      if NoComplaints(most) {
        assert lines[..n] == most;
      } else {
        var i :| 0 <= i < n && NoComplaints(most[..i]) && Complaint(most[i]).Some?
                 && TakeLines(BLANK, most) == Err(Complaint(most[i]).value);
        assert lines[..i] == most[..i] && lines[i] == most[i];
      }
    }
  }

  lemma NothingLookedUp()
    ensures LookedUp([]) == BLANK
  {
  }

  /**
   * What any text is read as: the first malformed percentage or shutdown time is the error;
   * otherwise each field is that of the last line with its key, an empty percentage or shutdown time
   * counting as none, and a version other than 1 or a missing field is the error. No other line
   * matters.
   */
  lemma ParsedExactly(text: string)
    ensures var lines, r := Lines(text), Parse(text);
      var f := LookedUp(lines);
      if !NoComplaints(lines) then
        exists i | 0 <= i < |lines| ::
          NoComplaints(lines[..i]) && Complaint(lines[i]).Some? && r == Err(Complaint(lines[i]).value)
      else
        && (r == Err(MissingVersion) <==> f.version.None?)
        && (forall n: nat :: r == Err(UnsupportedVersion(n)) <==> f.version == Some(n) && n != 1)
        && (r == Err(MissingUpdated) <==> f.version == Some(1) && f.updated.None?)
        && (r == Err(MissingLevel) <==> f.version == Some(1) && f.updated.Some? && f.level.None?)
        && (r.Ok? <==> f.version == Some(1) && f.updated.Some? && f.level.Some?)
        && (r.Ok? ==>
             && Some(r.value.updated) == f.updated && Some(r.value.level) == f.level
             && r.value.percent == f.percent && r.value.shutdownAt == f.shutdownAt
             && (r.value.missing.Some? <==> f.missingName.Some?)
             && (r.value.missing.Some? ==>
                  Some(r.value.missing.value.name) == f.missingName && r.value.missing.value.lastSeen == f.lastSeen))
  {
    hide Lines, Complaint, LookedUp, TakeLine;
    LinesAreLookedUp(Lines(text));
  }

  /** Printable ASCII with no space at either end. */
  predicate Plain(s: string) {
    && (forall i | 0 <= i < |s| :: ' ' <= s[i] <= '~')
    && (s != "" ==> s[0] != ' ' && s[|s| - 1] != ' ')
  }

  lemma PlainStays(s: string)
    requires Plain(s)
    ensures OneLine(s) == s && Trim(s) == s && NoneIn(s, '\n')
  {
    TrimmedStays(s);
  }

  predicate OnTheSecond(t: Time) {
    t >= 0 && t % 1_000_000_000 == 0
  }

  /** What needs no cleaning comes back as it was. */
  lemma PlainStatusReadsBack(s: UpsStatus)
    requires Fits(s) && Plain(s.level) && OnTheSecond(s.updated)
    requires s.shutdownAt.Some? ==> OnTheSecond(s.shutdownAt.value)
    requires s.missing.Some? ==> Plain(s.missing.value.name)
    requires s.missing.Some? && s.missing.value.lastSeen.Some? ==> OnTheSecond(s.missing.value.lastSeen.value)
    ensures Parse(ToText(s)) == Ok(s)
  {
    hide Parse, ToText, Plain, OneLine, Trim;
    StatusRoundTrips(s);
    PlainStays(s.level);
    if s.missing.Some? {
      PlainStays(s.missing.value.name);
    }
  }

  lemma WrittenMore(line: string, rest: seq<string>)
    ensures Written([line] + rest) == line + "\n" + Written(rest)
  {
    assert ([line] + rest)[1..] == rest;
  }

  function MissingLines(m: Option<MissingUps>): seq<string> {
    if m.None? then []
    else [Line("missing", OneLine(m.value.name))] + ([Line("last_seen", OrEmpty(SecsOf(m.value.lastSeen)))] + [])
  }

  /** The file, line by line. */
  lemma StatusOnFile(s: UpsStatus)
    ensures ToText(s) ==
      Written([Line("version", "1")] + (
              [Line("updated", Decimal(UnixSeconds(s.updated)))] + (
              [Line("level", s.level)] + (
              [Line("percent", OrEmpty(s.percent))] + (
              [Line("shutdown_at", OrEmpty(SecsOf(s.shutdownAt)))] + MissingLines(s.missing))))))
  {
    assert Decimal(VERSION) == "1";
    hide Decimal, Written, OneLine, OrEmpty, SecsOf, UnixSeconds, Line;
    var e := MissingLines(s.missing);
    var d := [Line("shutdown_at", OrEmpty(SecsOf(s.shutdownAt)))] + e;
    var c := [Line("percent", OrEmpty(s.percent))] + d;
    var b := [Line("level", s.level)] + c;
    var a := [Line("updated", Decimal(UnixSeconds(s.updated)))] + b;
    WrittenMore(Line("version", "1"), a);
    WrittenMore(Line("updated", Decimal(UnixSeconds(s.updated))), b);
    WrittenMore(Line("level", s.level), c);
    WrittenMore(Line("percent", OrEmpty(s.percent)), d);
    WrittenMore(Line("shutdown_at", OrEmpty(SecsOf(s.shutdownAt))), e);
    NothingWritten();
    if s.missing.Some? {
      var last := Line("last_seen", OrEmpty(SecsOf(s.missing.value.lastSeen)));
      WrittenMore(Line("missing", OneLine(s.missing.value.name)), [last] + []);
      WrittenMore(last, []);
    }
  }

  lemma NothingWritten()
    ensures Written([]) == ""
  {
  }
}
