/** How the UPS's clock has drifted: a line for each check, a bounded file of them, and a rate measured from it. */
module Drift {
  import opened Wrappers
  import opened Text
  import opened Numbers

  const MAX_LINES: nat := 1_000
  const KEEP_LINES: nat := 500
  const DAY: nat := 86_400
  const MIN_SPAN: nat := DAY

  datatype Action = InSync | Corrected(after: int) | LeftAlone

  /** One check: when, how far off the UPS clock was, and what was done. */
  datatype Entry = Entry(unix: nat, offset: int, action: Action)

  predicate IsI64(n: int) {
    0 - I64_MAX - 1 <= n <= I64_MAX
  }

  predicate Fits(e: Entry) {
    e.unix <= U64_MAX && IsI64(e.offset) && (e.action.Corrected? ==> IsI64(e.action.after))
  }

  // ---- One line ------------------------------------------------------------------------------

  function PrintAction(a: Action): string {
    match a
    case InSync => "in-sync"
    case Corrected(after) => "corrected " + Signed(after)
    case LeftAlone => "left-alone"
  }

  function Print(e: Entry): string {
    Decimal(e.unix) + " " + (Signed(e.offset) + " " + PrintAction(e.action))
  }

  function ParseAction(parts: seq<string>): Option<Action> {
    if parts == [] then None
    else if parts[0] == "in-sync" then Some(InSync)
    else if parts[0] == "left-alone" then Some(LeftAlone)
    else if parts[0] == "corrected" && |parts| >= 2 then
      match ParseSigned(parts[1], I64_MAX)
      case Some(after) => Some(Corrected(after))
      case None => None
    else None
  }

  function Parse(line: string): Option<Entry> {
    var line := Trim(line);
    if line == "" || line[0] == '#' then None
    else
      var parts := Tokens(line);
      if |parts| < 2 then None
      else
        var unix, offset, action :=
          ParseUnsigned(parts[0], U64_MAX), ParseSigned(parts[1], I64_MAX), ParseAction(parts[2..]);
        if unix.Some? && offset.Some? && action.Some?
        then Some(Entry(unix.value, offset.value, action.value)) else None
  }

  function ParseAll(lines: seq<string>): seq<Entry> {
    if lines == [] then []
    else
      (match Parse(lines[0]) case Some(e) => [e] case None => []) + ParseAll(lines[1..])
  }

  /** What the lines say, in their order; lines that say nothing are passed over. */
  function Read(text: string): seq<Entry> {
    ParseAll(Lines(text))
  }

  lemma NumbersAreTokens(n: nat, i: int)
    ensures IsToken(Decimal(n)) && IsDigit(Decimal(n)[0])
    ensures IsToken(Signed(i))
  {
  }

  function ActionParts(a: Action): seq<string> {
    match a
    case InSync => ["in-sync"]
    case Corrected(after) => ["corrected", Signed(after)]
    case LeftAlone => ["left-alone"]
  }

  lemma ActionTokens(a: Action)
    ensures Tokens(PrintAction(a)) == ActionParts(a)
  {
    hide Signed, Tokens;
    match a
    case InSync => FirstToken("in-sync", "");
    case LeftAlone => FirstToken("left-alone", "");
    case Corrected(after) =>
      NumbersAreTokens(0, after);
      assert PrintAction(a) == "corrected" + " " + Signed(after);
      FirstToken("corrected", Signed(after));
      FirstToken(Signed(after), "");
  }

  lemma PrintedTokens(e: Entry)
    ensures Tokens(Print(e)) == [Decimal(e.unix), Signed(e.offset)] + ActionParts(e.action)
  {
    hide Decimal, Signed, Tokens, PrintAction, ActionParts;
    NumbersAreTokens(e.unix, e.offset);
    FirstToken(Decimal(e.unix), Signed(e.offset) + " " + PrintAction(e.action));
    FirstToken(Signed(e.offset), PrintAction(e.action));
    ActionTokens(e.action);
  }

  predicate Visible(s: string) {
    s != "" && forall i | 0 <= i < |s| :: s[i] == ' ' || !IsWhitespace(s[i])
  }

  lemma PrintedIsLine(e: Entry)
    ensures Print(e) != "" && IsLine(Print(e)) && IsTrimmed(Print(e)) && IsDigit(Print(e)[0])
  {
    hide Decimal, Signed;
    NumbersAreTokens(e.unix, e.offset);
    if e.action.Corrected? {
      NumbersAreTokens(0, e.action.after);
    }
    var s := PrintAction(e.action);
    assert Visible(s) && !IsWhitespace(s[|s| - 1]);
    assert Visible(Print(e)) && Print(e)[|Print(e)| - 1] == s[|s| - 1];
  }

  lemma ActionRoundTrips(a: Action)
    requires a.Corrected? ==> IsI64(a.after)
    ensures ParseAction(ActionParts(a)) == Some(a)
  {
    hide ParseSigned, Signed;
    if a.Corrected? {
      SignedRoundTrips(a.after, I64_MAX);
    }
  }

  /** Reading undoes printing, for every entry. */
  lemma EntryRoundTrips(e: Entry)
    requires Fits(e)
    ensures Parse(Print(e)) == Some(e)
  {
    hide Print, Tokens, Trim, ParseUnsigned, ParseSigned, Decimal, Signed, ParseAction, ActionParts;
    PrintedIsLine(e);
    TrimmedStays(Print(e));
    PrintedTokens(e);
    var parts := Tokens(Print(e));
    assert parts[2..] == ActionParts(e.action);
    UnsignedRoundTrips(e.unix, U64_MAX);
    SignedRoundTrips(e.offset, I64_MAX);
    ActionRoundTrips(e.action);
  }

  // ---- The file ------------------------------------------------------------------------------

  function Join(lines: seq<string>, separator: string): string {
    if lines == [] then "" else if |lines| == 1 then lines[0] else lines[0] + separator + Join(lines[1..], separator)
  }

  lemma {:induction false} JoinIsWritten(lines: seq<string>)
    requires lines != []
    ensures Join(lines, "\n") + "\n" == Written(lines)
  {
    if |lines| == 1 {
      assert Written(lines[1..]) == "";
    } else {
      JoinIsWritten(lines[1..]);
      assert Join(lines, "\n") + "\n" == lines[0] + "\n" + (Join(lines[1..], "\n") + "\n");
    }
  }

  predicate AllLines(lines: seq<string>) {
    forall i | 0 <= i < |lines| :: IsLine(lines[i])
  }

  function Cut(lines: seq<string>): seq<string> {
    if |lines| > MAX_LINES then lines[|lines| - KEEP_LINES..] else lines
  }

  lemma {:induction false} WrittenAfter(lines: seq<string>, line: string)
    ensures Written(lines + [line]) == Written(lines) + line + "\n"
  {
    if lines == [] {
      assert [] + [line] == [line];
      assert Written([line]) == line + "\n" + Written([]);
    } else {
      WrittenAfter(lines[1..], line);
      assert (lines + [line])[1..] == lines[1..] + [line];
      assert lines[0] + "\n" + (Written(lines[1..]) + line + "\n") == Written(lines) + line + "\n";
    }
  }

  class Record {
    /** The file's contents; empty if there is no file. */
    var text: string
    /** The lines it is made of. */
    ghost var lines: seq<string>

    ghost predicate Valid()
      reads this
    {
      AllLines(lines) && text == Written(lines)
    }

    constructor ()
      ensures Valid() && lines == []
    {
      text, lines := "", [];
    }

    /** One line more, and if that makes too many, only the newest kept. */
    method Append(e: Entry)
      requires Valid()
      modifies this
      ensures Valid() && lines == Cut(old(lines) + [Print(e)])
    {
      WrittenAfter(lines, Print(e));
      PrintedIsLine(e);
      text := text + Print(e) + "\n";
      lines := lines + [Print(e)];
      LinesRoundTrip(lines);
      var all := Lines(text);
      if |all| > MAX_LINES {
        var kept := all[|all| - KEEP_LINES..];
        JoinIsWritten(kept);
        text := Join(kept, "\n") + "\n";
        lines := kept;
      }
    }
  }

  function Printed(entries: seq<Entry>): seq<string> {
    seq(|entries|, i requires 0 <= i < |entries| => Print(entries[i]))
  }

  /** The lines after appending each entry in turn to an empty record. */
  function Appended(entries: seq<Entry>): seq<string> {
    if entries == [] then []
    else Cut(Appended(entries[..|entries| - 1]) + [Print(entries[|entries| - 1])])
  }

  /** How many of `n` entries are still on the record. */
  function Kept(n: nat): (k: nat)
    ensures k <= MAX_LINES && k <= n
    ensures n <= MAX_LINES ==> k == n
    ensures n > MAX_LINES ==> KEEP_LINES <= k
  {
    if n == 0 then 0
    else if Kept(n - 1) + 1 > MAX_LINES then KEEP_LINES else Kept(n - 1) + 1
  }

  function Newest(entries: seq<Entry>): seq<Entry> {
    entries[|entries| - Kept(|entries|)..]
  }

  lemma {:induction false} AppendedIsNewest(entries: seq<Entry>)
    ensures Appended(entries) == Printed(Newest(entries))
  {
    hide Print;
    if entries != [] {
      var n := |entries| - 1;
      AppendedIsNewest(entries[..n]);
      var all := Appended(entries[..n]) + [Print(entries[n])];
      assert all == Printed(entries[n - Kept(n)..]);
    }
  }

  lemma {:induction false} PrintedReadsBack(entries: seq<Entry>)
    requires forall i | 0 <= i < |entries| :: Fits(entries[i])
    ensures ParseAll(Printed(entries)) == entries
  {
    hide Print, Parse, Fits;
    if entries != [] {
      EntryRoundTrips(entries[0]);
      assert Printed(entries)[1..] == Printed(entries[1..]);
      PrintedReadsBack(entries[1..]);
    }
  }

  /** However many checks have been recorded, the file reads back as the newest of them, in order. */
  lemma RecordReadsBack(entries: seq<Entry>)
    requires forall i | 0 <= i < |entries| :: Fits(entries[i])
    ensures Read(Written(Appended(entries))) == Newest(entries)
  {
    hide Print, Lines, Fits, ParseAll, Written, Appended, IsLine, Kept;
    AppendedIsNewest(entries);
    var newest := Newest(entries);
    forall i | 0 <= i < |newest| ensures IsLine(Printed(newest)[i]) {
      PrintedIsLine(newest[i]);
    }
    LinesRoundTrip(Printed(newest));
    PrintedReadsBack(newest);
  }

  lemma {:induction false} ParsedAfter(lines: seq<string>, line: string)
    ensures ParseAll(lines + [line]) == ParseAll(lines) + match Parse(line) case Some(e) => [e] case None => []
  {
    hide Parse;
    if lines == [] {
      assert [] + [line] == [line] && [line][1..] == [];
    } else {
      ParsedAfter(lines[1..], line);
      assert (lines + [line])[1..] == lines[1..] + [line];
    }
  }

  // ---- A line cut short, and the next entry written straight after it ------------------------

  /** Whatever is read from a line, its time is the line's first word. */
  lemma TimeIsFirst(line: string)
    requires Parse(line).Some?
    ensures var words := Tokens(Trim(line));
      words != [] && ParseUnsigned(words[0], U64_MAX) == Some(Parse(line).value.unix)
  {
    hide Tokens, Trim, ParseUnsigned, ParseSigned, ParseAction;
  }

  /** What is left of a line that was cut short, and the next entry after it. */
  function CutLine(cut: Entry, n: nat, e: Entry): string
    requires n <= |Print(cut)|
  {
    Print(cut)[..n] + Print(e)
  }

  lemma CutLineIsLine(cut: Entry, n: nat, e: Entry)
    requires n <= |Print(cut)|
    ensures IsLine(CutLine(cut, n, e)) && IsTrimmed(CutLine(cut, n, e)) && CutLine(cut, n, e) != ""
  {
    hide Print;
    PrintedIsLine(cut);
    PrintedIsLine(e);
    if n > 0 {
      assert CutLine(cut, n, e)[0] == Print(cut)[0];
    }
    var line, last := CutLine(cut, n, e), Print(e);
    assert line[|line| - 1] == last[|last| - 1];
  }

  /** Cut inside its time: the two times run together. */
  lemma CutInTime(cut: Entry, n: nat, e: Entry)
    requires 0 < n <= |Decimal(cut.unix)| && cut.unix > 0
    ensures n <= |Print(cut)|
    ensures Parse(CutLine(cut, n, e)).Some? ==> Parse(CutLine(cut, n, e)).value.unix > e.unix
  {
    hide Decimal, Signed, PrintAction, Parse, Tokens, Trim;
    var front, word := Decimal(cut.unix)[..n], Decimal(cut.unix)[..n] + Decimal(e.unix);
    var rest := Signed(e.offset) + " " + PrintAction(e.action);
    LeadingDigit(cut.unix);
    LongerIsLarger(front, Decimal(e.unix));
    ValueOfDecimal(e.unix);
    assert Print(cut)[..n] == front;
    assert CutLine(cut, n, e) == word + " " + rest;
    DigitsAreToken(word);
    FirstToken(word, rest);
    CutLineIsLine(cut, n, e);
    TrimmedStays(CutLine(cut, n, e));
    if Parse(CutLine(cut, n, e)).Some? {
      TimeIsFirst(CutLine(cut, n, e));
      DigitsParse(word);
    }
  }

  lemma DigitsAreToken(word: string)
    requires word != "" && AllDigits(word)
    ensures IsToken(word)
  {
  }

  lemma DigitsParse(word: string)
    requires word != "" && AllDigits(word)
    ensures ParseUnsigned(word, U64_MAX).Some? ==> ParseUnsigned(word, U64_MAX).value == Value(word)
  {
    assert IsDigit(word[0]);
  }

  /** Cut after its time: whatever is read has the old time. */
  lemma CutAfterTime(cut: Entry, n: nat, e: Entry)
    requires |Decimal(cut.unix)| < n <= |Print(cut)| && cut.unix <= U64_MAX
    ensures Parse(CutLine(cut, n, e)).Some? ==> Parse(CutLine(cut, n, e)).value.unix == cut.unix
  {
    hide Decimal, Signed, PrintAction, Parse, Tokens, Trim;
    var word := Decimal(cut.unix);
    var m := n - |word| - 1;
    var rest := (Signed(cut.offset) + " " + PrintAction(cut.action))[..m] + Print(e);
    assert Print(cut)[..n] == word + " " + (Signed(cut.offset) + " " + PrintAction(cut.action))[..m];
    assert CutLine(cut, n, e) == word + " " + rest;
    NumbersAreTokens(cut.unix, 0);
    FirstToken(word, rest);
    CutLineIsLine(cut, n, e);
    TrimmedStays(CutLine(cut, n, e));
    if Parse(CutLine(cut, n, e)).Some? {
      TimeIsFirst(CutLine(cut, n, e));
      UnsignedRoundTrips(cut.unix, U64_MAX);
    }
  }

  /**
   * A damaged line costs only that line exactly when nothing of it is left: cut short anywhere
   * else, even of no more than its newline, it takes the entry appended after it along.
   */
  lemma CutLineCostsTheNext(lines: seq<string>, cut: Entry, n: nat, e: Entry)
    requires AllLines(lines) && n <= |Print(cut)|
    requires Fits(cut) && Fits(e) && 0 < cut.unix < e.unix
    ensures Read(Written(lines) + CutLine(cut, n, e) + "\n") == ParseAll(lines) + [e] <==> n == 0
  {
    hide Print, Parse, ParseAll, Lines, Written, IsLine, IsTrimmed, Fits;
    var line := CutLine(cut, n, e);
    CutLineIsLine(cut, n, e);
    WrittenAfter(lines, line);
    LinesRoundTrip(lines + [line]);
    ParsedAfter(lines, line);
    if n == 0 {
      assert line == Print(e);
      EntryRoundTrips(e);
    } else {
      NotTheNext(cut, n, e);
      assert Parse(line) != Some(e);
      if Parse(line).Some? {
        assert (ParseAll(lines) + [Parse(line).value])[|ParseAll(lines)|] != e;
      }
    }
  }

  lemma NotTheNext(cut: Entry, n: nat, e: Entry)
    requires 0 < n <= |Print(cut)| && Fits(cut) && 0 < cut.unix < e.unix
    ensures Parse(CutLine(cut, n, e)) != Some(e)
  {
    hide Print, Parse, Decimal;
    if n <= |Decimal(cut.unix)| {
      CutInTime(cut, n, e);
    } else {
      CutAfterTime(cut, n, e);
    }
  }

  /** The entry read when a line is cut short inside its time and the next entry is written after it. */
  function Merged(p: nat, e: Entry): Entry {
    e.(unix := p * Power10(|Decimal(e.unix)|) + e.unix)
  }

  /** Cut inside its time, the two can be read as one check, at a time that never was. */
  lemma CutLineMerges(lines: seq<string>, p: nat, e: Entry)
    requires AllLines(lines) && p > 0 && Fits(Merged(p, e))
    ensures Read(Written(lines) + (Decimal(p) + Print(e)) + "\n") == ParseAll(lines) + [Merged(p, e)]
    ensures Merged(p, e).unix > e.unix
  {
    hide Decimal, Signed, PrintAction, Parse, Lines, Written, IsLine, Fits, Power10;
    DigitsJoin(p, e.unix);
    assert Decimal(p) + Print(e) == Print(Merged(p, e));
    ShiftedIsPositive(p, |Decimal(e.unix)|);
    PrintedIsLine(Merged(p, e));
    WrittenAfter(lines, Print(Merged(p, e)));
    LinesRoundTrip(lines + [Print(Merged(p, e))]);
    EntryRoundTrips(Merged(p, e));
    ParsedAfter(lines, Print(Merged(p, e)));
  }

  /** Cut just before the offset it was corrected to, it takes the next entry's time for that offset. */
  lemma CutLineCorrects(unix: nat, offset: int, e: Entry)
    requires unix <= U64_MAX && IsI64(offset) && e.unix <= I64_MAX
    ensures Parse(Decimal(unix) + " " + (Signed(offset) + " " + ("corrected" + " " + Print(e))))
         == Some(Entry(unix, offset, Corrected(e.unix)))
  {
    hide Decimal, Signed, PrintAction, Tokens, Trim, ParseUnsigned, ParseSigned, IsTrimmed;
    var rest := Signed(e.offset) + " " + PrintAction(e.action);
    var line := Decimal(unix) + " " + (Signed(offset) + " " + ("corrected" + " " + Print(e)));
    NumbersAreTokens(unix, offset);
    NumbersAreTokens(e.unix, 0);
    FirstToken(Decimal(unix), Signed(offset) + " " + ("corrected" + " " + Print(e)));
    FirstToken(Signed(offset), "corrected" + " " + Print(e));
    FirstToken("corrected", Print(e));
    FirstToken(Decimal(e.unix), rest);
    PrintedIsLine(e);
    LongLineIsTrimmed(Decimal(unix), line, Print(e));
    TrimmedStays(line);
    var words := Tokens(line);
    assert words[2..] == ["corrected", Decimal(e.unix)] + Tokens(rest);
    UnsignedRoundTrips(unix, U64_MAX);
    SignedRoundTrips(offset, I64_MAX);
    PlainIsSigned(e.unix);
  }

  lemma LongLineIsTrimmed(first: string, line: string, last: string)
    requires first != "" && IsDigit(first[0]) && first <= line
    requires last != "" && IsTrimmed(last) && |last| <= |line| && line[|line| - |last|..] == last
    ensures line != "" && line[0] == first[0] && IsTrimmed(line)
  {
  }

  lemma PlainIsSigned(n: nat)
    requires n <= I64_MAX
    ensures ParseSigned(Decimal(n), I64_MAX) == Some(n)
  {
    UnsignedRoundTrips(n, I64_MAX);
    assert IsDigit(Decimal(n)[0]);
  }

  // ---- The rate ------------------------------------------------------------------------------

  /** Seconds gained or lost per day, exactly, and the span it was measured over. */
  datatype Rate = Rate(perDay: real, span: nat)

  /** Where the clock stood after the check. */
  function Point(e: Entry): (nat, int) {
    (e.unix, if e.action.Corrected? then e.action.after else e.offset)
  }

  /** Where the latest stretch without a correction begins: at the last correction, or at the first entry. */
  function Start(entries: seq<Entry>): (k: nat)
    requires entries != []
    ensures k < |entries|
    ensures k > 0 ==> entries[k].action.Corrected?
    ensures forall i | k < i < |entries| :: !entries[i].action.Corrected?
  {
    var n := |entries| - 1;
    if n == 0 || entries[n].action.Corrected? then n else Start(entries[..n])
  }

  function Between(from: (nat, int), to: (nat, int)): Option<Rate> {
    if to.0 < from.0 || to.0 - from.0 < MIN_SPAN then None
    else Some(Rate((to.1 - from.1) as real * 86_400.0 / (to.0 - from.0) as real, to.0 - from.0))
  }

  /** The change over the latest free-running stretch, divided by the time it took. */
  function RateOf(entries: seq<Entry>): Option<Rate> {
    if entries == [] then None
    else Between(Point(entries[Start(entries)]), Point(entries[|entries| - 1]))
  }

  method MeasureRate(entries: seq<Entry>) returns (r: Option<Rate>)
    ensures r == RateOf(entries)
  {
    var stretch: seq<(nat, int)> := [];
    var i := 0;
    while i < |entries|
      invariant i <= |entries| && (i == 0 <==> stretch == [])
      invariant i > 0 ==>
        && stretch[0] == Point(entries[Start(entries[..i])])
        && stretch[|stretch| - 1] == Point(entries[i - 1])
    {
      var e := entries[i];
      assert entries[..i + 1][..i] == entries[..i];
      match e.action {
        case Corrected(after) =>
          stretch := [];
          stretch := stretch + [(e.unix, after)];
        case _ =>
          stretch := stretch + [(e.unix, e.offset)];
      }
      i := i + 1;
    }
    if stretch == [] {
      return None;
    }
    assert entries[..i] == entries;
    var from, to := stretch[0], stretch[|stretch| - 1];
    if to.0 < from.0 {
      return None;
    }
    var span := to.0 - from.0;
    if span < MIN_SPAN {
      return None;
    }
    return Some(Rate((to.1 - from.1) as real * 86_400.0 / span as real, span));
  }

  predicate HasCorrection(entries: seq<Entry>) {
    exists i | 0 <= i < |entries| :: entries[i].action.Corrected?
  }

  /** What came before a correction does not matter. */
  lemma OnlyTheLatestStretch(older: seq<Entry>, newer: seq<Entry>)
    requires HasCorrection(newer)
    ensures RateOf(older + newer) == RateOf(newer)
  {
    var all := older + newer;
    var k, m := Start(all), Start(newer);
    var i :| 0 <= i < |newer| && newer[i].action.Corrected?;
    assert all[|older| + i] == newer[i];
    assert forall j | 0 <= j < |newer| :: all[|older| + j] == newer[j];
  }

  /** Cutting the record leaves the rate alone, as long as a correction is still on it. */
  lemma CuttingKeepsRate(entries: seq<Entry>)
    requires forall i | 0 <= i < |entries| :: Fits(entries[i])
    requires HasCorrection(Newest(entries)) || |entries| <= MAX_LINES
    ensures RateOf(Read(Written(Appended(entries)))) == RateOf(entries)
  {
    hide RateOf, Read, Written, Appended, Fits, HasCorrection, Kept;
    RecordReadsBack(entries);
    var cut := |entries| - Kept(|entries|);
    assert entries[..cut] + entries[cut..] == entries;
    if |entries| <= MAX_LINES {
      assert entries[cut..] == entries;
    } else {
      OnlyTheLatestStretch(entries[..cut], entries[cut..]);
    }
  }

  /**
   * The rate is there exactly if the latest free-running stretch, from the last correction or the
   * first entry to the last entry, is a day or longer; and over that stretch it makes up what the
   * clock has gained, or lost if it is negative.
   */
  lemma RateIsTheGain(entries: seq<Entry>, k: nat)
    requires k < |entries| && (k > 0 ==> entries[k].action.Corrected?)
    requires forall i | k < i < |entries| :: !entries[i].action.Corrected?
    ensures var first, last, r := entries[k], entries[|entries| - 1], RateOf(entries);
      var left := if first.action.Corrected? then first.action.after else first.offset;
      var gained := (if k < |entries| - 1 then last.offset else left) - left;
      && (r.Some? <==> last.unix >= first.unix + 86_400)
      && (r.Some? ==>
           && r.value.span == last.unix - first.unix
           && r.value.perDay * r.value.span as real == gained as real * 86_400.0)
  {
    assert Start(entries) == k;
  }

  /** Comments and blank lines change nothing. */
  lemma {:induction false} CommentsAreSkipped(before: seq<string>, line: string, after: seq<string>)
    requires Trim(line) == "" || Trim(line)[0] == '#'
    ensures ParseAll(before + [line] + after) == ParseAll(before + after)
    decreases |before|
  {
    hide Trim;
    var all := before + [line] + after;
    if before == [] {
      assert all[0] == line && all[1..] == after && before + after == after;
      assert Parse(line).None?;
    } else {
      assert all[0] == before[0] == (before + after)[0];
      assert all[1..] == before[1..] + [line] + after && (before + after)[1..] == before[1..] + after;
      CommentsAreSkipped(before[1..], line, after);
    }
  }

  /** A line, character by character, and how many of them are kept. */
  lemma SampleLines()
    ensures Print(Entry(5, -21, Corrected(0))) == "5 -21 corrected +0"
    ensures Print(Entry(5, 0, InSync)) == "5 +0 in-sync"
    ensures Print(Entry(5, 3, LeftAlone)) == "5 +3 left-alone"
  {
    SmallNumbers();
    hide Decimal, Signed;
  }

  lemma SmallNumbers()
    ensures Decimal(5) == "5" && Signed(-21) == "-21" && Signed(0) == "+0" && Signed(3) == "+3"
  {
    assert Decimal(0) == "0" && Decimal(2) == "2" && Decimal(3) == "3";
    assert Decimal(21) == Decimal(2) + "1";
  }

  /** Up to a thousand entries are all kept; from then on five hundred are left at every 501st. */
  lemma {:induction false} KeptExactly(n: nat)
    ensures Kept(n) == if n <= 1_000 then n else 500 + (n - 1_001) % 501
  {
    if n > 0 {
      KeptExactly(n - 1);
    }
  }
}
