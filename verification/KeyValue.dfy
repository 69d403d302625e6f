/** Files of `key=value` lines, as the status file and the record of the last UPS use them. */
module KeyValue {
  import opened Wrappers
  import opened Text

  /** Control characters become spaces, so that a value cannot end its line. */
  function OneLine(s: string): string {
    seq(|s|, i requires 0 <= i < |s| => if IsControl(s[i]) then ' ' else s[i])
  }

  /** The key and the value of a line, both trimmed. */
  function Pair(line: string): Option<(string, string)> {
    match SplitOnce(line, '=')
    case None => None
    case Some((k, v)) => Some((Trim(k), Trim(v)))
  }

  function Line(key: string, value: string): string {
    key + "=" + value
  }

  predicate IsKey(key: string) {
    NoneIn(key, '\n') && NoneIn(key, '=') && IsTrimmed(key)
  }

  lemma {:induction false} TrimStartBefore(s: string, c: char)
    requires IsWhitespace(c)
    ensures TrimStart(s + [c]) == if TrimStart(s) == "" then "" else TrimStart(s) + [c]
  {
    if s == "" {
      assert "" + [c] == [c] && [c][1..] == "";
    } else if IsWhitespace(s[0]) {
      assert (s + [c])[1..] == s[1..] + [c];
      TrimStartBefore(s[1..], c);
    }
  }

  lemma TrimIgnores(s: string, c: char)
    requires IsWhitespace(c)
    ensures Trim(s + [c]) == Trim(s)
  {
    hide IsWhitespace;
    TrimStartBefore(s, c);
    var t := TrimStart(s);
    assert (t + [c])[..|t|] == t;
  }

  lemma PairReads(key: string, value: string)
    requires IsKey(key)
    ensures Pair(StripCr(Line(key, value))) == Some((key, Trim(value)))
  {
    hide IsTrimmed;
    var line := Line(key, value);
    if value != "" && value[|value| - 1] == '\r' {
      var short := value[..|value| - 1];
      assert StripCr(line) == Line(key, short) && value == short + ['\r'];
      TrimIgnores(short, '\r');
      SplitsThere(key, '=', short);
    } else {
      assert StripCr(line) == line;
      SplitsThere(key, '=', value);
    }
    TrimmedStays(key);
  }

  lemma FirstPair(key: string, value: string, rest: string)
    requires IsKey(key) && NoneIn(value, '\n')
    ensures var lines := Lines(Line(key, value) + "\n" + rest);
      lines == [StripCr(Line(key, value))] + Lines(rest) && Pair(lines[0]) == Some((key, Trim(value)))
  {
    hide IsTrimmed, Pair, StripCr;
    AnyFirstLine(Line(key, value), rest);
    PairReads(key, value);
  }

  lemma AnyFirstLine(line: string, rest: string)
    requires NoneIn(line, '\n')
    ensures Lines(line + "\n" + rest) == [StripCr(line)] + Lines(rest)
  {
    hide StripCr;
    var s := line + "\n" + rest;
    assert s[..|line|] == line;
    IndexOfIs(s, '\n', |line|);
    assert s[|line| + 1..] == rest;
  }

  lemma OneLineIsOne(s: string)
    ensures NoneIn(OneLine(s), '\n')
  {
  }

  lemma TrimIsPart(s: string)
    ensures Trim(s) == "" || exists i, j | 0 <= i <= j <= |s| :: Trim(s) == s[i..j]
  {
    TrimStartIsPart(s);
    TrimEndTrims(TrimStart(s));
    var t := TrimStart(s);
    assert Trim(s) == t[..|Trim(s)|];
    assert Trim(s) == s[|s| - |t|..|s| - |t| + |Trim(s)|];
  }

  lemma {:induction false} TrimStartIsPart(s: string)
    ensures |TrimStart(s)| <= |s| && TrimStart(s) == s[|s| - |TrimStart(s)|..]
  {
    if s != "" && IsWhitespace(s[0]) {
      TrimStartIsPart(s[1..]);
    }
  }

  /** What was read back is written the same way again. */
  lemma Settled(s: string)
    ensures OneLine(Trim(OneLine(s))) == Trim(OneLine(s))
    ensures Trim(Trim(OneLine(s))) == Trim(OneLine(s))
  {
    hide Trim, IsTrimmed;
    TrimTrims(OneLine(s));
    TrimmedStays(Trim(OneLine(s)));
    TrimIsPart(OneLine(s));
  }

  lemma ControlsBecomeSpaces()
    ensures OneLine("Argon\nlevel=critical\t\r!") == "Argon level=critical  !"
  {
  }
}
