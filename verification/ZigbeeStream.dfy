/** What the reader makes of a whole stream, against a parser that sees the stream at once. */
module ZigbeeStream {
  import opened Wrappers
  import opened Bytes
  import opened Zigbee

  datatype Reading = Reading(events: seq<Event>, held: seq<byte>)

  function Then(e: Option<Event>, r: Reading): Reading {
    if e.Some? then Reading([e.value] + r.events, r.held) else r
  }

  /** The reader: one byte after another. */
  function Stream(held: seq<byte>, bytes: seq<byte>): (r: Reading)
    requires Partial(held)
    ensures Partial(r.held)
    decreases |bytes|
  {
    if bytes == [] then Reading([], held)
    else var (next, e) := Feed(held, bytes[0]); Then(e, Stream(next, bytes[1..]))
  }

  /** The parser: skip to a start byte, take a whole frame, and go on after it. */
  function Parse(s: seq<byte>): Reading
    decreases |s|
  {
    if s == [] then Reading([], [])
    else if s[0] != SOF then Parse(s[1..])
    else if |s| < 2 then Reading([], s)
    else if s[1] > MAX_DATA then Then(Some(Err(TooLong(s[1]))), Parse(s[2..]))
    else if |s| < s[1] + 5 then Reading([], s)
    else Then(Some(Judge(s[..s[1] + 5])), Parse(s[s[1] + 5..]))
  }

  lemma PartialParses(held: seq<byte>)
    requires Partial(held)
    ensures Parse(held) == Reading([], held)
  {
  }

  lemma FeedParses(held: seq<byte>, b: byte, rest: seq<byte>)
    requires Partial(held)
    ensures Parse(held + ([b] + rest)) == Then(Feed(held, b).1, Parse(Feed(held, b).0 + rest))
  {
    hide Judge;
    var whole := held + [b];
    var s := held + ([b] + rest);
    assert s == whole + rest;
    assert s[0] == whole[0];
    var (next, e) := Feed(held, b);
    if |whole| == 1 {
      assert s[1..] == rest && next + rest == if b == SOF then s else rest;
    } else {
      assert s[1] == whole[1];
      if e.None? {
        assert next == whole;
      } else {
        assert next + rest == rest;
        assert s[..|whole|] == whole && s[|whole|..] == rest;
      }
    }
  }

  /** The byte-at-a-time reader and the parser of the whole stream agree on every stream. */
  lemma {:induction false} ReaderIsParser(held: seq<byte>, bytes: seq<byte>)
    requires Partial(held)
    ensures Stream(held, bytes) == Parse(held + bytes)
    decreases |bytes|
  {
    if bytes == [] {
      PartialParses(held);
      assert held + bytes == held;
    } else {
      FeedParses(held, bytes[0], bytes[1..]);
      assert [bytes[0]] + bytes[1..] == bytes;
      ReaderIsParser(Feed(held, bytes[0]).0, bytes[1..]);
    }
  }

  // ---- The check byte ------------------------------------------------------------------------

  /** How many of the bytes have bit `k` set. */
  function Having(bytes: seq<byte>, k: nat): nat {
    if bytes == [] then 0
    else Having(bytes[..|bytes| - 1], k) + (if Bit(bytes[|bytes| - 1], k) then 1 else 0)
  }

  /** Each bit of the check byte is the parity of that bit over all the bytes. */
  lemma {:induction false} FcsIsParity(bytes: seq<byte>, k: nat)
    requires k < 8
    ensures Bit(Fcs(bytes), k) <==> Having(bytes, k) % 2 == 1
    decreases |bytes|
  {
    if bytes == [] {
      ZeroHasNoBits(k);
    } else {
      var most := bytes[..|bytes| - 1];
      FcsIsParity(most, k);
      XorAt(Fcs(most), bytes[|bytes| - 1], k);
    }
  }

  lemma {:induction false} ZeroHasNoBits(k: nat)
    ensures !Bit(0, k)
  {
    if k > 0 {
      ZeroHasNoBits(k - 1);
    }
  }

  lemma {:induction false} HavingJoins(a: seq<byte>, b: seq<byte>, k: nat)
    ensures Having(a + b, k) == Having(a, k) + Having(b, k)
    decreases |b|
  {
    if b == [] {
      assert a + b == a;
    } else {
      assert (a + b)[..|a + b| - 1] == a + b[..|b| - 1];
      HavingJoins(a, b[..|b| - 1], k);
    }
  }

  /** The check byte of two stretches together is the exclusive or of theirs. */
  lemma FcsJoins(a: seq<byte>, b: seq<byte>)
    ensures Fcs(a + b) == Xor(Fcs(a), Fcs(b))
  {
    hide Fcs, Xor, Bit, Having;
    forall k | 0 <= k < 8 ensures Bit(Fcs(a + b), k) == Bit(Xor(Fcs(a), Fcs(b)), k) {
      FcsIsParity(a, k);
      FcsIsParity(b, k);
      FcsIsParity(a + b, k);
      HavingJoins(a, b, k);
      XorAt(Fcs(a), Fcs(b), k);
    }
    EightBits();
    SameBitsSame(Fcs(a + b), Xor(Fcs(a), Fcs(b)), 8);
  }

  lemma FcsMore(bytes: seq<byte>, b: byte)
    ensures Fcs(bytes + [b]) == Xor(Fcs(bytes), b)
  {
    assert (bytes + [b])[..|bytes|] == bytes;
  }

  lemma PingCheck()
    ensures Fcs([0, 0x21, 0x01]) == 0x20
  {
    hide Xor;
    Xors();
    FcsMore([], 0);
    FcsMore([0], 0x21);
    FcsMore([0, 0x21], 0x01);
    var all: seq<byte> := [0, 0x21, 0x01];
    assert all == [0, 0x21] + [0x01];
  }

  lemma Xors()
    ensures Xor(0, 0) == 0 && Xor(0, 0x21) == 0x21 && Xor(0x21, 0x01) == 0x20
  {
  }

  /** The bytes of the smallest request there is, a ping. */
  lemma PingOnTheWire()
    ensures Encode(MtFrame(0x21, 0x01, [])) == [0xFE, 0x00, 0x21, 0x01, 0x20]
  {
    hide Xor, Fcs;
    var body: seq<byte> := [0, 0x21, 0x01];
    assert Body(MtFrame(0x21, 0x01, [])) == body;
    PingCheck();
  }

  /** Where each byte of a frame goes: start, length, command, data, and the parity of all but the first. */
  lemma FrameOnTheWire(f: MtFrame)
    ensures |Encode(f)| == |f.data| + 5
    ensures var wire := Encode(f);
      var covered, check := wire[1..|f.data| + 4], wire[|f.data| + 4];
      && wire[..4] == [0xFE, |f.data|, f.cmd0, f.cmd1]
      && wire[4..|f.data| + 4] == f.data
      && forall k | 0 <= k < 8 :: Bit(check, k) <==> Having(covered, k) % 2 == 1
  {
    hide Fcs, Bit, Having;
    EncodeParts(f);
    var check := Fcs(Body(f));
    forall k | 0 <= k < 8 ensures Bit(check, k) <==> Having(Body(f), k) % 2 == 1 {
      FcsIsParity(Body(f), k);
    }
  }

  // ---- Round trip ----------------------------------------------------------------------------

  predicate Noise(s: seq<byte>) {
    forall i | 0 <= i < |s| :: s[i] != SOF
  }

  datatype Sent = Sent(noise: seq<byte>, frame: MtFrame)

  predicate Quiet(line: seq<Sent>) {
    forall i | 0 <= i < |line| :: Noise(line[i].noise)
  }

  function Wire(line: seq<Sent>): seq<byte> {
    if line == [] then [] else line[0].noise + (Encode(line[0].frame) + Wire(line[1..]))
  }

  function Received(line: seq<Sent>): seq<Event> {
    if line == [] then [] else [Ok(line[0].frame)] + Received(line[1..])
  }

  lemma {:induction false} NoiseIsSkipped(noise: seq<byte>, rest: seq<byte>)
    requires Noise(noise)
    ensures Parse(noise + rest) == Parse(rest)
    decreases |noise|
  {
    if noise == [] {
      assert noise + rest == rest;
    } else {
      NoiseIsSkipped(noise[1..], rest);
      assert (noise + rest)[1..] == noise[1..] + rest;
    }
  }

  lemma EncodeParts(f: MtFrame)
    ensures var whole := Encode(f);
      && |whole| == |f.data| + 5 && whole[0] == SOF && whole[1] == |f.data|
      && whole[2] == f.cmd0 && whole[3] == f.cmd1 && whole[4..|whole| - 1] == f.data
      && whole[1..|whole| - 1] == Body(f) && whole[|whole| - 1] == Fcs(Body(f))
  {
  }

  /** A frame whose bytes were kept apart from LEN on is one frame to the parser, good or bad. */
  lemma FrameIsTaken(f: MtFrame, whole: seq<byte>, rest: seq<byte>)
    requires |whole| == |f.data| + 5 && whole[0] == SOF && whole[1] == |f.data|
    ensures Parse(whole + rest) == Then(Some(Judge(whole)), Parse(rest))
  {
  }

  lemma EncodedIsGood(f: MtFrame)
    ensures |Encode(f)| == |f.data| + 5 && Encode(f)[1] == |f.data|
    ensures Judge(Encode(f)) == Ok(f)
  {
    hide Fcs, Encode;
    EncodeParts(f);
  }

  lemma FrameIsRead(noise: seq<byte>, f: MtFrame, rest: seq<byte>)
    requires Noise(noise)
    ensures Parse(noise + (Encode(f) + rest)) == Then(Some(Ok(f)), Parse(rest))
  {
    hide Judge, Encode;
    EncodeParts(f);
    EncodedIsGood(f);
    FrameIsTaken(f, Encode(f), rest);
    NoiseIsSkipped(noise, Encode(f) + rest);
  }

  lemma Regroup(a: seq<byte>, b: seq<byte>, c: seq<byte>, d: seq<byte>)
    ensures (a + (b + c)) + d == a + (b + (c + d))
  {
  }

  lemma {:induction false} WireIsRead(line: seq<Sent>, tail: seq<byte>)
    requires Quiet(line) && Noise(tail)
    ensures Parse(Wire(line) + tail) == Reading(Received(line), [])
    decreases |line|
  {
    hide Encode;
    if line == [] {
      NoiseIsSkipped(tail, []);
      assert tail + [] == tail && Wire(line) + tail == tail;
    } else {
      var first := line[0];
      WireIsRead(line[1..], tail);
      FrameIsRead(first.noise, first.frame, Wire(line[1..]) + tail);
      Regroup(first.noise, Encode(first.frame), Wire(line[1..]), tail);
    }
  }

  /**
   * Frames sent with any noise between them, that noise holding no start byte, arrive as exactly
   * those frames in order, with nothing rejected and nothing left over.
   */
  lemma RoundTrip(line: seq<Sent>, tail: seq<byte>)
    requires Quiet(line) && Noise(tail)
    ensures Stream([], Wire(line) + tail) == Reading(Received(line), [])
  {
    ReaderIsParser([], Wire(line) + tail);
    assert [] + (Wire(line) + tail) == Wire(line) + tail;
    WireIsRead(line, tail);
  }

  // ---- Robustness ----------------------------------------------------------------------------

  lemma {:induction false} OneByteChangesFcs(s: seq<byte>, i: nat, b: byte)
    requires i < |s| && b != s[i]
    ensures Fcs(s[i := b]) != Fcs(s)
    decreases |s|
  {
    var last := |s| - 1;
    if i == last {
      assert s[i := b][..last] == s[..last];
      XorIsInjective(s[last], Fcs(s[..last]), b);
    } else {
      assert s[i := b][..last] == s[..last][i := b];
      OneByteChangesFcs(s[..last], i, b);
      XorIsInjective(Fcs(s[..last]), s[last], Fcs(s[..last][i := b]));
    }
  }

  /** Any one byte of CMD0, CMD1, the data or the check changed: the frame is judged bad. */
  lemma CorruptIsBad(f: MtFrame, i: nat, b: byte)
    requires 2 <= i < |Encode(f)| && b != Encode(f)[i]
    ensures var bad := Encode(f)[i := b];
      && |bad| == |f.data| + 5 && bad[1] == |f.data|
      && Judge(bad) == Err(BadFcs(bad[|bad| - 1], Fcs(bad[1..|bad| - 1])))
  {
    hide Encode, Fcs;
    EncodeParts(f);
    var whole := Encode(f);
    var n := |whole|;
    var bad := whole[i := b];
    if i == n - 1 {
      assert bad[1..n - 1] == whole[1..n - 1];
    } else {
      assert bad[1..n - 1] == whole[1..n - 1][i - 1 := b];
      OneByteChangesFcs(Body(f), i - 1, b);
    }
  }

  /** It costs that frame, as one rejection naming the check seen and the one due, and nothing after it. */
  lemma CorruptFrameIsContained(f: MtFrame, i: nat, b: byte, rest: seq<byte>)
    requires 2 <= i < |Encode(f)| && b != Encode(f)[i]
    ensures var r := Stream([], Encode(f)[i := b] + rest);
      var bad := Encode(f)[i := b];
      && r.events != []
      && r.events[0] == Err(BadFcs(bad[|bad| - 1], Fcs(bad[1..|bad| - 1])))
      && Reading(r.events[1..], r.held) == Stream([], rest)
  {
    hide Judge, Encode;
    CorruptIsBad(f, i, b);
    EncodeParts(f);
    var bad := Encode(f)[i := b];
    FrameIsTaken(f, bad, rest);
    ReaderIsParser([], bad + rest);
    ReaderIsParser([], rest);
    assert [] + (bad + rest) == bad + rest && [] + rest == rest;
  }

  /** A length no frame has is one rejection naming it, and the rest is read as if alone. */
  lemma OverlongIsContained(len: byte, rest: seq<byte>)
    requires len > 250
    ensures var r := Stream([], [0xFE, len] + rest);
      && r.events != [] && r.events[0] == Err(TooLong(len))
      && Reading(r.events[1..], r.held) == Stream([], rest)
  {
    var s := [0xFE, len] + rest;
    ReaderIsParser([], s);
    ReaderIsParser([], rest);
    assert [] + s == s && [] + rest == rest && s[2..] == rest;
  }

  /** Inside a frame, a result comes within 254 further bytes, whatever they are. */
  lemma ResultComes(held: seq<byte>, bytes: seq<byte>)
    requires Partial(held) && held != [] && |bytes| >= MAX_DATA + 4
    ensures Stream(held, bytes).events != []
  {
    ReaderIsParser(held, bytes);
  }

  /** The bound is met: a frame of the largest size gives nothing until its last byte. */
  lemma ResultCanTakeThatLong(f: MtFrame)
    requires |f.data| == MAX_DATA
    ensures |Encode(f)| == MAX_DATA + 5
    ensures Partial(Encode(f)[..1]) && Stream(Encode(f)[..1], Encode(f)[1..MAX_DATA + 4]).events == []
  {
    EncodeParts(f);
    var almost := Encode(f)[..MAX_DATA + 4];
    ReaderIsParser(Encode(f)[..1], Encode(f)[1..MAX_DATA + 4]);
    assert Encode(f)[..1] + Encode(f)[1..MAX_DATA + 4] == almost;
    PartialParses(almost);
  }
}
