/**
 * The framing of Z-Stack's "Monitor and Test" interface: a start byte, the data's length, two
 * command bytes, the data, and a check byte over all but the first.
 */
module Zigbee {
  import opened Wrappers
  import opened Bytes

  const SOF: byte := 0xFE
  const MAX_DATA: nat := 250

  datatype RawFrame = MtFrame(cmd0: byte, cmd1: byte, data: seq<byte>)
  type MtFrame = f: RawFrame | |f.data| <= MAX_DATA witness MtFrame(0, 0, [])

  datatype MtError = BadFcs(got: byte, want: byte) | TooLong(len: byte)

  type Event = Result<MtFrame, MtError>

  /** The check byte: exclusive or over all of them. */
  function Fcs(bytes: seq<byte>): byte {
    if bytes == [] then 0 else Xor(Fcs(bytes[..|bytes| - 1]), bytes[|bytes| - 1])
  }

  function Body(f: MtFrame): seq<byte> {
    [|f.data|, f.cmd0, f.cmd1] + f.data
  }

  function Encode(f: MtFrame): seq<byte> {
    [SOF] + Body(f) + [Fcs(Body(f))]
  }

  method ComputeFcs(bytes: array<byte>, from: nat, to: nat) returns (acc: byte)
    requires from <= to <= bytes.Length
    ensures acc == Fcs(bytes[from..to])
  {
    acc := 0;
    for i := from to to
      invariant acc == Fcs(bytes[from..i])
    {
      assert bytes[from..i + 1][..i - from] == bytes[from..i];
      acc := Xor(acc, bytes[i]);
    }
  }

  /** Data of more than 250 bytes makes no frame. */
  function New(cmd0: byte, cmd1: byte, data: seq<byte>): Option<MtFrame> {
    if |data| > MAX_DATA then None else Some(MtFrame(cmd0, cmd1, data))
  }

  method EncodeInto(f: MtFrame, out: array<byte>) returns (n: Option<nat>)
    modifies out
    ensures n == if out.Length < |f.data| + 5 then None else Some(|f.data| + 5)
    ensures n.None? ==> out[..] == old(out[..])
    ensures n.Some? ==> out[..n.value] == Encode(f) && out[n.value..] == old(out[n.value..])
  {
    hide Fcs;
    var len := |f.data|;
    if out.Length < len + 5 {
      return None;
    }
    out[0] := SOF;
    out[1] := len;
    out[2] := f.cmd0;
    out[3] := f.cmd1;
    CopyInto(f.data, out, 4);
    var check := ComputeFcs(out, 1, len + 4);
    out[len + 4] := check;
    assert out[1..len + 4] == Body(f);
    assert out[..len + 5] == Encode(f);
    return Some(len + 5);
  }

  method CopyInto(data: seq<byte>, out: array<byte>, at: nat)
    requires at + |data| <= out.Length
    modifies out
    ensures out[..] == old(out[..at]) + data + old(out[at + |data|..])
  {
    for i := 0 to |data|
      invariant out[..at] == old(out[..at])
      invariant out[at..at + i] == data[..i]
      invariant out[at + i..] == old(out[at + i..])
    {
      ghost var rest := out[at + i + 1..];
      out[at + i] := data[i];
      assert out[at..at + i + 1] == out[at..at + i] + [data[i]];
      assert out[at + i + 1..] == rest;
    }
  }

  lemma SliceOfPrefix(s: seq<byte>, n: nat, a: nat, b: nat)
    requires a <= b <= n <= |s|
    ensures s[..n][a..b] == s[a..b]
  {
  }

  // ---- The reader ----------------------------------------------------------------------------

  /** What a reader can hold between bytes: nothing, or the start of a frame of legal length. */
  predicate Partial(held: seq<byte>) {
    held == [] ||
    (held[0] == SOF && (|held| >= 2 ==> held[1] <= MAX_DATA && |held| < held[1] + 5))
  }

  /** The verdict on a complete frame's bytes. */
  function Judge(whole: seq<byte>): Event
    requires |whole| >= 5 && whole[1] <= MAX_DATA && |whole| == whole[1] + 5
  {
    var n := |whole|;
    var want, got := Fcs(whole[1..n - 1]), whole[n - 1];
    if got != want then Err(BadFcs(got, want))
    else Ok(MtFrame(whole[2], whole[3], whole[4..n - 1]))
  }

  /** One byte, on values: what is held next, and what is reported. */
  function Feed(held: seq<byte>, b: byte): (r: (seq<byte>, Option<Event>))
    requires Partial(held)
    ensures Partial(r.0)
    ensures |r.0| < MAX_DATA + 5
  {
    if held == [] then (if b == SOF then [b] else [], None)
    else
      var whole := held + [b];
      if |whole| == 2 && b > MAX_DATA then ([], Some(Err(TooLong(b))))
      else if |whole| == 1 || |whole| < whole[1] + 5 then (whole, None)
      else ([], Some(Judge(whole)))
  }

  /** The byte-at-a-time reader, with its fixed buffer. */
  class MtReader {
    const buf: array<byte>
    var have: nat

    ghost predicate Valid()
      reads this, buf
    {
      buf.Length == MAX_DATA + 5 && have < buf.Length && Partial(buf[..have])
    }

    ghost function Held(): seq<byte>
      requires Valid()
      reads this, buf
    {
      buf[..have]
    }

    constructor ()
      ensures Valid() && fresh(buf) && Held() == []
    {
      buf := new byte[MAX_DATA + 5](_ => 0);
      have := 0;
    }

    method Push(b: byte) returns (event: Option<Event>)
      requires Valid()
      modifies this, buf
      ensures Valid()
      ensures (Held(), event) == Feed(old(Held()), b)
    {
      if have == 0 {
        if b == SOF {
          buf[0] := b;
          have := 1;
        }
        assert old(Held()) == [] && Held() == if b == SOF then [b] else [];
        return None;
      }
      hide Judge;
      ghost var whole := Held() + [b];
      Store(b);
      if have == 2 && b > MAX_DATA {
        have := 0;
        return Some(Err(TooLong(b)));
      }
      var dataLen := buf[1];
      assert dataLen == whole[1];
      if have < dataLen + 5 {
        return None;
      }
      have := 0;
      var verdict := Verdict(dataLen);
      return Some(verdict);
    }

    method Store(b: byte)
      requires Valid()
      modifies `have, buf
      ensures have == old(have) + 1 <= buf.Length
      ensures buf[..have] == old(Held()) + [b]
    {
      buf[have] := b;
      have := have + 1;
    }

    /** The verdict on the frame the buffer now holds. */
    method Verdict(dataLen: nat) returns (event: Event)
      requires buf.Length == MAX_DATA + 5 && dataLen <= MAX_DATA && buf[1] == dataLen
      ensures event == Judge(buf[..dataLen + 5])
    {
      hide Fcs;
      assert buf[..][..dataLen + 5] == buf[..dataLen + 5];
      SliceOfPrefix(buf[..], dataLen + 5, 1, dataLen + 4);
      SliceOfPrefix(buf[..], dataLen + 5, 4, dataLen + 4);
      var want := ComputeFcs(buf, 1, dataLen + 4);
      var got := buf[dataLen + 4];
      if got != want {
        return Err(BadFcs(got, want));
      }
      var frame := New(buf[2], buf[3], buf[4..dataLen + 4]);
      return Ok(frame.value);
    }
  }
}
