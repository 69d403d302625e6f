/**
 * Finding the end of a HID report descriptor that was read with zero padding after it. Items are
 * those of section 6.2.2.2 of the USB HID specification, version 1.11.
 */
module Descriptor {
  import opened Bytes

  const COLLECTION: byte := 0xA0
  const END_COLLECTION: byte := 0xC0

  /** The length of an item's data, from the two low bits of its prefix. */
  function DataSize(prefix: byte): nat {
    if prefix % 4 == 3 then 4 else prefix % 4
  }

  /** The item's type and tag: the prefix without its size. */
  function Tag(prefix: byte): byte {
    prefix - prefix % 4
  }

  function Nesting(tag: byte): int {
    if tag == COLLECTION then 1 else if tag == END_COLLECTION then -1 else 0
  }

  /** The bytes are items and nothing else. */
  predicate WholeItems(x: seq<byte>)
    decreases |x|
  {
    x != [] ==> 1 + DataSize(x[0]) <= |x| && WholeItems(x[1 + DataSize(x[0])..])
  }

  /** How many more collections the items open than they close. */
  function Depth(x: seq<byte>): int
    requires WholeItems(x)
    decreases |x|
  {
    if x == [] then 0 else Nesting(Tag(x[0])) + Depth(x[1 + DataSize(x[0])..])
  }

  function LastTag(x: seq<byte>): byte
    requires WholeItems(x) && x != []
    decreases |x|
  {
    var rest := x[1 + DataSize(x[0])..];
    if rest == [] then Tag(x[0]) else LastTag(rest)
  }

  /** A descriptor: whole items, the last of which closes the outermost collection. */
  predicate Closed(x: seq<byte>) {
    WholeItems(x) && x != [] && LastTag(x) == END_COLLECTION && Depth(x) == 0
  }

  /** `trimmed` is the longest part of `raw`, from its start, that is a descriptor. */
  predicate IsTrimOf(raw: seq<byte>, trimmed: seq<byte>) {
    && trimmed <= raw
    && (trimmed == [] || Closed(trimmed))
    && (forall n | |trimmed| < n <= |raw| :: !Closed(raw[..n]))
  }

  lemma {:induction false} Joined(x: seq<byte>, y: seq<byte>)
    requires WholeItems(x)
    ensures WholeItems(x + y) == WholeItems(y)
    ensures WholeItems(y) ==> Depth(x + y) == Depth(x) + Depth(y)
    ensures WholeItems(y) && y != [] ==> LastTag(x + y) == LastTag(y)
    decreases |x|
  {
    if x == [] {
      assert x + y == y;
    } else {
      var n := 1 + DataSize(x[0]);
      assert (x + y)[n..] == x[n..] + y;
      Joined(x[n..], y);
    }
  }

  lemma OneItem(x: seq<byte>)
    requires x != [] && |x| == 1 + DataSize(x[0])
    ensures WholeItems(x) && Depth(x) == Nesting(Tag(x[0])) && LastTag(x) == Tag(x[0])
  {
  }

  /** Between one end of items and the next there is nothing else to stop at. */
  lemma NoneBetween(raw: seq<byte>, i: nat, n: nat)
    requires i < n <= |raw| && WholeItems(raw[..i]) && WholeItems(raw[..n])
    ensures i + 1 + DataSize(raw[i]) <= n
  {
    assert raw[..n] == raw[..i] + raw[i..n];
    Joined(raw[..i], raw[i..n]);
  }

  lemma OneItemMore(raw: seq<byte>, i: nat)
    requires i < |raw| && WholeItems(raw[..i]) && i + 1 + DataSize(raw[i]) <= |raw|
    ensures var n := i + 1 + DataSize(raw[i]);
      && WholeItems(raw[..n])
      && Depth(raw[..n]) == Depth(raw[..i]) + Nesting(Tag(raw[i]))
      && LastTag(raw[..n]) == Tag(raw[i])
  {
    var item := raw[i..i + 1 + DataSize(raw[i])];
    assert raw[..i + 1 + DataSize(raw[i])] == raw[..i] + item;
    OneItem(item);
    Joined(raw[..i], item);
  }

  lemma NoneCloses(raw: seq<byte>, i: nat, end: nat)
    requires i < |raw| && WholeItems(raw[..i]) && end <= |raw| && end <= i + 1 + DataSize(raw[i])
    ensures forall n | i < n < end :: !Closed(raw[..n])
  {
    forall n | i < n < end ensures !Closed(raw[..n]) {
      if WholeItems(raw[..n]) {
        NoneBetween(raw, i, n);
      }
    }
  }

  method TrimDescriptor(raw: seq<byte>) returns (trimmed: seq<byte>)
    ensures IsTrimOf(raw, trimmed)
  {
    hide WholeItems, Depth, LastTag;
    assert raw[..0] == [];
    EmptyIsWhole();
    var i, end := 0, 0;
    var depth := 0;
    while i < |raw|
      invariant 0 <= end <= i <= |raw| && WholeItems(raw[..i]) && depth == Depth(raw[..i])
      invariant end == 0 || Closed(raw[..end])
      invariant forall n | end < n <= i :: !Closed(raw[..n])
    {
      var prefix := raw[i];
      var size := DataSize(prefix);
      if i + 1 + size > |raw| {
        NoneCloses(raw, i, |raw|);
        if WholeItems(raw[..|raw|]) {
          NoneBetween(raw, i, |raw|);
        }
        break;
      }
      var tag := Tag(prefix);
      if tag == COLLECTION {
        depth := depth + 1;
      } else if tag == END_COLLECTION {
        depth := depth - 1;
      }
      OneItemMore(raw, i);
      NoneCloses(raw, i, i + 1 + size);
      i := i + 1 + size;
      if depth == 0 && tag == END_COLLECTION {
        end := i;
      }
    }
    assert raw[..|raw|] == raw;
    return raw[..end];
  }

  lemma EmptyIsWhole()
    ensures WholeItems([]) && Depth([]) == 0
  {
  }

  lemma TrimIsUnique(raw: seq<byte>, a: seq<byte>, b: seq<byte>)
    requires IsTrimOf(raw, a) && IsTrimOf(raw, b)
    ensures a == b
  {
    assert a == raw[..|a|] && b == raw[..|b|];
  }

  function Zeros(n: nat): seq<byte> {
    seq(n, _ => 0)
  }

  lemma {:induction false} ZerosAreItems(n: nat)
    ensures WholeItems(Zeros(n)) && Depth(Zeros(n)) == 0 && (n > 0 ==> LastTag(Zeros(n)) == 0)
  {
    if n > 0 {
      assert Zeros(n)[1..] == Zeros(n - 1);
      ZerosAreItems(n - 1);
    }
  }

  /** What was trimmed comes back from any padding: trimming is idempotent, and padding comes off. */
  lemma PaddingComesOff(raw: seq<byte>, trimmed: seq<byte>, padding: nat, again: seq<byte>)
    requires IsTrimOf(raw, trimmed) && IsTrimOf(trimmed + Zeros(padding), again)
    ensures again == trimmed
  {
    var padded := trimmed + Zeros(padding);
    forall n | |trimmed| < n <= |padded| ensures !Closed(padded[..n]) {
      var m := n - |trimmed|;
      assert padded[..n] == trimmed + Zeros(m);
      ZerosAreItems(m);
      Joined(trimmed, Zeros(m));
    }
    assert IsTrimOf(padded, trimmed);
    TrimIsUnique(padded, trimmed, again);
  }

  /** A whole descriptor survives padding, whatever bytes it ends in. */
  lemma DescriptorSurvives(descriptor: seq<byte>, padding: nat, trimmed: seq<byte>)
    requires Closed(descriptor) && IsTrimOf(descriptor + Zeros(padding), trimmed)
    ensures trimmed == descriptor
  {
    assert descriptor[..|descriptor|] == descriptor;
    PaddingComesOff(descriptor, descriptor, padding, trimmed);
  }

  /** How many bytes of data each of the four size codes means; code 3 means four. */
  lemma SizeCodes(prefix: byte)
    ensures DataSize(prefix) == [0, 1, 2, 4][prefix % 4]
  {
  }

  /** A collection with a four-byte item in it, one byte of which looks like the end of the collection. */
  lemma LooksLikeTheEnd()
    ensures Closed([0xA1, 0x01, 0x27, 0x00, 0x00, 0x00, 0xC0, 0xC0])
    ensures !Closed([0xA1, 0x01, 0x27, 0x00, 0x00, 0x00, 0xC0])
  {
    var opens, item, ends := [0xA1, 0x01], [0x27, 0x00, 0x00, 0x00, 0xC0], [0xC0];
    OneItem(opens);
    OneItem(item);
    OneItem(ends);
    Joined(opens, item);
    Joined(opens + item, ends);
    assert opens + item == [0xA1, 0x01, 0x27, 0x00, 0x00, 0x00, 0xC0];
    assert opens + item + ends == [0xA1, 0x01, 0x27, 0x00, 0x00, 0x00, 0xC0, 0xC0];
  }
}
