/**
 * The radios the lid agent switches off, and the record it keeps of them: written before anything
 * is switched, read back to switch them on again, removed once that has worked.
 */
module Radios {
  import opened Wrappers
  import opened Text

  datatype Kind = Wlan | Bluetooth | Other

  /** One switch as the kernel lists it: blocked in software, by hardware, both or neither. */
  datatype Radio = Radio(index: nat, kind: Kind, name: string, soft: bool, hard: bool)

  function KindName(kind: Kind): Option<string> {
    match kind
    case Wlan => Some("wlan")
    case Bluetooth => Some("bluetooth")
    case Other => None
  }

  function Label(r: Radio): Option<string> {
    if KindName(r.kind).Some? then Some(KindName(r.kind).value + " " + r.name) else None
  }

  /** The targets of a close: managed radios that nothing blocks yet. */
  function ToBlock(radios: seq<Radio>): seq<(nat, string)> {
    if radios == [] then []
    else
      var r := radios[0];
      (if !r.soft && !r.hard && Label(r).Some? then [(r.index, Label(r).value)] else []) + ToBlock(radios[1..])
  }

  function Trimmed(lines: seq<string>): seq<string> {
    if lines == [] then []
    else (if Trim(lines[0]) != "" then [Trim(lines[0])] else []) + Trimmed(lines[1..])
  }

  function Wanted(record: string): seq<string> {
    Trimmed(Lines(record))
  }

  predicate Frees(wanted: seq<string>, r: Radio) {
    r.soft && Label(r).Some? && Label(r).value in wanted
  }

  /** Switched on again: those on the record, by type and name, that are still off in software. */
  function ToUnblock(wanted: seq<string>, radios: seq<Radio>): seq<nat> {
    if radios == [] then []
    else (if Frees(wanted, radios[0]) then [radios[0].index] else []) + ToUnblock(wanted, radios[1..])
  }

  function Labels(targets: seq<(nat, string)>): seq<string> {
    seq(|targets|, i requires 0 <= i < |targets| => targets[i].1)
  }

  // ---- The world the agent acts on -----------------------------------------------------------

  datatype World = World(radios: seq<Radio>, record: Option<string>)

  function SetSoft(radios: seq<Radio>, index: nat, block: bool): seq<Radio> {
    seq(|radios|, i requires 0 <= i < |radios| =>
      if radios[i].index == index then radios[i].(soft := block) else radios[i])
  }

  /** How writing the record goes: not at all, broken off after some characters, or well. */
  datatype Writing = Refused | Torn(length: nat) | Complete

  /** The radios once the first `n` targets have been switched off. */
  function SwitchedOff(radios: seq<Radio>, targets: seq<(nat, string)>, n: nat): seq<Radio>
    requires n <= |targets|
  {
    if n == 0 then radios else SetSoft(SwitchedOff(radios, targets, n - 1), targets[n - 1].0, true)
  }

  /** How many targets are switched before one refuses. */
  function FirstStuck(targets: seq<(nat, string)>, stuck: set<nat>): (n: nat)
    ensures n <= |targets|
    ensures forall i | 0 <= i < n :: targets[i].0 !in stuck
    ensures n < |targets| ==> targets[n].0 in stuck
  {
    if targets == [] || targets[0].0 in stuck then 0 else 1 + FirstStuck(targets[1..], stuck)
  }

  /** Everything switching off can have done by any moment: part of the record, or all of it and some switches. */
  function TornAt(w: World, n: nat): World {
    var text := Written(Labels(ToBlock(w.radios)));
    w.(record := Some(if n <= |text| then text[..n] else text))
  }

  function OffAt(w: World, n: nat): World
    requires n <= |ToBlock(w.radios)|
  {
    var targets := ToBlock(w.radios);
    World(SwitchedOff(w.radios, targets, n), Some(Written(Labels(targets))))
  }

  /** The radios once the first `n` of the indices have been tried. */
  function SwitchedOn(radios: seq<Radio>, indices: seq<nat>, stuck: set<nat>, n: nat): seq<Radio>
    requires n <= |indices|
  {
    if n == 0 then radios
    else
      var before := SwitchedOn(radios, indices, stuck, n - 1);
      if indices[n - 1] in stuck then before else SetSoft(before, indices[n - 1], false)
  }

  predicate AllWork(indices: seq<nat>, stuck: set<nat>) {
    forall i | 0 <= i < |indices| :: indices[i] !in stuck
  }

  /** An attempt at restoring that is broken off after `n` switches; the record is still there. */
  function RestoreAt(w: World, stuck: set<nat>, n: nat): World
    requires w.record.Some? && n <= |ToUnblock(Wanted(w.record.value), w.radios)|
  {
    w.(radios := SwitchedOn(w.radios, ToUnblock(Wanted(w.record.value), w.radios), stuck, n))
  }

  function Restored(w: World, stuck: set<nat>): World {
    if w.record.None? then w
    else
      var indices := ToUnblock(Wanted(w.record.value), w.radios);
      var w' := RestoreAt(w, stuck, |indices|);
      if AllWork(indices, stuck) then w'.(record := None) else w'
  }

  class Agent {
    /** The kernel's switches. */
    var radios: seq<Radio>
    /** The record file, if it exists. */
    var record: Option<string>

    function Snapshot(): World
      reads this
    {
      World(radios, record)
    }

    method SetSoftBlock(index: nat, block: bool, works: bool) returns (ok: bool)
      modifies `radios
      ensures ok == works
      ensures radios == if works then SetSoft(old(radios), index, block) else old(radios)
    {
      if works {
        radios := SetSoft(radios, index, block);
      }
      return works;
    }

    /** Records what is on, then switches it off, stopping at the first switch that refuses. */
    method RadiosOff(writing: Writing, stuck: set<nat>) returns (ok: bool)
      modifies this
      ensures var w, targets := old(Snapshot()), ToBlock(old(radios));
        match writing
        case Refused => !ok && Snapshot() == w
        case Torn(n) => !ok && Snapshot() == TornAt(w, n)
        case Complete =>
          && Snapshot() == OffAt(w, FirstStuck(targets, stuck))
          && (ok <==> FirstStuck(targets, stuck) == |targets|)
    {
      var targets := ToBlock(radios);
      if writing.Refused? {
        return false;
      }
      var text := TextOf(targets);
      if writing.Torn? {
        record := Some(if writing.length <= |text| then text[..writing.length] else text);
        return false;
      }
      record := Some(text);
      ghost var w := old(Snapshot());
      var i := 0;
      while i < |targets|
        invariant i <= FirstStuck(targets, stuck)
        invariant Snapshot() == OffAt(w, i)
      {
        ok := SetSoftBlock(targets[i].0, true, targets[i].0 !in stuck);
        if !ok {
          return false;
        }
        i := i + 1;
      }
      return true;
    }

    method TextOf(targets: seq<(nat, string)>) returns (text: string)
      ensures text == Written(Labels(targets))
    {
      text := "";
      var i := 0;
      while i < |targets|
        invariant i <= |targets|
        invariant text + Written(Labels(targets)[i..]) == Written(Labels(targets))
      {
        assert Labels(targets)[i..][1..] == Labels(targets)[i + 1..];
        text := text + targets[i].1 + "\n";
        i := i + 1;
      }
    }

    /** Switches on what is on the record; the record goes only if everything worked. */
    method RestoreRadios(stuck: set<nat>) returns (ok: bool)
      modifies this
      ensures Snapshot() == Restored(old(Snapshot()), stuck)
      ensures !ok <==> old(record).Some? && record.Some?
    {
      if record.None? {
        return true;
      }
      hide ToUnblock, Wanted, SetSoft;
      var indices := ToUnblock(Wanted(record.value), radios);
      ok := true;
      var i := 0;
      while i < |indices|
        invariant i <= |indices| && record == old(record)
        invariant radios == SwitchedOn(old(radios), indices, stuck, i)
        invariant ok <==> forall k | 0 <= k < i :: indices[k] !in stuck
      {
        var worked := SetSoftBlock(indices[i], false, indices[i] !in stuck);
        ok := ok && worked;
        i := i + 1;
      }
      if ok {
        record := None;
      }
    }
  }
}
