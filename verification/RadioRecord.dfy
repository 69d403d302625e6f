/** Whatever interrupts switching the radios off or on, the record gives back what was on before. */
module RadioRecord {
  import opened Wrappers
  import opened Text
  import opened Radios

  /** A name the kernel can list and a line of the record can hold. */
  predicate Clean(name: string) {
    name != "" && IsTrimmed(name) && NoneIn(name, '\n')
  }

  /** No two switches share an index, and no two that are managed share type and name. */
  predicate WellListed(radios: seq<Radio>) {
    && (forall i, j | 0 <= i < j < |radios| :: radios[i].index != radios[j].index)
    && (forall i, j | 0 <= i < j < |radios| && Label(radios[i]).Some? :: Label(radios[i]) != Label(radios[j]))
    && (forall i | 0 <= i < |radios| && Label(radios[i]).Some? :: Clean(radios[i].name))
  }

  function Switched(r: Radio, labels: set<string>, block: bool): Radio {
    if Label(r).Some? && Label(r).value in labels then r.(soft := block) else r
  }

  function AllSwitched(radios: seq<Radio>, labels: set<string>, block: bool): seq<Radio> {
    seq(|radios|, i requires 0 <= i < |radios| => Switched(radios[i], labels, block))
  }

  function LabelSet(targets: seq<(nat, string)>): set<string> {
    set i | 0 <= i < |targets| :: targets[i].1
  }

  function Erased(radios: seq<Radio>): seq<Radio> {
    seq(|radios|, i requires 0 <= i < |radios| => radios[i].(index := 0))
  }

  /** The same radios in the same state, numbered and ordered anyhow. */
  predicate Same(a: seq<Radio>, b: seq<Radio>) {
    multiset(Erased(a)) == multiset(Erased(b))
  }

  // ---- Switching by index is switching by label ----------------------------------------------

  lemma {:induction false} TargetIs(radios: seq<Radio>, k: nat) returns (j: nat)
    requires k < |ToBlock(radios)|
    ensures j < |radios| && !radios[j].soft && !radios[j].hard
    ensures ToBlock(radios)[k].0 == radios[j].index && Label(radios[j]) == Some(ToBlock(radios)[k].1)
  {
    var r := radios[0];
    if !r.soft && !r.hard && Label(r).Some? {
      if k == 0 {
        j := 0;
      } else {
        j := TargetIs(radios[1..], k - 1);
        j := j + 1;
      }
    } else {
      j := TargetIs(radios[1..], k);
      j := j + 1;
    }
  }

  lemma {:induction false} FreedIs(wanted: seq<string>, radios: seq<Radio>, k: nat) returns (j: nat)
    requires k < |ToUnblock(wanted, radios)|
    ensures j < |radios| && Frees(wanted, radios[j]) && ToUnblock(wanted, radios)[k] == radios[j].index
  {
    if Frees(wanted, radios[0]) && k == 0 {
      j := 0;
    } else {
      j := FreedIs(wanted, radios[1..], if Frees(wanted, radios[0]) then k - 1 else k);
      j := j + 1;
    }
  }

  lemma {:induction false} FreedAll(wanted: seq<string>, radios: seq<Radio>, j: nat) returns (k: nat)
    requires j < |radios| && Frees(wanted, radios[j])
    ensures k < |ToUnblock(wanted, radios)| && ToUnblock(wanted, radios)[k] == radios[j].index
  {
    if j == 0 {
      k := 0;
    } else {
      k := FreedAll(wanted, radios[1..], j - 1);
      k := if Frees(wanted, radios[0]) then k + 1 else k;
    }
  }

  /** A switch by index after some by label is one more by label. */
  lemma ByLabel(radios: seq<Radio>, labels: set<string>, block: bool, j: nat)
    requires WellListed(radios) && j < |radios| && Label(radios[j]).Some?
    ensures SetSoft(AllSwitched(radios, labels, block), radios[j].index, block)
      == AllSwitched(radios, labels + {Label(radios[j]).value}, block)
  {
    forall i | 0 <= i < |radios|
      ensures radios[i].index == radios[j].index <==> Label(radios[i]) == Label(radios[j])
    {
      if i < j || j < i {
      }
    }
  }

  lemma OneMoreLabel(targets: seq<(nat, string)>, n: nat)
    requires n <= |targets|
    ensures LabelSet(targets[..n]) == if n == 0 then {} else LabelSet(targets[..n - 1]) + {targets[n - 1].1}
  {
    if n > 0 {
      assert targets[..n] == targets[..n - 1] + [targets[n - 1]];
    }
  }

  lemma {:induction false} OffByLabel(radios: seq<Radio>, n: nat)
    requires WellListed(radios) && n <= |ToBlock(radios)|
    ensures SwitchedOff(radios, ToBlock(radios), n) == AllSwitched(radios, LabelSet(ToBlock(radios)[..n]), true)
  {
    hide ToBlock, WellListed, SetSoft, Label, LabelSet;
    var targets := ToBlock(radios);
    OneMoreLabel(targets, n);
    if n == 0 {
      NothingSwitched(radios);
    } else {
      OffByLabel(radios, n - 1);
      var j := TargetIs(radios, n - 1);
      ByLabel(radios, LabelSet(targets[..n - 1]), true, j);
    }
  }

  lemma {:induction false} OnByLabel(wanted: seq<string>, radios: seq<Radio>, stuck: set<nat>, n: nat)
    returns (freed: set<string>)
    requires WellListed(radios) && n <= |ToUnblock(wanted, radios)|
    ensures SwitchedOn(radios, ToUnblock(wanted, radios), stuck, n) == AllSwitched(radios, freed, false)
    ensures forall l | l in freed :: l in wanted
    ensures forall j | 0 <= j < |radios| && Frees(wanted, radios[j]) && radios[j].index !in stuck
                       && radios[j].index in ToUnblock(wanted, radios)[..n] :: Label(radios[j]).value in freed
  {
    var indices := ToUnblock(wanted, radios);
    if n == 0 {
      freed := {};
    } else {
      freed := OnByLabel(wanted, radios, stuck, n - 1);
      assert indices[..n] == indices[..n - 1] + [indices[n - 1]];
      if indices[n - 1] !in stuck {
        var j := FreedIs(wanted, radios, n - 1);
        ByLabel(radios, freed, false, j);
        freed := freed + {Label(radios[j]).value};
      }
    }
  }

  /** A radio that was switched off by the agent had been on. */
  lemma TargetsWereOn(radios: seq<Radio>, i: nat)
    requires WellListed(radios) && i < |radios| && Label(radios[i]).Some?
    requires Label(radios[i]).value in LabelSet(ToBlock(radios))
    ensures !radios[i].soft
  {
    var targets := ToBlock(radios);
    var k :| 0 <= k < |targets| && targets[k].1 == Label(radios[i]).value;
    var j := TargetIs(radios, k);
    assert i == j;
  }

  lemma OffThenOn(radios: seq<Radio>, off: set<string>, on: set<string>)
    requires WellListed(radios) && off <= LabelSet(ToBlock(radios)) && on <= LabelSet(ToBlock(radios))
    ensures AllSwitched(AllSwitched(radios, off, true), on, false) == AllSwitched(radios, off - on, true)
  {
    forall i | 0 <= i < |radios|
      ensures Switched(Switched(radios[i], off, true), on, false) == Switched(radios[i], off - on, true)
    {
      if Label(radios[i]).Some? && Label(radios[i]).value in LabelSet(ToBlock(radios)) {
        TargetsWereOn(radios, i);
      }
    }
  }

  // ---- Renumbering ---------------------------------------------------------------------------

  function Without<T>(s: seq<T>, j: nat): seq<T>
    requires j < |s|
  {
    s[..j] + s[j + 1..]
  }

  lemma TakenOut<T>(s: seq<T>, j: nat)
    requires j < |s|
    ensures multiset(s) == multiset(Without(s, j)) + multiset{s[j]}
  {
    assert s == s[..j] + [s[j]] + s[j + 1..];
  }

  lemma TakenOutSwitched(s: seq<Radio>, j: nat, labels: set<string>, block: bool)
    requires j < |s|
    ensures multiset(AllSwitched(s, labels, block))
      == multiset(AllSwitched(Without(s, j), labels, block)) + multiset{Switched(s[j], labels, block)}
  {
    hide Switched;
    assert Without(AllSwitched(s, labels, block), j) == AllSwitched(Without(s, j), labels, block);
    TakenOut(AllSwitched(s, labels, block), j);
  }

  lemma {:induction false} SwitchedAlike(a: seq<Radio>, b: seq<Radio>, labels: set<string>, block: bool)
    requires multiset(a) == multiset(b)
    ensures multiset(AllSwitched(a, labels, block)) == multiset(AllSwitched(b, labels, block))
    decreases |a|
  {
    hide Switched, AllSwitched, Without;
    if a == [] {
      assert |b| == |multiset(b)| == 0;
    } else {
      assert a[0] in multiset(b);
      var j :| 0 <= j < |b| && b[j] == a[0];
      TakenOut(a, 0);
      TakenOut(b, j);
      Shorter(a);
      assert multiset(Without(a, 0)) == multiset(a) - multiset{a[0]};
      assert multiset(Without(b, j)) == multiset(b) - multiset{a[0]};
      SwitchedAlike(Without(a, 0), Without(b, j), labels, block);
      TakenOutSwitched(a, 0, labels, block);
      TakenOutSwitched(b, j, labels, block);
    }
  }

  lemma Shorter<T>(s: seq<T>)
    requires s != []
    ensures |Without(s, 0)| < |s|
  {
  }

  lemma SameSwitched(a: seq<Radio>, b: seq<Radio>, labels: set<string>, block: bool)
    requires Same(a, b)
    ensures Same(AllSwitched(a, labels, block), AllSwitched(b, labels, block))
  {
    SwitchedAlike(Erased(a), Erased(b), labels, block);
    forall x: seq<Radio> ensures Erased(AllSwitched(x, labels, block)) == AllSwitched(Erased(x), labels, block) {
    }
  }

  /** In the same radios, whatever one has, the other has. */
  lemma Counterpart(a: seq<Radio>, b: seq<Radio>, i: nat) returns (j: nat)
    requires Same(a, b) && i < |a|
    ensures j < |b| && b[j].(index := 0) == a[i].(index := 0)
  {
    assert Erased(a)[i] in multiset(Erased(b));
    j :| 0 <= j < |b| && Erased(b)[j] == Erased(a)[i];
  }

  // ---- Reading the record back ---------------------------------------------------------------

  lemma LabelIsLine(r: Radio)
    requires Label(r).Some? && Clean(r.name)
    ensures Label(r).value != "" && IsTrimmed(Label(r).value) && IsLine(Label(r).value)
  {
  }

  lemma {:induction false} TrimmedLines(lines: seq<string>)
    requires forall i | 0 <= i < |lines| :: lines[i] != "" && IsTrimmed(lines[i])
    ensures Trimmed(lines) == lines
  {
    if lines != [] {
      TrimmedStays(lines[0]);
      TrimmedLines(lines[1..]);
    }
  }

  lemma LabelsAreLines(radios: seq<Radio>)
    requires WellListed(radios)
    ensures forall l | l in Labels(ToBlock(radios)) :: l != "" && IsTrimmed(l) && IsLine(l)
  {
    hide ToBlock, IsLine, IsTrimmed, Clean, Label;
    var labels := Labels(ToBlock(radios));
    forall k | 0 <= k < |labels| ensures labels[k] != "" && IsTrimmed(labels[k]) && IsLine(labels[k]) {
      var j := TargetIs(radios, k);
      LabelIsLine(radios[j]);
    }
  }

  lemma RecordReadsBack(radios: seq<Radio>)
    requires WellListed(radios)
    ensures var labels := Labels(ToBlock(radios)); Wanted(Written(labels)) == labels
  {
    hide ToBlock, Trimmed, Lines, Written, IsLine, IsTrimmed, WellListed;
    var labels := Labels(ToBlock(radios));
    LabelsAreLines(radios);
    LinesRoundTrip(labels);
    TrimmedLines(labels);
  }

  lemma SetOfLabels(targets: seq<(nat, string)>)
    ensures forall l :: l in Labels(targets) <==> l in LabelSet(targets)
  {
    forall k | 0 <= k < |targets| ensures Labels(targets)[k] == targets[k].1 {
    }
  }

  // ---- Runs ----------------------------------------------------------------------------------

  datatype Event =
    | Closed(n: nat)                              // the record is written, and the first `n` of it switched off
    | Renumbered(radios: seq<Radio>)              // a restart may list the radios anew
    | BrokenOff(stuck: set<nat>, n: nat)          // an attempt at restoring that does not get to its end
    | Attempted(stuck: set<nat>)                  // one that does, whatever refuses

  predicate Possible(w: World, e: Event) {
    match e
    case Closed(n) => n <= |ToBlock(w.radios)|
    case Renumbered(radios) => WellListed(radios) && Same(radios, w.radios)
    case BrokenOff(_, n) => w.record.Some? && n <= |ToUnblock(Wanted(w.record.value), w.radios)|
    case Attempted(_) => true
  }

  function Next(w: World, e: Event): World
    requires Possible(w, e)
  {
    match e
    case Closed(n) => OffAt(w, n)
    case Renumbered(radios) => w.(radios := radios)
    case BrokenOff(stuck, n) => RestoreAt(w, stuck, n)
    case Attempted(stuck) => Restored(w, stuck)
  }

  predicate AllPossible(w: World, events: seq<Event>)
    decreases |events|
  {
    events != [] ==> Possible(w, events[0]) && AllPossible(Next(w, events[0]), events[1..])
  }

  function Run(w: World, events: seq<Event>): World
    requires AllPossible(w, events)
    decreases |events|
  {
    if events == [] then w else Run(Next(w, events[0]), events[1..])
  }

  /** The radios the agent is answerable for: off, where they had been on. */
  function Owed(before: seq<Radio>, radios: seq<Radio>): set<string> {
    set i | 0 <= i < |radios| && radios[i].soft && Label(radios[i]).Some?
            && Label(radios[i]).value in LabelSet(ToBlock(before)) :: Label(radios[i]).value
  }

  function Listed(w: World): set<string> {
    if w.record.None? then {} else set l | l in Wanted(w.record.value)
  }

  /** The radios that were still owed when a close overwrote the record. */
  function LostBy(before: seq<Radio>, w: World, events: seq<Event>): set<string>
    requires AllPossible(w, events)
    decreases |events|
  {
    if events == [] then {}
    else (if events[0].Closed? then Owed(before, w.radios) else {}) + LostBy(before, Next(w, events[0]), events[1..])
  }

  /** Nothing but `off` differs from what was before, and only radios that had been on are listed. */
  predicate Tracks(before: seq<Radio>, w: World, off: set<string>) {
    && WellListed(w.radios)
    && off <= LabelSet(ToBlock(before))
    && Same(w.radios, AllSwitched(before, off, true))
    && Listed(w) <= LabelSet(ToBlock(before))
  }

  lemma SwitchedKeepsListing(radios: seq<Radio>, labels: set<string>, block: bool)
    requires WellListed(radios)
    ensures WellListed(AllSwitched(radios, labels, block))
  {
    var switched := AllSwitched(radios, labels, block);
    forall i | 0 <= i < |radios|
      ensures switched[i].index == radios[i].index && Label(switched[i]) == Label(radios[i])
      ensures switched[i].name == radios[i].name
    {
    }
  }

  lemma OwedIsListed(before: seq<Radio>, radios: seq<Radio>, off: set<string>, l: string) returns (j: nat)
    requires off <= LabelSet(ToBlock(before)) && l in off
    requires Same(radios, AllSwitched(before, off, true))
    ensures j < |radios| && radios[j].soft && Label(radios[j]) == Some(l)
  {
    var k :| 0 <= k < |ToBlock(before)| && ToBlock(before)[k].1 == l;
    var i := TargetIs(before, k);
    j := Counterpart(AllSwitched(before, off, true), radios, i);
  }

  /** What is owed can be read off the switches. */
  lemma OwedIs(before: seq<Radio>, radios: seq<Radio>, off: set<string>)
    requires WellListed(before) && off <= LabelSet(ToBlock(before))
    requires Same(radios, AllSwitched(before, off, true))
    ensures Owed(before, radios) == off
  {
    hide ToBlock, WellListed, LabelSet, Label, Same;
    forall l | l in off ensures l in Owed(before, radios) {
      var j := OwedIsListed(before, radios, off, l);
    }
    forall l | l in Owed(before, radios) ensures l in off {
      var i :| 0 <= i < |radios| && radios[i].soft && Label(radios[i]) == Some(l);
      var j := Counterpart(radios, AllSwitched(before, off, true), i);
      SameLabel(radios[i], AllSwitched(before, off, true)[j]);
      SwitchedAt(before, off, true, j);
      TargetsWereOn(before, j);
    }
  }

  lemma SameLabel(a: Radio, b: Radio)
    requires a.(index := 0) == b.(index := 0)
    ensures Label(a) == Label(b) && a.soft == b.soft && a.hard == b.hard
  {
  }

  lemma SwitchedAt(radios: seq<Radio>, labels: set<string>, block: bool, j: nat)
    requires j < |radios|
    ensures var r := AllSwitched(radios, labels, block)[j];
      && Label(r) == Label(radios[j]) && r.hard == radios[j].hard
      && r.soft == if Label(r).Some? && Label(r).value in labels then block else radios[j].soft
  {
  }

  // ---- Each event ----------------------------------------------------------------------------

  /** An attempt at restoring pays back a part of what is listed, and all of it if nothing refuses. */
  lemma AttemptPays(before: seq<Radio>, w: World, off: set<string>, stuck: set<nat>, n: nat) returns (left: set<string>)
    requires WellListed(before) && Tracks(before, w, off) && w.record.Some?
    requires n <= |ToUnblock(Wanted(w.record.value), w.radios)|
    ensures Tracks(before, RestoreAt(w, stuck, n), left) && left <= off && off - left <= Listed(w)
    ensures var indices := ToUnblock(Wanted(w.record.value), w.radios);
      n == |indices| && AllWork(indices, stuck) ==> left == off - Listed(w)
  {
    hide ToUnblock, Wanted, ToBlock, WellListed, Switched, SwitchedOn;
    var wanted := Wanted(w.record.value);
    var freed := OnByLabel(wanted, w.radios, stuck, n);
    left := off - freed;
    SameSwitched(w.radios, AllSwitched(before, off, true), freed, false);
    OffThenOn(before, off, freed);
    SwitchedKeepsListing(w.radios, freed, false);
    var indices := ToUnblock(wanted, w.radios);
    if n == |indices| && AllWork(indices, stuck) {
      forall l | l in off && l in Listed(w) ensures l in freed {
        var j := OwedIsListed(before, w.radios, off, l);
        var k := FreedAll(wanted, w.radios, j);
        assert indices[..n][k] == w.radios[j].index;
      }
    }
  }

  /** What is on now had been on, and is not owed. */
  lemma TargetsAreFree(before: seq<Radio>, w: World, off: set<string>, l: string)
    requires WellListed(before) && Tracks(before, w, off) && l in LabelSet(ToBlock(w.radios))
    ensures l in LabelSet(ToBlock(before)) && l !in off
  {
    var k :| 0 <= k < |ToBlock(w.radios)| && ToBlock(w.radios)[k].1 == l;
    var i := TargetIs(w.radios, k);
    var j := Counterpart(w.radios, AllSwitched(before, off, true), i);
    SameLabel(w.radios[i], AllSwitched(before, off, true)[j]);
    SwitchedAt(before, off, true, j);
    IsTarget(before, j);
  }

  lemma {:induction false} IsTarget(radios: seq<Radio>, j: nat)
    requires j < |radios| && !radios[j].soft && !radios[j].hard && Label(radios[j]).Some?
    ensures Label(radios[j]).value in LabelSet(ToBlock(radios))
  {
    var targets, rest := ToBlock(radios), ToBlock(radios[1..]);
    if j == 0 {
      assert targets[0].1 == Label(radios[0]).value;
    } else {
      IsTarget(radios[1..], j - 1);
      var k :| 0 <= k < |rest| && rest[k].1 == Label(radios[j]).value;
      assert targets[|targets| - |rest| + k] == rest[k];
    }
  }

  lemma OffTwice(radios: seq<Radio>, a: set<string>, b: set<string>)
    ensures AllSwitched(AllSwitched(radios, a, true), b, true) == AllSwitched(radios, a + b, true)
  {
  }

  /** A close lists what it is about to switch off, and so nothing that is still owed. */
  lemma CloseOwes(before: seq<Radio>, w: World, off: set<string>, n: nat) returns (more: set<string>)
    requires WellListed(before) && Tracks(before, w, off) && n <= |ToBlock(w.radios)|
    ensures Tracks(before, OffAt(w, n), off + more)
    ensures more <= Listed(OffAt(w, n)) && off !! Listed(OffAt(w, n))
  {
    hide ToBlock, WellListed, Switched, SwitchedOff, Written, Wanted;
    var targets := ToBlock(w.radios);
    more := LabelSet(targets[..n]);
    OffByLabel(w.radios, n);
    SameSwitched(w.radios, AllSwitched(before, off, true), more, true);
    OffTwice(before, off, more);
    SwitchedKeepsListing(w.radios, more, true);
    RecordReadsBack(w.radios);
    SetOfLabels(targets);
    assert Listed(OffAt(w, n)) == LabelSet(targets);
    forall l | l in LabelSet(targets) ensures l in LabelSet(ToBlock(before)) && l !in off {
      TargetsAreFree(before, w, off, l);
    }
    assert forall l | l in more :: l in LabelSet(targets);
  }

  /** After one event, what is off and unlisted is what was, and with a close everything still owed. */
  lemma OneEvent(before: seq<Radio>, w: World, off: set<string>, e: Event) returns (left: set<string>)
    requires WellListed(before) && Tracks(before, w, off) && Possible(w, e)
    ensures Tracks(before, Next(w, e), left)
    ensures left - Listed(Next(w, e)) == if e.Closed? then off else off - Listed(w)
  {
    hide WellListed, AllSwitched, ToBlock, RestoreAt, OffAt, Wanted, LabelSet;
    match e {
      case Closed(n) =>
        var more := CloseOwes(before, w, off, n);
        left := off + more;
      case Renumbered(_) =>
        left := off;
      case BrokenOff(stuck, n) =>
        left := AttemptPays(before, w, off, stuck, n);
        SameRecord(w, stuck, n);
      case Attempted(stuck) =>
        if w.record.Some? {
          var n := |ToUnblock(Wanted(w.record.value), w.radios)|;
          left := AttemptPays(before, w, off, stuck, n);
          SameRecord(w, stuck, n);
        } else {
          left := off;
        }
    }
  }

  lemma SameRecord(w: World, stuck: set<nat>, n: nat)
    requires w.record.Some? && n <= |ToUnblock(Wanted(w.record.value), w.radios)|
    ensures Listed(RestoreAt(w, stuck, n)) == Listed(w) && RestoreAt(w, stuck, n).record == w.record
  {
  }

  lemma {:induction false} RunLoses(before: seq<Radio>, w: World, off: set<string>, events: seq<Event>)
    returns (left: set<string>)
    requires WellListed(before) && Tracks(before, w, off) && AllPossible(w, events)
    ensures Tracks(before, Run(w, events), left)
    ensures left - Listed(Run(w, events)) == (off - Listed(w)) + LostBy(before, w, events)
    decreases |events|
  {
    if events == [] {
      left := off;
    } else {
      hide WellListed, Next, Listed, Same, LabelSet, ToBlock;
      OwedIs(before, w.radios, off);
      var between := OneEvent(before, w, off, events[0]);
      left := RunLoses(before, Next(w, events[0]), between, events[1..]);
    }
  }

  /**
   * From any close on, interrupted or refused wherever it was once the record was written, and
   * over every run of further closes, restarts, renumberings and failed attempts: the radios off
   * and not on the record are exactly those that were still owed when a later close overwrote it;
   * an attempt at which nothing refuses removes the record, and gives every radio back as it was
   * exactly if there are none.
   */
  lemma CrashSafe(before: seq<Radio>, leftover: Option<string>, n: nat, events: seq<Event>)
    requires WellListed(before) && n <= |ToBlock(before)|
    requires AllPossible(OffAt(World(before, leftover), n), events)
    ensures var start := OffAt(World(before, leftover), n);
      var w, lost := Run(start, events), LostBy(before, start, events);
      && Owed(before, w.radios) - Listed(w) == lost
      && Restored(w, {}).record == None
      && (Same(Restored(w, {}).radios, before) <==> lost == {})
  {
    hide WellListed, ToBlock, Same, Next, SwitchedOn, Wanted, ToUnblock, Switched, LabelSet, Owed;
    var clean, start := World(before, None), OffAt(World(before, leftover), n);
    SameAsItself(before);
    NothingSwitched(before);
    assert Tracks(before, clean, {});
    var off := CloseOwes(before, clean, {}, n);
    assert start == OffAt(clean, n) && {} + off == off;
    var left := RunLoses(before, start, off, events);
    var w := Run(start, events);
    OwedIs(before, w.radios, left);
    Returned(before, w, left);
  }

  lemma Returned(before: seq<Radio>, w: World, off: set<string>)
    requires WellListed(before) && Tracks(before, w, off)
    ensures Restored(w, {}).record == None
    ensures Same(Restored(w, {}).radios, before) <==> off - Listed(w) == {}
  {
    hide WellListed, ToBlock, SwitchedOn, Wanted, ToUnblock, Switched, LabelSet, Owed, Same;
    var left := off;
    if w.record.Some? {
      left := AttemptPays(before, w, off, {}, |ToUnblock(Wanted(w.record.value), w.radios)|);
    }
    assert left == off - Listed(w);
    OwedIs(before, Restored(w, {}).radios, left);
    NothingSwitched(before);
    if Same(Restored(w, {}).radios, before) {
      OwedIs(before, Restored(w, {}).radios, {});
    }
  }

  lemma {:induction false} StuckStays(radios: seq<Radio>, indices: seq<nat>, stuck: set<nat>, n: nat, j: nat)
    requires n <= |indices| && j < |radios| && radios[j].index in stuck
    ensures |SwitchedOn(radios, indices, stuck, n)| == |radios| && SwitchedOn(radios, indices, stuck, n)[j] == radios[j]
  {
    if n > 0 {
      StuckStays(radios, indices, stuck, n - 1, j);
    }
  }

  lemma StuckStaysOwed(before: seq<Radio>)
    requires WellListed(before) && ToBlock(before) != []
    ensures var target := ToBlock(before)[0];
      target.1 in Owed(before, Restored(OffAt(World(before, None), 1), {target.0}).radios)
  {
    hide ToBlock, Wanted, ToUnblock;
    var target := ToBlock(before)[0];
    var w := OffAt(World(before, None), 1);
    var j := TargetIs(before, 0);
    OffByLabel(before, 1);
    SwitchedAt(before, LabelSet(ToBlock(before)[..1]), true, j);
    assert ToBlock(before)[..1][0] == target;
    var indices := ToUnblock(Wanted(w.record.value), w.radios);
    StuckStays(w.radios, indices, {target.0}, |indices|, j);
    assert Restored(w, {target.0}).radios[j] == w.radios[j];
  }

  /** The losing run: a restore at which a switch refuses, and another close. */
  lemma SecondCloseLoses(before: seq<Radio>)
    requires WellListed(before) && ToBlock(before) != []
    ensures var start := OffAt(World(before, None), 1);
      var events := [Attempted({ToBlock(before)[0].0}), Closed(0)];
      && AllPossible(start, events)
      && ToBlock(before)[0].1 in LostBy(before, start, events)
  {
    hide WellListed, ToBlock, Same, Wanted, ToUnblock, Switched, LabelSet;
    var stuck := {ToBlock(before)[0].0};
    var start := OffAt(World(before, None), 1);
    StuckStaysOwed(before);
    var events := [Attempted(stuck), Closed(0)];
    assert events[1..] == [Closed(0)] && [Closed(0)][1..] == [];
  }

  lemma SameAsItself(radios: seq<Radio>)
    ensures Same(radios, radios)
  {
  }

  lemma NothingSwitched(radios: seq<Radio>)
    ensures AllSwitched(radios, {}, true) == radios
  {
  }

  // ---- A record torn in the middle of a line -------------------------------------------------

  /** The part of the last line that got written. */
  function TornLine(lines: seq<string>, n: nat): string {
    if lines == [] then ""
    else if n <= |lines[0]| then lines[0][..n]
    else TornLine(lines[1..], n - |lines[0]| - 1)
  }

  lemma {:induction false} TornReadsBack(lines: seq<string>, n: nat)
    requires n <= |Written(lines)|
    requires forall i | 0 <= i < |lines| :: lines[i] != "" && IsTrimmed(lines[i]) && IsLine(lines[i])
    ensures forall l | l in Wanted(Written(lines)[..n]) :: l in lines || l == Trim(TornLine(lines, n))
    ensures Trim(TornLine(lines, n)) != "" ==> Trim(TornLine(lines, n)) in Wanted(Written(lines)[..n])
  {
    hide Trim, IsTrimmed, Trimmed, Lines, IsLine;
    if lines == [] {
      OneLine("");
    } else {
      var text, rest := Written(lines)[..n], Written(lines[1..]);
      if n <= |lines[0]| {
        assert text == lines[0][..n];
        PartOfLine(lines[0], n);
        OneLine(text);
      } else {
        var m := n - |lines[0]| - 1;
        assert text == lines[0] + "\n" + rest[..m];
        FirstLine(lines[0], rest[..m]);
        TrimmedFirst(lines[0], Lines(rest[..m]));
        TrimmedStays(lines[0]);
        TornReadsBack(lines[1..], m);
        assert Wanted(text) == [lines[0]] + Wanted(rest[..m]);
        assert forall l | l in lines[1..] :: l in lines;
      }
    }
  }

  lemma PartOfLine(line: string, n: nat)
    requires IsLine(line) && n <= |line|
    ensures NoneIn(line[..n], '\n')
  {
  }

  lemma OneLine(text: string)
    requires NoneIn(text, '\n')
    ensures Wanted(text) == if Trim(text) == "" then [] else [Trim(text)]
  {
    assert IndexOf(text, '\n') == |text|;
    if text != "" {
      assert Lines(text) == [text] + [];
      TrimmedFirst(text, []);
    }
  }

  lemma TrimmedFirst(line: string, rest: seq<string>)
    ensures Trimmed([line] + rest) == (if Trim(line) != "" then [Trim(line)] else []) + Trimmed(rest)
  {
  }

  /**
   * The record is written in place, so it can be cut short. Nothing has been switched off by
   * then, and restoring leaves every radio as it was exactly when the cut line, trimmed, does not
   * happen to name a radio that the user has off.
   */
  lemma TornExactly(before: seq<Radio>, leftover: Option<string>, n: nat)
    requires WellListed(before) && n <= |Written(Labels(ToBlock(before)))|
    ensures var torn := Trim(TornLine(Labels(ToBlock(before)), n));
      Restored(TornAt(World(before, leftover), n), {}).radios == before <==>
        forall i | 0 <= i < |before| && before[i].soft :: Label(before[i]) != Some(torn)
  {
    hide ToBlock, Written, Trim, Trimmed, Lines, IsLine, IsTrimmed, Clean, Label, TornLine, ToUnblock, SwitchedOn;
    var labels := Labels(ToBlock(before));
    var torn := Trim(TornLine(labels, n));
    var wanted := Wanted(Written(labels)[..n]);
    LabelsAreLines(before);
    forall k | 0 <= k < |labels| ensures labels[k] != "" && IsTrimmed(labels[k]) && IsLine(labels[k]) {
      assert labels[k] in labels;
    }
    TornReadsBack(labels, n);
    SetOfLabels(ToBlock(before));
    var indices := ToUnblock(wanted, before);
    var freed := OnByLabel(wanted, before, {}, |indices|);
    forall i | 0 <= i < |before| && before[i].soft && Label(before[i]).Some?
      ensures Label(before[i]).value in freed <==> Label(before[i]).value == torn
    {
      LabelIsLine(before[i]);
      if Label(before[i]).value in wanted {
        var k := FreedAll(wanted, before, i);
        assert indices[..|indices|][k] == before[i].index;
        if Label(before[i]).value in LabelSet(ToBlock(before)) {
          TargetsWereOn(before, i);
        }
      }
    }
  }

  const PHY10: Radio := Radio(0, Wlan, "phy10", false, false)
  const PHY1: Radio := Radio(1, Wlan, "phy1", true, false)

  lemma TheirLabels()
    ensures Label(PHY10) == Some("wlan phy10") && Label(PHY1) == Some("wlan phy1")
  {
    assert Label(PHY10).value == "wlan phy10" && Label(PHY1).value == "wlan phy1";
  }

  lemma TheirNamesAreClean()
    ensures Clean(PHY10.name) && Clean(PHY1.name)
  {
  }

  lemma TwoRadios()
    ensures WellListed([PHY10, PHY1])
    ensures Labels(ToBlock([PHY10, PHY1])) == ["wlan phy10"] && Label(PHY1) == Some("wlan phy1")
  {
    hide Label, Clean;
    TheirLabels();
    TheirNamesAreClean();
    assert "wlan phy10"[8] == '1' && |"wlan phy10"| != |"wlan phy1"|;
    assert [PHY10, PHY1][1..] == [PHY1] && [PHY1][1..] == [];
    assert ToBlock([PHY1]) == [];
  }

  lemma TornAtNine()
    ensures Written(["wlan phy10"]) == "wlan phy10\n"
    ensures TornLine(["wlan phy10"], 9) == "wlan phy1" && Trim("wlan phy1") == "wlan phy1"
  {
    TrimmedStays("wlan phy1");
  }

  /** A line cut short can be another radio's whole label: `phy1`, which the user had off, comes on. */
  lemma TornLineNamesAnother()
    ensures WellListed([PHY10, PHY1])
    ensures Restored(TornAt(World([PHY10, PHY1], None), 9), {}).radios != [PHY10, PHY1]
  {
    hide Trim, TrimStart, TrimEnd, IsTrimmed, ToBlock, Written, TornLine, Restored, ToUnblock, Label, WellListed;
    TwoRadios();
    TornAtNine();
    TornExactly([PHY10, PHY1], None, 9);
    assert [PHY10, PHY1][1].soft;
  }

  // ---- What a close does ---------------------------------------------------------------------

  lemma {:induction false} TargetAll(radios: seq<Radio>, j: nat) returns (k: nat)
    requires j < |radios| && !radios[j].soft && !radios[j].hard && Label(radios[j]).Some?
    ensures k < |ToBlock(radios)| && ToBlock(radios)[k] == (radios[j].index, Label(radios[j]).value)
  {
    if j == 0 {
      k := 0;
    } else {
      k := TargetAll(radios[1..], j - 1);
      var r := radios[0];
      k := if !r.soft && !r.hard && Label(r).Some? then k + 1 else k;
    }
  }

  /**
   * A close at which nothing refuses leaves every managed radio blocked and changes nothing else;
   * and its record lists exactly the managed radios that nothing had blocked.
   */
  lemma CloseBlocksAll(w: World)
    requires WellListed(w.radios)
    ensures var after := OffAt(w, |ToBlock(w.radios)|);
      && |after.radios| == |w.radios|
      && (forall i | 0 <= i < |w.radios| ::
            var r := w.radios[i];
            after.radios[i] == r.(soft := r.soft || (!r.hard && !r.kind.Other?)))
      && after.record.Some?
      && (forall l :: l in Wanted(after.record.value) <==>
            exists i | 0 <= i < |w.radios| ::
              Label(w.radios[i]) == Some(l) && !w.radios[i].soft && !w.radios[i].hard)
  {
    hide ToBlock, WellListed, SwitchedOff, Wanted, Written, Label;
    var targets := ToBlock(w.radios);
    OffByLabel(w.radios, |targets|);
    assert targets[..|targets|] == targets;
    RecordReadsBack(w.radios);
    forall i | 0 <= i < |w.radios|
      ensures Label(w.radios[i]).Some? ==>
        (Label(w.radios[i]).value in LabelSet(targets) <==> !w.radios[i].soft && !w.radios[i].hard)
      ensures Label(w.radios[i]).None? <==> w.radios[i].kind.Other?
    {
      OnTheListExactly(w.radios, i);
    }
    forall l ensures l in Labels(targets) <==>
      exists i | 0 <= i < |w.radios| :: Label(w.radios[i]) == Some(l) && !w.radios[i].soft && !w.radios[i].hard
    {
      ListedExactly(w.radios, l);
    }
  }

  lemma OnTheListExactly(radios: seq<Radio>, i: nat)
    requires WellListed(radios) && i < |radios|
    ensures Label(radios[i]).None? <==> radios[i].kind.Other?
    ensures Label(radios[i]).Some? ==>
      (Label(radios[i]).value in LabelSet(ToBlock(radios)) <==> !radios[i].soft && !radios[i].hard)
  {
    hide ToBlock;
    var targets := ToBlock(radios);
    if Label(radios[i]).Some? {
      if Label(radios[i]).value in LabelSet(targets) {
        var k :| 0 <= k < |targets| && targets[k].1 == Label(radios[i]).value;
        var j := TargetIs(radios, k);
        assert i == j;
      } else if !radios[i].soft && !radios[i].hard {
        var k := TargetAll(radios, i);
      }
    }
  }

  lemma ListedExactly(radios: seq<Radio>, l: string)
    ensures l in Labels(ToBlock(radios)) <==>
      exists i | 0 <= i < |radios| :: Label(radios[i]) == Some(l) && !radios[i].soft && !radios[i].hard
  {
    hide ToBlock, Label;
    var targets := ToBlock(radios);
    if l in Labels(targets) {
      var k :| 0 <= k < |targets| && Labels(targets)[k] == l;
      var j := TargetIs(radios, k);
    }
    if i: nat :| i < |radios| && Label(radios[i]) == Some(l) && !radios[i].soft && !radios[i].hard {
      var k := TargetAll(radios, i);
      assert Labels(targets)[k] == l;
    }
  }

  /** How the record names a radio. */
  lemma RecordOnFile(index: nat, name: string)
    ensures Labels(ToBlock([Radio(index, Wlan, name, false, false)])) == ["wlan " + name]
    ensures Labels(ToBlock([Radio(index, Bluetooth, name, false, false)])) == ["bluetooth " + name]
  {
    assert ToBlock([]) == [];
    assert "wlan" + " " + name == "wlan " + name;
    assert "bluetooth" + " " + name == "bluetooth " + name;
  }
}
