/** What the lid policy guarantees over every run of reports, ticks and stops, on any clock. */
module LidRuns {
  import opened Wrappers
  import opened Lid

  function After(c: Config, events: seq<Event>): State
    decreases |events|
  {
    if events == [] then INITIAL
    else Step(c, After(c, events[..|events| - 1]), events[|events| - 1]).0
  }

  /** What the k-th event brings about. */
  function Emitted(c: Config, events: seq<Event>, k: nat): seq<Effect>
    requires k < |events|
  {
    Step(c, After(c, events[..k]), events[k]).1
  }

  function Effects(c: Config, events: seq<Event>): seq<Effect>
    decreases |events|
  {
    if events == [] then []
    else Effects(c, events[..|events| - 1]) + Emitted(c, events, |events| - 1)
  }

  // ---- The poweroff --------------------------------------------------------------------------

  function LastReport(events: seq<Event>): Option<bool>
    decreases |events|
  {
    if events == [] then None
    else
      var last := events[|events| - 1];
      if last.Report? then Some(last.closed) else LastReport(events[..|events| - 1])
  }

  /** The j-th event is the lid going from reported open to reported closed. */
  predicate Closes(events: seq<Event>, j: nat)
    requires j < |events|
  {
    events[j].Report? && events[j].closed && LastReport(events[..j]) == Some(false)
  }

  /** From the j-th event on, the lid is never reported open and the agent does not stop. */
  predicate StaysClosed(events: seq<Event>, j: nat)
    requires j < |events|
  {
    forall i | j < i < |events| :: !Ends(events[i])
  }

  /** An open or a stop. */
  predicate Ends(e: Event) {
    e.Stop? || (e.Report? && !e.closed)
  }

  /** The close at j has left a poweroff pending. */
  predicate Pending(c: Config, events: seq<Event>, j: nat)
    requires j < |events|
  {
    c.action.Shutdown? && Closes(events, j) && StaysClosed(events, j)
  }

  function Due(c: Config, events: seq<Event>, j: nat): Monotonic
    requires j < |events| && Closes(events, j)
  {
    events[j].now + c.delay
  }

  predicate Asked(c: Config, events: seq<Event>) {
    exists k: nat | k < |events| :: PowerOff in Emitted(c, events, k)
  }

  lemma EmittedInPrefix(c: Config, events: seq<Event>, n: nat, k: nat)
    requires k < n <= |events|
    ensures Emitted(c, events[..n], k) == Emitted(c, events, k)
  {
    assert events[..n][..k] == events[..k];
  }

  lemma ClosesInPrefix(events: seq<Event>, n: nat, j: nat)
    requires j < n <= |events|
    ensures Closes(events[..n], j) == Closes(events, j)
  {
    assert events[..n][..j] == events[..j];
  }

  lemma AskedOneMore(c: Config, events: seq<Event>)
    requires events != []
    ensures var n := |events| - 1;
      Asked(c, events) <==> Asked(c, events[..n]) || PowerOff in Emitted(c, events, n)
  {
    var n := |events| - 1;
    forall k: nat | k < n ensures Emitted(c, events[..n], k) == Emitted(c, events, k) {
      EmittedInPrefix(c, events, n, k);
    }
    if Asked(c, events[..n]) {
      var k: nat :| k < n && PowerOff in Emitted(c, events[..n], k);
      assert PowerOff in Emitted(c, events, k);
    }
  }

  lemma HeldInPrefix(events: seq<Event>, j: nat)
    requires events != [] && j < |events| - 1
    ensures var n := |events| - 1;
      Closes(events, j) && StaysClosed(events, j) <==>
        Closes(events[..n], j) && StaysClosed(events[..n], j) && !Ends(events[n])
  {
    ClosesInPrefix(events, |events| - 1, j);
  }

  lemma {:induction false} FlagsExplained(c: Config, events: seq<Event>)
    ensures var s := After(c, events);
      && s.closed == LastReport(events)
      && (s.poweringOff <==> Asked(c, events))
      && (s.poweringOff ==> s.shutdownAt.None?)
    decreases |events|
  {
    if events != [] {
      FlagsExplained(c, events[..|events| - 1]);
      AskedOneMore(c, events);
    }
  }

  lemma PendingOneMore(c: Config, events: seq<Event>, j: nat)
    requires events != [] && j < |events| - 1
    ensures var n := |events| - 1;
      && (Pending(c, events, j) <==> Pending(c, events[..n], j) && !Ends(events[n]))
      && (Pending(c, events[..n], j) ==>
           Closes(events, j) && Due(c, events, j) == Due(c, events[..n], j) && LastReport(events[..n]) == Some(true))
  {
    var n := |events| - 1;
    HeldInPrefix(events, j);
    ClosesInPrefix(events, n, j);
    if Pending(c, events[..n], j) {
      LastStaysClosed(events[..n], j);
    }
  }

  /** A poweroff the state holds is one the history explains, and the other way round. */
  lemma {:induction false} ShutdownExplained(c: Config, events: seq<Event>)
    ensures var s := After(c, events);
      && (s.shutdownAt.Some? ==>
           exists j: nat | j < |events| :: Pending(c, events, j) && s.shutdownAt == Some(Due(c, events, j)))
      && (!s.poweringOff ==>
           forall j: nat | j < |events| && Pending(c, events, j) :: s.shutdownAt == Some(Due(c, events, j)))
    decreases |events|
  {
    if events != [] {
      hide StaysClosed;
      var n := |events| - 1;
      var before, s := events[..n], After(c, events);
      ShutdownExplained(c, before);
      FlagsExplained(c, before);
      LastHolds(events);
      forall j: nat | j < |events| && Pending(c, events, j) && !s.poweringOff
        ensures s.shutdownAt == Some(Due(c, events, j))
      {
        if j < n {
          PendingOneMore(c, events, j);
        }
      }
      if After(c, before).shutdownAt.Some? {
        var j: nat :| j < n && Pending(c, before, j) && After(c, before).shutdownAt == Some(Due(c, before, j));
        PendingOneMore(c, events, j);
        assert s.shutdownAt.Some? ==> Pending(c, events, j);
      } else if s.shutdownAt.Some? {
        assert Pending(c, events, n);
      }
    }
  }

  lemma StateExplained(c: Config, events: seq<Event>)
    ensures var s := After(c, events);
      && s.closed == LastReport(events)
      && (s.poweringOff <==> Asked(c, events))
      && (s.poweringOff ==> s.shutdownAt.None?)
      && (s.shutdownAt.Some? ==>
           exists j: nat | j < |events| :: Pending(c, events, j) && s.shutdownAt == Some(Due(c, events, j)))
      && (!s.poweringOff ==>
           forall j: nat | j < |events| && Pending(c, events, j) :: s.shutdownAt == Some(Due(c, events, j)))
  {
    FlagsExplained(c, events);
    ShutdownExplained(c, events);
  }

  lemma LastHolds(events: seq<Event>)
    requires events != []
    ensures StaysClosed(events, |events| - 1)
  {
  }

  lemma {:induction false} LastStaysClosed(events: seq<Event>, j: nat)
    requires j < |events| && Closes(events, j) && StaysClosed(events, j)
    ensures LastReport(events) == Some(true)
    decreases |events|
  {
    var n := |events| - 1;
    if j < n && !events[n].Report? {
      ClosesInPrefix(events, n, j);
      LastStaysClosed(events[..n], j);
    }
  }

  /**
   * Exactly when the machine is powered off: on a tick no earlier than the delay after a close
   * that no open and no stop has followed, under the shutdown action, and never a second time.
   */
  lemma PowersOffExactly(c: Config, events: seq<Event>, k: nat)
    requires k < |events|
    ensures PowerOff in Emitted(c, events, k) <==>
      && events[k].Tick?
      && !Asked(c, events[..k])
      && exists j: nat | j < k :: Pending(c, events[..k], j) && Due(c, events[..k], j) <= events[k].now
  {
    var before := events[..k];
    StateExplained(c, before);
    forall j: nat | j < k && Pending(c, before, j) ensures LastReport(before) == Some(true) {
      LastStaysClosed(before, j);
    }
  }

  /** It is asked for at most once. */
  lemma PowersOffOnce(c: Config, events: seq<Event>, i: nat, k: nat)
    requires i < k < |events|
    requires PowerOff in Emitted(c, events, i)
    ensures PowerOff !in Emitted(c, events, k)
  {
    PowersOffExactly(c, events, k);
    EmittedInPrefix(c, events, k, i);
  }

  // ---- What closing turned down --------------------------------------------------------------

  predicate Now(isDown: bool, e: Effect, down: Effect, up: Effect) {
    e == down || (e != up && isDown)
  }

  /** Which of the two effects came last. */
  predicate DownAfter(isDown: bool, effects: seq<Effect>, down: Effect, up: Effect)
    decreases |effects|
  {
    if effects == [] then isDown else DownAfter(Now(isDown, effects[0], down, up), effects[1..], down, up)
  }

  /** `down` only while up, and `up` only while down. */
  predicate Alternate(isDown: bool, effects: seq<Effect>, down: Effect, up: Effect)
    decreases |effects|
  {
    effects != [] ==>
      && (effects[0] == down ==> !isDown)
      && (effects[0] == up ==> isDown)
      && Alternate(Now(isDown, effects[0], down, up), effects[1..], down, up)
  }

  lemma {:induction false} LastOfTwo(isDown: bool, a: seq<Effect>, b: seq<Effect>, down: Effect, up: Effect)
    ensures DownAfter(isDown, a + b, down, up) == DownAfter(DownAfter(isDown, a, down, up), b, down, up)
    decreases |a|
  {
    hide Now;
    if a == [] {
      assert a + b == b;
    } else {
      LastOfTwo(Now(isDown, a[0], down, up), a[1..], b, down, up);
      assert (a + b)[0] == a[0] && (a + b)[1..] == a[1..] + b;
    }
  }

  lemma {:induction false} OneAfterAnother(isDown: bool, a: seq<Effect>, b: seq<Effect>, down: Effect, up: Effect)
    ensures DownAfter(isDown, a + b, down, up) == DownAfter(DownAfter(isDown, a, down, up), b, down, up)
    ensures Alternate(isDown, a + b, down, up) ==
      (Alternate(isDown, a, down, up) && Alternate(DownAfter(isDown, a, down, up), b, down, up))
    decreases |a|
  {
    hide Now;
    LastOfTwo(isDown, a, b, down, up);
    if a == [] {
      assert a + b == b;
    } else {
      OneAfterAnother(Now(isDown, a[0], down, up), a[1..], b, down, up);
      assert (a + b)[0] == a[0] && (a + b)[1..] == a[1..] + b;
    }
  }

  /** A close that no open and no stop has followed. */
  predicate Held(events: seq<Event>) {
    exists j: nat | j < |events| :: Closes(events, j) && StaysClosed(events, j)
  }

  lemma HeldOneMore(events: seq<Event>)
    requires events != []
    ensures var n := |events| - 1;
      Held(events) <==> Closes(events, n) || (Held(events[..n]) && !Ends(events[n]))
  {
    hide Closes, StaysClosed;
    var n := |events| - 1;
    var before := events[..n];
    LastHolds(events);
    forall j: nat | j < n
      ensures Closes(events, j) && StaysClosed(events, j) <==>
        Closes(before, j) && StaysClosed(before, j) && !Ends(events[n])
    {
      HeldInPrefix(events, j);
    }
    if Held(before) && !Ends(events[n]) {
      var j: nat :| j < n && Closes(before, j) && StaysClosed(before, j);
      assert Closes(events, j) && StaysClosed(events, j);
    }
  }

  lemma {:induction false} SavingExplained(c: Config, events: seq<Event>)
    ensures After(c, events).saving ==
      if c.action.PowerSave? && Held(events) then Some(Saving(c.radiosOff, c.cpuThrottle)) else None
    decreases |events|
  {
    if events != [] {
      var n := |events| - 1;
      var before := events[..n];
      SavingExplained(c, before);
      StateExplained(c, before);
      HeldOneMore(events);
      if Held(before) {
        var j: nat :| j < n && Closes(before, j) && StaysClosed(before, j);
        LastStaysClosed(before, j);
      }
    }
  }

  predicate Radios(s: State) { s.saving.Some? && s.saving.value.radios }
  predicate Cpu(s: State) { s.saving.Some? && s.saving.value.cpu }

  predicate Fits(isDown: bool, e: Effect, down: Effect, up: Effect) {
    (e == down ==> !isDown) && (e == up ==> isDown)
  }

  lemma FirstOf(isDown: bool, effects: seq<Effect>, down: Effect, up: Effect)
    ensures effects == [] ==> DownAfter(isDown, effects, down, up) == isDown && Alternate(isDown, effects, down, up)
    ensures effects != [] ==>
      var next := Now(isDown, effects[0], down, up);
      && DownAfter(isDown, effects, down, up) == DownAfter(next, effects[1..], down, up)
      && Alternate(isDown, effects, down, up) ==
           (Fits(isDown, effects[0], down, up) && Alternate(next, effects[1..], down, up))
  {
  }

  lemma UpToThree(isDown: bool, effects: seq<Effect>, down: Effect, up: Effect)
    requires |effects| <= 3
    ensures
      var first := if |effects| > 0 then Now(isDown, effects[0], down, up) else isDown;
      var second := if |effects| > 1 then Now(first, effects[1], down, up) else first;
      && DownAfter(isDown, effects, down, up) ==
           (if |effects| > 2 then Now(second, effects[2], down, up) else second)
      && Alternate(isDown, effects, down, up) ==
           ((|effects| > 0 ==> Fits(isDown, effects[0], down, up))
            && (|effects| > 1 ==> Fits(first, effects[1], down, up))
            && (|effects| > 2 ==> Fits(second, effects[2], down, up)))
  {
    hide Now, Fits, DownAfter, Alternate;
    FirstOf(isDown, effects, down, up);
    if |effects| > 0 {
      var first := Now(isDown, effects[0], down, up);
      FirstOf(first, effects[1..], down, up);
      if |effects| > 1 {
        var second := Now(first, effects[1], down, up);
        assert effects[1..][1..] == effects[2..];
        FirstOf(second, effects[2..], down, up);
        if |effects| > 2 {
          assert effects[2..][1..] == [];
          FirstOf(Now(second, effects[2], down, up), [], down, up);
        }
      }
    }
  }

  /** One event: what was down is still the last of its pair, or goes up; nothing goes down twice. */
  lemma StepAlternates(c: Config, s: State, e: Event)
    requires s.saving.Some? ==> s.closed == Some(true) && s.shutdownAt.None?
    ensures var (s', more) := Step(c, s, e);
      && Alternate(Radios(s), more, RadiosOff, RadiosRestore)
      && DownAfter(Radios(s), more, RadiosOff, RadiosRestore) == Radios(s')
      && Alternate(Cpu(s), more, CpuCap(true), CpuCap(false))
      && DownAfter(Cpu(s), more, CpuCap(true), CpuCap(false)) == Cpu(s')
      && DownAfter(s.saving.Some?, more, ScreenOff, ScreenOn) == s'.saving.Some?
  {
    hide DownAfter, Alternate;
    var more := Step(c, s, e).1;
    UpToThree(Radios(s), more, RadiosOff, RadiosRestore);
    UpToThree(Cpu(s), more, CpuCap(true), CpuCap(false));
    UpToThree(s.saving.Some?, more, ScreenOff, ScreenOn);
  }

  lemma {:induction false} EffectsFollowState(c: Config, events: seq<Event>)
    ensures var s, all := After(c, events), Effects(c, events);
      && Alternate(false, all, RadiosOff, RadiosRestore)
      && DownAfter(false, all, RadiosOff, RadiosRestore) == Radios(s)
      && Alternate(false, all, CpuCap(true), CpuCap(false))
      && DownAfter(false, all, CpuCap(true), CpuCap(false)) == Cpu(s)
      && DownAfter(false, all, ScreenOff, ScreenOn) == s.saving.Some?
    decreases |events|
  {
    if events != [] {
      hide DownAfter, Alternate, Step, Held;
      var n := |events| - 1;
      var before := events[..n];
      EffectsFollowState(c, before);
      SavingIsHeld(c, before);
      StepAlternates(c, After(c, before), events[n]);
      var all, more := Effects(c, before), Emitted(c, events, n);
      OneAfterAnother(false, all, more, RadiosOff, RadiosRestore);
      OneAfterAnother(false, all, more, CpuCap(true), CpuCap(false));
      OneAfterAnother(false, all, more, ScreenOff, ScreenOn);
    }
  }

  lemma SavingIsHeld(c: Config, events: seq<Event>)
    ensures var s := After(c, events);
      s.saving.Some? ==> s.closed == Some(true) && s.shutdownAt.None?
  {
    StateExplained(c, events);
    SavingExplained(c, events);
    if c.action.PowerSave? && Held(events) {
      var j: nat :| j < |events| && Closes(events, j) && StaysClosed(events, j);
      LastStaysClosed(events, j);
    }
  }

  /**
   * Over every run, switching the radios off and restoring them strictly alternate, capping the
   * CPU and lifting the cap strictly alternate, a stop included; and each is down exactly while
   * the configuration asks for it and a close has been followed by neither an open nor a stop.
   */
  lemma DownExactlyWhileHeld(c: Config, events: seq<Event>)
    ensures var all := Effects(c, events);
      && Alternate(false, all, RadiosOff, RadiosRestore)
      && Alternate(false, all, CpuCap(true), CpuCap(false))
      && (DownAfter(false, all, RadiosOff, RadiosRestore) <==> c.action.PowerSave? && c.radiosOff && Held(events))
      && (DownAfter(false, all, CpuCap(true), CpuCap(false)) <==>
            c.action.PowerSave? && c.cpuThrottle && Held(events))
      && (DownAfter(false, all, ScreenOff, ScreenOn) <==> c.action.PowerSave? && Held(events))
  {
    hide DownAfter, Alternate, Held;
    EffectsFollowState(c, events);
    SavingExplained(c, events);
  }

  /** The alert and its cancellation: opening the lid in time says so, and only then. */
  lemma CancelledExactly(c: Config, events: seq<Event>, k: nat)
    requires k < |events|
    ensures ShutdownCancelled in Emitted(c, events, k) <==>
      && events[k].Report? && !events[k].closed
      && !Asked(c, events[..k])
      && exists j: nat | j < k :: Pending(c, events[..k], j)
  {
    var before := events[..k];
    StateExplained(c, before);
    forall j: nat | j < k && Pending(c, before, j) ensures LastReport(before) == Some(true) {
      LastStaysClosed(before, j);
    }
  }

  /** The countdown is announced, with its length, at every close before the poweroff is asked for. */
  lemma AlertedExactly(c: Config, events: seq<Event>, k: nat, delay: nat)
    requires k < |events|
    ensures ShutdownAlert(delay) in Emitted(c, events, k) <==>
      delay == c.delay && c.action.Shutdown? && Closes(events, k) && !Asked(c, events[..k])
  {
    FlagsExplained(c, events[..k]);
  }

  /** The screen goes off at a close under the saving action, and on at an open or at a stop that ends one. */
  lemma ScreenExactly(c: Config, events: seq<Event>, k: nat)
    requires k < |events|
    ensures ScreenOff in Emitted(c, events, k) <==> c.action.PowerSave? && Closes(events, k)
    ensures ScreenOn in Emitted(c, events, k) <==>
      || (events[k].Report? && !events[k].closed && LastReport(events[..k]) == Some(true))
      || (events[k].Stop? && c.action.PowerSave? && Held(events[..k]))
  {
    FlagsExplained(c, events[..k]);
    SavingExplained(c, events[..k]);
  }
}
