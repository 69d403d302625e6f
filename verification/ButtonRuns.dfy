/** What the case button does over whole sequences of presses, in any environment. */
module ButtonRuns {
  import opened Wrappers
  import opened Clock
  import opened Logind
  import opened Button

  /** One press: when it was made, what logind held, and how reads and commands went. */
  datatype Moment = Moment(now: Monotonic, found: Option<Shutdown>, x: Weather)

  function Outcomes(armed: bool, full: bool, s: State, presses: seq<Moment>): (os: seq<Outcome>)
    ensures |os| == |presses|
    decreases |presses|
  {
    if presses == [] then []
    else
      var o := Handle(armed, full, s, presses[0].found, presses[0].now, presses[0].x);
      [o] + Outcomes(armed, full, o.state, presses[1..])
  }

  /** Acted on, or turned down for a reason other than being a bounce of the press before. */
  predicate Considered(o: Outcome) {
    o.action != Ignore(NotConfigured) && o.action != Ignore(Bounce)
  }

  predicate InOrder(presses: seq<Moment>) {
    forall i, j | 0 <= i < j < |presses| :: presses[i].now <= presses[j].now
  }

  /** What a press finds pending after its last read, if it issues no command of its own. */
  function Left(p: Moment): Option<Shutdown> {
    if p.x.readable && p.found.Some? then Changed(p.found, p.x.beforeWall) else p.found
  }

  // ---- One press, input by input -------------------------------------------------------------

  /** Less than a second after the last press that counted, or before it. */
  predicate Bounces(s: State, p: Moment) {
    s.last.Some? && p.now < s.last.value + 1_000_000_000
  }

  /** What is pending is on record, or is worded like the button's. */
  predicate KnowsIt(s: State, p: Moment)
    requires p.found.Some?
  {
    || s.ours == Some(p.found.value.at)
    || Wall(Changed(p.found, p.x.beforeWall), p.x.wallReadable) == Some(MESSAGE)
  }

  /** Exactly when each verdict is given, and what each leads to. */
  lemma VerdictsExactly(armed: bool, full: bool, s: State, p: Moment)
    ensures var o := Handle(armed, full, s, p.found, p.now, p.x);
      var counts := armed && !Bounces(s, p);
      && (o.action == Ignore(NotConfigured) <==> !armed)
      && (o.action == Ignore(Bounce) <==> armed && Bounces(s, p))
      && (o.action == Ignore(Unreadable) <==> counts && !p.x.readable)
      && (o.action == Schedule <==> counts && p.x.readable && p.found.None?)
      && (o.action == Cancel <==> counts && p.x.readable && p.found.Some? && KnowsIt(s, p))
      && (o.action == Ignore(SomeoneElses) <==> counts && p.x.readable && p.found.Some? && !KnowsIt(s, p))
      && (o.done <==> (o.action == Schedule && full && p.x.accepts) || (o.action == Cancel && p.x.cancels))
  {
    hide MESSAGE;
  }

  /** Exactly what is remembered, and what becomes of the slot if nobody else acts after the last read. */
  lemma PressLeaves(armed: bool, full: bool, s: State, p: Moment)
    requires p.x.beforeCommand.Quiet? && p.x.beforeReadback.Quiet?
    ensures var o := Handle(armed, full, s, p.found, p.now, p.x);
      && (o.action == Schedule && o.done ==>
            && o.logind == Some(Shutdown(p.x.placed, MESSAGE, CaseButton))
            && o.state.ours == Some(if p.x.backReadable then p.x.placed else Intended(60_000_000_000, p.x.now)))
      && (o.action == Cancel && o.done ==> o.logind.None? && o.state.ours.None?)
      && (o.action == Cancel && !o.done ==> o.state.ours == Some(p.found.value.at))
      && (o.action == Ignore(SomeoneElses) || (o.action == Schedule && !o.done) ==> o.state.ours.None?)
      && (o.action in {Ignore(NotConfigured), Ignore(Bounce), Ignore(Unreadable)} ==>
            o.state.ours == if p.x.readable && p.found.Some? && KnowsIt(State(None, None), p) then Some(p.found.value.at)
                            else s.ours)
      && (!o.done ==> o.logind == Left(p))
  {
    hide MESSAGE;
  }

  /** The pulses that count as presses, by the edges and their widths. */
  lemma {:induction false} PressesAre(edges: seq<Edge>, n: nat, at: Monotonic)
    requires n <= |edges|
    ensures at in PressTimes(edges, n) <==>
      exists i | 1 <= i < n ::
        && edges[i - 1].Rising? && edges[i].Falling? && edges[i].at == at
        && 10_000_000 <= at - edges[i - 1].at <= 40_000_000
  {
    if n > 0 {
      PressesAre(edges, n - 1, at);
    }
  }

  /** A press counts exactly if the button is armed and the last that counted is long enough ago. */
  lemma WhatCounts(armed: bool, full: bool, s: State, p: Moment)
    ensures var o := Handle(armed, full, s, p.found, p.now, p.x);
      && (Considered(o) <==> armed && !(s.last.Some? && Width(s.last.value, p.now) < MIN_GAP))
      && o.state.last == if Considered(o) then Some(p.now) else s.last
  {
    hide MESSAGE;
  }

  lemma {:induction false} NotSoonAfter(armed: bool, full: bool, s: State, presses: seq<Moment>, j: nat)
    requires j < |presses| && InOrder(presses)
    requires s.last.Some? && s.last.value <= presses[0].now
    requires Considered(Outcomes(armed, full, s, presses)[j])
    ensures presses[j].now - s.last.value >= MIN_GAP
    decreases |presses|
  {
    hide Handle, Considered;
    WhatCounts(armed, full, s, presses[0]);
    if j > 0 {
      var o := Handle(armed, full, s, presses[0].found, presses[0].now, presses[0].x);
      NotSoonAfter(armed, full, o.state, presses[1..], j - 1);
    }
  }

  /** However a contact bounces, two presses that count are at least a second apart. */
  lemma {:induction false} PressesAreApart(
    armed: bool, full: bool, s: State, presses: seq<Moment>, i: nat, j: nat)
    requires i < j < |presses| && InOrder(presses)
    requires Considered(Outcomes(armed, full, s, presses)[i]) && Considered(Outcomes(armed, full, s, presses)[j])
    ensures presses[j].now - presses[i].now >= MIN_GAP
    decreases |presses|
  {
    hide Handle, Considered;
    var o := Handle(armed, full, s, presses[0].found, presses[0].now, presses[0].x);
    if i > 0 {
      PressesAreApart(armed, full, o.state, presses[1..], i - 1, j - 1);
    } else {
      WhatCounts(armed, full, s, presses[0]);
      NotSoonAfter(armed, full, o.state, presses[1..], j - 1);
    }
  }

  /** Unconfigured, no press touches logind; outside full mode, none places a poweroff. */
  lemma {:induction false} OnlyArmedInFullModePlaces(armed: bool, full: bool, s: State, presses: seq<Moment>, i: nat)
    requires i < |presses|
    ensures var o := Outcomes(armed, full, s, presses)[i];
      && (!armed ==> o.action == Ignore(NotConfigured) && o.logind == Left(presses[i]))
      && (!full ==> o.action.Cancel? || (!o.done && o.logind == Left(presses[i])))
    decreases |presses|
  {
    if i > 0 {
      var o := Handle(armed, full, s, presses[0].found, presses[0].now, presses[0].x);
      OnlyArmedInFullModePlaces(armed, full, o.state, presses[1..], i - 1);
    }
  }

  /**
   * The announced way out: a second press, a second or more after the one that placed the
   * poweroff, cancels it exactly when its message can be read or the record is logind's own time;
   * and after a restart in between, exactly when its message can be read.
   */
  lemma SecondPressCancels(s: State, l: Option<Shutdown>, first: Moment, second: Moment)
    requires second.now >= first.now + MIN_GAP && second.x.readable
    requires first.x.beforeReadback.Quiet? && second.x.beforeWall.Quiet?
    requires var o := Handle(true, true, s, l, first.now, first.x); o.action.Schedule? && o.done
    requires second.found == Handle(true, true, s, l, first.now, first.x).logind
    ensures var o := Handle(true, true, s, l, first.now, first.x);
      && o.logind == Some(Shutdown(first.x.placed, MESSAGE, CaseButton))
      && (Handle(true, true, o.state, second.found, second.now, second.x).action.Cancel? <==>
            second.x.wallReadable || o.state.ours == Some(first.x.placed))
      && (Handle(true, true, FRESH, second.found, second.now, second.x).action.Cancel? <==> second.x.wallReadable)
  {
  }
}
