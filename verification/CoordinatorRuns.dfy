/** What the coordinator does over whole sequences of polls, in any environment. */
module CoordinatorRuns {
  import opened Wrappers
  import opened Clock
  import opened Logind
  import opened Coordinator

  /** One poll, with whatever logind happens to hold when it is made. */
  datatype Poll = Poll(decision: Decision, found: Option<Shutdown>, x: Weather)

  function Step(c: Config, s: State, p: Poll): Outcome {
    Decide(c, s, p.found, p.decision, p.x)
  }

  /** The outcome of every poll of a run. */
  function Outcomes(c: Config, s: State, polls: seq<Poll>): (os: seq<Outcome>)
    ensures |os| == |polls|
    decreases |polls|
  {
    if polls == [] then []
    else var o := Step(c, s, polls[0]); [o] + Outcomes(c, o.state, polls[1..])
  }

  function Final(c: Config, s: State, polls: seq<Poll>): State
    decreases |polls|
  {
    if polls == [] then s else Final(c, Step(c, s, polls[0]).state, polls[1..])
  }

  // ---- One poll, input by input --------------------------------------------------------------

  /** Within 90 s of one another. */
  predicate Near(a: Time, b: Time) {
    -90_000_000_000 <= a - b <= 90_000_000_000
  }

  predicate AdvisedLive(c: Config, s: State, p: Poll) {
    p.decision.advice.AdviseShutdown? && !c.dryRun && !s.stoodDown
  }

  predicate MainsIsBack(p: Poll) {
    !p.decision.advice.AdviseShutdown? && p.decision.level.OnMains? && p.decision.confirmedRecovery
  }

  /** Read, and not the one on record. */
  predicate SeesAnother(s: State, p: Poll) {
    s.ours.Some? && p.x.readable && (p.found.None? || !Near(s.ours.value, p.found.value.at))
  }

  /** Another is pending in place of the one on record, or an advised poll finds nothing pending. */
  predicate Displaced(c: Config, s: State, p: Poll) {
    && SeesAnother(s, p)
    && (AdvisedLive(c, s, p) || (MainsIsBack(p) && !c.dryRun && p.found.Some?))
  }

  /** Exactly when each command is issued; held for uptime, never. */
  lemma CommandsExactly(c: Config, s: State, p: Poll)
    ensures var call := Step(c, s, p).call;
      && (call.ScheduleCall? <==> AdvisedLive(c, s, p) && s.ours.None? && (!p.x.readable || p.found.None?))
      && (call.CancelCall? <==>
            MainsIsBack(p) && !c.dryRun && s.ours.Some? && (p.found.Some? ==> !SeesAnother(s, p)))
      && (p.decision.advice.HeldForUptime? ==> !call.ScheduleCall?)
      && (call.ScheduleCall? ==> call.accepted == p.x.accepts)
      && (call.CancelCall? ==> call.accepted == p.x.cancels)
  {
  }

  /** Exactly when each action is reported. */
  lemma ActionsExactly(c: Config, s: State, p: Poll)
    ensures var o := Step(c, s, p);
      && (o.action.Scheduled? <==> o.call == ScheduleCall(true))
      && (o.action.Cancelled? <==> o.call == CancelCall(true))
      && (o.action.Failed? <==> o.call == ScheduleCall(false) || o.call == CancelCall(false))
      && (o.action.OverriddenByOperator? <==> AdvisedLive(c, s, p) && SeesAnother(s, p) && p.found.None?)
      && (o.action.WouldSchedule? <==>
            p.decision.advice.AdviseShutdown? && c.dryRun && !s.stoodDown && s.dryPending.None?)
      && (o.action.WouldCancel? <==> MainsIsBack(p) && c.dryRun && s.dryPending.Some?)
  {
  }

  /** A pending shutdown is taken over by its message, or reported as another's, exactly as follows. */
  lemma TakesOverExactly(c: Config, s: State, p: Poll)
    ensures var o, mine := Step(c, s, p), IsOurs(Wall(Changed(p.found, p.x.beforeWall), p.x.wallReadable));
      && (o.action.Adopted? <==>
            AdvisedLive(c, s, p) && s.ours.None? && p.x.readable && p.found.Some? && mine)
      && (o.action.AlreadyPending? <==>
            AdvisedLive(c, s, p) && p.x.readable && p.found.Some? && (if s.ours.None? then !mine else SeesAnother(s, p)))
      && (o.action.Adopted? || o.action.AlreadyPending? ==> o.action.at == p.found.value.at)
  {
    hide SHUTDOWN_MESSAGE, Contains;
  }

  /** Exactly what is remembered: the record, the stand-down and the dry run's own. */
  lemma MemoryExactly(c: Config, s: State, p: Poll)
    ensures var o := Step(c, s, p);
      && (o.state.stoodDown <==> !MainsIsBack(p) && (s.stoodDown || (AdvisedLive(c, s, p) && SeesAnother(s, p))))
      && o.state.ours ==
           (if o.action.Adopted? || o.action.Scheduled? then Some(o.action.at)
            else if o.action.Cancelled? || Displaced(c, s, p) then None else s.ours)
      && (o.state.dryPending.Some? <==>
            if c.dryRun && MainsIsBack(p) then false else s.dryPending.Some? || o.action.WouldSchedule?)
  {
    hide SHUTDOWN_MESSAGE, Contains;
  }

  /** What is reported scheduled is the deadline read back, and the estimate where there is none. */
  lemma ReportedTime(c: Config, s: State, p: Poll)
    requires Step(c, s, p).action.Scheduled?
    ensures var o := Step(c, s, p);
      && (p.x.backReadable && p.x.beforeReadback.Quiet? ==> o.action.at == p.x.placed)
      && (!p.x.backReadable ==> o.action.at == Intended(c.delay, p.x.now))
  {
  }

  // ---- Scheduled once ------------------------------------------------------------------------

  predicate NoRecovery(polls: seq<Poll>) {
    forall i | 0 <= i < |polls| :: !polls[i].decision.Recovers()
  }

  /** Holding a record, or having stood down, nothing is scheduled before a confirmed recovery. */
  lemma {:induction false} NothingScheduled(c: Config, s: State, polls: seq<Poll>, j: nat)
    requires s.ours.Some? || s.stoodDown
    requires j < |polls| && NoRecovery(polls[..j])
    ensures !Outcomes(c, s, polls)[j].call.ScheduleCall?
    decreases j
  {
    var o := Step(c, s, polls[0]);
    if j > 0 {
      assert polls[..j][0] == polls[0];
      assert polls[..j][1..] == polls[1..][..j - 1];
      NothingScheduled(c, o.state, polls[1..], j - 1);
    }
  }

  /**
   * Two accepted schedule commands always have a confirmed recovery between them, whatever reads
   * of logind return and whoever else acts.
   */
  lemma {:induction false} ScheduledOnce(c: Config, s: State, polls: seq<Poll>, i: nat, j: nat)
    requires i < j < |polls|
    requires Outcomes(c, s, polls)[i].action.Scheduled? && Outcomes(c, s, polls)[j].call.ScheduleCall?
    ensures !NoRecovery(polls[i + 1..j])
    decreases i
  {
    var o := Step(c, s, polls[0]);
    if i > 0 {
      ScheduledOnce(c, o.state, polls[1..], i - 1, j - 1);
      var before, after := polls[1..][i..j - 1], polls[i + 1..j];
      assert forall k | 0 <= k < |after| :: before[k] == after[k];
      assert before == after;
    } else if NoRecovery(polls[1..j]) {
      assert polls[1..][..j - 1] == polls[1..j];
      NothingScheduled(c, o.state, polls[1..], j - 1);
    }
  }

  // ---- Holds are invisible -------------------------------------------------------------------

  function WithoutHolds(polls: seq<Poll>): seq<Poll> {
    if polls == [] then []
    else (if polls[0].decision.Holds() then [] else [polls[0]]) + WithoutHolds(polls[1..])
  }

  /** The power commands a run issues, each with what logind holds afterwards. */
  function Calls(os: seq<Outcome>): seq<(Call, Option<Shutdown>)> {
    if os == [] then []
    else (if os[0].call.NoCall? then [] else [(os[0].call, os[0].logind)]) + Calls(os[1..])
  }

  /** Failed reads, wobbling gauges and the hold after boot change neither calls nor final state. */
  lemma {:induction false} HoldsAreInvisible(c: Config, s: State, polls: seq<Poll>)
    ensures Final(c, s, WithoutHolds(polls)) == Final(c, s, polls)
    ensures Calls(Outcomes(c, s, WithoutHolds(polls))) == Calls(Outcomes(c, s, polls))
    decreases |polls|
  {
    if polls != [] {
      var o := Step(c, s, polls[0]);
      HoldsAreInvisible(c, o.state, polls[1..]);
      assert Outcomes(c, s, polls)[1..] == Outcomes(c, o.state, polls[1..]);
      if !polls[0].decision.Holds() {
        var kept := WithoutHolds(polls);
        assert kept[0] == polls[0] && kept[1..] == WithoutHolds(polls[1..]);
        assert Outcomes(c, s, kept)[1..] == Outcomes(c, o.state, kept[1..]);
      } else {
        assert WithoutHolds(polls) == WithoutHolds(polls[1..]);
      }
    }
  }

  // ---- Dry run -------------------------------------------------------------------------------

  /** In every environment a dry run issues no command and never reports a scheduled time. */
  lemma {:induction false} DryRunTouchesNothing(c: Config, s: State, polls: seq<Poll>, i: nat)
    requires c.dryRun && s.ours.None? && i < |polls|
    ensures var o := Outcomes(c, s, polls)[i];
      o.call.NoCall? && o.logind == polls[i].found && o.state.ours.None?
    decreases |polls|
  {
    if i > 0 {
      DryRunTouchesNothing(c, Step(c, s, polls[0]).state, polls[1..], i - 1);
    }
  }

  datatype Moment = Moment(decision: Decision, x: Weather)

  /** The actions of a run with no other actor: what one poll leaves, the next one finds. */
  function Solo(c: Config, s: State, l: Option<Shutdown>, moments: seq<Moment>): (actions: seq<Action>)
    ensures |actions| == |moments|
    decreases |moments|
  {
    if moments == [] then []
    else
      var o := Decide(c, s, l, moments[0].decision, moments[0].x);
      [o.action] + Solo(c, o.state, o.logind, moments[1..])
  }

  /** Nobody else acts between one operation of a poll and the next. */
  predicate Undisturbed(x: Weather) {
    x.beforeWall.Quiet? && x.beforeCommand.Quiet? && x.beforeReadback.Quiet?
  }

  /** No command is refused, nobody acts in between, and deadlines are near their estimate. */
  predicate Obliging(c: Config, m: Moment) {
    m.x.accepts && m.x.cancels && Undisturbed(m.x) && Prompt(c.delay, m.x.now, m.x.placed)
  }

  /** A dry run's stand-in for a real run's action. */
  function Pretend(a: Action): Action {
    match a
    case Scheduled(_) => WouldSchedule
    case Cancelled => WouldCancel
    case _ => a
  }

  /**
   * With no other actor and no refused command, a dry run reports exactly what the real run does,
   * poll for poll: even through reads of logind that fail.
   */
  lemma {:induction false} DryRunPredicts(
    c: Config, live: State, dry: State, l: Option<Shutdown>, other: Option<Shutdown>, moments: seq<Moment>, i: nat)
    requires !c.dryRun && i < |moments|
    requires !live.stoodDown && !dry.stoodDown
    requires live.ours.Some? <==> dry.dryPending.Some?
    requires live.ours.Some? <==> l.Some?
    requires l.Some? ==> SameShutdown(live.ours.value, l.value.at)
    requires forall k | 0 <= k < |moments| :: Obliging(c, moments[k])
    ensures var would := c.(dryRun := true);
      Solo(would, dry, other, moments)[i] == Pretend(Solo(c, live, l, moments)[i])
    decreases |moments|
  {
    var m := moments[0];
    assert Obliging(c, m);
    var o := Decide(c, live, l, m.decision, m.x);
    var o' := Decide(c.(dryRun := true), dry, other, m.decision, m.x);
    if i > 0 {
      DryRunPredicts(c, o.state, o'.state, o.logind, o'.logind, moments[1..], i - 1);
    }
  }

  // ---- Restart -------------------------------------------------------------------------------

  /** Equal, or holding records of one shutdown that differ within the tolerance. */
  predicate Alike(a: State, b: State) {
    || a == b
    || (a.ours.Some? && b.ours.Some? && SameShutdown(a.ours.value, b.ours.value) && a == b.(ours := a.ours))
  }

  /** No other shutdown falls in one record's tolerance and outside the other's. */
  predicate Unambiguous(a: Time, b: Time, polls: seq<Poll>) {
    forall i | 0 <= i < |polls| ::
      polls[i].found.Some? ==>
        (SameShutdown(a, polls[i].found.value.at) <==> SameShutdown(b, polls[i].found.value.at))
  }

  lemma {:induction false} AlikeActAlike(c: Config, a: State, b: State, polls: seq<Poll>)
    requires Alike(a, b) && !c.dryRun
    requires a != b ==> Unambiguous(a.ours.value, b.ours.value, polls)
    ensures |Outcomes(c, a, polls)| == |Outcomes(c, b, polls)|
    ensures forall i | 0 <= i < |polls| ::
      var o, o' := Outcomes(c, a, polls)[i], Outcomes(c, b, polls)[i];
      o.action == o'.action && o.call == o'.call && o.logind == o'.logind && Alike(o.state, o'.state)
    decreases |polls|
  {
    if polls != [] {
      var o, o' := Step(c, a, polls[0]), Step(c, b, polls[0]);
      assert Alike(o.state, o'.state) && o.action == o'.action && o.call == o'.call && o.logind == o'.logind;
      assert o.state != o'.state ==> o.state.ours == a.ours && o'.state.ours == b.ours;
      AlikeActAlike(c, o.state, o'.state, polls[1..]);
    }
  }

  /** Time and message of our poweroff can both be read, and it stays pending in between. */
  predicate Recognisable(s: Shutdown, x: Weather) {
    x.readable && x.beforeWall.Quiet? && IsOurs(Wall(Some(s), x.wallReadable))
  }

  predicate AllHold(polls: seq<Poll>) {
    forall i | 0 <= i < |polls| :: polls[i].decision.Holds()
  }

  lemma {:induction false} HoldingKeeps(c: Config, s: State, polls: seq<Poll>)
    requires AllHold(polls)
    ensures Final(c, s, polls) == s
    decreases |polls|
  {
    if polls != [] {
      HoldingKeeps(c, s, polls[1..]);
    }
  }

  lemma FirstAdviceAdopts(c: Config, former: State, s: Shutdown, first: Poll)
    requires !c.dryRun && !former.stoodDown && former.dryPending.None?
    requires former.ours.Some? && SameShutdown(former.ours.value, s.at)
    requires first.decision.Advises() && first.found == Some(s) && Recognisable(s, first.x)
    ensures var restarted, kept := Step(c, FRESH, first), Step(c, former, first);
      && restarted.action == Adopted(s.at) && kept.action == NoAction
      && restarted.logind == kept.logind == Some(s)
      && kept.state == former && restarted.state == former.(ours := Some(s.at))
  {
  }

  /**
   * A coordinator restarted while our poweroff is pending, after any holds: its first advised
   * poll takes the poweroff back, and from then on every action, call and effect on logind is
   * the one the coordinator that was never restarted would have had.
   */
  lemma RestartIsTransparent(
    c: Config, former: State, s: Shutdown, holds: seq<Poll>, first: Poll, rest: seq<Poll>)
    requires !c.dryRun && !former.stoodDown && former.dryPending.None?
    requires former.ours.Some? && SameShutdown(former.ours.value, s.at)
    requires AllHold(holds) && first.decision.Advises()
    requires first.found == Some(s) && Recognisable(s, first.x)
    requires Unambiguous(former.ours.value, s.at, rest)
    ensures var restarted := Step(c, Final(c, FRESH, holds), first);
      var kept := Step(c, Final(c, former, holds), first);
      && restarted.action == Adopted(s.at) && kept.action == NoAction
      && restarted.logind == kept.logind == Some(s)
      && forall i | 0 <= i < |rest| ::
          var o, o' := Outcomes(c, restarted.state, rest)[i], Outcomes(c, kept.state, rest)[i];
          o.action == o'.action && o.call == o'.call && o.logind == o'.logind
  {
    hide SHUTDOWN_MESSAGE, Contains;
    HoldingKeeps(c, FRESH, holds);
    HoldingKeeps(c, former, holds);
    FirstAdviceAdopts(c, former, s, first);
    AlikeActAlike(c, Step(c, FRESH, first).state, former, rest);
  }

  /**
   * The one way a restart shows: the first decision that is not a hold is a recovery. The
   * restarted coordinator has adopted nothing and leaves the poweroff pending; the other cancels.
   */
  lemma RestartShowsOnlyAtRecovery(c: Config, former: State, s: Shutdown, first: Poll)
    requires !c.dryRun && !former.stoodDown && former.dryPending.None?
    requires former.ours.Some? && SameShutdown(former.ours.value, s.at)
    requires !first.decision.Holds()
    requires first.found == Some(s) && Recognisable(s, first.x) && first.x.cancels && Undisturbed(first.x)
    ensures Step(c, FRESH, first).logind == Step(c, former, first).logind <==> first.decision.Advises()
    ensures first.decision.Recovers() ==>
      Step(c, FRESH, first).logind == Some(s) && Step(c, former, first).logind == None
  {
  }

  // ---- What a recovery takes -----------------------------------------------------------------

  /**
   * With nobody else acting in between, a recovery leaves what is pending alone exactly when it
   * could be read and is more than 90 s from the record; nearer, or unread, it is cancelled,
   * whoever placed it. The record is given up either way.
   */
  lemma RecoveryTakes(c: Config, s: State, p: Poll)
    requires MainsIsBack(p) && !c.dryRun && p.x.cancels && Undisturbed(p.x)
    requires s.ours.Some? && p.found.Some?
    ensures var o := Step(c, s, p);
      && (o.logind == p.found <==> p.x.readable && !Near(s.ours.value, p.found.value.at))
      && (o.logind.None? <==> !p.x.readable || Near(s.ours.value, p.found.value.at))
      && o.state.ours.None?
  {
  }
}
