/**
 * Control requests on their way to the UPS thread: each client sends, then raises a flag that ends
 * the thread's sleep; the thread clears the flag, then drains the queue. The atomic operations
 * interleave freely and are sequentially consistent.
 */
module Handover {
  import opened Wrappers

  /** Requests are numbered in the order they enter the queue. */
  type Ticket = nat

  type Client = nat

  /** Where a client is in `relay`. */
  datatype Phase = Elsewhere | Sent(ticket: Ticket) | Waiting(ticket: Ticket)

  /** Where the UPS thread is: outside `serve_requests`, between receives, with a request, or gone. */
  datatype Thread = Away | Draining | Holding(ticket: Ticket) | Ended

  datatype State = State(
    queue: seq<Ticket>,
    flag: bool,
    clients: map<Client, Phase>,
    thread: Thread,
    answered: seq<Ticket>,
    next: nat)

  const INITIAL: State := State([], false, map[], Away, [], 0)

  function PhaseOf(s: State, c: Client): Phase {
    if c in s.clients then s.clients[c] else Elsewhere
  }

  datatype Step =
    | Send(client: Client)          // put the request in the queue
    | Raise(client: Client)         // store the flag
    | GiveUp(client: Client)        // the answer came, or waiting for it timed out
    | Clear                         // the thread starts serving
    | Receive                       // it tries to take a request
    | Answer                        // it answers the one it took
    | End                           // it stops for good

  predicate Enabled(s: State, step: Step) {
    match step
    case Send(c) => PhaseOf(s, c).Elsewhere?
    case Raise(c) => PhaseOf(s, c).Sent?
    case GiveUp(c) => PhaseOf(s, c).Waiting?
    case Clear => s.thread.Away?
    case Receive => s.thread.Draining?
    case Answer => s.thread.Holding?
    case End => s.thread.Away?
  }

  function Next(s: State, step: Step): State
    requires Enabled(s, step)
  {
    match step
    case Send(c) =>
      if s.thread.Ended? then s
      else s.(queue := s.queue + [s.next], clients := s.clients[c := Sent(s.next)], next := s.next + 1)
    case Raise(c) => s.(flag := true, clients := s.clients[c := Waiting(s.clients[c].ticket)])
    case GiveUp(c) => s.(clients := s.clients[c := Elsewhere])
    case Clear => s.(flag := false, thread := Draining)
    case Receive =>
      if s.queue == [] then s.(thread := Away)
      else s.(queue := s.queue[1..], thread := Holding(s.queue[0]))
    case Answer => s.(answered := s.answered + [s.thread.ticket], thread := Draining)
    case End => s.(thread := Ended)
  }

  predicate Runs(s: State, steps: seq<Step>)
    decreases |steps|
  {
    steps != [] ==> Enabled(s, steps[0]) && Runs(Next(s, steps[0]), steps[1..])
  }

  function Run(s: State, steps: seq<Step>): State
    requires Runs(s, steps)
    decreases |steps|
  {
    if steps == [] then s else Run(Next(s, steps[0]), steps[1..])
  }

  // ---- What every run keeps ------------------------------------------------------------------

  /** The request is in the hands of its own client, between the send and the store. */
  predicate AboutToRaise(s: State, t: Ticket) {
    exists c | c in s.clients :: s.clients[c] == Sent(t)
  }

  /** Nothing waits unseen: asleep with the flag down, only requests whose clients are about to raise it. */
  predicate NoneUnseen(s: State) {
    s.thread.Away? && !s.flag ==> forall i | 0 <= i < |s.queue| :: AboutToRaise(s, s.queue[i])
  }

  function InHand(thread: Thread): seq<Ticket> {
    if thread.Holding? then [thread.ticket] else []
  }

  /** Every request ever sent, in order: answered, in hand, or waiting. */
  predicate Accounted(s: State) {
    && s.answered + InHand(s.thread) + s.queue == seq(s.next, i => i)
    && (forall c | c in s.clients && !s.clients[c].Elsewhere? :: s.clients[c].ticket < s.next)
    && (forall c, d | c in s.clients && d in s.clients && c != d
                      && !s.clients[c].Elsewhere? && !s.clients[d].Elsewhere? ::
          s.clients[c].ticket != s.clients[d].ticket)
  }

  lemma SendKeeps(s: State, c: Client)
    requires NoneUnseen(s) && Accounted(s) && PhaseOf(s, c).Elsewhere?
    ensures NoneUnseen(Next(s, Send(c))) && Accounted(Next(s, Send(c)))
  {
    var s' := Next(s, Send(c));
    if !s.thread.Ended? {
      assert s'.answered + InHand(s'.thread) + s'.queue == (s.answered + InHand(s.thread) + s.queue) + [s.next];
      if s.thread.Away? && !s.flag {
        forall i | 0 <= i < |s'.queue| ensures AboutToRaise(s', s'.queue[i]) {
          if i < |s.queue| {
            assert AboutToRaise(s, s.queue[i]);
            var d :| d in s.clients && s.clients[d] == Sent(s.queue[i]);
            assert s'.clients[d] == Sent(s'.queue[i]);
          } else {
            assert s'.clients[c] == Sent(s'.queue[i]);
          }
        }
      }
    }
  }

  lemma GiveUpKeeps(s: State, c: Client)
    requires NoneUnseen(s) && Accounted(s) && PhaseOf(s, c).Waiting?
    ensures NoneUnseen(Next(s, GiveUp(c))) && Accounted(Next(s, GiveUp(c)))
  {
    var s' := Next(s, GiveUp(c));
    forall t | AboutToRaise(s, t) ensures AboutToRaise(s', t) {
      var d :| d in s.clients && s.clients[d] == Sent(t);
      assert s'.clients[d] == Sent(t);
    }
  }

  lemma ThreadKeeps(s: State, step: Step)
    requires NoneUnseen(s) && Accounted(s) && Enabled(s, step) && (step.Receive? || step.Answer?)
    ensures NoneUnseen(Next(s, step)) && Accounted(Next(s, step))
  {
  }

  lemma StepKeeps(s: State, step: Step)
    requires NoneUnseen(s) && Accounted(s) && Enabled(s, step)
    ensures NoneUnseen(Next(s, step)) && Accounted(Next(s, step))
  {
    match step
    case Send(c) => SendKeeps(s, c);
    case GiveUp(c) => GiveUpKeeps(s, c);
    case Receive => ThreadKeeps(s, step);
    case Answer => ThreadKeeps(s, step);
    case Raise(_) =>
    case Clear =>
    case End =>
  }

  /**
   * Under every interleaving of any number of clients with the thread: a request in the queue
   * while the thread is asleep has either set the flag or has a client about to; and the requests
   * answered, in hand and waiting are together all that were ever sent, in order, each once.
   */
  lemma {:induction false} RunKeeps(s: State, steps: seq<Step>)
    requires NoneUnseen(s) && Accounted(s) && Runs(s, steps)
    ensures NoneUnseen(Run(s, steps)) && Accounted(Run(s, steps))
    decreases |steps|
  {
    if steps != [] {
      StepKeeps(s, steps[0]);
      RunKeeps(Next(s, steps[0]), steps[1..]);
    }
  }

  /**
   * No lost wakeup: with a request in the queue, the flag is set, or its client is between the
   * send and the store, or the thread is between clearing the flag and its last empty receive, or
   * it has ended. So once no client is in the middle of sending, the flag is up.
   */
  lemma NoLostWakeup(steps: seq<Step>)
    requires Runs(INITIAL, steps)
    ensures var s := Run(INITIAL, steps);
      && (forall i | 0 <= i < |s.queue| ::
            s.flag || AboutToRaise(s, s.queue[i]) || s.thread.Draining? || s.thread.Holding? || s.thread.Ended?)
      && (s.thread.Away? && s.queue != [] && (forall c | c in s.clients :: !s.clients[c].Sent?) ==> s.flag)
  {
    RunKeeps(INITIAL, steps);
    var s := Run(INITIAL, steps);
    if s.queue != [] && !s.flag && s.thread.Away? {
      assert AboutToRaise(s, s.queue[0]);
    }
  }

  /** No request is answered twice, and none is answered before one sent earlier. */
  lemma AnsweredInOrder(steps: seq<Step>)
    requires Runs(INITIAL, steps)
    ensures var s := Run(INITIAL, steps);
      |s.answered| <= s.next && forall i | 0 <= i < |s.answered| :: s.answered[i] == i
  {
    RunKeeps(INITIAL, steps);
    var s := Run(INITIAL, steps);
    var all := s.answered + InHand(s.thread) + s.queue;
    forall i | 0 <= i < |s.answered| ensures s.answered[i] == i {
      assert all[i] == s.answered[i];
    }
  }

  /**
   * Whoever sends in the meantime: when the receive that ends a drain finds nothing, every request
   * sent up to that moment has been answered.
   */
  lemma DrainAnswersAll(steps: seq<Step>)
    requires Runs(INITIAL, steps)
    requires Run(INITIAL, steps).thread.Draining? && Run(INITIAL, steps).queue == []
    ensures var s := Next(Run(INITIAL, steps), Receive);
      s.thread.Away? && |s.answered| == s.next && forall t: nat | t < s.next :: t in s.answered
  {
    RunKeeps(INITIAL, steps);
    AnsweredInOrder(steps);
    var s := Run(INITIAL, steps);
    assert s.answered + InHand(s.thread) + s.queue == s.answered;
    forall t: nat | t < s.next ensures t in s.answered {
      assert s.answered[t] == t;
    }
  }

  // ---- The operations ------------------------------------------------------------------------

  class Mailbox {
    var queue: seq<Ticket>
    var flag: bool
    var answered: seq<Ticket>
    var next: nat
    var thread: Thread
    ghost var clients: map<Client, Phase>

    ghost function Snapshot(): State
      reads this
    {
      State(queue, flag, clients, thread, answered, next)
    }

    constructor ()
      ensures Snapshot() == INITIAL
    {
      queue, flag, answered, next, thread, clients := [], false, [], 0, Away, map[];
    }

    /** The first half of `relay`. */
    method SendRequest(c: Client) returns (accepted: bool)
      requires Enabled(Snapshot(), Send(c))
      modifies this
      ensures Snapshot() == Next(old(Snapshot()), Send(c)) && accepted == !old(thread).Ended?
    {
      if thread.Ended? {
        return false;
      }
      queue := queue + [next];
      clients := clients[c := Sent(next)];
      next := next + 1;
      return true;
    }

    /** The second half: the flag ends the thread's sleep between polls. */
    method RaiseFlag(c: Client)
      requires Enabled(Snapshot(), Raise(c))
      modifies this
      ensures Snapshot() == Next(old(Snapshot()), Raise(c))
    {
      flag := true;
      clients := clients[c := Waiting(clients[c].ticket)];
    }

    /** `relay`, up to the wait for an answer, with nobody else at work in between. */
    method Relay(c: Client) returns (accepted: bool)
      requires Enabled(Snapshot(), Send(c))
      modifies this
      ensures accepted == !old(thread).Ended?
      ensures var sent := Next(old(Snapshot()), Send(c));
        Snapshot() == if accepted then Next(sent, Raise(c)) else sent
      ensures accepted ==> flag && queue == old(queue) + [old(next)]
    {
      accepted := SendRequest(c);
      if accepted {
        RaiseFlag(c);
      }
    }

    method ClearFlag()
      requires thread.Away?
      modifies this
      ensures Snapshot() == Next(old(Snapshot()), Clear)
    {
      flag, thread := false, Draining;
    }

    method TryReceive() returns (taken: Option<Ticket>)
      requires thread.Draining?
      modifies this
      ensures Snapshot() == Next(old(Snapshot()), Receive)
      ensures taken == if old(queue) == [] then None else Some(old(queue)[0])
    {
      if queue == [] {
        thread := Away;
        return None;
      }
      taken := Some(queue[0]);
      thread, queue := Holding(queue[0]), queue[1..];
    }

    method Reply(t: Ticket)
      requires thread == Holding(t)
      modifies this
      ensures Snapshot() == Next(old(Snapshot()), Answer)
    {
      answered, thread := answered + [t], Draining;
    }

    /** `serve_requests`, with nobody else at work in between. */
    method ServeRequests()
      requires thread.Away?
      modifies this
      ensures thread.Away? && !flag && queue == [] && answered == old(answered) + old(queue)
      ensures clients == old(clients) && next == old(next)
    {
      ClearFlag();
      var taken := TryReceive();
      while taken.Some?
        invariant thread == if taken.Some? then Holding(taken.value) else Away
        invariant !flag && clients == old(clients) && next == old(next)
        invariant answered + InHand(thread) + queue == old(answered) + old(queue)
        invariant taken.None? ==> queue == []
        decreases |queue| + (if taken.Some? then 1 else 0)
      {
        Reply(taken.value);
        taken := TryReceive();
      }
    }
  }
}
