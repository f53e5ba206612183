/** Round robin chosen by several threads at once.

    A selection takes the next value of the shared counter in one atomic step and then
    looks at one backend after another while other threads do the same.  Backend states
    are fixed. */
module Tickets {
  import opened Outcomes
  import opened Rotation
  import opened Selection

  /** A thread between two selections, or one that has taken a value of the counter, as the
      `order`-th to do so, and will look at the backend `offset` places from it. */
  datatype Picker = Waiting | Looking(order: nat, ticket: nat, offset: nat)

  datatype Outcome = Undecided | Decided(choice: Option<nat>)

  /** `outcomes` holds the selections in the order in which they took their values. */
  datatype Table = Table(next: nat, pickers: seq<Picker>, outcomes: seq<Outcome>)

  function Decide(s: Table, t: nat, order: nat, choice: Option<nat>): Table
    requires t < |s.pickers| && order < |s.outcomes|
  {
    s.(pickers := s.pickers[t := Waiting], outcomes := s.outcomes[order := Decided(choice)])
  }

  /** The next step of one thread. */
  function Step(states: seq<BackendState>, s: Table, t: nat): Table
    requires states != [] && t < |s.pickers|
    requires s.pickers[t].Looking? ==> s.pickers[t].order < |s.outcomes|
  {
    match s.pickers[t]
    case Waiting =>
      Table((s.next + 1) % WORD, s.pickers[t := Looking(|s.outcomes|, s.next, 0)], s.outcomes + [Undecided])
    case Looking(order, ticket, offset) =>
      if offset >= |states| then Decide(s, t, order, None)
      else
        var index := Slot(ticket, offset, |states|);
        if states[index].Up? then Decide(s, t, order, Some(index))
        else s.(pickers := s.pickers[t := Looking(order, ticket, offset + 1)])
  }

  function Ticket(start: nat, order: nat): nat {
    (start + order) % WORD
  }

  /** A thread looks where its own value of the counter leads it. */
  predicate OnTrack(states: seq<BackendState>, s: Table, start: nat, p: Picker) {
    p.Looking? ==>
      && p.order < |s.outcomes| && p.ticket == Ticket(start, p.order)
      && Scan(states, p.ticket, p.offset) == RoundRobin(states, p.ticket)
  }

  predicate Right(states: seq<BackendState>, s: Table, start: nat, k: nat)
    requires k < |s.outcomes|
  {
    s.outcomes[k].Decided? ==> s.outcomes[k].choice == RoundRobin(states, Ticket(start, k))
  }

  ghost predicate InOrder(states: seq<BackendState>, s: Table, start: nat) {
    && s.next == Ticket(start, |s.outcomes|)
    && (forall t | 0 <= t < |s.pickers| :: OnTrack(states, s, start, s.pickers[t]))
    && (forall k | 0 <= k < |s.outcomes| :: Right(states, s, start, k))
  }

  lemma NextTicket(start: nat, k: nat)
    ensures (Ticket(start, k) + 1) % WORD == Ticket(start, k + 1)
  {
  }

  lemma StepKeeps(states: seq<BackendState>, s: Table, t: nat, start: nat)
    requires states != [] && InOrder(states, s, start) && t < |s.pickers|
    ensures OnTrack(states, s, start, s.pickers[t])
    ensures InOrder(states, Step(states, s, t), start)
  {
    var r := Step(states, s, t);
    NextTicket(start, |s.outcomes|);
    assert OnTrack(states, s, start, s.pickers[t]);
    forall u | 0 <= u < |r.pickers| ensures OnTrack(states, r, start, r.pickers[u]) {
      assert OnTrack(states, s, start, s.pickers[u]);
    }
    forall k | 0 <= k < |r.outcomes| ensures Right(states, r, start, k) {
      if k < |s.outcomes| { assert Right(states, s, start, k); }
    }
  }

  ghost predicate Next(states: seq<BackendState>, a: Table, b: Table)
    requires states != []
  {
    exists t: nat ::
      && t < |a.pickers| && (a.pickers[t].Looking? ==> a.pickers[t].order < |a.outcomes|)
      && b == Step(states, a, t)
  }

  ghost predicate IsRun(states: seq<BackendState>, run: seq<Table>)
    requires states != []
  {
    && |run| > 0 && run[0].next < WORD && run[0].outcomes == []
    && (forall t | 0 <= t < |run[0].pickers| :: run[0].pickers[t].Waiting?)
    && forall i | 0 <= i < |run| - 1 :: Next(states, run[i], run[i + 1])
  }

  lemma {:induction false} RunInOrder(states: seq<BackendState>, run: seq<Table>, i: nat)
    requires states != [] && IsRun(states, run) && i < |run|
    ensures InOrder(states, run[i], run[0].next)
  {
    if i == 0 {
    } else {
      RunInOrder(states, run, i - 1);
      assert Next(states, run[i - 1], run[i]);
      var t: nat :| t < |run[i - 1].pickers| && (run[i - 1].pickers[t].Looking? ==>
                    run[i - 1].pickers[t].order < |run[i - 1].outcomes|) && run[i] == Step(states, run[i - 1], t);
      StepKeeps(states, run[i - 1], t, run[0].next);
    }
  }

  /** However the threads interleave, the selection that was the k-th to take a value of the
      counter chooses what the policy chooses for the k-th value after the first. */
  lemma TicketDecides(states: seq<BackendState>, run: seq<Table>, i: nat, k: nat)
    requires states != [] && IsRun(states, run) && i < |run| && k < |run[i].outcomes|
    requires run[i].outcomes[k].Decided?
    ensures run[i].outcomes[k].choice == RoundRobin(states, (run[0].next + k) % WORD)
  {
    RunInOrder(states, run, i);
    assert Right(states, run[i], run[0].next, k);
  }

  /** How many of the `m` selections from the `from`-th on chose backend `b`. */
  function Chosen(outcomes: seq<Outcome>, b: nat, from: nat, m: nat): nat
    requires from + m <= |outcomes|
  {
    if m == 0 then 0
    else Chosen(outcomes, b, from, m - 1) + (if outcomes[from + m - 1] == Decided(Some(b)) then 1 else 0)
  }

  predicate AllDecided(outcomes: seq<Outcome>, from: nat, m: nat) {
    from + m <= |outcomes| && forall k | from <= k < from + m :: outcomes[k].Decided?
  }

  lemma {:induction false} ChosenArePicks(states: seq<BackendState>, run: seq<Table>, i: nat, b: nat, from: nat, m: nat)
    requires states != [] && IsRun(states, run) && i < |run| && AllDecided(run[i].outcomes, from, m)
    requires run[0].next + from + m <= WORD
    ensures Chosen(run[i].outcomes, b, from, m) == Picks(states, b, run[0].next + from, m)
  {
    if m == 0 {
    } else {
      ChosenArePicks(states, run, i, b, from, m - 1);
      TicketDecides(states, run, i, from + m - 1);
      Unwrapped(run[0].next + (from + m - 1));
    }
  }

  lemma Unwrapped(n: nat)
    requires n < WORD
    ensures n % WORD == n
  {
  }

  /** Exact shares under every interleaving: of any n consecutive selections over n backends,
      in the order in which they took their values, a backend that is Up gets one, and one
      more for every backend of the cyclic run that is not Up directly before it. */
  lemma SharesUnderThreads(states: seq<BackendState>, run: seq<Table>, i: nat, b: nat, from: nat)
    requires b < |states| && states[b].Up? && IsRun(states, run) && i < |run|
    requires AllDecided(run[i].outcomes, from, |states|) && run[0].next + from + 2 * |states| - 1 <= WORD
    ensures Chosen(run[i].outcomes, b, from, |states|) == 1 + Gap(states, b, 0)
  {
    ChosenArePicks(states, run, i, b, from, |states|);
    ExactShares(states, b, run[0].next + from);
  }

  /** With every backend Up, the shares of two backends in any stretch of decided selections
      differ by at most one, whichever threads made them. */
  lemma BalancedUnderThreads(states: seq<BackendState>, run: seq<Table>, i: nat, a: nat, b: nat, from: nat, m: nat)
    requires a < |states| && b < |states| && AllUp(states) && IsRun(states, run) && i < |run|
    requires AllDecided(run[i].outcomes, from, m) && run[0].next + from + m + |states| <= WORD
    ensures Chosen(run[i].outcomes, a, from, m) - Chosen(run[i].outcomes, b, from, m) <= 1
  {
    ChosenArePicks(states, run, i, a, from, m);
    ChosenArePicks(states, run, i, b, from, m);
    Balanced(states, a, b, run[0].next + from, m);
  }
}
