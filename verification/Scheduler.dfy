/** The scheduler object: counters and states in arrays, updated in place. */
module Schedulers {
  import opened Configs
  import opened Outcomes
  import opened Selection
  import H = Health

  function OneLess(n: nat): nat {
    if n == 0 then 0 else n - 1
  }

  class Scheduler {
    const policy: Policy
    var next: nat
    const active: array<nat>
    const total: array<nat>
    const errors: array<nat>
    const failures: array<nat>
    const states: array<BackendState>

    ghost predicate Valid()
      reads this
    {
      && active.Length == total.Length == errors.Length == failures.Length == states.Length
      && active != total && active != errors && active != failures
      && total != errors && total != failures && errors != failures
      && next < WORD
    }

    constructor (policy: Policy, count: nat)
      ensures Valid() && this.policy == policy && states.Length == count && next == 0
      ensures fresh(active) && fresh(total) && fresh(errors) && fresh(failures) && fresh(states)
      ensures states[..] == AllBackendsUp(count)
      ensures forall i | 0 <= i < count :: active[i] == total[i] == errors[i] == failures[i] == 0
    {
      this.policy, next := policy, 0;
      active := new nat[count](i => 0);
      total := new nat[count](i => 0);
      errors := new nat[count](i => 0);
      failures := new nat[count](i => 0);
      states := new BackendState[count](i => Up);
    }

    /** The health record of one backend. */
    function Record(index: nat): H.Backend
      requires index < states.Length == failures.Length
      reads states, failures
    {
      H.Backend(states[index], failures[index])
    }

    /** Chooses a backend.  The draws are the random indices of the sampling loop. */
    method Select(draws: seq<(nat, nat)>) returns (r: Option<nat>)
      requires Valid()
      requires |draws| == 2 * states.Length && forall d | d in draws :: d.0 < states.Length && d.1 < states.Length
      modifies this`next
      ensures Valid()
      ensures next == if policy.RoundRobinPolicy? && states.Length > 0 then (old(next) + 1) % WORD else old(next)
      ensures match policy
              case RoundRobinPolicy => r == RoundRobin(states[..], old(next))
              case LeastConnectionsPolicy => r == LeastConnections(states[..], active[..])
              case PowerOfTwoChoicesPolicy => r == PowerOfTwo(states[..], active[..], draws)
      ensures r.Some? ==> r.value < states.Length && states[r.value].Up?
      ensures !policy.RoundRobinPolicy? || old(next) + states.Length <= WORD ==> (r.Some? <==> AnyUp(states[..]))
    {
      Facts(draws);
      if states.Length == 0 { return None; }
      match policy {
        case RoundRobinPolicy =>
          var start := next;
          next := (next + 1) % WORD;
          r := ScanFrom(start);
        case LeastConnectionsPolicy =>
          r := ScanLeast();
        case PowerOfTwoChoicesPolicy =>
          r := None;
          if states.Length > 1 {
            r := DrawPairs(draws);
          }
          if r.None? {
            r := ScanLeast();
          }
      }
    }

    lemma Facts(draws: seq<(nat, nat)>)
      requires Valid()
      requires forall d | d in draws :: d.0 < states.Length && d.1 < states.Length
      ensures var s, a := states[..], active[..];
              && (RoundRobin(s, next).Some? ==> RoundRobin(s, next).value < |s| && s[RoundRobin(s, next).value].Up?)
              && (next + |s| <= WORD ==> (RoundRobin(s, next).Some? <==> AnyUp(s)))
              && FirstLeast(s, a, |s|, LeastConnections(s, a))
              && (LeastConnections(s, a).Some? <==> AnyUp(s))
              && var p := PowerOfTwo(s, a, draws);
                 (p.Some? <==> AnyUp(s)) && (p.Some? ==> p.value < |s| && s[p.value].Up?)
    {
      RoundRobinSound(states[..], next);
      if next + states.Length <= WORD { RoundRobinComplete(states[..], next); }
      LeastIsFirst(states[..], active[..]);
      PowerOfTwoExact(states[..], active[..], draws);
    }

    method ScanFrom(start: nat) returns (r: Option<nat>)
      requires states.Length > 0
      ensures r == RoundRobin(states[..], start)
    {
      var offset := 0;
      while offset < states.Length
        invariant 0 <= offset <= states.Length
        invariant RoundRobin(states[..], start) == Scan(states[..], start, offset)
      {
        var index := (start + offset) % WORD % states.Length;
        if states[index].Up? { return Some(index); }
        offset := offset + 1;
      }
      r := None;
    }

    method ScanLeast() returns (r: Option<nat>)
      requires Valid()
      ensures r == LeastConnections(states[..], active[..])
    {
      r := None;
      var i := 0;
      while i < active.Length
        invariant 0 <= i <= active.Length && (r.Some? ==> r.value < active.Length)
        invariant LeastConnections(states[..], active[..]) == LeastFrom(states[..], active[..], i, r)
      {
        if states[i].Up? && (r.None? || active[i] < active[r.value]) {
          r := Some(i);
        }
        i := i + 1;
      }
    }

    method DrawPairs(draws: seq<(nat, nat)>) returns (r: Option<nat>)
      requires Valid()
      requires forall d | d in draws :: d.0 < states.Length && d.1 < states.Length
      ensures r == Sample(states[..], active[..], draws)
    {
      var attempts := 0;
      while attempts < |draws|
        invariant 0 <= attempts <= |draws|
        invariant forall d | d in draws[attempts..] :: d.0 < states.Length && d.1 < states.Length
        invariant Sample(states[..], active[..], draws) == Sample(states[..], active[..], draws[attempts..])
      {
        assert draws[attempts] in draws;
        var first, second := draws[attempts].0, draws[attempts].1;
        if !states[first].Up? && !states[second].Up? {
          assert draws[attempts..][1..] == draws[attempts + 1..];
          attempts := attempts + 1;
          continue;
        }
        if states[first].Up? && !states[second].Up? { return Some(first); }
        if !states[first].Up? && states[second].Up? { return Some(second); }
        return Some(if active[first] <= active[second] then first else second);
      }
      r := None;
    }

    /** The result is false where the original throws for an index out of range. */
    method MarkOpen(index: nat) returns (ok: bool)
      requires Valid()
      modifies active, total
      ensures ok == (index < active.Length)
      ensures active[..] == if ok then old(active[..])[index := old(active[index]) + 1] else old(active[..])
      ensures total[..] == if ok then old(total[..])[index := old(total[index]) + 1] else old(total[..])
    {
      if index >= active.Length { return false; }
      active[index] := active[index] + 1;
      total[index] := total[index] + 1;
      ok := true;
    }

    /** Never goes below zero, even when nothing is open.  The weak compare-exchange may
        fail for no reason, here `spurious` times; module Atomics adds other threads. */
    method MarkClosed(index: nat, spurious: nat) returns (ok: bool)
      requires Valid()
      modifies active
      ensures ok == (index < active.Length)
      ensures active[..] == if ok then old(active[..])[index := OneLess(old(active[index]))] else old(active[..])
    {
      if index >= active.Length { return false; }
      var current, left, exchanged := active[index], spurious, false;
      while current > 0 && !exchanged
        invariant if exchanged
                  then current > 0 && current == old(active[index]) &&
                       active[..] == old(active[..])[index := current - 1]
                  else active[..] == old(active[..]) && current == active[index]
        decreases !exchanged, left
      {
        if left == 0 {
          active[index] := current - 1;
          exchanged := true;
        } else {
          left := left - 1;
          current := active[index];
        }
      }
      ok := true;
    }

    method MarkFailure(index: nat) returns (ok: bool)
      requires Valid()
      modifies errors, failures
      ensures ok == (index < errors.Length)
      ensures errors[..] == if ok then old(errors[..])[index := old(errors[index]) + 1] else old(errors[..])
      ensures failures[..] ==
              if ok then old(failures[..])[index := (old(failures[index]) + 1) % H.WORD32] else old(failures[..])
      ensures ok ==> Record(index) == H.MarkFailure(old(Record(index)))
      ensures forall i | 0 <= i < states.Length && i != index :: Record(i) == old(Record(i))
    {
      if index >= errors.Length { return false; }
      errors[index] := errors[index] + 1;
      failures[index] := (failures[index] + 1) % H.WORD32;
      ok := true;
    }

    method SetState(index: nat, state: BackendState) returns (ok: bool)
      requires Valid()
      modifies states
      ensures ok == (index < states.Length)
      ensures states[..] == if ok then old(states[..])[index := state] else old(states[..])
      ensures ok ==> states[index] == state
      ensures forall i | 0 <= i < states.Length && i != index :: states[i] == old(states[i])
    {
      if index >= states.Length { return false; }
      states[index] := state;
      ok := true;
    }

    method MarkHealthy(index: nat) returns (ok: bool)
      requires Valid()
      modifies failures, states
      ensures ok == (index < states.Length)
      ensures failures[..] == if ok then old(failures[..])[index := 0] else old(failures[..])
      ensures states[..] ==
              if ok && old(states[index]).Down? then old(states[..])[index := Up] else old(states[..])
      ensures ok ==> Record(index) == H.Apply(old(Record(index)), H.Recover, 0)
      ensures forall i | 0 <= i < states.Length && (!ok || i != index) :: Record(i) == old(Record(i))
    {
      if index >= states.Length { return false; }
      failures[index] := 0;
      if states[index].Down? {
        ok := SetState(index, Up);
      }
      ok := true;
    }
  }
}
