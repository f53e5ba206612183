/** The runtime state object: what each recording operation does to the counters when it
    runs alone, and the peak loop under interference.  Module Atomics executes the same
    operations instruction by instruction. */
module Runtimes {
  import opened Calls
  import opened Configs
  import opened Outcomes
  import opened Selection
  import opened Schedulers
  import H = Health

  function Larger(a: nat, b: nat): nat {
    if b > a then b else a
  }

  function Highest(values: seq<nat>): nat {
    if values == [] then 0 else Larger(Highest(values[..|values| - 1]), values[|values| - 1])
  }

  lemma HighestAppend(values: seq<nat>, v: nat)
    ensures Highest(values + [v]) == Larger(Highest(values), v)
  {
    assert (values + [v])[..|values|] == values;
  }

  /** The first `n` values that the others bring. */
  function Brought(others: nat -> nat, n: nat): (values: seq<nat>)
    ensures |values| == n
  {
    seq(n, k requires k >= 0 => others(k))
  }

  lemma NothingBrought(peak: nat, value: nat, others: nat -> nat)
    ensures Highest([peak, value] + Brought(others, 0)) == Larger(peak, value)
  {
    HighestAppend([], peak);
    HighestAppend([peak], value);
    assert [] + [peak] == [peak];
    assert [peak, value] + Brought(others, 0) == [peak] + [value];
  }

  lemma OneMoreBrought(peak: nat, value: nat, others: nat -> nat, n: nat)
    ensures Highest([peak, value] + Brought(others, n + 1)) ==
            Larger(Highest([peak, value] + Brought(others, n)), others(n))
  {
    assert [peak, value] + Brought(others, n + 1) == [peak, value] + Brought(others, n) + [others(n)];
    HighestAppend([peak, value] + Brought(others, n), others(n));
  }

  /** No interference. */
  function Nobody(k: nat): nat {
    0
  }

  lemma {:induction false} OnlyZeroBrought(peak: nat, value: nat, n: nat)
    ensures Highest([peak, value] + Brought(Nobody, n)) == Larger(peak, value)
  {
    if n == 0 {
      NothingBrought(peak, value, Nobody);
    } else {
      OnlyZeroBrought(peak, value, n - 1);
      OneMoreBrought(peak, value, Nobody, n - 1);
    }
  }

  /** What a health check makes of the state and the consecutive failures of one backend: a
      draining one is left alone; an answered probe clears the failures and brings a
      backend back that was Down; a failed one counts, with the counter's wrap, and takes
      the backend Down when the counter is at the threshold or beyond. */
  predicate Checked(state: BackendState, failures: nat, answered: bool, threshold: nat,
                    state': BackendState, failures': nat) {
    if state.Draining? then state' == state && failures' == failures
    else if answered then failures' == 0 && state' == if state.Down? then Up else state
    else
      && failures' == (failures + 1) % 0x1_0000_0000
      && state' == if failures' >= threshold then Down else state
  }

  class RuntimeState {
    const scheduler: Scheduler
    var allActive: nat
    var allTotal: nat
    var peak: nat
    var allErrors: nat
    var allBytesIn: nat
    var allBytesOut: nat
    const bytesIn: array<nat>
    const bytesOut: array<nat>
    const latency: array<nat>

    ghost predicate Valid()
      reads this, scheduler
    {
      && scheduler.Valid()
      && bytesIn.Length == bytesOut.Length == latency.Length == scheduler.active.Length
      && bytesIn != bytesOut && bytesIn != latency && bytesOut != latency
      && Apart(bytesIn) && Apart(bytesOut) && Apart(latency)
    }

    /** An array that is none of the scheduler's. */
    ghost predicate Apart(a: array<nat>)
      reads scheduler
    {
      a != scheduler.active && a != scheduler.total && a != scheduler.errors && a != scheduler.failures
    }

    constructor (policy: Policy, count: nat)
      ensures Valid() && scheduler.policy == policy && scheduler.active.Length == count
      ensures fresh(scheduler) && peak == 0
      ensures forall cell: Cell :: Counter(cell) == 0
    {
      scheduler := new Scheduler(policy, count);
      allActive, allTotal, peak, allErrors, allBytesIn, allBytesOut := 0, 0, 0, 0, 0, 0;
      bytesIn := new nat[count](i => 0);
      bytesOut := new nat[count](i => 0);
      latency := new nat[count](i => 0);
    }

    /** The value of a counter; cells this object does not hold read as zero. */
    function Counter(cell: Cell): nat
      reads this, scheduler, scheduler.active, scheduler.total, scheduler.errors, bytesIn, bytesOut
    {
      match cell
      case Global(Active) => allActive
      case Global(Total) => allTotal
      case Global(Errors) => allErrors
      case Global(BytesIn) => allBytesIn
      case Global(BytesOut) => allBytesOut
      case PerBackend(Active, b) => if b < scheduler.active.Length then scheduler.active[b] else 0
      case PerBackend(Total, b) => if b < scheduler.total.Length then scheduler.total[b] else 0
      case PerBackend(Errors, b) => if b < scheduler.errors.Length then scheduler.errors[b] else 0
      case PerBackend(BytesIn, b) => if b < bytesIn.Length then bytesIn[b] else 0
      case PerBackend(BytesOut, b) => if b < bytesOut.Length then bytesOut[b] else 0
      case _ => 0
    }

    /** Raises the peak to `value`.  Just before its attempt number `k` other threads bring
        `others(k)` to the peak, for ever; zero is no interference.  The loop ends all the
        same, after no more attempts than the distance it had to go, with the peak at the
        highest value anyone brought while it ran. */
    method UpdatePeak(value: nat, others: nat -> nat) returns (attempts: nat)
      modifies this`peak
      ensures attempts <= if value > old(peak) then value - old(peak) else 0
      ensures peak == Highest([old(peak), value] + Brought(others, attempts))
      ensures old(peak) >= value ==> peak == old(peak)
    {
      var current, exchanged := peak, false;
      attempts := 0;
      NothingBrought(old(peak), value, others);
      while value > current && !exchanged
        invariant old(peak) <= current <= peak
        invariant !exchanged ==> attempts <= current - old(peak)
        invariant old(peak) < value ==> attempts <= value - old(peak)
        invariant if exchanged then peak == Highest([old(peak), value] + Brought(others, attempts))
                  else Highest([old(peak), value] + Brought(others, attempts)) == Larger(peak, value)
        invariant old(peak) >= value ==> peak == old(peak) && current == peak && attempts == 0
        decreases !exchanged, value - current
      {
        Interfere(others(attempts));
        OneMoreBrought(old(peak), value, others, attempts);
        attempts := attempts + 1;
        if peak == current {
          peak := value;
          exchanged := true;
        } else {
          current := peak;
        }
      }
    }

    /** Another thread's update of the peak. */
    method Interfere(value: nat)
      modifies this`peak
      ensures peak == Larger(old(peak), value)
    {
      if value > peak { peak := value; }
    }

    /** False where the original throws for an index out of range. */
    method RecordConnectionOpen(index: nat) returns (ok: bool)
      requires Valid()
      modifies this, scheduler.active, scheduler.total
      ensures Valid() && ok == (index < scheduler.active.Length)
      ensures ok ==> forall cell: Cell :: Counter(cell) == old(Counter(cell)) + Effect(Open(index), cell)
      ensures !ok ==> forall cell: Cell :: Counter(cell) == old(Counter(cell))
      ensures peak == if ok && allActive > old(peak) then allActive else old(peak)
    {
      ok := scheduler.MarkOpen(index);
      if !ok { return; }
      allActive := allActive + 1;
      allTotal := allTotal + 1;
      var attempts := UpdatePeak(allActive, Nobody);
      OnlyZeroBrought(old(peak), allActive, attempts);
    }

    /** Undoes an open on every counter of live connections; with nothing open it leaves
        them at zero. */
    method RecordConnectionClose(index: nat, spurious: nat) returns (ok: bool)
      requires Valid()
      modifies this, scheduler.active
      ensures Valid() && ok == (index < scheduler.active.Length) && peak == old(peak)
      ensures ok ==> forall cell: Cell ::
                       Counter(cell) == Max(old(Counter(cell)) + Effect(Close(index), cell), 0)
      ensures !ok ==> forall cell: Cell :: Counter(cell) == old(Counter(cell))
    {
      ok := scheduler.MarkClosed(index, spurious);
      if !ok { return; }
      DecreaseActive(spurious);
    }

    method DecreaseActive(spurious: nat)
      modifies this`allActive
      ensures allActive == OneLess(old(allActive))
    {
      var current, left, exchanged := allActive, spurious, false;
      while current > 0 && !exchanged
        invariant if exchanged then current == old(allActive) > 0 && allActive == current - 1
                  else current == allActive == old(allActive)
        decreases !exchanged, left
      {
        if left == 0 {
          allActive := current - 1;
          exchanged := true;
        } else {
          left := left - 1;
          current := allActive;
        }
      }
    }

    /** The global error counter moves before the index is checked. */
    method RecordBackendFailure(index: nat) returns (ok: bool)
      requires Valid()
      modifies this`allErrors, scheduler.errors, scheduler.failures
      ensures Valid() && ok == (index < scheduler.active.Length) && peak == old(peak)
      ensures forall cell: Cell ::
                Counter(cell) == old(Counter(cell)) + (if ok || cell.Global? then Effect(Failure(index), cell) else 0)
      ensures ok ==> scheduler.Record(index) == H.MarkFailure(old(scheduler.Record(index)))
      ensures forall i | 0 <= i < scheduler.states.Length && i != index ::
                scheduler.Record(i) == old(scheduler.Record(i))
    {
      allErrors := allErrors + 1;
      ok := scheduler.MarkFailure(index);
    }

    method RecordBytesFromClient(index: nat, count: nat) returns (ok: bool)
      requires Valid()
      modifies this, bytesIn
      ensures Valid() && ok == (index < scheduler.active.Length) && peak == old(peak)
      ensures forall cell: Cell ::
                Counter(cell) ==
                old(Counter(cell)) + (if ok || cell.Global? then Effect(FromClient(index, count), cell) else 0)
    {
      allBytesIn := allBytesIn + count;
      if index >= bytesIn.Length { return false; }
      bytesIn[index] := bytesIn[index] + count;
      ok := true;
    }

    method RecordBytesFromBackend(index: nat, count: nat) returns (ok: bool)
      requires Valid()
      modifies this, bytesOut
      ensures Valid() && ok == (index < scheduler.active.Length) && peak == old(peak)
      ensures forall cell: Cell ::
                Counter(cell) ==
                old(Counter(cell)) + (if ok || cell.Global? then Effect(FromBackend(index, count), cell) else 0)
    {
      allBytesOut := allBytesOut + count;
      if index >= bytesOut.Length { return false; }
      bytesOut[index] := bytesOut[index] + count;
      ok := true;
    }

    method RecordConnectLatency(index: nat, elapsed: nat) returns (ok: bool)
      requires Valid()
      modifies latency
      ensures Valid() && ok == (index < latency.Length)
      ensures latency[..] == if ok then old(latency[..])[index := elapsed] else old(latency[..])
    {
      if index >= latency.Length { return false; }
      latency[index] := elapsed;
      ok := true;
    }

    /** A failure on backend `index` and the ejection test that follows it. */
    method FailAndEject(index: nat, threshold: nat)
      requires Valid() && index < scheduler.states.Length
      modifies this`allErrors, scheduler.errors, scheduler.failures, scheduler.states
      ensures Valid()
      ensures scheduler.failures[index] == (old(scheduler.failures[index]) + 1) % 0x1_0000_0000
      ensures scheduler.states[index] ==
              if scheduler.failures[index] >= threshold then Down else old(scheduler.states[index])
      ensures scheduler.Record(index) == H.Apply(old(scheduler.Record(index)), H.Fail, threshold)
      ensures forall i | 0 <= i < scheduler.states.Length && i != index ::
                scheduler.Record(i) == old(scheduler.Record(i))
      ensures forall cell: Cell :: Counter(cell) == old(Counter(cell)) + Effect(Failure(index), cell)
    {
      var ok := RecordBackendFailure(index);
      if scheduler.failures[index] >= threshold {
        ok := scheduler.SetState(index, Down);
      }
    }

    /** The health check of one backend; a probe that connects yields its latency.  A
        draining backend is not probed. */
    method CheckOne(index: nat, probe: Option<nat>, threshold: nat)
      requires Valid() && index < scheduler.states.Length
      modifies this`allErrors, scheduler.errors, scheduler.failures, scheduler.states, latency
      ensures Valid()
      ensures Checked(old(scheduler.states[index]), old(scheduler.failures[index]), probe.Some?, threshold,
                      scheduler.states[index], scheduler.failures[index])
      ensures scheduler.Record(index) == H.Probe(old(scheduler.Record(index)), probe.Some?, threshold)
      ensures forall i | 0 <= i < scheduler.states.Length && i != index ::
                scheduler.Record(i) == old(scheduler.Record(i)) && latency[i] == old(latency[i])
      ensures var probed := !old(scheduler.states[index]).Draining?;
              && latency[index] == (if probed && probe.Some? then probe.value else old(latency[index]))
              && forall cell: Cell ::
                   Counter(cell) ==
                   old(Counter(cell)) + (if probed && probe.None? then Effect(Failure(index), cell) else 0)
    {
      if !scheduler.states[index].Draining? {
        if probe.Some? {
          var ok := RecordConnectLatency(index, probe.value);
          ok := scheduler.MarkHealthy(index);
        } else {
          FailAndEject(index, threshold);
        }
      }
    }

    /** One pass of the health checker over all backends.  Each failed probe counts one
        error, and no other counter moves. */
    method CheckAll(probes: seq<Option<nat>>, threshold: nat)
      requires Valid() && |probes| == scheduler.states.Length
      modifies this`allErrors, scheduler.errors, scheduler.failures, scheduler.states, latency
      ensures Valid()
      ensures forall i | 0 <= i < |probes| ::
                Checked(old(scheduler.states[i]), old(scheduler.failures[i]), probes[i].Some?, threshold,
                        scheduler.states[i], scheduler.failures[i])
      ensures forall i | 0 <= i < |probes| ::
                scheduler.Record(i) == H.Probe(old(scheduler.Record(i)), probes[i].Some?, threshold)
      ensures forall i | 0 <= i < |probes| ::
                latency[i] ==
                if Connected(old(scheduler.states[..]), probes, i) then probes[i].value else old(latency[i])
      ensures forall cell: Cell ::
                Counter(cell) == old(Counter(cell)) + FailedProbes(old(scheduler.states[..]), probes, |probes|, cell)
    {
      var i := 0;
      ghost var states := scheduler.states[..];
      while i < scheduler.states.Length
        invariant 0 <= i <= scheduler.states.Length && Valid()
        invariant forall j | 0 <= j < i ::
                    Checked(old(scheduler.states[j]), old(scheduler.failures[j]), probes[j].Some?, threshold,
                            scheduler.states[j], scheduler.failures[j])
        invariant forall j | 0 <= j < i ::
                    scheduler.Record(j) == H.Probe(old(scheduler.Record(j)), probes[j].Some?, threshold)
        invariant forall j | i <= j < |probes| :: scheduler.Record(j) == old(scheduler.Record(j))
        invariant forall j | 0 <= j < |probes| ::
                    latency[j] == if j < i && Connected(states, probes, j) then probes[j].value else old(latency[j])
        invariant forall cell: Cell :: Counter(cell) == old(Counter(cell)) + FailedProbes(states, probes, i, cell)
      {
        assert scheduler.Record(i) == old(scheduler.Record(i));
        CheckOne(i, probes[i], threshold);
        i := i + 1;
      }
    }
  }

  /** A backend that was probed and answered. */
  predicate Connected(states: seq<BackendState>, probes: seq<Option<nat>>, i: nat)
    requires |states| == |probes| && i < |probes|
  {
    !states[i].Draining? && probes[i].Some?
  }

  /** What the failed probes of the first `n` backends add to a counter. */
  function FailedProbes(states: seq<BackendState>, probes: seq<Option<nat>>, n: nat, cell: Cell): int
    requires |states| == |probes| && n <= |probes|
  {
    if n == 0 then 0
    else
      FailedProbes(states, probes, n - 1, cell) +
      (if !states[n - 1].Draining? && probes[n - 1].None? then Effect(Failure(n - 1), cell) else 0)
  }
}
