/** Whole runs of the interleaved threads: what holds in every state of every run. */
module Interleavings {
  import opened Atomics
  import opened Calls

  // ----- What holds in every state of every run -----

  lemma {:induction false} RunInvariant(run: seq<System>, i: nat)
    requires IsRun(run) && i < |run|
    ensures SysInv(run[i]) && |run[i].threads| == |run[0].threads|
  {
    if i == 0 {
      forall cell: Cell | cell != Peak ensures Read(run[0].memory, cell) == Shares(run[0].threads, cell) {
        SharesZero(run[0].threads, cell);
      }
    } else {
      RunInvariant(run, i - 1);
      assert Next(run[i - 1], run[i]);
      var turn := TakenBy(run[i - 1], run[i]);
      StepKeeps(run[i - 1], turn.thread, turn.act);
    }
  }

  /** Conservation: every counter is the sum of what each thread's executed instructions
      have done to it. */
  lemma Conservation(run: seq<System>, i: nat, cell: Cell)
    requires IsRun(run) && i < |run| && cell != Peak
    ensures Read(run[i].memory, cell) == Shares(run[i].threads, cell)
  {
    RunInvariant(run, i);
  }

  /** The saturation guard of the decrement loops never fires. */
  lemma GuardNeverFires(run: seq<System>, i: nat, j: nat)
    requires IsRun(run) && i < |run| && j < |run[i].threads|
    requires !Idle(run[i].threads[j]) && Current(run[i].threads[j]).Decrease?
    ensures var t := run[i].threads[j];
            Read(run[i].memory, Current(t).cell) >= 1 && (t.loaded.Some? ==> t.loaded.value >= 1)
  {
    RunInvariant(run, i);
    assert ThreadOk(run[i].threads[j]);
    DecreaseSeesUnit(run[i], j);
  }

  predicate Quiescent(s: System) {
    forall i | 0 <= i < |s.threads| :: Idle(s.threads[i])
  }

  function Logged(threads: seq<Thread>, cell: Cell): int {
    if threads == [] then 0
    else Logged(threads[..|threads| - 1], cell) + Net(threads[|threads| - 1].log, cell)
  }

  /** What the calls still in progress have yet to do to a cell, with the sign reversed:
      the counter is ahead of the calls begun by this much. */
  function InFlight(threads: seq<Thread>, cell: Cell): int {
    if threads == [] then 0
    else InFlight(threads[..|threads| - 1], cell) + Owed(threads[|threads| - 1], cell)
  }

  function Owed(t: Thread, cell: Cell): int {
    if Idle(t) then 0 else Done(Last(t), t.pc, cell) - Effect(Last(t), cell)
  }

  lemma ShareIsLoggedPlusOwed(t: Thread, cell: Cell)
    requires cell != Peak && ThreadOk(t)
    ensures Share(t, cell) == Net(t.log, cell) + Owed(t, cell)
  {
    if t.log != [] {
      ProgramEffect(Last(t), cell);
    }
  }

  lemma {:induction false} SharesAreLoggedPlusInFlight(threads: seq<Thread>, cell: Cell)
    requires cell != Peak && forall i | 0 <= i < |threads| :: ThreadOk(threads[i])
    ensures Shares(threads, cell) == Logged(threads, cell) + InFlight(threads, cell)
  {
    if threads == [] {
    } else {
      SharesAreLoggedPlusInFlight(threads[..|threads| - 1], cell);
      ShareIsLoggedPlusOwed(threads[|threads| - 1], cell);
    }
  }

  /** In every state of every interleaving a counter is the net effect of the calls begun,
      corrected by what the calls in progress have yet to do. */
  lemma CountersWithCallsInFlight(run: seq<System>, i: nat, cell: Cell)
    requires IsRun(run) && i < |run| && cell != Peak
    ensures Read(run[i].memory, cell) == Logged(run[i].threads, cell) + InFlight(run[i].threads, cell)
  {
    RunInvariant(run, i);
    SharesAreLoggedPlusInFlight(run[i].threads, cell);
  }

  lemma {:induction false} NothingInFlight(threads: seq<Thread>, cell: Cell)
    requires forall i | 0 <= i < |threads| :: Owed(threads[i], cell) == 0
    ensures InFlight(threads, cell) == 0
  {
    if threads == [] {
    } else {
      NothingInFlight(threads[..|threads| - 1], cell);
    }
  }

  /** At quiescence every counter is the net effect of the calls made. */
  lemma QuiescentCounters(run: seq<System>, i: nat, cell: Cell)
    requires IsRun(run) && i < |run| && Quiescent(run[i]) && cell != Peak
    ensures Read(run[i].memory, cell) == Logged(run[i].threads, cell)
  {
    CountersWithCallsInFlight(run, i, cell);
    NothingInFlight(run[i].threads, cell);
  }

  /** A thread that has begun `call` and not yet executed its instruction `pc`. */
  predicate Before(t: Thread, call: Call, pc: nat) {
    t.log != [] && Last(t) == call && t.pc <= pc < |Program(call)|
  }

  /** How many threads are in that position. */
  function Waiting(threads: seq<Thread>, call: Call, pc: nat): nat {
    if threads == [] then 0
    else
      Waiting(threads[..|threads| - 1], call, pc) + (if Before(threads[|threads| - 1], call, pc) then 1 else 0)
  }

  /** What one thread owes to the active and the total counter of a backend. */
  lemma OwedToBackend(t: Thread, b: nat)
    requires ThreadOk(t)
    ensures Owed(t, PerBackend(Active, b)) ==
            (if Before(t, Close(b), 0) then 1 else 0) - (if Before(t, Open(b), 0) then 1 else 0)
    ensures Owed(t, PerBackend(Total, b)) == 0 - (if Before(t, Open(b), 1) then 1 else 0)
  {
    if !Idle(t) {
      DoneUnrolled(Last(t), t.pc, PerBackend(Active, b));
      DoneUnrolled(Last(t), t.pc, PerBackend(Total, b));
    }
  }

  lemma {:induction false} InFlightOnBackend(threads: seq<Thread>, b: nat)
    requires forall i | 0 <= i < |threads| :: ThreadOk(threads[i])
    ensures InFlight(threads, PerBackend(Active, b)) == Waiting(threads, Close(b), 0) - Waiting(threads, Open(b), 0)
    ensures InFlight(threads, PerBackend(Total, b)) == 0 - Waiting(threads, Open(b), 1)
  {
    if threads == [] {
    } else {
      InFlightOnBackend(threads[..|threads| - 1], b);
      OwedToBackend(threads[|threads| - 1], b);
    }
  }

  function OverBackends(m: Memory, f: Family, n: nat): nat {
    if n == 0 then 0 else OverBackends(m, f, n - 1) + Read(m, PerBackend(f, n - 1))
  }

  function LoggedOverBackends(threads: seq<Thread>, f: Family, n: nat): int {
    if n == 0 then 0 else LoggedOverBackends(threads, f, n - 1) + Logged(threads, PerBackend(f, n - 1))
  }

  lemma {:induction false} LoggedSplit(threads: seq<Thread>, f: Family, n: nat)
    requires threads != []
    ensures LoggedOverBackends(threads, f, n) ==
            LoggedOverBackends(threads[..|threads| - 1], f, n) + NetOverBackends(threads[|threads| - 1].log, f, n)
  {
    if n == 0 {
    } else {
      LoggedSplit(threads, f, n - 1);
    }
  }

  lemma {:induction false} LoggedNothing(f: Family, n: nat)
    ensures LoggedOverBackends([], f, n) == 0
  {
    if n == 0 {
    } else {
      LoggedNothing(f, n - 1);
    }
  }

  lemma {:induction false} LoggedGlobal(threads: seq<Thread>, f: Family, n: nat)
    requires forall i | 0 <= i < |threads| :: InRange(threads[i].log, n)
    ensures Logged(threads, Global(f)) == LoggedOverBackends(threads, f, n)
  {
    if threads == [] {
      LoggedNothing(f, n);
    } else {
      LoggedGlobal(threads[..|threads| - 1], f, n);
      LoggedSplit(threads, f, n);
      GlobalIsSumOfBackends(threads[|threads| - 1].log, f, n);
    }
  }

  /** At quiescence the global counter of every family -- active, total, errors, bytes in
      either direction -- is the sum of the per-backend counters. */
  lemma GlobalsAgree(run: seq<System>, i: nat, f: Family, n: nat)
    requires IsRun(run) && i < |run| && Quiescent(run[i])
    requires forall j | 0 <= j < |run[i].threads| :: InRange(run[i].threads[j].log, n)
    ensures Read(run[i].memory, Global(f)) == OverBackends(run[i].memory, f, n)
  {
    QuiescentCounters(run, i, Global(f));
    LoggedGlobal(run[i].threads, f, n);
    CountersOverBackends(run, i, f, n);
  }

  lemma {:induction false} CountersOverBackends(run: seq<System>, i: nat, f: Family, n: nat)
    requires IsRun(run) && i < |run| && Quiescent(run[i])
    ensures OverBackends(run[i].memory, f, n) == LoggedOverBackends(run[i].threads, f, n)
  {
    if n == 0 {
    } else {
      CountersOverBackends(run, i, f, n - 1);
      QuiescentCounters(run, i, PerBackend(f, n - 1));
    }
  }

  // ----- The peak -----

  lemma HighStep(a: System, b: System)
    requires Next(a, b)
    ensures var active := Read(b.memory, Global(Active)); b.high == if active > a.high then active else a.high
  {
  }

  lemma {:induction false} HighOver(run: seq<System>, i: nat, j: nat)
    requires IsRun(run) && j <= i < |run|
    ensures Read(run[j].memory, Global(Active)) <= run[i].high
    decreases i
  {
    if i == 0 {
    } else {
      assert Next(run[i - 1], run[i]);
      HighStep(run[i - 1], run[i]);
      if j < i { HighOver(run, i - 1, j); }
    }
  }

  lemma {:induction false} HighHeld(run: seq<System>, i: nat) returns (j: nat)
    requires IsRun(run) && i < |run|
    ensures j <= i && Read(run[j].memory, Global(Active)) == run[i].high
  {
    j := i;
    if i == 0 {
    } else {
      assert Next(run[i - 1], run[i]);
      HighStep(run[i - 1], run[i]);
      if run[i].high == run[i - 1].high { j := HighHeld(run, i - 1); }
    }
  }

  /** `high` is a value the active counter has held, and no value so far exceeds it. */
  lemma HighIsHighest(run: seq<System>, i: nat)
    requires IsRun(run) && i < |run|
    ensures forall j | 0 <= j <= i :: Read(run[j].memory, Global(Active)) <= run[i].high
    ensures exists j :: 0 <= j <= i && Read(run[j].memory, Global(Active)) == run[i].high
  {
    forall j | 0 <= j <= i ensures Read(run[j].memory, Global(Active)) <= run[i].high {
      HighOver(run, i, j);
    }
    var held := HighHeld(run, i);
  }

  predicate Opening(t: Thread) {
    !Idle(t) && Last(t).Open?
  }

  /** Whenever no open is in flight, the peak is exactly the largest value the active
      counter has ever held. */
  lemma PeakExact(run: seq<System>, i: nat)
    requires IsRun(run) && i < |run| && forall t | t in run[i].threads :: !Opening(t)
    ensures forall j | 0 <= j <= i :: Read(run[j].memory, Global(Active)) <= Read(run[i].memory, Peak)
    ensures exists j :: 0 <= j <= i && Read(run[j].memory, Global(Active)) == Read(run[i].memory, Peak)
  {
    RunInvariant(run, i);
    HighIsHighest(run, i);
    assert forall k | 0 <= k < |run[i].threads| :: run[i].threads[k] in run[i].threads;
    assert Read(run[i].memory, Peak) == run[i].high;
  }

  lemma {:induction false} PeakNeverFalls(run: seq<System>, i: nat, j: nat)
    requires IsRun(run) && i <= j < |run|
    ensures Read(run[i].memory, Peak) <= Read(run[j].memory, Peak)
    decreases j
  {
    if i == j {
    } else {
      PeakNeverFalls(run, i, j - 1);
      assert Next(run[j - 1], run[j]);
      var turn := TakenBy(run[j - 1], run[j]);
      StepPeakMonotone(run[j - 1], turn.thread, turn.act);
    }
  }

  // ----- The peak loop under interference -----

  /** Who takes each step of a run, and how. */
  predicate Scheduled(run: seq<System>, schedule: seq<Turn>) {
    && |run| == |schedule| + 1
    && forall k | 0 <= k < |schedule| :: Takes(run[k], run[k + 1], schedule[k])
  }

  /** Every run has a schedule. */
  lemma {:induction false} ScheduleOf(run: seq<System>, n: nat) returns (schedule: seq<Turn>)
    requires IsRun(run) && n < |run|
    ensures Scheduled(run[..n + 1], schedule)
  {
    if n == 0 {
      schedule := [];
    } else {
      var before := ScheduleOf(run, n - 1);
      assert Next(run[n - 1], run[n]);
      var turn := TakenBy(run[n - 1], run[n]);
      schedule := before + [turn];
      ScheduleMore(run, n, before, turn);
    }
  }

  lemma ScheduleMore(run: seq<System>, n: nat, before: seq<Turn>, turn: Turn)
    requires 0 < n < |run| && Scheduled(run[..n], before) && Takes(run[n - 1], run[n], turn)
    ensures Scheduled(run[..n + 1], before + [turn])
  {
    var all, now := before + [turn], run[..n + 1];
    forall k | 0 <= k < |all| ensures Takes(now[k], now[k + 1], all[k]) {
      if k < n - 1 {
        assert Takes(run[..n][k], run[..n][k + 1], before[k]);
      }
    }
  }

  /** A thread in the peak loop whose candidate is still above what it has seen. */
  predicate Trying(t: Thread) {
    !Idle(t) && Current(t).Raise? && t.loaded.Some? && t.loaded.value < t.ticket
  }

  /** A compare-exchange of thread `j` in the peak loop that does not fail without a reason. */
  predicate Attempt(s: System, turn: Turn, j: nat) {
    turn == Turn(j, Advance(false)) && j < |s.threads| && Trying(s.threads[j])
  }

  /** How many of the steps from `from` to `until` are such attempts. */
  function Attempts(run: seq<System>, schedule: seq<Turn>, j: nat, from: nat, until: nat): nat
    requires |run| == |schedule| + 1 && from <= until <= |schedule|
  {
    if from == until then 0
    else
      Attempts(run, schedule, j, from, until - 1) +
      (if Attempt(run[until - 1], schedule[until - 1], j) then 1 else 0)
  }

  /** How far towards its candidate a thread has got in its current call: nowhere before
      the loop, as far as the value it has seen in the loop, all the way after it. */
  function Reached(t: Thread): nat {
    if t.log == [] || !Last(t).Open? || t.pc < 4 then 0
    else if Idle(t) then t.ticket
    else if t.loaded.None? then 0
    else if t.loaded.value < t.ticket then t.loaded.value else t.ticket
  }

  /** One step of the system, as one of its threads sees it. */
  predicate Approaches(t: Thread, t': Thread, attempt: bool) {
    && |t.log| <= |t'.log|
    && (|t.log| == |t'.log| ==> Reached(t') >= Reached(t) + (if attempt then 1 else 0))
  }

  lemma ReachStep(a: System, b: System, turn: Turn, j: nat)
    requires SysInv(a) && Takes(a, b, turn) && j < |a.threads|
    ensures j < |b.threads| && Approaches(a.threads[j], b.threads[j], Attempt(a, turn, j))
  {
    var t := a.threads[j];
    assert ThreadOk(t) && TicketOk(t, a.memory, a.high);
    if turn.thread == j && turn.act.Advance? {
    }
  }

  /** What a stretch of a run does to one thread, from what each step does. */
  lemma {:induction false} ReachOver(run: seq<System>, schedule: seq<Turn>, j: nat, from: nat, until: nat)
    requires |run| == |schedule| + 1 && from <= until <= |schedule|
    requires forall k | 0 <= k < |run| :: j < |run[k].threads|
    requires forall k | from <= k < until ::
               Approaches(run[k].threads[j], run[k + 1].threads[j], Attempt(run[k], schedule[k], j))
    ensures |run[from].threads[j].log| <= |run[until].threads[j].log|
    ensures |run[from].threads[j].log| == |run[until].threads[j].log| ==>
              Reached(run[from].threads[j]) + Attempts(run, schedule, j, from, until) <= Reached(run[until].threads[j])
    decreases until
  {
    if from == until {
    } else {
      ReachOver(run, schedule, j, from, until - 1);
      var k := until - 1;
      assert Approaches(run[k].threads[j], run[k + 1].threads[j], Attempt(run[k], schedule[k], j));
    }
  }

  /** The peak loop ends under any interference: over any stretch of any run in which a
      thread stays within one call, it makes at most as many attempts that do not fail
      spuriously as it gets closer to its candidate, so at most as many as the candidate
      itself, however the other threads' steps fall between them. */
  lemma RaiseBounded(run: seq<System>, schedule: seq<Turn>, j: nat, from: nat, until: nat)
    requires IsRun(run) && Scheduled(run, schedule) && from <= until <= |schedule| && j < |run[0].threads|
    ensures j < |run[from].threads| == |run[until].threads|
    ensures |run[from].threads[j].log| == |run[until].threads[j].log| ==>
              && Reached(run[from].threads[j]) + Attempts(run, schedule, j, from, until) <=
                 Reached(run[until].threads[j])
              && Attempts(run, schedule, j, from, until) <= run[until].threads[j].ticket
  {
    forall k | 0 <= k < |run| ensures |run[k].threads| == |run[0].threads| {
      RunInvariant(run, k);
    }
    forall k | from <= k < until
      ensures Approaches(run[k].threads[j], run[k + 1].threads[j], Attempt(run[k], schedule[k], j)) {
      RunInvariant(run, k);
      RunInvariant(run, k + 1);
      ReachStep(run[k], run[k + 1], schedule[k], j);
    }
    ReachOver(run, schedule, j, from, until);
  }

}
