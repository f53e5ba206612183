/** The shared counters under every interleaving of threads.

    Each call on the runtime state is a short program of atomic instructions; a
    compare-exchange loop is a load followed by attempts that may fail spuriously.
    Memory is sequentially consistent and counters are unbounded. */
module Atomics {
  import opened Calls
  import opened Outcomes

  /** `Ticket` is the fetch-add whose result is later used as the candidate peak;
      `Decrease` is the saturating decrement loop; `Raise` is the peak loop. */
  datatype Op = Add(cell: Cell, amount: nat) | Ticket | Decrease(cell: Cell) | Raise

  function Program(call: Call): seq<Op> {
    match call
    case Open(b) => [Add(PerBackend(Active, b), 1), Add(PerBackend(Total, b), 1), Ticket, Add(Global(Total), 1), Raise]
    case Close(b) => [Decrease(PerBackend(Active, b)), Decrease(Global(Active))]
    case Failure(b) => [Add(Global(Errors), 1), Add(PerBackend(Errors, b), 1)]
    case FromClient(b, n) => [Add(Global(BytesIn), n), Add(PerBackend(BytesIn, b), n)]
    case FromBackend(b, n) => [Add(Global(BytesOut), n), Add(PerBackend(BytesOut, b), n)]
    case ConnectTimeout => [Add(ConnectTimeouts, 1)]
    case IdleTimeout => [Add(IdleTimeouts, 1)]
    case Latency(_, _) => []
    case Healthy(_) => []
    case Eject(_) => []
  }

  function OpEffect(op: Op, cell: Cell): int {
    match op
    case Add(c, n) => if c == cell then n else 0
    case Ticket => if cell == Global(Active) then 1 else 0
    case Decrease(c) => if c == cell then -1 else 0
    case Raise => 0
  }

  /** The effect of the first `pc` instructions of a call. */
  function Done(call: Call, pc: nat, cell: Cell): int
    requires pc <= |Program(call)|
  {
    if pc == 0 then 0 else Done(call, pc - 1, cell) + OpEffect(Program(call)[pc - 1], cell)
  }

  /** The partial effects of a call, written out. */
  lemma {:induction false} DoneUnrolled(call: Call, pc: nat, cell: Cell)
    requires pc <= |Program(call)|
    ensures Done(call, pc, cell) ==
            (if pc > 0 then OpEffect(Program(call)[0], cell) else 0) +
            (if pc > 1 then OpEffect(Program(call)[1], cell) else 0) +
            (if pc > 2 then OpEffect(Program(call)[2], cell) else 0) +
            (if pc > 3 then OpEffect(Program(call)[3], cell) else 0) +
            (if pc > 4 then OpEffect(Program(call)[4], cell) else 0)
  {
    if pc == 0 {
    } else {
      DoneUnrolled(call, pc - 1, cell);
    }
  }

  /** A call executed to its end has exactly its declared effect. */
  lemma ProgramEffect(call: Call, cell: Cell)
    requires cell != Peak
    ensures Done(call, |Program(call)|, cell) == Effect(call, cell)
  {
    DoneUnrolled(call, |Program(call)|, cell);
  }

  /** A thread has begun the calls in `log` and executed `pc` instructions of the last. */
  datatype Thread = Thread(log: seq<Call>, pc: nat, loaded: Option<nat>, ticket: nat)

  function Last(t: Thread): Call
    requires t.log != []
  {
    t.log[|t.log| - 1]
  }

  predicate Idle(t: Thread) {
    t.log == [] || t.pc >= |Program(Last(t))|
  }

  function Current(t: Thread): Op
    requires !Idle(t)
  {
    Program(Last(t))[t.pc]
  }

  type Memory = map<Cell, nat>

  function Read(m: Memory, cell: Cell): nat {
    if cell in m then m[cell] else 0
  }

  datatype Act = Begin(call: Call) | Advance(spurious: bool)

  /** A thread closes only what it has opened; it begins a call when the last is done. */
  predicate Enabled(t: Thread, act: Act) {
    match act
    case Begin(call) => Idle(t) && Disciplined(t.log + [call])
    case Advance(_) => !Idle(t)
  }

  function Finished(t: Thread): Thread {
    t.(pc := t.pc + 1, loaded := None)
  }

  function StepThread(t: Thread, m: Memory, act: Act): (Thread, Memory)
    requires Enabled(t, act)
  {
    match act
    case Begin(call) => (Thread(t.log + [call], 0, None, t.ticket), m)
    case Advance(spurious) =>
      match Current(t)
      case Add(cell, n) => (Finished(t), m[cell := Read(m, cell) + n])
      case Ticket =>
        var value := Read(m, Global(Active)) + 1;
        (Finished(t).(ticket := value), m[Global(Active) := value])
      case Decrease(cell) =>
        if t.loaded.None? then (t.(loaded := Some(Read(m, cell))), m)
        else if t.loaded.value == 0 then (Finished(t), m)
        else if Read(m, cell) == t.loaded.value && !spurious then (Finished(t), m[cell := t.loaded.value - 1])
        else (t.(loaded := Some(Read(m, cell))), m)
      case Raise =>
        if t.loaded.None? then (t.(loaded := Some(Read(m, Peak))), m)
        else if t.ticket <= t.loaded.value then (Finished(t), m)
        else if Read(m, Peak) == t.loaded.value && !spurious then (Finished(t), m[Peak := t.ticket])
        else (t.(loaded := Some(Read(m, Peak))), m)
  }

  /** `high` remembers the largest value the global active counter has held. */
  datatype System = System(threads: seq<Thread>, memory: Memory, high: nat)

  function Step(s: System, i: nat, act: Act): System
    requires i < |s.threads| && Enabled(s.threads[i], act)
  {
    var (t, m) := StepThread(s.threads[i], s.memory, act);
    var active := Read(m, Global(Active));
    System(s.threads[i := t], m, if active > s.high then active else s.high)
  }

  ghost predicate Next(a: System, b: System) {
    exists i: nat, act :: i < |a.threads| && Enabled(a.threads[i], act) && b == Step(a, i, act)
  }

  /** A thread's turn to do something. */
  datatype Turn = Turn(thread: nat, act: Act)

  /** This turn takes the system from `a` to `b`. */
  predicate Takes(a: System, b: System, turn: Turn) {
    turn.thread < |a.threads| && Enabled(a.threads[turn.thread], turn.act) && b == Step(a, turn.thread, turn.act)
  }

  lemma TakenBy(a: System, b: System) returns (turn: Turn)
    requires Next(a, b)
    ensures Takes(a, b, turn)
  {
    var i: nat, act :| i < |a.threads| && Enabled(a.threads[i], act) && b == Step(a, i, act);
    turn := Turn(i, act);
  }

  predicate Initial(s: System) {
    && s.memory == map[] && s.high == 0
    && forall i | 0 <= i < |s.threads| :: s.threads[i] == Thread([], 0, None, 0)
  }

  ghost predicate IsRun(run: seq<System>) {
    && |run| > 0 && Initial(run[0])
    && forall i | 0 <= i < |run| - 1 :: Next(run[i], run[i + 1])
  }

  // ----- Conservation -----

  /** What the instructions a thread has executed so far have done to a cell. */
  function Share(t: Thread, cell: Cell): int {
    if t.log == [] then 0
    else Net(t.log[..|t.log| - 1], cell) + (if t.pc <= |Program(Last(t))| then Done(Last(t), t.pc, cell) else 0)
  }

  function Shares(threads: seq<Thread>, cell: Cell): int {
    if threads == [] then 0
    else Shares(threads[..|threads| - 1], cell) + Share(threads[|threads| - 1], cell)
  }

  lemma {:induction false} SharesUpdate(threads: seq<Thread>, i: nat, t: Thread, cell: Cell)
    requires i < |threads|
    ensures Shares(threads[i := t], cell) == Shares(threads, cell) - Share(threads[i], cell) + Share(t, cell)
  {
    var n := |threads| - 1;
    if i == n {
      assert threads[i := t][..n] == threads[..n];
    } else {
      assert threads[i := t][..n] == threads[..n][i := t];
      SharesUpdate(threads[..n], i, t, cell);
    }
  }

  lemma {:induction false} SharesAtLeast(threads: seq<Thread>, i: nat, cell: Cell)
    requires i < |threads| && forall j | 0 <= j < |threads| :: Share(threads[j], cell) >= 0
    ensures Shares(threads, cell) >= Share(threads[i], cell)
  {
    var n := |threads| - 1;
    if i == n {
      SharesNonNegative(threads[..n], cell);
    } else {
      SharesAtLeast(threads[..n], i, cell);
    }
  }

  lemma {:induction false} SharesNonNegative(threads: seq<Thread>, cell: Cell)
    requires forall j | 0 <= j < |threads| :: Share(threads[j], cell) >= 0
    ensures Shares(threads, cell) >= 0
  {
    if threads == [] {
    } else {
      SharesNonNegative(threads[..|threads| - 1], cell);
    }
  }

  lemma {:induction false} SharesZero(threads: seq<Thread>, cell: Cell)
    requires forall j | 0 <= j < |threads| :: threads[j].log == []
    ensures Shares(threads, cell) == 0
  {
    if threads == [] {
    } else {
      SharesZero(threads[..|threads| - 1], cell);
    }
  }

  predicate ThreadOk(t: Thread) {
    && Disciplined(t.log)
    && (t.log != [] ==> t.pc <= |Program(Last(t))|)
    && (t.loaded.Some? ==> !Idle(t) && (Current(t).Decrease? || Current(t).Raise?))
    && (t.loaded.Some? && Current(t).Decrease? ==> t.loaded.value > 0)
  }

  /** A thread that has taken its ticket and has not yet raised the peak. */
  predicate Raising(t: Thread) {
    t.log != [] && Last(t).Open? && 3 <= t.pc < 5
  }

  predicate PeakSettled(s: System) {
    Read(s.memory, Peak) == s.high
    || exists i :: 0 <= i < |s.threads| && Raising(s.threads[i]) && s.threads[i].ticket == s.high
  }

  predicate PeakOk(s: System) {
    && Read(s.memory, Global(Active)) <= s.high && Read(s.memory, Peak) <= s.high
    && (forall i | 0 <= i < |s.threads| :: TicketOk(s.threads[i], s.memory, s.high))
    && PeakSettled(s)
  }

  predicate TicketOk(t: Thread, m: Memory, high: nat) {
    && (Raising(t) ==> t.ticket <= high)
    && (t.loaded.Some? && !Idle(t) && Current(t).Raise? ==> t.loaded.value <= Read(m, Peak))
  }

  ghost predicate Conserved(s: System) {
    forall cell: Cell | cell != Peak :: Read(s.memory, cell) == Shares(s.threads, cell)
  }

  ghost predicate SysInv(s: System) {
    && (forall i | 0 <= i < |s.threads| :: ThreadOk(s.threads[i]))
    && Conserved(s)
    && PeakOk(s)
  }

  /** A bound on the backend indices of a log. */
  function Bound(log: seq<Call>): (n: nat)
    ensures InRange(log, n)
  {
    if log == [] then 0
    else
      var rest, last := Bound(log[..|log| - 1]), log[|log| - 1];
      if last.ConnectTimeout? || last.IdleTimeout? || last.index < rest then rest else last.index + 1
  }

  lemma {:induction false} GlobalAtLeastBackend(log: seq<Call>, b: nat)
    requires Disciplined(log)
    ensures Net(log, Global(Active)) >= Net(log, PerBackend(Active, b)) >= 0
  {
    var n := if Bound(log) > b then Bound(log) else b + 1;
    GlobalIsSumOfBackends(log, Active, n);
    OverBackendsAtLeast(log, n, b);
    LiveNeverNegative(log, b);
  }

  lemma {:induction false} OverBackendsAtLeast(log: seq<Call>, n: nat, b: nat)
    requires Disciplined(log) && b < n
    ensures NetOverBackends(log, Active, n) >= Net(log, PerBackend(Active, b))
  {
    if b == n - 1 {
      OverBackendsNonNegative(log, n - 1);
    } else {
      OverBackendsAtLeast(log, n - 1, b);
      LiveNeverNegative(log, n - 1);
    }
  }

  predicate ActiveCell(cell: Cell) {
    cell == Global(Active) || (cell.PerBackend? && cell.family == Active)
  }

  /** No thread has taken more from an active counter than it has put there, and one
      that is about to decrease it still holds at least one unit. */
  lemma ShareOfActive(t: Thread, cell: Cell)
    requires ThreadOk(t) && ActiveCell(cell)
    ensures Share(t, cell) >= 0
    ensures !Idle(t) && Current(t) == Decrease(cell) ==> Share(t, cell) >= 1
  {
    if t.log != [] {
      var before, last := t.log[..|t.log| - 1], Last(t);
      var b := if cell.PerBackend? then cell.index else if last.Close? then last.index else 0;
      GlobalAtLeastBackend(before, b);
      DoneUnrolled(last, t.pc, cell);
    }
  }

  // ----- One step -----

  /** An instruction that completes changes memory by its effect; one that only loads
      or fails changes nothing. */
  lemma AdvanceEffect(t: Thread, m: Memory, spurious: bool, cell: Cell)
    requires ThreadOk(t) && !Idle(t) && cell != Peak
    ensures var (t', m') := StepThread(t, m, Advance(spurious));
            && t'.log == t.log
            && if t'.pc == t.pc then Read(m', cell) == Read(m, cell)
               else t'.pc == t.pc + 1 && Read(m', cell) == Read(m, cell) + OpEffect(Current(t), cell)
  {
  }

  /** A step moves a cell by exactly what it adds to the share of its thread. */
  lemma StepShare(t: Thread, m: Memory, act: Act, cell: Cell)
    requires ThreadOk(t) && Enabled(t, act) && cell != Peak
    ensures var (t', m') := StepThread(t, m, act);
            Read(m', cell) - Read(m, cell) == Share(t', cell) - Share(t, cell)
  {
    match act
    case Begin(call) => BeginShare(t, call, cell);
    case Advance(spurious) => AdvanceEffect(t, m, spurious, cell);
  }

  lemma BeginShare(t: Thread, call: Call, cell: Cell)
    requires ThreadOk(t) && Idle(t) && cell != Peak
    ensures Share(Thread(t.log + [call], 0, None, t.ticket), cell) == Share(t, cell)
  {
    assert (t.log + [call])[..|t.log|] == t.log;
    if t.log != [] {
      ProgramEffect(Last(t), cell);
    }
  }

  lemma StepConserves(s: System, i: nat, act: Act)
    requires SysInv(s) && i < |s.threads| && Enabled(s.threads[i], act)
    ensures Conserved(Step(s, i, act))
  {
    var r := Step(s, i, act);
    forall cell: Cell | cell != Peak ensures Read(r.memory, cell) == Shares(r.threads, cell) {
      assert ThreadOk(s.threads[i]);
      StepShare(s.threads[i], s.memory, act, cell);
      SharesUpdate(s.threads, i, r.threads[i], cell);
    }
  }

  /** The value a thread sees in an active counter it is about to decrease is positive:
      the saturating branch of the loop is never taken. */
  lemma DecreaseSeesUnit(s: System, i: nat)
    requires SysInv(s) && i < |s.threads| && !Idle(s.threads[i]) && Current(s.threads[i]).Decrease?
    ensures Read(s.memory, Current(s.threads[i]).cell) >= 1
  {
    var t := s.threads[i];
    var cell := Current(t).cell;
    assert ThreadOk(t);
    forall j | 0 <= j < |s.threads| ensures Share(s.threads[j], cell) >= 0 {
      assert ThreadOk(s.threads[j]);
      ShareOfActive(s.threads[j], cell);
    }
    ShareOfActive(t, cell);
    SharesAtLeast(s.threads, i, cell);
  }

  /** A step keeps its own thread in order, given what the thread sees if it is about to
      decrease a counter. */
  lemma OwnStep(t: Thread, m: Memory, act: Act)
    requires ThreadOk(t) && Enabled(t, act)
    requires !Idle(t) && Current(t).Decrease? ==> Read(m, Current(t).cell) >= 1
    ensures ThreadOk(StepThread(t, m, act).0)
  {
  }

  lemma StepThreads(s: System, i: nat, act: Act)
    requires SysInv(s) && i < |s.threads| && Enabled(s.threads[i], act)
    ensures forall j | 0 <= j < |Step(s, i, act).threads| :: ThreadOk(Step(s, i, act).threads[j])
  {
    assert ThreadOk(s.threads[i]);
    if !Idle(s.threads[i]) && Current(s.threads[i]).Decrease? {
      DecreaseSeesUnit(s, i);
    }
    OwnStep(s.threads[i], s.memory, act);
    assert Step(s, i, act).threads == s.threads[i := StepThread(s.threads[i], s.memory, act).0];
  }

  /** The peak never falls. */
  lemma StepPeakMonotone(s: System, i: nat, act: Act)
    requires i < |s.threads| && Enabled(s.threads[i], act)
    ensures Read(Step(s, i, act).memory, Peak) >= Read(s.memory, Peak)
  {
  }

  lemma StepTicket(s: System, i: nat, act: Act, j: nat)
    requires SysInv(s) && i < |s.threads| && Enabled(s.threads[i], act) && j < |s.threads|
    ensures var r := Step(s, i, act); TicketOk(r.threads[j], r.memory, r.high)
  {
    assert ThreadOk(s.threads[j]) && TicketOk(s.threads[j], s.memory, s.high);
    if i == j {
    } else {
      StepPeakMonotone(s, i, act);
    }
  }

  /** A step moves the two cells the peak depends on in only these ways. */
  lemma StepCells(t: Thread, m: Memory, act: Act)
    requires ThreadOk(t) && Enabled(t, act)
    ensures var (t', m') := StepThread(t, m, act);
            && (Read(m', Global(Active)) <= Read(m, Global(Active))
                || (Raising(t') && t'.ticket == Read(m', Global(Active))))
            && (Read(m', Peak) == Read(m, Peak) || (Raising(t) && Read(m', Peak) == t.ticket))
  {
  }

  lemma StepBounds(s: System, i: nat, act: Act)
    requires SysInv(s) && i < |s.threads| && Enabled(s.threads[i], act)
    ensures var r := Step(s, i, act);
            && Read(r.memory, Global(Active)) <= r.high && Read(r.memory, Peak) <= r.high && s.high <= r.high
            && (r.high > s.high ==> Raising(r.threads[i]) && r.threads[i].ticket == r.high)
  {
    assert ThreadOk(s.threads[i]) && TicketOk(s.threads[i], s.memory, s.high);
    StepCells(s.threads[i], s.memory, act);
  }

  /** Either the peak is the highest value so far, or some thread carries that value as
      its ticket and has still to raise the peak. */
  lemma StepSettles(s: System, i: nat, act: Act)
    requires SysInv(s) && i < |s.threads| && Enabled(s.threads[i], act)
    ensures PeakSettled(Step(s, i, act))
  {
    var r := Step(s, i, act);
    StepBounds(s, i, act);
    StepPeakMonotone(s, i, act);
    if r.high == s.high && Read(s.memory, Peak) != s.high {
      var j :| 0 <= j < |s.threads| && Raising(s.threads[j]) && s.threads[j].ticket == s.high;
      if j == i {
        assert ThreadOk(s.threads[i]) && TicketOk(s.threads[i], s.memory, s.high);
        assert Raising(r.threads[i]) ==> r.threads[i].ticket == r.high;
      } else {
        assert r.threads[j] == s.threads[j];
      }
    } else if r.high > s.high {
      assert Raising(r.threads[i]) && r.threads[i].ticket == r.high;
    }
  }

  lemma StepKeeps(s: System, i: nat, act: Act)
    requires SysInv(s) && i < |s.threads| && Enabled(s.threads[i], act)
    ensures SysInv(Step(s, i, act))
  {
    StepConserves(s, i, act);
    StepThreads(s, i, act);
    StepSettles(s, i, act);
    StepBounds(s, i, act);
    var r := Step(s, i, act);
    forall j | 0 <= j < |s.threads| ensures TicketOk(r.threads[j], r.memory, r.high) {
      StepTicket(s, i, act, j);
    }
  }
}
