/** The calls a thread makes on the shared runtime state, and what each of them
    adds to the shared counters.  A worker logs its calls; the interleaving model
    executes the same calls one atomic instruction at a time. */
module Calls {

  /** The counters that exist both once per backend and once globally. */
  datatype Family = Active | Total | Errors | BytesIn | BytesOut

  datatype Cell =
    | PerBackend(family: Family, index: nat)
    | Global(family: Family)
    | ConnectTimeouts
    | IdleTimeouts
    | Peak

  datatype Call =
    | Open(index: nat)
    | Close(index: nat)
    | Failure(index: nat)
    | FromClient(index: nat, count: nat)
    | FromBackend(index: nat, count: nat)
    | Latency(index: nat, elapsed: int)
    | Healthy(index: nat)
    | Eject(index: nat)
    | ConnectTimeout
    | IdleTimeout

  predicate Targets(call: Call, b: nat) {
    !call.ConnectTimeout? && !call.IdleTimeout? && call.index == b
  }

  function FamilyEffect(call: Call, f: Family): int {
    match (f, call)
    case (Active, Open(_)) => 1
    case (Active, Close(_)) => -1
    case (Total, Open(_)) => 1
    case (Errors, Failure(_)) => 1
    case (BytesIn, FromClient(_, n)) => n
    case (BytesOut, FromBackend(_, n)) => n
    case _ => 0
  }

  /** What the completed call adds to a cell. */
  function Effect(call: Call, cell: Cell): int {
    match cell
    case PerBackend(f, b) => if Targets(call, b) then FamilyEffect(call, f) else 0
    case Global(f) => FamilyEffect(call, f)
    case ConnectTimeouts => if call.ConnectTimeout? then 1 else 0
    case IdleTimeouts => if call.IdleTimeout? then 1 else 0
    case Peak => 0
  }

  /** The sum of the effects of a log of calls. */
  function Net(log: seq<Call>, cell: Cell): int {
    if log == [] then 0
    else Net(log[..|log| - 1], cell) + Effect(log[|log| - 1], cell)
  }

  /** The last call recorded was a failure of backend `b`. */
  predicate JustFailed(log: seq<Call>, b: nat) {
    log != [] && log[|log| - 1] == Failure(b)
  }

  /** When a call may follow a log: a close only while a connection on that backend is
      open, an ejection only as the consequence of a failure just recorded. */
  predicate MayFollow(log: seq<Call>, call: Call) {
    && (call.Close? ==> Net(log, PerBackend(Active, call.index)) > 0)
    && (call.Eject? ==> JustFailed(log, call.index))
  }

  predicate Disciplined(log: seq<Call>) {
    log == [] || (Disciplined(log[..|log| - 1]) && MayFollow(log[..|log| - 1], log[|log| - 1]))
  }

  predicate InRange(log: seq<Call>, n: nat) {
    forall i | 0 <= i < |log| :: log[i].ConnectTimeout? || log[i].IdleTimeout? || log[i].index < n
  }

  lemma NetAppend(log: seq<Call>, call: Call, cell: Cell)
    ensures Net(log + [call], cell) == Net(log, cell) + Effect(call, cell)
  {
    assert (log + [call])[..|log|] == log;
  }

  lemma DisciplinedAppend(log: seq<Call>, call: Call)
    ensures Disciplined(log + [call]) <==> Disciplined(log) && MayFollow(log, call)
  {
    assert (log + [call])[..|log|] == log;
  }

  /** A disciplined log never leaves a backend with fewer opens than closes. */
  lemma {:induction false} LiveNeverNegative(log: seq<Call>, b: nat)
    requires Disciplined(log)
    ensures Net(log, PerBackend(Active, b)) >= 0
  {
    if log == [] {
    } else {
      LiveNeverNegative(log[..|log| - 1], b);
    }
  }

  /** Sum of a log's effect on the per-backend cells of a family, backends 0..n-1. */
  function NetOverBackends(log: seq<Call>, f: Family, n: nat): int {
    if n == 0 then 0
    else NetOverBackends(log, f, n - 1) + Net(log, PerBackend(f, n - 1))
  }

  lemma {:induction false} OverBackendsAppend(log: seq<Call>, call: Call, f: Family, n: nat)
    ensures NetOverBackends(log + [call], f, n) ==
            NetOverBackends(log, f, n) +
            (if exists b: nat | b < n :: Targets(call, b) then FamilyEffect(call, f) else 0)
  {
    if n == 0 {
    } else {
      OverBackendsAppend(log, call, f, n - 1);
      NetAppend(log, call, PerBackend(f, n - 1));
      if Targets(call, n - 1) {
        assert forall b: nat | b < n - 1 :: !Targets(call, b);
      } else {
        assert forall b: nat | b < n && Targets(call, b) :: b < n - 1;
      }
    }
  }

  /** Whatever a log does to a global counter, it does to the sum of the
      per-backend counters of the same family. */
  lemma {:induction false} GlobalIsSumOfBackends(log: seq<Call>, f: Family, n: nat)
    requires InRange(log, n)
    ensures Net(log, Global(f)) == NetOverBackends(log, f, n)
  {
    if log == [] {
      EmptyOverBackends(f, n);
    } else {
      var before, last := log[..|log| - 1], log[|log| - 1];
      assert log == before + [last];
      GlobalIsSumOfBackends(before, f, n);
      OverBackendsAppend(before, last, f, n);
      if !last.ConnectTimeout? && !last.IdleTimeout? {
        assert last.index < n && Targets(last, last.index);
      }
    }
  }

  lemma {:induction false} EmptyOverBackends(f: Family, n: nat)
    ensures NetOverBackends([], f, n) == 0
  {
    if n == 0 {
    } else {
      EmptyOverBackends(f, n - 1);
    }
  }

  lemma {:induction false} OverBackendsNonNegative(log: seq<Call>, n: nat)
    requires Disciplined(log)
    ensures NetOverBackends(log, Active, n) >= 0
  {
    if n == 0 {
    } else {
      OverBackendsNonNegative(log, n - 1);
      LiveNeverNegative(log, n - 1);
    }
  }
}
