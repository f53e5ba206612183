/** The state machine of one backend: passive and active failures, recovery, and the
    administrator's drain and enable.  Operations are whole: the loads and stores of two
    concurrent ones do not interleave. */
module Health {
  import opened Selection

  /** The failure counter is a 32-bit unsigned integer. */
  const WORD32: nat := 0x1_0000_0000

  datatype Backend = Backend(state: BackendState, failures: nat)

  /** `Fail` is a recorded failure followed by the ejection test. */
  datatype Operation = Fail | Recover | Drain | Enable

  function MarkFailure(b: Backend): Backend {
    b.(failures := (b.failures + 1) % WORD32)
  }

  function Eject(b: Backend, threshold: nat): Backend {
    if b.failures >= threshold then b.(state := Down) else b
  }

  function MarkHealthy(b: Backend): Backend {
    Backend(if b.state.Down? then Up else b.state, 0)
  }

  function Apply(b: Backend, op: Operation, threshold: nat): Backend {
    match op
    case Fail => Eject(MarkFailure(b), threshold)
    case Recover => MarkHealthy(b)
    case Drain => b.(state := Draining)
    case Enable => b.(state := Up)
  }

  /** One round of the health checker: a draining backend is not probed. */
  function Probe(b: Backend, ok: bool, threshold: nat): Backend {
    if b.state.Draining? then b else Apply(b, if ok then Recover else Fail, threshold)
  }

  function After(ops: seq<Operation>, threshold: nat): Backend {
    if ops == [] then Backend(Up, 0) else Apply(After(ops[..|ops| - 1], threshold), ops[|ops| - 1], threshold)
  }

  /** Failures since the last recovery. */
  function Streak(ops: seq<Operation>): nat {
    if ops == [] then 0
    else
      match ops[|ops| - 1]
      case Fail => Streak(ops[..|ops| - 1]) + 1
      case Recover => 0
      case _ => Streak(ops[..|ops| - 1])
  }

  /** Whether the administrator enabled the backend after the last recovery. */
  predicate EnabledSinceRecovery(ops: seq<Operation>) {
    ops != [] &&
    match ops[|ops| - 1]
    case Enable => true
    case Recover => false
    case _ => EnabledSinceRecovery(ops[..|ops| - 1])
  }

  /** Over all sequences of operations, with the counter's wrap: the counter is the length
      of the failure streak modulo 2^32; a backend that is Down has failed at least
      threshold times in a row; and one that is Up after a streak that long has been
      enabled by the administrator since it last recovered. */
  lemma {:induction false} History(ops: seq<Operation>, threshold: nat)
    ensures After(ops, threshold).failures == Streak(ops) % WORD32
    ensures After(ops, threshold).state.Down? ==> Streak(ops) >= threshold
    ensures 0 < threshold < WORD32 && threshold <= Streak(ops) && After(ops, threshold).state.Up? ==>
              EnabledSinceRecovery(ops)
  {
    if ops == [] {
    } else {
      var before := ops[..|ops| - 1];
      History(before, threshold);
      if ops[|ops| - 1].Fail? {
        CountOne(Streak(before));
      }
    }
  }

  lemma CountOne(n: nat)
    ensures (n % WORD32 + 1) % WORD32 == (n + 1) % WORD32
    ensures n + 1 < WORD32 ==> n % WORD32 == n && (n + 1) % WORD32 == n + 1
  {
  }

  function Failures(n: nat): seq<Operation> {
    seq(n, i => Fail)
  }

  lemma {:induction false} FailureRun(n: nat, threshold: nat)
    requires 0 < threshold < WORD32
    ensures Streak(Failures(n)) == n
    ensures After(Failures(n), threshold).state == if n >= threshold then Down else Up
  {
    if n == 0 {
    } else {
      assert Failures(n)[..n - 1] == Failures(n - 1);
      FailureRun(n - 1, threshold);
      History(Failures(n - 1), threshold);
      CountOne(n - 1);
    }
  }

  /** "Down means that at least threshold consecutive failures are on record" holds for
      every history that ends in a streak of `n` failures exactly when the streak is
      shorter than the threshold or has not wrapped the counter to less than it.  The
      configuration stores the threshold in 32 bits. */
  lemma DownIsRecorded(n: nat, threshold: nat)
    requires threshold < WORD32
    ensures (forall ops | Streak(ops) == n ::
               After(ops, threshold).state.Down? ==> After(ops, threshold).failures >= threshold)
            <==> n < threshold || n % WORD32 >= threshold
  {
    forall ops | Streak(ops) == n
      ensures After(ops, threshold).failures == n % WORD32
      ensures After(ops, threshold).state.Down? ==> n >= threshold {
      History(ops, threshold);
    }
    if threshold > 0 {
      FailureRun(n, threshold);
      History(Failures(n), threshold);
    }
  }

  /** The wrap does lose the record: after 2^32 failures in a row, a backend with any
      threshold of at least one is Down with a failure count of zero. */
  lemma WrapLosesRecord(threshold: nat)
    requires 0 < threshold < WORD32
    ensures After(Failures(WORD32), threshold) == Backend(Down, 0)
  {
    FailureRun(WORD32, threshold);
    History(Failures(WORD32), threshold);
  }

  // ----- The state after any history -----

  /** Whether the operation at place `j` is a failure with which the streak, as the counter
      holds it, is at the threshold or beyond. */
  predicate EjectsAt(ops: seq<Operation>, j: nat, threshold: nat)
    requires j < |ops|
  {
    ops[j].Fail? && Streak(ops[..j + 1]) % WORD32 >= threshold
  }

  /** The drain at place `j` still holds at the end. */
  predicate DrainHolds(ops: seq<Operation>, j: nat, threshold: nat)
    requires j < |ops|
  {
    ops[j].Drain? && forall k | j < k < |ops| :: !ops[k].Enable? && !EjectsAt(ops, k, threshold)
  }

  /** The ejection at place `j` still holds at the end: nothing but failures came after it. */
  predicate EjectionHolds(ops: seq<Operation>, j: nat, threshold: nat)
    requires j < |ops|
  {
    EjectsAt(ops, j, threshold) && forall k | j < k < |ops| :: ops[k].Fail?
  }

  ghost predicate Drained(ops: seq<Operation>, threshold: nat) {
    exists j | 0 <= j < |ops| :: DrainHolds(ops, j, threshold)
  }

  ghost predicate Ejected(ops: seq<Operation>, threshold: nat) {
    exists j | 0 <= j < |ops| :: EjectionHolds(ops, j, threshold)
  }

  lemma EjectsAtPrefix(ops: seq<Operation>, n: nat, j: nat, threshold: nat)
    requires j < n <= |ops|
    ensures EjectsAt(ops[..n], j, threshold) <==> EjectsAt(ops, j, threshold)
  {
    assert ops[..n][..j + 1] == ops[..j + 1];
  }

  lemma DrainedStep(ops: seq<Operation>, threshold: nat)
    requires ops != []
    ensures var n := |ops| - 1;
            Drained(ops, threshold) <==>
            ops[n].Drain? || (Drained(ops[..n], threshold) && !ops[n].Enable? && !EjectsAt(ops, n, threshold))
  {
    var n := |ops| - 1;
    forall j | 0 <= j < n
      ensures DrainHolds(ops, j, threshold) <==>
              DrainHolds(ops[..n], j, threshold) && !ops[n].Enable? && !EjectsAt(ops, n, threshold) {
      forall k | j < k < n ensures EjectsAt(ops[..n], k, threshold) <==> EjectsAt(ops, k, threshold) {
        EjectsAtPrefix(ops, n, k, threshold);
      }
    }
    assert DrainHolds(ops, n, threshold) <==> ops[n].Drain?;
  }

  lemma EjectedStep(ops: seq<Operation>, threshold: nat)
    requires ops != []
    ensures var n := |ops| - 1;
            Ejected(ops, threshold) <==>
            EjectsAt(ops, n, threshold) || (Ejected(ops[..n], threshold) && ops[n].Fail?)
  {
    var n := |ops| - 1;
    forall j | 0 <= j < n
      ensures EjectionHolds(ops, j, threshold) <==> EjectionHolds(ops[..n], j, threshold) && ops[n].Fail? {
      EjectsAtPrefix(ops, n, j, threshold);
    }
    assert EjectionHolds(ops, n, threshold) <==> EjectsAt(ops, n, threshold);
  }

  /** The state after any sequence of operations, exactly: draining if some drain was
      followed by no enable and no ejecting failure, Down if some failure ejected and
      nothing but failures followed, and Up otherwise. */
  lemma {:induction false} StateExactly(ops: seq<Operation>, threshold: nat)
    ensures After(ops, threshold).state.Draining? <==> Drained(ops, threshold)
    ensures After(ops, threshold).state.Down? <==> Ejected(ops, threshold)
  {
    if ops == [] {
    } else {
      var n := |ops| - 1;
      StateExactly(ops[..n], threshold);
      History(ops, threshold);
      DrainedStep(ops, threshold);
      EjectedStep(ops, threshold);
      assert ops[..n + 1] == ops;
    }
  }

  // ----- How draining ends -----

  /** Whether the failure at place `j` of `tail`, after `ops`, ejects the backend: with it
      the streak, as the counter holds it, is at the threshold or beyond. */
  predicate Ejects(ops: seq<Operation>, tail: seq<Operation>, j: nat, threshold: nat)
    requires j < |tail|
  {
    tail[j].Fail? && Streak(ops + tail[..j + 1]) % WORD32 >= threshold
  }

  /** The backend after `ops` and the first `n` operations of `tail`. */
  function Then(ops: seq<Operation>, tail: seq<Operation>, n: nat, threshold: nat): Backend
    requires n <= |tail|
  {
    After(ops + tail[..n], threshold)
  }

  /** One more operation. */
  lemma ThenStep(ops: seq<Operation>, tail: seq<Operation>, j: nat, threshold: nat)
    requires j < |tail|
    ensures Then(ops, tail, j + 1, threshold) == Apply(Then(ops, tail, j, threshold), tail[j], threshold)
    ensures Ejects(ops, tail, j, threshold) <==>
            tail[j].Fail? && (Then(ops, tail, j, threshold).failures + 1) % WORD32 >= threshold
  {
    var more := ops + tail[..j + 1];
    assert more[..|more| - 1] == ops + tail[..j] && more[|more| - 1] == tail[j];
    History(ops + tail[..j], threshold);
    if tail[j].Fail? {
      CountOne(Streak(ops + tail[..j]));
    }
  }

  /** One operation takes a draining backend out of that state exactly if it is an enable
      or a failure that ejects. */
  lemma DrainingStep(ops: seq<Operation>, tail: seq<Operation>, j: nat, threshold: nat)
    requires j < |tail| && Then(ops, tail, j, threshold).state.Draining?
    ensures Then(ops, tail, j + 1, threshold).state.Draining? <==>
            tail[j] != Enable && !Ejects(ops, tail, j, threshold)
  {
    ThenStep(ops, tail, j, threshold);
  }

  /** Over any continuation, a draining backend stays draining all along exactly if the
      administrator never enables it and no failure brings its counter to the threshold;
      a recovery never undoes a drain. */
  lemma {:induction false} DrainingLeft(ops: seq<Operation>, tail: seq<Operation>, n: nat, threshold: nat)
    requires After(ops, threshold).state.Draining? && n <= |tail|
    ensures (forall m | 0 <= m <= n :: Then(ops, tail, m, threshold).state.Draining?) <==>
            (forall j | 0 <= j < n :: tail[j] != Enable && !Ejects(ops, tail, j, threshold))
  {
    if n == 0 {
      assert ops + tail[..0] == ops;
    } else {
      DrainingLeft(ops, tail, n - 1, threshold);
      if Then(ops, tail, n - 1, threshold).state.Draining? {
        DrainingStep(ops, tail, n - 1, threshold);
      } else {
        assert !(forall m | 0 <= m <= n :: Then(ops, tail, m, threshold).state.Draining?);
      }
    }
  }

  /** A failure ejects and a recovery follows it, both before place `n`. */
  predicate EjectedThenRecovered(ops: seq<Operation>, tail: seq<Operation>, n: nat, threshold: nat)
    requires n <= |tail|
  {
    exists j, k | 0 <= j < k < n :: Ejects(ops, tail, j, threshold) && tail[k].Recover?
  }

  /** What the first `n` operations of a continuation without the administrator's hand
      have done to a draining backend. */
  lemma {:induction false} DrainingSoFar(ops: seq<Operation>, tail: seq<Operation>, n: nat, threshold: nat)
    requires After(ops, threshold).state.Draining? && n <= |tail| && Enable !in tail && Drain !in tail
    ensures Then(ops, tail, n, threshold).state.Draining? <==> forall j | 0 <= j < n :: !Ejects(ops, tail, j, threshold)
    ensures Then(ops, tail, n, threshold).state.Up? ==> EjectedThenRecovered(ops, tail, n, threshold)
  {
    if n == 0 {
      assert ops + tail[..0] == ops;
    } else {
      DrainingSoFar(ops, tail, n - 1, threshold);
      ThenStep(ops, tail, n - 1, threshold);
      assert tail[n - 1] in tail;
      if Then(ops, tail, n, threshold).state.Up? && Then(ops, tail, n - 1, threshold).state.Down? {
        var j :| 0 <= j < n - 1 && Ejects(ops, tail, j, threshold);
        assert tail[n - 1].Recover?;
      }
    }
  }

  /** Draining is not sticky: without the administrator, a draining backend comes back into
      service at some point of a continuation exactly if one of its failures ejects it and
      a recovery comes after that. */
  lemma DrainingReturns(ops: seq<Operation>, tail: seq<Operation>, threshold: nat)
    requires After(ops, threshold).state.Draining? && Enable !in tail && Drain !in tail
    ensures (exists m | 0 <= m <= |tail| :: Then(ops, tail, m, threshold).state.Up?) <==>
            EjectedThenRecovered(ops, tail, |tail|, threshold)
  {
    forall m | 0 <= m <= |tail| && Then(ops, tail, m, threshold).state.Up?
      ensures EjectedThenRecovered(ops, tail, |tail|, threshold) {
      DrainingSoFar(ops, tail, m, threshold);
    }
    if EjectedThenRecovered(ops, tail, |tail|, threshold) {
      var j, k :| 0 <= j < k < |tail| && Ejects(ops, tail, j, threshold) && tail[k].Recover?;
      DrainingSoFar(ops, tail, k, threshold);
      ThenStep(ops, tail, k, threshold);
      assert Then(ops, tail, k + 1, threshold).state.Up?;
    }
  }

  /** Such continuations exist for every threshold: enough failures on connections still
      open eject a draining backend, and one recovery then returns it to service. */
  lemma {:induction false} DrainingCanReturn(threshold: nat)
    requires 0 < threshold < WORD32
    ensures After([Drain] + Failures(threshold), threshold).state.Down?
    ensures After([Drain] + Failures(threshold) + [Recover], threshold).state.Up?
    ensures !EnabledSinceRecovery([Drain] + Failures(threshold))
  {
    DrainedFailures(threshold, threshold);
    var ops := [Drain] + Failures(threshold);
    assert (ops + [Recover])[..|ops|] == ops;
  }

  lemma {:induction false} DrainedFailures(n: nat, threshold: nat)
    requires 0 < threshold < WORD32 && n <= threshold
    ensures var ops := [Drain] + Failures(n);
            && After(ops, threshold) == Backend(if n == threshold then Down else Draining, n)
            && !EnabledSinceRecovery(ops)
  {
    var ops := [Drain] + Failures(n);
    if n == 0 {
      assert ops == [Drain];
      assert ops[..0] == [];
    } else {
      assert ops[..|ops| - 1] == [Drain] + Failures(n - 1);
      DrainedFailures(n - 1, threshold);
    }
  }
}
