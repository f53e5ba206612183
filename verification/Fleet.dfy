/** All threads together: the shared counters against the workers' own maps. */
module Fleet {
  import opened Calls
  import E = Engine
  import I = Invariant
  import M = Moments
  import R = Runs
  import A = Atomics
  import N = Interleavings

  /** The backend sockets a worker has registered for backend `b`: its live pairs there. */
  function PairsOn(w: E.World, b: nat): set<int> {
    set fd | fd in w.peers && w.peers[fd].backendSide && w.peers[fd].backendIndex == b
  }

  predicate LiveOn(c: E.Conn, b: nat) {
    c.fate.Alive? && c.index == b
  }

  /** The backend sockets of the first `n` connections that live on `b`. */
  ghost function SocketsOn(conns: seq<E.Conn>, b: nat, n: nat): set<int>
    requires n <= |conns|
  {
    set k: nat | k < n && LiveOn(conns[k], b) :: conns[k].backend.fd
  }

  lemma SocketsStep(conns: seq<E.Conn>, b: nat, n: nat)
    requires n < |conns|
    ensures SocketsOn(conns, b, n + 1) ==
            SocketsOn(conns, b, n) + (if LiveOn(conns[n], b) then {conns[n].backend.fd} else {})
  {
    var more := SocketsOn(conns, b, n) + (if LiveOn(conns[n], b) then {conns[n].backend.fd} else {});
    forall fd | fd in SocketsOn(conns, b, n + 1) ensures fd in more {
      var k: nat :| k < n + 1 && LiveOn(conns[k], b) && conns[k].backend.fd == fd;
      if k < n { assert fd in SocketsOn(conns, b, n); }
    }
    assert forall fd | fd in more :: fd in SocketsOn(conns, b, n + 1);
  }

  lemma SumStep(conns: seq<E.Conn>, b: nat, n: nat)
    requires n < |conns|
    ensures I.SumBooked(conns[..n + 1], PerBackend(Active, b)) ==
            I.SumBooked(conns[..n], PerBackend(Active, b)) + (if LiveOn(conns[n], b) then 1 else 0)
  {
    assert conns[..n + 1][..n] == conns[..n];
  }

  lemma {:induction false} CountSockets(w: E.World, b: nat, n: nat)
    requires I.Sound(w) && n <= |w.conns|
    ensures |SocketsOn(w.conns, b, n)| == I.SumBooked(w.conns[..n], PerBackend(Active, b))
  {
    if n == 0 {
      assert SocketsOn(w.conns, b, 0) == {};
    } else {
      CountSockets(w, b, n - 1);
      OneMoreSocket(w, b, n - 1);
      SumStep(w.conns, b, n - 1);
    }
  }

  lemma OneMoreSocket(w: E.World, b: nat, n: nat)
    requires I.Sound(w) && n < |w.conns|
    ensures |SocketsOn(w.conns, b, n + 1)| == |SocketsOn(w.conns, b, n)| + (if LiveOn(w.conns[n], b) then 1 else 0)
  {
    SocketsStep(w.conns, b, n);
    if LiveOn(w.conns[n], b) {
      NewSocket(w, b, n);
    } else {
      assert SocketsOn(w.conns, b, n + 1) == SocketsOn(w.conns, b, n);
    }
  }

  lemma NewSocket(w: E.World, b: nat, n: nat)
    requires I.Sound(w) && n < |w.conns| && LiveOn(w.conns[n], b)
    ensures w.conns[n].backend.fd !in SocketsOn(w.conns, b, n)
  {
    assert I.SideOk(w, n, true);
    forall k: nat | k < n && LiveOn(w.conns[k], b) ensures w.conns[k].backend.fd != w.conns[n].backend.fd {
      assert I.SideOk(w, k, true);
    }
  }

  /** A worker's calls leave the active counter of a backend at the number of pairs the
      worker has registered there. */
  lemma CallsCountPairs(w: E.World, b: nat)
    requires I.Sound(w)
    ensures Net(w.calls, PerBackend(Active, b)) == |PairsOn(w, b)|
  {
    CountSockets(w, b, |w.conns|);
    assert w.conns[..|w.conns|] == w.conns;
    R.RefusedNotActive(w.refused, b);
    assert I.Counted(PerBackend(Active, b));
    var all := SocketsOn(w.conns, b, |w.conns|);
    forall fd ensures fd in all <==> fd in PairsOn(w, b) {
      if fd in all {
        var k: nat :| k < |w.conns| && LiveOn(w.conns[k], b) && w.conns[k].backend.fd == fd;
        assert I.SideOk(w, k, true);
      }
      if fd in PairsOn(w, b) {
        var k, side := I.OwnerOf(w, fd, w.peers.Keys);
        assert LiveOn(w.conns[k], b);
      }
    }
    assert all == PairsOn(w, b);
  }

  function AllPairsOn(workers: seq<E.World>, b: nat): nat {
    if workers == [] then 0
    else AllPairsOn(workers[..|workers| - 1], b) + |PairsOn(workers[|workers| - 1], b)|
  }

  /** Threads that open and close nothing: the health checker and the admin server. */
  predicate Observer(log: seq<Call>) {
    forall i | 0 <= i < |log| :: !log[i].Open? && !log[i].Close?
  }

  /** The counters that only opens and closes move. */
  predicate OpenClose(cell: Cell) {
    (cell.PerBackend? || cell.Global?) && (cell.family.Active? || cell.family.Total?)
  }

  lemma {:induction false} ObserverMovesNothing(log: seq<Call>, cell: Cell)
    requires Observer(log) && OpenClose(cell)
    ensures Net(log, cell) == 0
  {
    if log == [] {
    } else {
      ObserverMovesNothing(log[..|log| - 1], cell);
    }
  }

  lemma ObserverOwesNothing(t: A.Thread, cell: Cell)
    requires Observer(t.log) && OpenClose(cell)
    ensures N.Owed(t, cell) == 0
  {
    if !A.Idle(t) {
      A.DoneUnrolled(A.Last(t), t.pc, cell);
    }
  }

  /** The threads of a system are some workers, each in a state after the calls it has
      begun, and any number of observers. */
  ghost predicate Staffed(threads: seq<A.Thread>, workers: seq<E.World>) {
    && |workers| <= |threads|
    && (forall i | 0 <= i < |workers| :: I.Books(workers[i]) && threads[i].log == workers[i].calls)
    && (forall i | |workers| <= i < |threads| :: Observer(threads[i].log))
  }

  /** Moreover the connections of each worker's state are those it has registered. */
  ghost predicate Manned(threads: seq<A.Thread>, workers: seq<E.World>) {
    Staffed(threads, workers) && forall i | 0 <= i < |workers| :: I.Sound(workers[i])
  }

  lemma {:induction false} LoggedSplit(threads: seq<A.Thread>, n: nat, cell: Cell)
    requires n <= |threads|
    ensures N.Logged(threads, cell) == N.Logged(threads[..n], cell) + N.Logged(threads[n..], cell)
    decreases |threads|
  {
    if n == |threads| {
      assert threads[..n] == threads;
    } else {
      var m := |threads| - 1;
      LoggedSplit(threads[..m], n, cell);
      assert threads[..m][..n] == threads[..n];
      assert threads[n..][..|threads[n..]| - 1] == threads[..m][n..];
    }
  }

  /** What the connections and refusals of all workers contribute to a counter. */
  function Contributed(workers: seq<E.World>, cell: Cell): nat {
    if workers == [] then 0
    else
      var w := workers[|workers| - 1];
      Contributed(workers[..|workers| - 1], cell) + I.SumBooked(w.conns, cell) + I.SumRefused(w.refused, cell)
  }

  lemma {:induction false} LoggedContributions(threads: seq<A.Thread>, workers: seq<E.World>, cell: Cell)
    requires I.Counted(cell) && |threads| == |workers|
    requires forall i | 0 <= i < |workers| :: I.Books(workers[i]) && threads[i].log == workers[i].calls
    ensures N.Logged(threads, cell) == Contributed(workers, cell)
  {
    if threads == [] {
    } else {
      LoggedContributions(threads[..|threads| - 1], workers[..|workers| - 1], cell);
    }
  }

  lemma {:induction false} LoggedByObservers(threads: seq<A.Thread>, cell: Cell)
    requires OpenClose(cell) && forall i | 0 <= i < |threads| :: Observer(threads[i].log)
    ensures N.Logged(threads, cell) == 0
  {
    if threads == [] {
    } else {
      LoggedByObservers(threads[..|threads| - 1], cell);
      ObserverMovesNothing(threads[|threads| - 1].log, cell);
    }
  }

  /** In every state of every interleaving, a counter is the sum over all connections,
      live and ended, of all workers -- bytes read from clients, bytes read from
      backends, connections made, failures -- plus the refusals, plus what the observers'
      own calls (failed probes) added, corrected by what the calls in progress have yet
      to do.  With no call in progress the correction is zero. */
  lemma CountersAreContributions(run: seq<A.System>, i: nat, workers: seq<E.World>, cell: Cell)
    requires A.IsRun(run) && i < |run| && I.Counted(cell) && Staffed(run[i].threads, workers)
    ensures A.Read(run[i].memory, cell) ==
            Contributed(workers, cell) + N.Logged(run[i].threads[|workers|..], cell) + N.InFlight(run[i].threads, cell)
    ensures N.Quiescent(run[i]) ==> N.InFlight(run[i].threads, cell) == 0
  {
    N.CountersWithCallsInFlight(run, i, cell);
    LoggedSplit(run[i].threads, |workers|, cell);
    LoggedContributions(run[i].threads[..|workers|], workers, cell);
    if N.Quiescent(run[i]) {
      N.NothingInFlight(run[i].threads, cell);
    }
  }

  // ----- A state for every moment -----

  /** A worker's run, and the order in which its shutdown closes what is left. */
  datatype Life = Life(run: seq<R.Loop>, order: seq<int>)

  /** A thread is somewhere in the life of a worker: its calls are the first ones of a run
      and of the shutdown that ends it. */
  ghost predicate Follows(t: A.Thread, life: Life) {
    R.IsRun(life.run) && t.log <= E.Shutdown(life.run[|life.run| - 1].w, life.order).calls
  }

  /** Threads that follow workers' lives always have such states, wherever in a handler each
      of them is. */
  lemma AlwaysManned(threads: seq<A.Thread>, lives: seq<Life>) returns (workers: seq<E.World>)
    requires |lives| <= |threads|
    requires forall i | 0 <= i < |lives| :: Follows(threads[i], lives[i])
    requires forall i | |lives| <= i < |threads| :: Observer(threads[i].log)
    ensures |workers| == |lives| && Manned(threads, workers)
  {
    workers := [];
    for i := 0 to |lives|
      invariant |workers| == i
      invariant forall j | 0 <= j < i :: I.Sound(workers[j]) && threads[j].log == workers[j].calls
    {
      assert Follows(threads[i], lives[i]);
      var v := M.EveryMomentOfShutdown(lives[i].run, lives[i].order, |threads[i].log|);
      workers := workers + [v];
    }
  }

  // ----- Live and ended pairs -----

  function EndedOn(conns: seq<E.Conn>, b: nat): nat {
    if conns == [] then 0
    else
      var c := conns[|conns| - 1];
      EndedOn(conns[..|conns| - 1], b) + (if c.index == b && !c.fate.Alive? then 1 else 0)
  }

  function AllEndedOn(workers: seq<E.World>, b: nat): nat {
    if workers == [] then 0
    else AllEndedOn(workers[..|workers| - 1], b) + EndedOn(workers[|workers| - 1].conns, b)
  }

  lemma {:induction false} TotalIsLivePlusEnded(conns: seq<E.Conn>, b: nat)
    ensures I.SumBooked(conns, PerBackend(Total, b)) == I.SumBooked(conns, PerBackend(Active, b)) + EndedOn(conns, b)
  {
    if conns == [] {
    } else {
      TotalIsLivePlusEnded(conns[..|conns| - 1], b);
    }
  }

  lemma {:induction false} NoRefusedTotal(refused: seq<nat>, b: nat)
    ensures I.SumRefused(refused, PerBackend(Total, b)) == 0
  {
    if refused == [] {
    } else {
      NoRefusedTotal(refused[..|refused| - 1], b);
    }
  }

  lemma {:induction false} AllPairsContributed(workers: seq<E.World>, b: nat)
    requires forall j | 0 <= j < |workers| :: I.Sound(workers[j])
    ensures Contributed(workers, PerBackend(Active, b)) == AllPairsOn(workers, b)
    ensures Contributed(workers, PerBackend(Total, b)) == AllPairsOn(workers, b) + AllEndedOn(workers, b)
  {
    if workers == [] {
    } else {
      var w := workers[|workers| - 1];
      AllPairsContributed(workers[..|workers| - 1], b);
      CallsCountPairs(w, b);
      assert I.Counted(PerBackend(Active, b));
      R.RefusedNotActive(w.refused, b);
      TotalIsLivePlusEnded(w.conns, b);
      NoRefusedTotal(w.refused, b);
    }
  }

  lemma InFlightOnBackend(run: seq<A.System>, i: nat, b: nat)
    requires A.IsRun(run) && i < |run|
    ensures var threads := run[i].threads;
            && N.InFlight(threads, PerBackend(Active, b)) ==
               N.Waiting(threads, Close(b), 0) - N.Waiting(threads, Open(b), 0)
            && N.InFlight(threads, PerBackend(Total, b)) == 0 - N.Waiting(threads, Open(b), 1)
  {
    N.RunInvariant(run, i);
    N.InFlightOnBackend(run[i].threads, b);
  }

  /** Over all interleavings of all threads, calls in progress included: the active counter
      of a backend is the number of pairs registered there by all workers, less the opens
      that have not added theirs yet, plus the closes that have not taken theirs away. */
  lemma ActiveIsLivePairs(run: seq<A.System>, i: nat, workers: seq<E.World>, b: nat)
    requires A.IsRun(run) && i < |run| && Manned(run[i].threads, workers)
    ensures A.Read(run[i].memory, PerBackend(Active, b)) + N.Waiting(run[i].threads, Open(b), 0) ==
            AllPairsOn(workers, b) + N.Waiting(run[i].threads, Close(b), 0)
  {
    CountersAreContributions(run, i, workers, PerBackend(Active, b));
    AllPairsContributed(workers, b);
    LoggedByObservers(run[i].threads[|workers|..], PerBackend(Active, b));
    InFlightOnBackend(run, i, b);
  }

  /** In the same way the total counter of a backend is the number of its live pairs plus
      that of its ended ones, less the opens that have not counted themselves yet. */
  lemma TotalIsPairsEverMade(run: seq<A.System>, i: nat, workers: seq<E.World>, b: nat)
    requires A.IsRun(run) && i < |run| && Manned(run[i].threads, workers)
    ensures A.Read(run[i].memory, PerBackend(Total, b)) + N.Waiting(run[i].threads, Open(b), 1) ==
            AllPairsOn(workers, b) + AllEndedOn(workers, b)
  {
    CountersAreContributions(run, i, workers, PerBackend(Total, b));
    AllPairsContributed(workers, b);
    LoggedByObservers(run[i].threads[|workers|..], PerBackend(Total, b));
    InFlightOnBackend(run, i, b);
  }

  lemma {:induction false} NobodyWaits(threads: seq<A.Thread>, call: Call, pc: nat)
    requires forall i | 0 <= i < |threads| :: A.Idle(threads[i])
    ensures N.Waiting(threads, call, pc) == 0
  {
    if threads == [] {
    } else {
      NobodyWaits(threads[..|threads| - 1], call, pc);
    }
  }

  /** With no call in progress, the active counter is the number of live pairs and the
      total counter is that plus the number of ended ones. */
  lemma QuiescentPairs(run: seq<A.System>, i: nat, workers: seq<E.World>, b: nat)
    requires A.IsRun(run) && i < |run| && Manned(run[i].threads, workers) && N.Quiescent(run[i])
    ensures A.Read(run[i].memory, PerBackend(Active, b)) == AllPairsOn(workers, b)
    ensures A.Read(run[i].memory, PerBackend(Total, b)) ==
            A.Read(run[i].memory, PerBackend(Active, b)) + AllEndedOn(workers, b)
  {
    ActiveIsLivePairs(run, i, workers, b);
    TotalIsPairsEverMade(run, i, workers, b);
    NobodyWaits(run[i].threads, Open(b), 0);
    NobodyWaits(run[i].threads, Open(b), 1);
    NobodyWaits(run[i].threads, Close(b), 0);
  }

  // ----- After shutdown -----

  /** The state in which a worker's run ends when it shuts down. */
  ghost predicate StoppedAfter(w: E.World, run: seq<R.Loop>, order: seq<int>) {
    && R.IsRun(run)
    && E.Visits(order, run[|run| - 1].w.peers.Keys)
    && w == E.Shutdown(run[|run| - 1].w, order)
  }

  ghost predicate Stopped(w: E.World) {
    exists run: seq<R.Loop>, order: seq<int> :: StoppedAfter(w, run, order)
  }

  /** A stopped worker contributes nothing to the active counters; closing its own three
      descriptors concerns none of them. */
  lemma StoppedIsEmpty(w: E.World, cell: Cell)
    requires Stopped(w) && A.ActiveCell(cell)
    ensures I.Books(w) && I.SumBooked(w.conns, cell) + I.SumRefused(w.refused, cell) == 0
  {
    var run: seq<R.Loop>, order: seq<int> :| StoppedAfter(w, run, order);
    var c := E.CloseAll(run[|run| - 1].w, order);
    R.RunInvariant(run, |run| - 1);
    R.CloseAllEmpties(run[|run| - 1].w, order);
    var b := if cell.PerBackend? then cell.index else 0;
    R.AllEnded(c, b);
    assert I.Counted(cell);
  }

  lemma {:induction false} NothingContributed(workers: seq<E.World>, cell: Cell)
    requires A.ActiveCell(cell) && forall j | 0 <= j < |workers| :: Stopped(workers[j])
    ensures Contributed(workers, cell) == 0
  {
    if workers == [] {
    } else {
      NothingContributed(workers[..|workers| - 1], cell);
      StoppedIsEmpty(workers[|workers| - 1], cell);
    }
  }

  /** After every worker has stopped and finished its last call, every active counter, per
      backend and global, is back at zero, whatever the workers did, however their
      instructions were interleaved, and whatever the observers are doing. */
  lemma StoppedFleet(run: seq<A.System>, i: nat, workers: seq<E.World>, cell: Cell)
    requires A.IsRun(run) && i < |run| && |workers| <= |run[i].threads| && A.ActiveCell(cell)
    requires forall j | 0 <= j < |workers| ::
               Stopped(workers[j]) && run[i].threads[j].log == workers[j].calls && A.Idle(run[i].threads[j])
    requires forall j | |workers| <= j < |run[i].threads| :: Observer(run[i].threads[j].log)
    ensures A.Read(run[i].memory, cell) == 0
  {
    var threads := run[i].threads;
    forall j | 0 <= j < |workers| ensures I.Books(workers[j]) {
      StoppedIsEmpty(workers[j], cell);
    }
    CountersAreContributions(run, i, workers, cell);
    NothingContributed(workers, cell);
    LoggedByObservers(threads[|workers|..], cell);
    forall j | 0 <= j < |threads| ensures N.Owed(threads[j], cell) == 0 {
      if j >= |workers| { ObserverOwesNothing(threads[j], cell); }
    }
    N.NothingInFlight(threads, cell);
  }
}
