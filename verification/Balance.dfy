/** Least connections chosen by several threads at once.

    A thread scans the backends one at a time while other threads scan and open, and every
    load of a counter is a step of its own; some time after its scan has ended the thread
    opens a connection on the backend it has found, or is refused there.  Backend states are
    fixed and there are no closes. */
module Balance {
  import opened Outcomes
  import opened Selection

  /** The best backend a scan has seen, and (for the proofs only) its counter when the scan
      took it. */
  datatype Held = Held(index: nat, mark: nat)

  /** A thread between two selections, one that will look at backend `next`, or one that has
      loaded one of the two counters it compares: that of backend `next` if
      `candidateFirst`, otherwise that of the backend it holds.  C++ leaves the order of
      the two loads open. */
  datatype Chooser =
    | Resting
    | Scanning(next: nat, best: Option<Held>)
    | Comparing(next: nat, held: Held, seen: nat, candidateFirst: bool)

  datatype Board = Board(active: seq<nat>, threads: seq<Chooser>)

  predicate HeldOk(states: seq<BackendState>, h: Held, next: nat) {
    h.index < next <= |states| && states[h.index].Up?
  }

  /** What a scan in progress may hold. */
  predicate Placed(states: seq<BackendState>, c: Chooser) {
    match c
    case Resting => true
    case Scanning(next, None) => next <= |states| && forall i | 0 <= i < next :: !states[i].Up?
    case Scanning(next, Some(h)) => HeldOk(states, h, next)
    case Comparing(next, h, _, _) => next < |states| && states[next].Up? && HeldOk(states, h, next)
  }

  predicate Fits(states: seq<BackendState>, s: Board) {
    |s.active| == |states| && forall t | 0 <= t < |s.threads| :: Placed(states, s.threads[t])
  }

  predicate Finished(c: Chooser, n: nat) {
    c.Scanning? && c.next >= n
  }

  /** The next step of a thread's scan. */
  function Moved(states: seq<BackendState>, active: seq<nat>, c: Chooser, candidateFirst: bool): Chooser
    requires |active| == |states| && Placed(states, c)
  {
    match c
    case Resting => Scanning(0, None)
    case Scanning(next, best) =>
      if next >= |states| then Resting
      else if !states[next].Up? then Scanning(next + 1, best)
      else (
        match best
        case None => Scanning(next + 1, Some(Held(next, active[next])))
        case Some(h) => Comparing(next, h, active[if candidateFirst then next else h.index], candidateFirst))
    case Comparing(next, h, seen, first) =>
      var candidate, holder := if first then seen else active[next], if first then active[h.index] else seen;
      Scanning(next + 1, Some(if candidate < holder then Held(next, candidate) else h))
  }

  /** A thread whose scan has ended opens a connection on the backend it has found, if there
      is one and the connect is not refused. */
  function Opened(active: seq<nat>, c: Chooser, connected: bool): (r: seq<nat>)
    ensures |r| == |active|
  {
    if connected && Finished(c, |active|) && c.best.Some? && c.best.value.index < |active| then
      active[c.best.value.index := active[c.best.value.index] + 1]
    else active
  }

  function Step(states: seq<BackendState>, s: Board, t: nat, candidateFirst: bool, connected: bool): Board
    requires Fits(states, s) && t < |s.threads|
  {
    var c := s.threads[t];
    assert Placed(states, c);
    Board(Opened(s.active, c, connected), s.threads[t := Moved(states, s.active, c, candidateFirst)])
  }

  function Index(best: Option<Held>): Option<nat> {
    match best case None => None case Some(h) => Some(h.index)
  }

  /** A thread that is not interrupted finds what the policy says. */
  lemma ScanAlone(states: seq<BackendState>, active: seq<nat>, c: Chooser, candidateFirst: bool)
    requires |active| == |states| && Placed(states, c) && c.Scanning? && c.next < |states|
    ensures var one := Moved(states, active, c, candidateFirst);
            && Placed(states, one)
            && var two := if one.Comparing? then Moved(states, active, one, candidateFirst) else one;
               && two.Scanning? && two.next == c.next + 1 && Placed(states, two)
               && LeastFrom(states, active, c.next, Index(c.best)) ==
                  LeastFrom(states, active, two.next, Index(two.best))
  {
  }

  // ----- The bound -----

  /** How many of the first `k` backends are Up. */
  function Ups(states: seq<BackendState>, k: nat): (u: nat)
    requires k <= |states|
    ensures u <= k
  {
    if k == 0 then 0 else Ups(states, k - 1) + (if states[k - 1].Up? then 1 else 0)
  }

  lemma {:induction false} UpsGrow(states: seq<BackendState>, j: nat, k: nat)
    requires j <= k <= |states|
    ensures Ups(states, j) <= Ups(states, k)
    ensures Ups(states, j) == Ups(states, k) ==> forall i | j <= i < k :: !states[i].Up?
    decreases k
  {
    if j < k {
      UpsGrow(states, j, k - 1);
    }
  }

  /** What stale loads can add for a backend with `r` backends before it that are Up. */
  function Extra(r: nat, threads: nat): nat {
    if r <= 1 || threads == 0 then 0 else Extra(r - 1, threads) + (threads - 1)
  }

  lemma {:induction false} ExtraGrows(r: nat, q: nat, threads: nat)
    requires r <= q
    ensures Extra(r, threads) <= Extra(q, threads)
    decreases q
  {
    if r < q {
      ExtraGrows(r, q - 1, threads);
    }
  }

  lemma {:induction false} ExtraIs(r: nat, threads: nat)
    requires r > 0 && threads > 0
    ensures Extra(r, threads) == (r - 1) * (threads - 1)
  {
    if r > 1 {
      ExtraIs(r - 1, threads);
      assert (r - 1) * (threads - 1) == (r - 2) * (threads - 1) + (threads - 1);
    }
  }

  /** By how much the counter of backend `b` may have exceeded that of another when a scan
      took `b`. */
  function Slack(states: seq<BackendState>, b: nat, d: nat, threads: nat): nat
    requires b < |states| && threads <= d
  {
    d - threads + Extra(Ups(states, b), threads)
  }

  /** The next backend that is Up may exceed by more, unless it is the second one. */
  lemma SlackNext(states: seq<BackendState>, b: nat, next: nat, m: nat, d: nat, threads: nat)
    requires b < next < |states| && m < next && 0 < threads <= d
    requires states[b].Up? && states[m].Up? && states[next].Up?
    ensures m == b || Slack(states, b, d, threads) + threads - 1 <= Slack(states, next, d, threads)
  {
    if m != b {
      var low, high := if b < m then b else m, if b < m then m else b;
      UpsGrow(states, low + 1, high);
      UpsGrow(states, high + 1, next);
      UpsGrow(states, b + 1, next);
      ExtraGrows(Ups(states, b), Ups(states, next) - 1, threads);
    }
  }

  predicate MarkOk(states: seq<BackendState>, active: seq<nat>, h: Held, next: nat, d: nat, threads: nat)
    requires |active| == |states| && HeldOk(states, h, next) && threads <= d
  {
    && h.mark <= active[h.index]
    && forall m | 0 <= m < next && states[m].Up? :: h.mark <= active[m] + Slack(states, h.index, d, threads)
  }

  /** A scan took what it holds when that was not much busier than anything it has passed. */
  predicate Marked(states: seq<BackendState>, active: seq<nat>, c: Chooser, d: nat, threads: nat)
    requires |active| == |states| && Placed(states, c) && threads <= d
  {
    match c
    case Scanning(next, Some(h)) => MarkOk(states, active, h, next, d, threads)
    case Comparing(next, h, seen, first) =>
      && MarkOk(states, active, h, next, d, threads)
      && (if first then seen <= active[next] else h.mark <= seen <= active[h.index])
    case _ => true
  }

  /** A thread that may still open on `b` having seen its counter at `level` or below. */
  predicate Near(c: Chooser, b: nat, level: nat) {
    match c
    case Scanning(_, Some(h)) => h.index == b && h.mark <= level
    case Comparing(next, h, seen, first) =>
      (h.index == b && h.mark <= level) || (first && next == b && seen <= level)
    case _ => false
  }

  function AllNear(threads: seq<Chooser>, b: nat, level: nat): (k: nat)
    ensures k <= |threads|
  {
    if threads == [] then 0
    else AllNear(threads[..|threads| - 1], b, level) + (if Near(threads[|threads| - 1], b, level) then 1 else 0)
  }

  lemma {:induction false} NearUpdate(threads: seq<Chooser>, t: nat, c: Chooser, b: nat, level: nat)
    requires t < |threads|
    ensures AllNear(threads[t := c], b, level) + (if Near(threads[t], b, level) then 1 else 0) ==
            AllNear(threads, b, level) + (if Near(c, b, level) then 1 else 0)
  {
    var n := |threads| - 1;
    if t == n {
      assert threads[t := c][..n] == threads[..n];
    } else {
      assert threads[t := c][..n] == threads[..n][t := c];
      NearUpdate(threads[..n], t, c, b, level);
    }
  }

  /** Once the counter of `b` is above a level that a scan cannot have seen exceeded, every
      further open on `b` uses up one of the threads that saw it at that level or below. */
  predicate Capped(states: seq<BackendState>, s: Board, b: nat, m: nat, level: nat, d: nat)
    requires |s.active| == |states| && b < |states| && m < |states| && |s.threads| <= d
  {
    s.active[m] + Slack(states, b, d, |s.threads|) <= level < s.active[b] ==>
      s.active[b] + AllNear(s.threads, b, level) <= level + |s.threads|
  }

  ghost predicate Tame(states: seq<BackendState>, s: Board, d: nat) {
    && Fits(states, s) && |s.threads| <= d
    && (forall t | 0 <= t < |s.threads| :: Marked(states, s.active, s.threads[t], d, |s.threads|))
    && forall b, m, level: nat | 0 <= b < |states| && 0 <= m < |states| && states[b].Up? && states[m].Up? ::
         Capped(states, s, b, m, level, d)
  }

  lemma TameApart(states: seq<BackendState>, s: Board, b: nat, m: nat, d: nat)
    requires Tame(states, s, d) && b < |states| && m < |states| && states[b].Up? && states[m].Up?
    ensures s.active[b] <= s.active[m] + Slack(states, b, d, |s.threads|) + |s.threads|
  {
    assert Capped(states, s, b, m, s.active[m] + Slack(states, b, d, |s.threads|), d);
  }

  lemma MarkedGrows(states: seq<BackendState>, active: seq<nat>, grown: seq<nat>, c: Chooser, d: nat, threads: nat)
    requires |active| == |grown| == |states| && Placed(states, c) && threads <= d
    requires Marked(states, active, c, d, threads) && forall i | 0 <= i < |active| :: active[i] <= grown[i]
    ensures Marked(states, grown, c, d, threads)
  {
  }

  /** The thread that moves takes over a backend only from one it has found busier. */
  lemma MoverMarked(states: seq<BackendState>, s: Board, t: nat, first: bool, d: nat)
    requires Tame(states, s, d) && t < |s.threads|
    ensures Placed(states, s.threads[t]) && Placed(states, Moved(states, s.active, s.threads[t], first))
    ensures Marked(states, s.active, Moved(states, s.active, s.threads[t], first), d, |s.threads|)
  {
    var c, r := s.threads[t], Moved(states, s.active, s.threads[t], first);
    assert Marked(states, s.active, c, d, |s.threads|);
    if c.Comparing? && r.best.value.index == c.next {
      forall m | 0 <= m < c.next && states[m].Up?
        ensures r.best.value.mark <= s.active[m] + Slack(states, c.next, d, |s.threads|) {
        TameApart(states, s, c.held.index, m, d);
        SlackNext(states, c.held.index, c.next, m, d, |s.threads|);
      }
    }
  }

  /** A move of a scan: nobody gets near a counter that is above the level already. */
  lemma MoveCapped(states: seq<BackendState>, s: Board, t: nat, first: bool, connected: bool, b: nat, m: nat,
                   level: nat, d: nat)
    requires Tame(states, s, d) && t < |s.threads| && !(connected && Finished(s.threads[t], |states|))
    requires b < |states| && m < |states| && states[b].Up? && states[m].Up?
    ensures Capped(states, Step(states, s, t, first, connected), b, m, level, d)
  {
    var c, r := s.threads[t], Step(states, s, t, first, connected).threads[t];
    assert Marked(states, s.active, c, d, |s.threads|) && Capped(states, s, b, m, level, d);
    NearUpdate(s.threads, t, r, b, level);
    assert level < s.active[b] && Near(r, b, level) ==> Near(c, b, level);
  }

  lemma OpenCapped(states: seq<BackendState>, s: Board, t: nat, first: bool, connected: bool, b: nat, m: nat,
                   level: nat, d: nat)
    requires Tame(states, s, d) && t < |s.threads| && connected && Finished(s.threads[t], |states|)
    requires b < |states| && m < |states| && states[b].Up? && states[m].Up?
    ensures Capped(states, Step(states, s, t, first, connected), b, m, level, d)
  {
    var c := s.threads[t];
    assert Placed(states, c);
    assert Marked(states, s.active, c, d, |s.threads|) && Capped(states, s, b, m, level, d);
    NearUpdate(s.threads, t, Resting, b, level);
  }

  lemma StepKeeps(states: seq<BackendState>, s: Board, t: nat, first: bool, connected: bool, d: nat)
    requires Tame(states, s, d) && t < |s.threads|
    ensures Tame(states, Step(states, s, t, first, connected), d)
  {
    var r := Step(states, s, t, first, connected);
    MoverMarked(states, s, t, first, d);
    forall u | 0 <= u < |r.threads|
      ensures Placed(states, r.threads[u]) && Marked(states, r.active, r.threads[u], d, |r.threads|) {
      assert Placed(states, s.threads[u]) && Marked(states, s.active, s.threads[u], d, |s.threads|);
      MarkedGrows(states, s.active, r.active, r.threads[u], d, |s.threads|);
    }
    forall b, m, level: nat | 0 <= b < |states| && 0 <= m < |states| && states[b].Up? && states[m].Up?
      ensures Capped(states, r, b, m, level, d) {
      if connected && Finished(s.threads[t], |states|) {
        OpenCapped(states, s, t, first, connected, b, m, level, d);
      } else {
        MoveCapped(states, s, t, first, connected, b, m, level, d);
      }
    }
  }

  ghost predicate Next(states: seq<BackendState>, a: Board, b: Board) {
    exists t: nat, first: bool, connected: bool :: Moves(states, a, b, t, first, connected)
  }

  predicate Moves(states: seq<BackendState>, a: Board, b: Board, t: nat, first: bool, connected: bool) {
    Fits(states, a) && t < |a.threads| && b == Step(states, a, t, first, connected)
  }

  /** A run of any number of threads, all at rest when it starts. */
  ghost predicate IsRun(states: seq<BackendState>, run: seq<Board>) {
    && |run| > 0 && |run[0].active| == |states|
    && (forall t | 0 <= t < |run[0].threads| :: run[0].threads[t].Resting?)
    && forall i | 0 <= i < |run| - 1 :: Next(states, run[i], run[i + 1])
  }

  lemma {:induction false} NobodyNear(threads: seq<Chooser>, b: nat, level: nat)
    requires forall t | 0 <= t < |threads| :: threads[t].Resting?
    ensures AllNear(threads, b, level) == 0
  {
    if threads == [] {
    } else {
      NobodyNear(threads[..|threads| - 1], b, level);
    }
  }

  /** No two backends that are Up are further apart than `spread`. */
  predicate Within(states: seq<BackendState>, active: seq<nat>, spread: int)
    requires |active| == |states|
  {
    forall a, b | 0 <= a < |states| && 0 <= b < |states| && states[a].Up? && states[b].Up? ::
      active[a] - active[b] <= spread
  }

  lemma {:induction false} RunTame(states: seq<BackendState>, run: seq<Board>, spread: nat, i: nat)
    requires IsRun(states, run) && i < |run| && Within(states, run[0].active, spread)
    ensures Tame(states, run[i], Max(spread, |run[0].threads|)) && |run[i].threads| == |run[0].threads|
  {
    if i == 0 {
      forall b, m, level: nat | 0 <= b < |states| && 0 <= m < |states| && states[b].Up? && states[m].Up?
        ensures Capped(states, run[0], b, m, level, Max(spread, |run[0].threads|)) {
        NobodyNear(run[0].threads, b, level);
      }
    } else {
      RunTame(states, run, spread, i - 1);
      assert Next(states, run[i - 1], run[i]);
      var t: nat, first: bool, connected: bool :| Moves(states, run[i - 1], run[i], t, first, connected);
      StepKeeps(states, run[i - 1], t, first, connected, Max(spread, |run[0].threads|));
    }
  }

  /** How far apart T threads may drive `up` backends. */
  function Bound(spread: nat, threads: nat, up: nat): int {
    Max(spread, threads) + (if threads > 0 && up > 2 then (up - 2) * (threads - 1) else 0)
  }

  lemma BoundIs(spread: nat, threads: nat, up: nat)
    requires up > 0
    ensures Bound(spread, threads, up) == Max(spread, threads) + Extra(up - 1, threads)
  {
    if up > 1 && threads > 0 {
      ExtraIs(up - 1, threads);
    }
  }

  lemma PairApart(states: seq<BackendState>, s: Board, a: nat, b: nat, d: nat)
    requires Tame(states, s, d) && a < |states| && b < |states| && states[a].Up? && states[b].Up?
    ensures Ups(states, |states|) > 0
    ensures s.active[a] - s.active[b] <= d + Extra(Ups(states, |states|) - 1, |s.threads|)
  {
    TameApart(states, s, a, b, d);
    UpsGrow(states, a + 1, |states|);
    ExtraGrows(Ups(states, a), Ups(states, |states|) - 1, |s.threads|);
  }

  lemma SpreadByExtra(states: seq<BackendState>, run: seq<Board>, spread: nat, i: nat, limit: int)
    requires IsRun(states, run) && i < |run| && Within(states, run[0].active, spread)
    requires Ups(states, |states|) > 0 ==>
               limit == Max(spread, |run[0].threads|) + Extra(Ups(states, |states|) - 1, |run[0].threads|)
    ensures |run[i].active| == |states| && Within(states, run[i].active, limit)
  {
    RunTame(states, run, spread, i);
    var active := run[i].active;
    forall a, b | 0 <= a < |states| && 0 <= b < |states| && states[a].Up? && states[b].Up?
      ensures active[a] - active[b] <= limit {
      PairApart(states, run[i], a, b, Max(spread, |run[0].threads|));
    }
  }

  /** However the loads and opens of T threads are interleaved, for ever: two routable
      backends are never further apart than at the start or than T connections, whichever is
      more, and every further routable backend adds at most T - 1 to that. */
  lemma SpreadUnderThreads(states: seq<BackendState>, run: seq<Board>, spread: nat, i: nat)
    requires IsRun(states, run) && i < |run| && Within(states, run[0].active, spread)
    ensures |run[i].active| == |states|
    ensures Within(states, run[i].active, Bound(spread, |run[0].threads|, Ups(states, |states|)))
  {
    var limit := Bound(spread, |run[0].threads|, Ups(states, |states|));
    if Ups(states, |states|) > 0 {
      BoundIs(spread, |run[0].threads|, Ups(states, |states|));
    }
    SpreadByExtra(states, run, spread, i, limit);
  }
}
