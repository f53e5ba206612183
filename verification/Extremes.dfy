/** Runs of several least-connections threads that drive two backends far apart: what the
    bound of `Balance` allows for two backends does happen, and with more backends so does
    more than one connection a thread. */
module Extremes {
  import opened Balance
  import opened Outcomes
  import opened Selection

  /** Where a thread of such a run is: at rest, holding its choice, or held up after it has
      loaded the counter of backend 2 and before it loads that of backend 0. */
  datatype Place = Rests | Holds(choice: nat) | Stale(seen: nat)

  predicate At(c: Chooser, n: nat, p: Place) {
    match p
    case Rests => c.Resting?
    case Holds(i) => Finished(c, n) && c.best.Some? && c.best.value.index == i
    case Stale(seen) => c.Comparing? && c.next == 2 && c.held.index == 0 && c.seen == seen && c.candidateFirst
  }

  predicate Lined(s: Board, active: seq<nat>, places: seq<Place>) {
    && s.active == active && |s.threads| == |places|
    && forall t | 0 <= t < |places| :: At(s.threads[t], |active|, places[t])
  }

  /** A run that starts with `active` and its threads at rest and has got as far as
      `places`. */
  ghost predicate Reaches(states: seq<BackendState>, run: seq<Board>, start: seq<nat>, active: seq<nat>,
                          places: seq<Place>) {
    IsRun(states, run) && run[0].active == start && Lined(run[|run| - 1], active, places)
  }

  lemma {:induction false} StaysFit(states: seq<BackendState>, run: seq<Board>, i: nat)
    requires IsRun(states, run) && i < |run|
    ensures Fits(states, run[i]) && |run[i].threads| == |run[0].threads|
  {
    if i == 0 {
    } else {
      StaysFit(states, run, i - 1);
      assert Next(states, run[i - 1], run[i]);
      var t: nat, first: bool, connected: bool :| Moves(states, run[i - 1], run[i], t, first, connected);
      assert Placed(states, run[i - 1].threads[t]);
    }
  }

  /** One more step. */
  lemma Extended(states: seq<BackendState>, run: seq<Board>, t: nat) returns (longer: seq<Board>)
    requires IsRun(states, run) && t < |run[|run| - 1].threads|
    ensures Fits(states, run[|run| - 1])
    ensures IsRun(states, longer) && longer[0] == run[0]
    ensures longer[|longer| - 1] == Step(states, run[|run| - 1], t, true, true)
  {
    StaysFit(states, run, |run| - 1);
    longer := run + [Step(states, run[|run| - 1], t, true, true)];
    assert Moves(states, run[|run| - 1], longer[|run|], t, true, true);
    forall i | 0 <= i < |longer| - 1 ensures Next(states, longer[i], longer[i + 1]) {
      if i < |run| - 1 { assert Next(states, run[i], run[i + 1]); }
    }
  }

  /** A scan that nobody interrupts finds what the policy says. */
  lemma {:induction false} Scans(states: seq<BackendState>, run: seq<Board>, t: nat)
    returns (longer: seq<Board>, c: Chooser)
    requires IsRun(states, run) && t < |run[|run| - 1].threads|
    requires run[|run| - 1].threads[t].Scanning? && Placed(states, run[|run| - 1].threads[t])
    requires |run[|run| - 1].active| == |states|
    ensures var s := run[|run| - 1];
            && IsRun(states, longer) && longer[0] == run[0]
            && longer[|longer| - 1] == s.(threads := s.threads[t := c])
            && Finished(c, |states|)
            && Index(c.best) == LeastFrom(states, s.active, s.threads[t].next, Index(s.threads[t].best))
    decreases |states| - run[|run| - 1].threads[t].next
  {
    var s := run[|run| - 1];
    if s.threads[t].next >= |states| {
      longer, c := run, s.threads[t];
      assert s.threads[t := c] == s.threads;
    } else {
      ScanAlone(states, s.active, s.threads[t], true);
      var one := Extended(states, run, t);
      var two := one;
      if one[|one| - 1].threads[t].Comparing? {
        two := Extended(states, one, t);
      }
      longer, c := Scans(states, two, t);
      assert two[|two| - 1].threads[t := c] == s.threads[t := c];
    }
  }

  lemma OneMoved(s: Board, r: Board, active: seq<nat>, places: seq<Place>, t: nat, c: Chooser, p: Place)
    requires Lined(s, active, places) && t < |places|
    requires |r.active| == |active| && r.threads == s.threads[t := c] && At(c, |active|, p)
    ensures Lined(r, r.active, places[t := p])
  {
    var after := places[t := p];
    forall u | 0 <= u < |after| ensures At(r.threads[u], |active|, after[u]) {
      assert At(s.threads[u], |active|, places[u]);
    }
  }

  /** A thread at rest scans. */
  lemma Chooses(states: seq<BackendState>, run: seq<Board>, start: seq<nat>, active: seq<nat>, places: seq<Place>,
                t: nat, i: nat)
    returns (longer: seq<Board>)
    requires Reaches(states, run, start, active, places) && t < |places| && places[t].Rests?
    requires |active| == |states| && LeastConnections(states, active) == Some(i)
    ensures Reaches(states, longer, start, active, places[t := Holds(i)])
  {
    var s := run[|run| - 1];
    assert At(s.threads[t], |active|, places[t]);
    var one := Extended(states, run, t);
    var c: Chooser;
    longer, c := Scans(states, one, t);
    OneMoved(s, longer[|longer| - 1], active, places, t, c, Holds(i));
  }

  /** A thread that has chosen opens. */
  lemma Opens(states: seq<BackendState>, run: seq<Board>, start: seq<nat>, active: seq<nat>, places: seq<Place>,
              t: nat)
    returns (longer: seq<Board>)
    requires Reaches(states, run, start, active, places) && t < |places|
    requires places[t].Holds? && places[t].choice < |active| == |states|
    ensures Reaches(states, longer, start, active[places[t].choice := active[places[t].choice] + 1],
                    places[t := Rests])
  {
    var s := run[|run| - 1];
    assert At(s.threads[t], |active|, places[t]);
    longer := Extended(states, run, t);
    OneMoved(s, longer[|longer| - 1], active, places, t, Resting, Rests);
  }

  /** A thread at rest scans up to the counter of backend 2, having found backend 1 no
      better than backend 0, and is held up there. */
  lemma HeldUp(states: seq<BackendState>, run: seq<Board>, start: seq<nat>, active: seq<nat>, places: seq<Place>,
               t: nat)
    returns (longer: seq<Board>)
    requires Reaches(states, run, start, active, places) && t < |places| && places[t].Rests?
    requires |active| == |states| == 3 && AllUp(states) && active[0] <= active[1]
    ensures Reaches(states, longer, start, active, places[t := Stale(active[2])])
  {
    var s := run[|run| - 1];
    assert At(s.threads[t], 3, places[t]);
    var began := Extended(states, run, t);
    var took := Extended(states, began, t);
    var loaded := Extended(states, took, t);
    var passed := Extended(states, loaded, t);
    longer := Extended(states, passed, t);
    var c := longer[|longer| - 1].threads[t];
    assert longer[|longer| - 1].threads == s.threads[t := c];
    OneMoved(s, longer[|longer| - 1], active, places, t, c, Stale(active[2]));
  }

  /** It goes on when backend 0 has become busier than what it loaded. */
  lemma GoesOn(states: seq<BackendState>, run: seq<Board>, start: seq<nat>, active: seq<nat>, places: seq<Place>,
               t: nat)
    returns (longer: seq<Board>)
    requires Reaches(states, run, start, active, places) && t < |places|
    requires |active| == |states| == 3 && AllUp(states) && places[t].Stale? && places[t].seen < active[0]
    ensures Reaches(states, longer, start, active, places[t := Holds(2)])
  {
    var s := run[|run| - 1];
    assert At(s.threads[t], 3, places[t]);
    longer := Extended(states, run, t);
    OneMoved(s, longer[|longer| - 1], active, places, t, longer[|longer| - 1].threads[t], Holds(2));
  }

  // ----- One connection a thread -----

  /** Of `size` threads, those before `i` are at `x`, those from there to `j` at `y`, and the
      others at `z`. */
  function Places(size: nat, i: nat, j: nat, x: Place, y: Place, z: Place): (places: seq<Place>)
    ensures |places| == size
  {
    seq(size, t => if t < i then x else if t < j then y else z)
  }

  function Zeros(n: nat): (z: seq<nat>)
    ensures |z| == n
  {
    seq(n, i => 0)
  }

  /** All threads scan before any of them opens. */
  lemma {:induction false} AllScan(states: seq<BackendState>, active: seq<nat>, i: nat, threads: nat, done: nat)
    returns (run: seq<Board>)
    requires |active| == |states| && LeastConnections(states, active) == Some(i) && done <= threads
    ensures Reaches(states, run, active, active, Places(threads, 0, done, Rests, Holds(i), Rests))
  {
    if done == 0 {
      run := [Board(active, seq(threads, t => Resting))];
    } else {
      var before := AllScan(states, active, i, threads, done - 1);
      run := Chooses(states, before, active, active, Places(threads, 0, done - 1, Rests, Holds(i), Rests), done - 1, i);
      assert Places(threads, 0, done - 1, Rests, Holds(i), Rests)[done - 1 := Holds(i)] ==
             Places(threads, 0, done, Rests, Holds(i), Rests);
    }
  }

  /** Then they all open on the same backend. */
  lemma {:induction false} AllOpen(states: seq<BackendState>, active: seq<nat>, i: nat, threads: nat, done: nat)
    returns (run: seq<Board>)
    requires |active| == |states| && LeastConnections(states, active) == Some(i) && done <= threads
    requires i < |active|
    ensures Reaches(states, run, active, active[i := active[i] + done],
                    Places(threads, 0, done, Rests, Rests, Holds(i)))
  {
    if done == 0 {
      run := AllScan(states, active, i, threads, threads);
      assert Places(threads, 0, threads, Rests, Holds(i), Rests) == Places(threads, 0, 0, Rests, Rests, Holds(i));
    } else {
      var before := AllOpen(states, active, i, threads, done - 1);
      run := Opens(states, before, active, active[i := active[i] + (done - 1)],
                   Places(threads, 0, done - 1, Rests, Rests, Holds(i)), done - 1);
      assert Places(threads, 0, done - 1, Rests, Rests, Holds(i))[done - 1 := Rests] ==
             Places(threads, 0, done, Rests, Rests, Holds(i));
      assert active[i := active[i] + (done - 1)][i := active[i] + done] == active[i := active[i] + done];
    }
  }

  /** From nothing, T threads can leave two backends T connections apart: with two routable
      backends the bound cannot be improved. */
  lemma SpreadIsReached(states: seq<BackendState>, threads: nat) returns (run: seq<Board>)
    requires |states| > 1 && AllUp(states)
    ensures IsRun(states, run) && |run[0].threads| == threads && run[0].active == Zeros(|states|)
    ensures var last := run[|run| - 1].active; |last| == |states| && last[0] == last[1] + threads
  {
    LeastIsFirst(states, Zeros(|states|));
    run := AllOpen(states, Zeros(|states|), 0, threads, threads);
    StaysFit(states, run, |run| - 1);
  }

  // ----- More than one connection a thread -----

  /** Of `size` threads: those before `back` are at rest, those from there to `held` held up,
      each having loaded one more than its number, those from there to `j` at `y`, and the
      others at `z`. */
  function Staged(size: nat, back: nat, held: nat, j: nat, y: Place, z: Place): (places: seq<Place>)
    ensures |places| == size
  {
    seq(size, t requires t >= 0 =>
      if t < back then Rests else if t < held then Stale(t + 1) else if t < j then y else z)
  }

  function ThreeUp(): seq<BackendState> {
    [Up, Up, Up]
  }

  lemma LeastOfThree(a: nat, b: nat, c: nat)
    ensures a <= b && a <= c ==> LeastConnections(ThreeUp(), [a, b, c]) == Some(0)
    ensures c < a && c < b ==> LeastConnections(ThreeUp(), [a, b, c]) == Some(2)
  {
    LeastIsFirst(ThreeUp(), [a, b, c]);
  }

  /** Everybody chooses backend 2; the first half open there, scan again, and are held up. */
  lemma {:induction false} FirstHalf(k: nat, done: nat) returns (run: seq<Board>)
    requires done <= k
    ensures Reaches(ThreeUp(), run, [1, 1, 0], [1, 1, done], Staged(2 * k, 0, done, done, Rests, Holds(2)))
  {
    if done == 0 {
      LeastOfThree(1, 1, 0);
      run := AllScan(ThreeUp(), [1, 1, 0], 2, 2 * k, 2 * k);
      assert Places(2 * k, 0, 2 * k, Rests, Holds(2), Rests) == Staged(2 * k, 0, 0, 0, Rests, Holds(2));
    } else {
      var t, places := done - 1, Staged(2 * k, 0, done - 1, done - 1, Rests, Holds(2));
      var before := FirstHalf(k, t);
      var free := Opens(ThreeUp(), before, [1, 1, 0], [1, 1, t], places, t);
      assert [1, 1, t][2 := t + 1] == [1, 1, done];
      run := HeldUp(ThreeUp(), free, [1, 1, 0], [1, 1, done], places[t := Rests], t);
      assert places[t := Rests][t := Stale(done)] == Staged(2 * k, 0, done, done, Rests, Holds(2));
    }
  }

  /** The second half open there too and scan again: they choose backend 0. */
  lemma {:induction false} SecondHalf(k: nat, done: nat) returns (run: seq<Board>)
    requires k <= done <= 2 * k
    ensures Reaches(ThreeUp(), run, [1, 1, 0], [1, 1, done], Staged(2 * k, 0, k, done, Holds(0), Holds(2)))
  {
    if done == k {
      run := FirstHalf(k, k);
      assert Staged(2 * k, 0, k, k, Rests, Holds(2)) == Staged(2 * k, 0, k, k, Holds(0), Holds(2));
    } else {
      var t, places := done - 1, Staged(2 * k, 0, k, done - 1, Holds(0), Holds(2));
      var before := SecondHalf(k, t);
      var free := Opens(ThreeUp(), before, [1, 1, 0], [1, 1, t], places, t);
      assert [1, 1, t][2 := t + 1] == [1, 1, done];
      LeastOfThree(1, 1, done);
      run := Chooses(ThreeUp(), free, [1, 1, 0], [1, 1, done], places[t := Rests], t, 0);
      assert places[t := Rests][t := Holds(0)] == Staged(2 * k, 0, k, done, Holds(0), Holds(2));
    }
  }

  /** They open there, which makes it busier than anything the first half have loaded. */
  lemma {:induction false} BackendFills(k: nat, done: nat) returns (run: seq<Board>)
    requires k <= done <= 2 * k
    ensures Reaches(ThreeUp(), run, [1, 1, 0], [1 + done - k, 1, 2 * k],
                    Staged(2 * k, 0, k, done, Rests, Holds(0)))
  {
    if done == k {
      run := SecondHalf(k, 2 * k);
      assert Staged(2 * k, 0, k, 2 * k, Holds(0), Holds(2)) == Staged(2 * k, 0, k, k, Rests, Holds(0));
    } else {
      var t, places := done - 1, Staged(2 * k, 0, k, done - 1, Rests, Holds(0));
      var before := BackendFills(k, t);
      run := Opens(ThreeUp(), before, [1, 1, 0], [1 + t - k, 1, 2 * k], places, t);
      assert [1 + t - k, 1, 2 * k][0 := 1 + t - k + 1] == [1 + done - k, 1, 2 * k];
      assert places[t := Rests] == Staged(2 * k, 0, k, done, Rests, Holds(0));
    }
  }

  /** So the first half go on, choose backend 2 after all, and open. */
  lemma {:induction false} GoOn(k: nat, done: nat) returns (run: seq<Board>)
    requires done <= k
    ensures Reaches(ThreeUp(), run, [1, 1, 0], [1 + k, 1, 2 * k + done], Staged(2 * k, done, k, k, Rests, Rests))
  {
    if done == 0 {
      run := BackendFills(k, 2 * k);
      assert Staged(2 * k, 0, k, 2 * k, Rests, Holds(0)) == Staged(2 * k, 0, k, k, Rests, Rests);
    } else {
      var t, places := done - 1, Staged(2 * k, done - 1, k, k, Rests, Rests);
      var before := GoOn(k, t);
      var chosen := GoesOn(ThreeUp(), before, [1, 1, 0], [1 + k, 1, 2 * k + t], places, t);
      run := Opens(ThreeUp(), chosen, [1, 1, 0], [1 + k, 1, 2 * k + t], places[t := Holds(2)], t);
      assert [1 + k, 1, 2 * k + t][2 := 2 * k + t + 1] == [1 + k, 1, 2 * k + done];
      assert places[t := Holds(2)][t := Rests] == Staged(2 * k, done, k, k, Rests, Rests);
    }
  }

  /** With three routable backends T connections are not the bound: 2k threads that start
      one connection apart can end 3k - 1 apart. */
  lemma SpreadBeyondThreads(k: nat) returns (run: seq<Board>)
    ensures IsRun(ThreeUp(), run) && |run[0].threads| == 2 * k && Within(ThreeUp(), run[0].active, 1)
    ensures var last := run[|run| - 1].active; |last| == 3 && last[2] + 1 == last[1] + 3 * k
  {
    run := GoOn(k, k);
    StaysFit(ThreeUp(), run, |run| - 1);
  }
}
