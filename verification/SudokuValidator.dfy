/** The validator: the 27 units of a grid are dealt out to worker threads, each worker scans its
    units for repeats, and the verdict is collected from the workers. */
module SudokuValidator {
  import opened Counting
  import opened SudokuGrid
  import RoundRobin

  type Unit = seq<int>

  predicate IsUnit(u: Unit) {
    |u| == 9 && forall k :: 0 <= k < 9 ==> 0 <= u[k] <= 9
  }

  ghost predicate AllClear(units: seq<Unit>) {
    forall k :: 0 <= k < |units| ==> NoRepeats(units[k])
  }

  // ----- Dealing units to workers -----

  /** What worker t of `threads` has been given when the first n units have been dealt round. */
  function Dealt(units: seq<Unit>, threads: nat, t: nat, n: nat): seq<Unit>
    requires t < threads && n <= |units|
  {
    if n == 0 then []
    else Dealt(units, threads, t, n - 1) + if (n - 1) % threads == t then [units[n - 1]] else []
  }

  lemma NextQuotient(n: nat, threads: nat)
    requires threads > 0
    ensures (n + 1) / threads == n / threads + if (n + 1) % threads == 0 then 1 else 0
    ensures (n + 1) % threads == if n % threads + 1 == threads then 0 else n % threads + 1
  {
    RoundRobin.NextHand(n, threads);
    var q, q', r' := n / threads, (n + 1) / threads, (n + 1) % threads;
    assert threads * q' + r' == threads * q + n % threads + 1;
    if r' == 0 {
      assert threads * (q' - q - 1) == 0;
      RoundRobin.MultipleIsFar(threads, q' - q - 1);
    } else {
      assert threads * (q' - q) == 0;
      RoundRobin.MultipleIsFar(threads, q' - q);
    }
  }

  /** Nobody gets more than n / threads + 1 units, the room that was reserved. */
  lemma {:induction false} DealtLength(units: seq<Unit>, threads: nat, t: nat, n: nat)
    requires t < threads && n <= |units|
    ensures |Dealt(units, threads, t, n)| == n / threads + if n % threads > t then 1 else 0
  {
    if n == 0 {
      assert n / threads == 0;
    } else {
      DealtLength(units, threads, t, n - 1);
      NextQuotient(n - 1, threads);
    }
  }

  /** Where worker t's k-th unit comes from. */
  lemma {:induction false} DealtFrom(units: seq<Unit>, threads: nat, t: nat, n: nat, k: nat)
    requires t < threads && n <= |units| && k < |Dealt(units, threads, t, n)|
    ensures k * threads + t < n && Dealt(units, threads, t, n)[k] == units[k * threads + t]
  {
    if k < |Dealt(units, threads, t, n - 1)| {
      DealtFrom(units, threads, t, n - 1, k);
    } else {
      DealtLength(units, threads, t, n - 1);
      assert k == (n - 1) / threads && (n - 1) % threads == t;
      assert (n - 1) / threads * threads + (n - 1) % threads == n - 1;
    }
  }

  /** Where unit i goes: to worker i mod threads, and by DealtFrom to nobody else. */
  lemma {:induction false} DealtTo(units: seq<Unit>, threads: nat, i: nat, n: nat)
    requires threads > 0 && i < n <= |units|
    ensures var d := Dealt(units, threads, i % threads, n); i / threads < |d| && d[i / threads] == units[i]
  {
    if i < n - 1 {
      DealtTo(units, threads, i, n - 1);
    } else {
      DealtLength(units, threads, i % threads, i);
    }
  }

  ghost predicate EveryoneClear(units: seq<Unit>, threads: nat) {
    forall t :: 0 <= t < threads ==> AllClear(Dealt(units, threads, t, |units|))
  }

  lemma EveryoneClearHasUnit(units: seq<Unit>, threads: nat, i: nat)
    requires threads > 0 && EveryoneClear(units, threads) && i < |units|
    ensures NoRepeats(units[i])
  {
    var t := i % threads;
    DealtTo(units, threads, i, |units|);
    assert AllClear(Dealt(units, threads, t, |units|));
  }

  lemma DealtIsClear(units: seq<Unit>, threads: nat, t: nat)
    requires t < threads && AllClear(units)
    ensures AllClear(Dealt(units, threads, t, |units|))
  {
    forall k | 0 <= k < |Dealt(units, threads, t, |units|)|
      ensures NoRepeats(Dealt(units, threads, t, |units|)[k])
    {
      DealtFrom(units, threads, t, |units|, k);
    }
  }

  lemma EveryoneClearMeansAllClear(units: seq<Unit>, threads: nat)
    requires threads > 0
    ensures EveryoneClear(units, threads) <==> AllClear(units)
  {
    if EveryoneClear(units, threads) {
      forall i | 0 <= i < |units| ensures NoRepeats(units[i]) { EveryoneClearHasUnit(units, threads, i); }
    }
    if AllClear(units) {
      forall t | 0 <= t < threads ensures AllClear(Dealt(units, threads, t, |units|)) { DealtIsClear(units, threads, t); }
    }
  }

  // ----- Workers under any interleaving -----

  /** A worker: position in its list, digits seen in the present unit, and the two flags. */
  datatype Worker = Worker(units: seq<Unit>, i: nat, j: nat, found: set<int>, valid: bool, tested: bool)

  function Fresh(units: seq<Unit>): Worker {
    Worker(units, 0, 0, {}, true, false)
  }

  predicate Ready(w: Worker) {
    !w.tested && w.i <= |w.units| && forall k :: 0 <= k < |w.units| ==> IsUnit(w.units[k])
  }

  /** One turn of the inner loop, or of the outer loop when a unit is done or a repeat was found. */
  function Advance(w: Worker): Worker
    requires Ready(w)
  {
    if w.i == |w.units| then w.(tested := true)
    else if w.j >= 9 then
      if w.valid then w.(i := w.i + 1, j := 0, found := {}) else w.(tested := true)
    else
      var x := w.units[w.i][w.j];
      if x != 0 && x in w.found then w.(valid := false, j := 9)
      else w.(found := if x == 0 then w.found else w.found + {x}, j := w.j + 1)
  }

  ghost predicate WorkerInv(w: Worker) {
    && (forall k :: 0 <= k < |w.units| ==> IsUnit(w.units[k]))
    && w.i <= |w.units| && w.j <= 9 && (w.i == |w.units| ==> w.j == 0)
    && AllClear(w.units[..w.i])
    && (w.i < |w.units| && w.valid ==>
          && NoRepeats(w.units[w.i][..w.j])
          && forall x :: x in w.found <==> x != 0 && x in w.units[w.i][..w.j])
    && (!w.valid ==> w.j == 9 && w.i < |w.units| && !NoRepeats(w.units[w.i]))
    && (w.tested ==> w.i == |w.units| || !w.valid)
  }

  lemma AdvanceKeepsInv(w: Worker)
    requires Ready(w) && WorkerInv(w)
    ensures WorkerInv(Advance(w))
  {
    var r := Advance(w);
    if w.i < |w.units| {
      var u := w.units[w.i];
      if w.j < 9 {
        assert u[..w.j + 1] == u[..w.j] + [u[w.j]];
        if !r.valid {
          var k :| 0 <= k < w.j && u[..w.j][k] == u[w.j];
          assert u[k] == u[w.j] != 0;
        }
      } else if w.valid {
        assert u[..9] == u;
        assert w.units[..w.i + 1] == w.units[..w.i] + [u];
      }
    }
  }

  /** Steps a worker can still make. */
  function ToDo(w: Worker): int {
    if w.tested then 0 else 10 * (|w.units| - w.i) + 1 + 9 - w.j
  }

  lemma AdvanceLowersToDo(w: Worker)
    requires Ready(w) && WorkerInv(w)
    ensures 0 <= ToDo(Advance(w)) < ToDo(w)
  {
  }

  /** The state the threads start from: worker t of a kind has the units t, t + threads, ... of that kind. */
  function Team(units: seq<Unit>, threads: nat): (s: seq<Worker>)
    requires threads > 0
    ensures |s| == threads
  {
    seq(threads, t requires 0 <= t < threads => Fresh(Dealt(units, threads, t, |units|)))
  }

  function RowUnits(g: Grid): (units: seq<Unit>)
    requires IsGrid(g)
    ensures |units| == 9 && forall i :: 0 <= i < 9 ==> units[i] == Row(g, i)
  {
    seq(9, i requires 0 <= i < 9 => Row(g, i))
  }

  function ColumnUnits(g: Grid): (units: seq<Unit>)
    requires IsGrid(g)
    ensures |units| == 9 && forall i :: 0 <= i < 9 ==> units[i] == Column(g, i)
  {
    seq(9, i requires 0 <= i < 9 => Column(g, i))
  }

  function BlockUnits(g: Grid): (units: seq<Unit>)
    requires IsGrid(g)
    ensures |units| == 9 && forall i :: 0 <= i < 9 ==> units[i] == Block(g, i)
  {
    seq(9, i requires 0 <= i < 9 => Block(g, i))
  }

  lemma UnitsAreUnits(g: Grid)
    requires IsGrid(g)
    ensures forall i :: 0 <= i < 9 ==> IsUnit(RowUnits(g)[i]) && IsUnit(ColumnUnits(g)[i]) && IsUnit(BlockUnits(g)[i])
  {
    forall i, k | 0 <= i < 9 && 0 <= k < 9
      ensures 0 <= RowUnits(g)[i][k] <= 9 && 0 <= ColumnUnits(g)[i][k] <= 9 && 0 <= BlockUnits(g)[i][k] <= 9
    {
      assert InRange(i / 3 * 3 + k / 3, i % 3 * 3 + k % 3);
    }
  }

  lemma ValidMeansAllClear(g: Grid)
    requires IsGrid(g)
    ensures Valid(g) <==> AllClear(RowUnits(g)) && AllClear(ColumnUnits(g)) && AllClear(BlockUnits(g))
  {
    ValidByUnits(g);
    var rows, columns, blocks := RowUnits(g), ColumnUnits(g), BlockUnits(g);
    assert forall i :: 0 <= i < 9 ==> rows[i] == Row(g, i) && columns[i] == Column(g, i) && blocks[i] == Block(g, i);
  }

  /** Worker t of this kind is done, and its flag says whether its units are clear. */
  ghost predicate TeamDone(units: seq<Unit>, threads: nat, r: seq<Worker>) {
    && |r| == threads > 0
    && forall t :: 0 <= t < threads ==>
         WorkerInv(r[t]) && r[t].tested && r[t].units == Dealt(units, threads, t, |units|)
  }

  lemma TeamSliceDone(units: seq<Unit>, threads: nat, s: seq<Worker>, r: seq<Worker>, from: nat)
    requires threads > 0 && |r| == |s| && from + threads <= |s| && s[from..from + threads] == Team(units, threads)
    requires forall t :: 0 <= t < |s| ==> WorkerInv(r[t]) && r[t].units == s[t].units
    requires forall w :: w in r ==> w.tested
    ensures TeamDone(units, threads, r[from..from + threads])
  {
    forall t | 0 <= t < threads
      ensures r[from + t].units == Dealt(units, threads, t, |units|)
    {
      assert s[from + t] == s[from..from + threads][t];
    }
  }

  lemma TeamVerdict(units: seq<Unit>, threads: nat, r: seq<Worker>)
    requires TeamDone(units, threads, r)
    ensures (forall w :: w in r ==> w.valid) <==> AllClear(units)
  {
    forall t | 0 <= t < threads
      ensures r[t].valid <==> AllClear(Dealt(units, threads, t, |units|))
    {
      assert r[t].units[..|r[t].units|] == r[t].units;
    }
    EveryoneClearMeansAllClear(units, threads);
    if EveryoneClear(units, threads) {
      assert forall t :: 0 <= t < threads ==> r[t].valid;
    }
    if forall w :: w in r ==> w.valid {
      assert forall t :: 0 <= t < threads ==> r[t] in r;
    }
  }

  lemma FreshTeamInv(units: seq<Unit>, threads: nat)
    requires threads > 0 && forall i :: 0 <= i < |units| ==> IsUnit(units[i])
    ensures forall t :: 0 <= t < threads ==> WorkerInv(Team(units, threads)[t])
  {
    forall t | 0 <= t < threads
      ensures WorkerInv(Team(units, threads)[t])
    {
      var d := Dealt(units, threads, t, |units|);
      forall k | 0 <= k < |d|
        ensures IsUnit(d[k])
      {
        DealtFrom(units, threads, t, |units|, k);
      }
    }
  }

  function AllTeams(g: Grid, rowThreads: nat, columnThreads: nat, blockThreads: nat): (s: seq<Worker>)
    requires IsGrid(g) && rowThreads > 0 && columnThreads > 0 && blockThreads > 0
    ensures |s| == rowThreads + columnThreads + blockThreads
  {
    Team(RowUnits(g), rowThreads) + Team(ColumnUnits(g), columnThreads) + Team(BlockUnits(g), blockThreads)
  }

  lemma AllTeamsInv(g: Grid, rowThreads: nat, columnThreads: nat, blockThreads: nat)
    requires IsGrid(g) && rowThreads > 0 && columnThreads > 0 && blockThreads > 0
    ensures forall w :: w in AllTeams(g, rowThreads, columnThreads, blockThreads) ==> WorkerInv(w)
  {
    UnitsAreUnits(g);
    FreshTeamInv(RowUnits(g), rowThreads);
    FreshTeamInv(ColumnUnits(g), columnThreads);
    FreshTeamInv(BlockUnits(g), blockThreads);
  }

  lemma AllTeamsSlices(g: Grid, rowThreads: nat, columnThreads: nat, blockThreads: nat)
    requires IsGrid(g) && rowThreads > 0 && columnThreads > 0 && blockThreads > 0
    ensures var s, m, n := AllTeams(g, rowThreads, columnThreads, blockThreads), rowThreads, rowThreads + columnThreads;
            && s[0..m] == Team(RowUnits(g), rowThreads)
            && s[m..n] == Team(ColumnUnits(g), columnThreads)
            && s[n..n + blockThreads] == Team(BlockUnits(g), blockThreads)
  {
  }

  /** The workers r have come from s and are sound. */
  ghost predicate Descended(s: seq<Worker>, r: seq<Worker>) {
    |r| == |s| && forall t :: 0 <= t < |s| ==> WorkerInv(r[t]) && r[t].units == s[t].units
  }

  lemma ThreeTeamsDone(g: Grid, rowThreads: nat, columnThreads: nat, blockThreads: nat, r: seq<Worker>)
    requires IsGrid(g) && rowThreads > 0 && columnThreads > 0 && blockThreads > 0
    requires Descended(AllTeams(g, rowThreads, columnThreads, blockThreads), r)
    requires forall w :: w in r ==> w.tested
    ensures |r| == rowThreads + columnThreads + blockThreads
    ensures var m, n := rowThreads, rowThreads + columnThreads;
            && TeamDone(RowUnits(g), rowThreads, r[0..m])
            && TeamDone(ColumnUnits(g), columnThreads, r[m..n])
            && TeamDone(BlockUnits(g), blockThreads, r[n..n + blockThreads])
  {
    hide AllTeams, Team, RowUnits, ColumnUnits, BlockUnits, WorkerInv, TeamDone;
    var s := AllTeams(g, rowThreads, columnThreads, blockThreads);
    AllTeamsSlices(g, rowThreads, columnThreads, blockThreads);
    TeamSliceDone(RowUnits(g), rowThreads, s, r, 0);
    TeamSliceDone(ColumnUnits(g), columnThreads, s, r, rowThreads);
    TeamSliceDone(BlockUnits(g), blockThreads, s, r, rowThreads + columnThreads);
  }

  /** Once all workers have finished, all flags are still up exactly when the grid is valid. */
  lemma FlagsTellValidity(g: Grid, rowThreads: nat, columnThreads: nat, blockThreads: nat, r: seq<Worker>)
    requires IsGrid(g) && rowThreads > 0 && columnThreads > 0 && blockThreads > 0
    requires Descended(AllTeams(g, rowThreads, columnThreads, blockThreads), r)
    requires forall w :: w in r ==> w.tested
    ensures (forall w :: w in r ==> w.valid) <==> Valid(g)
  {
    hide AllTeams, RowUnits, ColumnUnits, BlockUnits, TeamDone, AllClear, Valid, Descended;
    ThreeTeamsDone(g, rowThreads, columnThreads, blockThreads, r);
    var m, n := rowThreads, rowThreads + columnThreads;
    TeamVerdict(RowUnits(g), rowThreads, r[0..m]);
    TeamVerdict(ColumnUnits(g), columnThreads, r[m..n]);
    TeamVerdict(BlockUnits(g), blockThreads, r[n..n + blockThreads]);
    ValidMeansAllClear(g);
    assert r == r[0..m] + r[m..n] + r[n..n + blockThreads];
  }

  // ----- The main thread among them -----

  /** The main thread joins the workers one after the other, then looks at their flags in the same
      order, waiting for each to be tested, until one is down. */
  datatype Main = Joining(k: nat) | Looking(k: nat) | Done(verdict: bool)

  datatype System = System(workers: seq<Worker>, main: Main)

  /** `order` is the order of the main thread's visits. */
  ghost predicate Shape(order: seq<nat>, s: System) {
    forall k :: 0 <= k < |order| ==> order[k] < |s.workers|
  }

  /** Worker number `who` can go on, or, behind the last of them, the main thread. */
  predicate Enabled(order: seq<nat>, s: System, who: nat)
    requires Shape(order, s)
  {
    if who < |s.workers| then Ready(s.workers[who])
    else
      who == |s.workers| &&
      match s.main
      case Joining(k) => k >= |order| || s.workers[order[k]].tested
      case Looking(k) => k >= |order| || s.workers[order[k]].tested
      case Done(_) => false
  }

  function Step(order: seq<nat>, s: System, who: nat): (r: System)
    requires Shape(order, s) && Enabled(order, s, who)
    ensures |r.workers| == |s.workers|
  {
    if who < |s.workers| then s.(workers := s.workers[who := Advance(s.workers[who])])
    else
      match s.main
      case Joining(k) => s.(main := if k >= |order| then Looking(0) else Joining(k + 1))
      case Looking(k) =>
        s.(main := if k >= |order| then Done(true) else if s.workers[order[k]].valid then Looking(k + 1) else Done(false))
  }

  ghost predicate Run(order: seq<nat>, s: System, sched: seq<nat>, r: System)
    requires Shape(order, s)
    decreases |sched|
  {
    if sched == [] then
      r == s
    else
      Enabled(order, s, sched[0]) && Run(order, Step(order, s, sched[0]), sched[1..], r)
  }

  ghost predicate TestedUpTo(order: seq<nat>, s: System, k: nat)
    requires Shape(order, s) && k <= |order|
  {
    forall j :: 0 <= j < k ==> s.workers[order[j]].tested
  }

  ghost predicate ValidUpTo(order: seq<nat>, s: System, k: nat)
    requires Shape(order, s) && k <= |order|
  {
    forall j :: 0 <= j < k ==> s.workers[order[j]].valid
  }

  ghost predicate MainInv(order: seq<nat>, s: System)
    requires Shape(order, s)
  {
    match s.main
    case Joining(k) => k <= |order| && TestedUpTo(order, s, k)
    case Looking(k) => k <= |order| && TestedUpTo(order, s, |order|) && ValidUpTo(order, s, k)
    case Done(verdict) => TestedUpTo(order, s, |order|) && (verdict <==> ValidUpTo(order, s, |order|))
  }

  ghost predicate Inv(order: seq<nat>, from: seq<Worker>, s: System) {
    Shape(order, s) && Descended(from, s.workers) && MainInv(order, s)
  }

  /** Workers that are tested never change again, so what the main thread has seen stays true. */
  lemma StepKeepsInv(order: seq<nat>, from: seq<Worker>, s: System, who: nat)
    requires Inv(order, from, s) && Enabled(order, s, who)
    ensures Inv(order, from, Step(order, s, who))
  {
    if who < |s.workers| {
      AdvanceKeepsInv(s.workers[who]);
    }
  }

  function ToDoOf(): Worker -> int {
    (w: Worker) => ToDo(w)
  }

  function MainToDo(order: seq<nat>, m: Main): int {
    match m
    case Joining(k) => 2 * |order| + 2 - k
    case Looking(k) => |order| + 1 - k
    case Done(_) => 0
  }

  function Potential(order: seq<nat>, s: System): int {
    Sum(s.workers, ToDoOf()) + MainToDo(order, s.main)
  }

  lemma StepLowersPotential(order: seq<nat>, from: seq<Worker>, s: System, who: nat)
    requires Inv(order, from, s) && Enabled(order, s, who)
    ensures Potential(order, Step(order, s, who)) < Potential(order, s)
  {
    if who < |s.workers| {
      AdvanceLowersToDo(s.workers[who]);
      SumUpdate(s.workers, ToDoOf(), who, Advance(s.workers[who]));
    }
  }

  lemma PotentialIsNonNegative(order: seq<nat>, from: seq<Worker>, s: System)
    requires Inv(order, from, s)
    ensures Potential(order, s) >= 0
  {
    SumNonNegative(s.workers, ToDoOf());
  }

  lemma {:induction false} RunFrom(order: seq<nat>, from: seq<Worker>, s: System, sched: seq<nat>, r: System)
    requires Inv(order, from, s) && Run(order, s, sched, r)
    ensures Inv(order, from, r) && |sched| + Potential(order, r) <= Potential(order, s)
    decreases |sched|
  {
    hide Step, Enabled, Potential;
    if sched != [] {
      StepKeepsInv(order, from, s, sched[0]);
      StepLowersPotential(order, from, s, sched[0]);
      RunFrom(order, from, Step(order, s, sched[0]), sched[1..], r);
    }
  }

  /** Every worker is visited. */
  ghost predicate VisitsAll(order: seq<nat>, n: nat) {
    (forall k :: 0 <= k < |order| ==> order[k] < n) && forall t: nat :: t < n ==> t in order
  }

  /** Somebody can go on until the main thread has its verdict, and then nobody can. */
  lemma StuckExactlyWhenDone(order: seq<nat>, from: seq<Worker>, s: System)
    requires Inv(order, from, s) && VisitsAll(order, |s.workers|)
    ensures (forall who: nat :: !Enabled(order, s, who)) <==> s.main.Done?
    ensures s.main.Done? ==> forall w :: w in s.workers ==> w.tested
  {
    if s.main.Done? {
      forall t | 0 <= t < |s.workers|
        ensures s.workers[t].tested
      {
        assert t in order;
        var k :| 0 <= k < |order| && order[k] == t;
      }
    } else {
      var k := s.main.k;
      if k < |order| && !s.workers[order[k]].tested {
        assert Enabled(order, s, order[k]);
      } else {
        assert Enabled(order, s, |s.workers|);
      }
    }
  }

  /** The rounds of the main thread's two loops: a row worker, a column worker and a block worker in
      each, as long as there are any. */
  function Visits(rowThreads: nat, columnThreads: nat, blockThreads: nat, rounds: nat): (order: seq<nat>) {
    if rounds == 0 then []
    else
      var i := rounds - 1;
      Visits(rowThreads, columnThreads, blockThreads, i)
      + (if i < rowThreads then [i] else [])
      + (if i < columnThreads then [rowThreads + i] else [])
      + (if i < blockThreads then [rowThreads + columnThreads + i] else [])
  }

  function Least(a: nat, b: nat): nat {
    if a < b then a else b
  }

  /** The round in which worker t is visited. */
  function RoundOf(rowThreads: nat, columnThreads: nat, t: nat): nat {
    if t < rowThreads then t
    else if t < rowThreads + columnThreads then t - rowThreads else t - rowThreads - columnThreads
  }

  lemma {:induction false} VisitsSoFar(rowThreads: nat, columnThreads: nat, blockThreads: nat, rounds: nat)
    ensures var order := Visits(rowThreads, columnThreads, blockThreads, rounds);
            && |order| == Least(rounds, rowThreads) + Least(rounds, columnThreads) + Least(rounds, blockThreads)
            && (forall k :: 0 <= k < |order| ==> order[k] < rowThreads + columnThreads + blockThreads)
            && forall t: nat :: t < rowThreads + columnThreads + blockThreads && RoundOf(rowThreads, columnThreads, t) < rounds
                                ==> t in order
  {
    if rounds > 0 {
      VisitsSoFar(rowThreads, columnThreads, blockThreads, rounds - 1);
    }
  }

  function Most(a: nat, b: nat): nat {
    if a > b then a else b
  }

  function AllVisits(rowThreads: nat, columnThreads: nat, blockThreads: nat): seq<nat> {
    Visits(rowThreads, columnThreads, blockThreads, Most(Most(rowThreads, columnThreads), blockThreads))
  }

  lemma EverybodyIsVisited(rowThreads: nat, columnThreads: nat, blockThreads: nat)
    ensures var order, n := AllVisits(rowThreads, columnThreads, blockThreads), rowThreads + columnThreads + blockThreads;
            VisitsAll(order, n) && |order| == n
  {
    VisitsSoFar(rowThreads, columnThreads, blockThreads, Most(Most(rowThreads, columnThreads), blockThreads));
  }

  function PartTeam(units: seq<Unit>, threads: nat, n: nat): (s: seq<Worker>)
    requires threads > 0 && n <= |units|
    ensures |s| == threads
  {
    seq(threads, t requires 0 <= t < threads => Fresh(Dealt(units, threads, t, n)))
  }

  /** Ten steps for each unit, and ten for each worker. */
  lemma {:induction false} TeamToDo(units: seq<Unit>, threads: nat, n: nat)
    requires threads > 0 && n <= |units|
    ensures Sum(PartTeam(units, threads, n), ToDoOf()) == 10 * n + 10 * threads
  {
    if n == 0 {
      SumUniform(PartTeam(units, threads, 0), ToDoOf(), 10);
    } else {
      TeamToDo(units, threads, n - 1);
      var before, c := PartTeam(units, threads, n - 1), (n - 1) % threads;
      var w := Fresh(Dealt(units, threads, c, n));
      forall t | 0 <= t < threads && t != c
        ensures Dealt(units, threads, t, n) == Dealt(units, threads, t, n - 1)
      {
        assert Dealt(units, threads, t, n - 1) + [] == Dealt(units, threads, t, n - 1);
      }
      assert PartTeam(units, threads, n) == before[c := w];
      SumUpdate(before, ToDoOf(), c, w);
    }
  }

  lemma AllTeamsToDo(g: Grid, rowThreads: nat, columnThreads: nat, blockThreads: nat)
    requires IsGrid(g) && rowThreads > 0 && columnThreads > 0 && blockThreads > 0
    ensures Sum(AllTeams(g, rowThreads, columnThreads, blockThreads), ToDoOf()) ==
            270 + 10 * (rowThreads + columnThreads + blockThreads)
  {
    TeamToDo(RowUnits(g), rowThreads, 9);
    TeamToDo(ColumnUnits(g), columnThreads, 9);
    TeamToDo(BlockUnits(g), blockThreads, 9);
    var r, c, b := Team(RowUnits(g), rowThreads), Team(ColumnUnits(g), columnThreads), Team(BlockUnits(g), blockThreads);
    assert r == PartTeam(RowUnits(g), rowThreads, 9) && c == PartTeam(ColumnUnits(g), columnThreads, 9);
    assert b == PartTeam(BlockUnits(g), blockThreads, 9);
    SumOfTwo(r, c, ToDoOf());
    SumOfTwo(r + c, b, ToDoOf());
  }

  function Start(g: Grid, rowThreads: nat, columnThreads: nat, blockThreads: nat): (s: System)
    requires IsGrid(g) && rowThreads > 0 && columnThreads > 0 && blockThreads > 0
    ensures |s.workers| == rowThreads + columnThreads + blockThreads
  {
    System(AllTeams(g, rowThreads, columnThreads, blockThreads), Joining(0))
  }

  /** Whatever the numbers of threads and however they and the main thread are interleaved: the
      verdict, once there is one, is right; no run is longer than 12 steps per thread and 272 more; and
      a run can be continued exactly as long as there is no verdict. */
  lemma VerdictUnderAnySchedule(g: Grid, rowThreads: nat, columnThreads: nat, blockThreads: nat, sched: seq<nat>, s: System)
    requires IsGrid(g) && rowThreads > 0 && columnThreads > 0 && blockThreads > 0
    requires var order := AllVisits(rowThreads, columnThreads, blockThreads);
             var start := Start(g, rowThreads, columnThreads, blockThreads);
             Shape(order, start) && Run(order, start, sched, s)
    ensures s.main.Done? ==> (s.main.verdict <==> Valid(g)) && forall w :: w in s.workers ==> w.tested
    ensures |sched| <= 12 * (rowThreads + columnThreads + blockThreads) + 272
    ensures var order := AllVisits(rowThreads, columnThreads, blockThreads);
            Shape(order, s) && (s.main.Done? <==> forall who: nat :: !Enabled(order, s, who))
  {
    hide AllTeams, Valid, Run, Enabled, WorkerInv, AllVisits;
    var order, start := AllVisits(rowThreads, columnThreads, blockThreads), Start(g, rowThreads, columnThreads, blockThreads);
    AllTeamsInv(g, rowThreads, columnThreads, blockThreads);
    RunFrom(order, start.workers, start, sched, s);
    AllTeamsToDo(g, rowThreads, columnThreads, blockThreads);
    EverybodyIsVisited(rowThreads, columnThreads, blockThreads);
    PotentialIsNonNegative(order, start.workers, s);
    StuckExactlyWhenDone(order, start.workers, s);
    if s.main.Done? {
      FlagsTellValidity(g, rowThreads, columnThreads, blockThreads, s.workers);
      AllFlags(order, s);
    }
  }

  lemma AllFlags(order: seq<nat>, s: System)
    requires Shape(order, s) && VisitsAll(order, |s.workers|)
    ensures ValidUpTo(order, s, |order|) <==> forall w :: w in s.workers ==> w.valid
  {
    if ValidUpTo(order, s, |order|) {
      forall t | 0 <= t < |s.workers|
        ensures s.workers[t].valid
      {
        assert t in order;
        var k :| 0 <= k < |order| && order[k] == t;
      }
    }
  }
}
