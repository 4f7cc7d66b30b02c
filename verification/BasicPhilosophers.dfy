/** The basic dining philosophers: every philosopher is a thread, every fork a mutex. A step of
    the model is one `pthread_mutex_lock` that succeeds or one `pthread_mutex_unlock`, by any
    thread; a lock of a fork that is held is not enabled. The numbers of philosophers and of
    meals are parameters. */
module BasicPhilosophers {
  import opened Wrappers
  import opened Forks
  import opened Counting

  /** Where a philosopher stands in its meal loop, named by the forks it holds. */
  datatype Stage = Thinking | OneFork | Eating | LeftReturned

  datatype Diner = Diner(meals: nat, stage: Stage)

  /** `owner[f]` is the thread that has locked fork f. */
  datatype State = State(diners: seq<Diner>, owner: seq<Option<nat>>)

  function Init(n: nat): State {
    State(seq(n, _ => Diner(0, Thinking)), seq(n, _ => None))
  }

  predicate Shape(n: nat, s: State) {
    |s.diners| == n && |s.owner| == n
  }

  predicate Enabled(n: nat, m: nat, s: State, i: nat)
    requires Shape(n, s) && i < n
  {
    match s.diners[i].stage
    case Thinking => s.diners[i].meals < m && s.owner[FirstFork(n, i)] == None
    case OneFork => s.owner[SecondFork(n, i)] == None
    case Eating => true
    case LeftReturned => true
  }

  function Step(n: nat, m: nat, s: State, i: nat): (t: State)
    requires Shape(n, s) && i < n && Enabled(n, m, s, i)
    ensures Shape(n, t)
  {
    var d := s.diners[i];
    match d.stage
    case Thinking =>
      State(s.diners[i := d.(stage := OneFork)], s.owner[FirstFork(n, i) := Some(i)])
    case OneFork =>
      State(s.diners[i := d.(stage := Eating)], s.owner[SecondFork(n, i) := Some(i)])
    case Eating =>
      State(s.diners[i := d.(stage := LeftReturned)], s.owner[LeftFork(i) := None])
    case LeftReturned =>
      State(s.diners[i := Diner(d.meals + 1, Thinking)], s.owner[RightFork(n, i) := None])
  }

  /** `sched` names the thread that takes each step on the way from s to t. */
  ghost predicate Run(n: nat, m: nat, s: State, sched: seq<nat>, t: State)
    requires Shape(n, s)
    decreases |sched|
  {
    if sched == [] then
      t == s
    else
      sched[0] < n && Enabled(n, m, s, sched[0]) && Run(n, m, Step(n, m, s, sched[0]), sched[1..], t)
  }

  // ----- Safety -----

  predicate Holds(n: nat, d: Diner, i: nat, f: nat)
    requires i < n
  {
    match d.stage
    case Thinking => false
    case OneFork => f == FirstFork(n, i)
    case Eating => f == LeftFork(i) || f == RightFork(n, i)
    case LeftReturned => f == RightFork(n, i)
  }

  /** The mutexes say exactly what the philosophers hold: a fork is owned by i if and only if i's
      place in the loop says it holds it. */
  ghost predicate Inv(n: nat, m: nat, s: State) {
    && Shape(n, s)
    && (forall i :: 0 <= i < n ==> s.diners[i].meals + (if s.diners[i].stage.Thinking? then 0 else 1) <= m)
    && (forall f :: 0 <= f < n && s.owner[f].Some? ==> s.owner[f].value < n)
    && (forall f, i :: 0 <= f < n && 0 <= i < n ==> (s.owner[f] == Some(i) <==> Holds(n, s.diners[i], i, f)))
  }

  lemma StepKeepsInv(n: nat, m: nat, s: State, i: nat)
    requires n >= 2 && Inv(n, m, s) && i < n && Enabled(n, m, s, i)
    ensures Inv(n, m, Step(n, m, s, i))
  {
    var t := Step(n, m, s, i);
    forall f, j | 0 <= f < n && 0 <= j < n
      ensures t.owner[f] == Some(j) <==> Holds(n, t.diners[j], j, f)
    {
      assert s.owner[f] == Some(j) <==> Holds(n, s.diners[j], j, f);
      assert s.owner[f] == Some(i) <==> Holds(n, s.diners[i], i, f);
    }
  }

  /** A thread only ever unlocks a mutex it has locked itself. */
  lemma UnlocksOwnFork(n: nat, m: nat, s: State, i: nat)
    requires Inv(n, m, s) && i < n
    ensures s.diners[i].stage.Eating? ==> s.owner[LeftFork(i)] == Some(i) && s.owner[RightFork(n, i)] == Some(i)
    ensures s.diners[i].stage.LeftReturned? ==> s.owner[RightFork(n, i)] == Some(i)
  {
    assert s.owner[LeftFork(i)] == Some(i) <==> Holds(n, s.diners[i], i, LeftFork(i));
    assert s.owner[RightFork(n, i)] == Some(i) <==> Holds(n, s.diners[i], i, RightFork(n, i));
  }

  lemma NeighboursNeverEatTogether(n: nat, m: nat, s: State, i: nat)
    requires n >= 2 && Inv(n, m, s) && i < n
    ensures !(s.diners[i].stage.Eating? && s.diners[RightFork(n, i)].stage.Eating?)
  {
    var f := RightFork(n, i);
    assert s.owner[f] == Some(i) <==> Holds(n, s.diners[i], i, f);
    assert s.owner[f] == Some(f) <==> Holds(n, s.diners[f], f, f);
  }

  ghost function Eaters(n: nat, s: State): set<nat>
    requires Shape(n, s)
  {
    set i: nat | i < n && s.diners[i].stage.Eating?
  }

  lemma {:induction false} ShiftedSize(n: nat, e: set<nat>)
    requires forall i :: i in e ==> i < n
    ensures |set i | i in e :: RightFork(n, i)| == |e|
  {
    if e != {} {
      var x :| x in e;
      var rest := e - {x};
      ShiftedSize(n, rest);
      assert (set i | i in e :: RightFork(n, i)) == (set i | i in rest :: RightFork(n, i)) + {RightFork(n, x)};
      assert RightFork(n, x) !in (set i | i in rest :: RightFork(n, i));
    }
  }

  /** Each eater holds two forks that nobody else holds. */
  lemma AtMostHalfEat(n: nat, m: nat, s: State)
    requires n >= 2 && Inv(n, m, s)
    ensures 2 * |Eaters(n, s)| <= n
  {
    var e := Eaters(n, s);
    var shifted := set i | i in e :: RightFork(n, i);
    forall f | f in shifted
      ensures f !in e
    {
      var i :| i in e && f == RightFork(n, i);
      NeighboursNeverEatTogether(n, m, s, i);
    }
    ShiftedSize(n, e);
    BoundedSize(n, e + shifted);
    assert |e + shifted| == |e| + |shifted|;
  }

  // ----- Deadlock freedom -----

  predicate Finished(n: nat, m: nat, s: State)
    requires Shape(n, s)
  {
    forall i :: 0 <= i < n ==> s.diners[i].meals == m && s.diners[i].stage.Thinking?
  }

  /** Follow the chain of waiting: whoever holds the awaited fork either can move or waits for a
      fork with a smaller number. */
  lemma {:induction false} WaiterLeadsToMover(n: nat, m: nat, s: State, i: nat) returns (j: nat)
    requires n >= 2 && Inv(n, m, s) && i < n && !s.diners[i].stage.Thinking?
    ensures j < n && Enabled(n, m, s, j)
    decreases if s.diners[i].stage.OneFork? then 1 + SecondFork(n, i) else 0
  {
    j := i;
    if !Enabled(n, m, s, i) {
      var f := SecondFork(n, i);
      var k := s.owner[f].value;
      assert Holds(n, s.diners[k], k, f);
      j := WaiterLeadsToMover(n, m, s, k);
    }
  }

  lemma NoDeadlock(n: nat, m: nat, s: State) returns (j: nat)
    requires n >= 2 && Inv(n, m, s) && !Finished(n, m, s)
    ensures j < n && Enabled(n, m, s, j)
  {
    var i :| 0 <= i < n && !(s.diners[i].meals == m && s.diners[i].stage.Thinking?);
    j := i;
    if !Enabled(n, m, s, i) {
      if s.diners[i].stage.Thinking? {
        var f := FirstFork(n, i);
        var k := s.owner[f].value;
        assert Holds(n, s.diners[k], k, f);
        j := WaiterLeadsToMover(n, m, s, k);
      } else {
        j := WaiterLeadsToMover(n, m, s, i);
      }
    }
  }

  // ----- Exact termination -----

  /** Lock and unlock calls a philosopher has still to make. */
  function Work(m: nat, d: Diner): int {
    4 * (m - d.meals) -
    (match d.stage
     case Thinking => 0
     case OneFork => 1
     case Eating => 2
     case LeftReturned => 3)
  }

  function WorkOf(m: nat): Diner -> int {
    (d: Diner) => Work(m, d)
  }

  function Remaining(m: nat, ds: seq<Diner>): int {
    Sum(ds, WorkOf(m))
  }

  lemma StepDoesOneUnitOfWork(n: nat, m: nat, s: State, i: nat)
    requires Shape(n, s) && i < n && Enabled(n, m, s, i)
    ensures Remaining(m, Step(n, m, s, i).diners) == Remaining(m, s.diners) - 1
  {
    SumUpdate(s.diners, WorkOf(m), i, Step(n, m, s, i).diners[i]);
  }

  lemma InitInv(n: nat, m: nat)
    ensures Inv(n, m, Init(n)) && Remaining(m, Init(n).diners) == 4 * n * m
  {
    SumUniform(Init(n).diners, WorkOf(m), 4 * m);
  }

  lemma {:induction false} RunFrom(n: nat, m: nat, s: State, sched: seq<nat>, t: State)
    requires n >= 2 && Inv(n, m, s) && Run(n, m, s, sched, t)
    decreases |sched|
    ensures Inv(n, m, t) && |sched| + Remaining(m, t.diners) == Remaining(m, s.diners)
  {
    if sched != [] {
      StepKeepsInv(n, m, s, sched[0]);
      StepDoesOneUnitOfWork(n, m, s, sched[0]);
      RunFrom(n, m, Step(n, m, s, sched[0]), sched[1..], t);
    }
  }

  lemma FinishedLeavesNoWork(n: nat, m: nat, s: State)
    requires Shape(n, s) && Finished(n, m, s)
    ensures Remaining(m, s.diners) == 0
  {
    SumUniform(s.diners, WorkOf(m), 0);
  }

  /** Every reachable state is safe: neighbours never eat together, at most half of them eat, and
      until all are finished somebody can go on. */
  lemma EveryRunIsSafe(n: nat, m: nat, sched: seq<nat>, s: State)
    requires n >= 2 && Run(n, m, Init(n), sched, s)
    ensures Inv(n, m, s) && 2 * |Eaters(n, s)| <= n
    ensures forall i :: 0 <= i < n ==> !(s.diners[i].stage.Eating? && s.diners[RightFork(n, i)].stage.Eating?)
    ensures Finished(n, m, s) || exists j :: 0 <= j < n && Enabled(n, m, s, j)
  {
    InitInv(n, m);
    RunFrom(n, m, Init(n), sched, s);
    AtMostHalfEat(n, m, s);
    forall i | 0 <= i < n
      ensures !(s.diners[i].stage.Eating? && s.diners[RightFork(n, i)].stage.Eating?)
    {
      NeighboursNeverEatTogether(n, m, s, i);
    }
    if !Finished(n, m, s) {
      var j := NoDeadlock(n, m, s);
    }
  }

  /** Under every scheduler: a run that cannot be continued has made exactly 4 * n * m lock and
      unlock calls, everybody has eaten m meals and every fork is free. */
  lemma EveryMaximalRunFinishes(n: nat, m: nat, sched: seq<nat>, t: State)
    requires n >= 2 && Run(n, m, Init(n), sched, t)
    ensures Inv(n, m, t) && |sched| <= 4 * n * m
    ensures (forall i :: 0 <= i < n ==> !Enabled(n, m, t, i)) <==> |sched| == 4 * n * m
    ensures |sched| == 4 * n * m ==> Finished(n, m, t) && forall f :: 0 <= f < n ==> t.owner[f] == None
  {
    InitInv(n, m);
    RunFrom(n, m, Init(n), sched, t);
    WorkIsNonNegative(n, m, t);
    if Finished(n, m, t) {
      FinishedLeavesNoWork(n, m, t);
    } else {
      var j := NoDeadlock(n, m, t);
      StepDoesOneUnitOfWork(n, m, t, j);
      StepKeepsInv(n, m, t, j);
      WorkIsNonNegative(n, m, Step(n, m, t, j));
    }
  }

  lemma WorkIsNonNegative(n: nat, m: nat, s: State)
    requires Inv(n, m, s)
    ensures Remaining(m, s.diners) >= 0
  {
    SumNonNegative(s.diners, WorkOf(m));
  }

  /** With one philosopher both forks are the same mutex, and the second lock never succeeds. */
  lemma LonePhilosopherIsStuck(m: nat) returns (sched: seq<nat>, t: State)
    requires m > 0
    ensures Run(1, m, Init(1), sched, t) && Shape(1, t) && !Finished(1, m, t) && !Enabled(1, m, t, 0)
  {
    sched, t := [0], Step(1, m, Init(1), 0);
    assert Run(1, m, t, [], t);
    assert [0][1..] == [];
    assert t.diners[0].stage.OneFork?;
  }

  ghost predicate DeadlockFree(n: nat, m: nat) {
    forall sched: seq<nat>, t: State ::
      Run(n, m, Init(n), sched, t) && Shape(n, t) && !Finished(n, m, t) ==>
        exists j :: 0 <= j < n && Enabled(n, m, t, j)
  }

  /** The protocol is free of deadlock exactly when there are at least two philosophers (or no
      meals): a single philosopher would lock the same mutex twice. */
  lemma DeadlockFreeExactlyFromTwo(n: nat, m: nat)
    requires n >= 1
    ensures DeadlockFree(n, m) <==> n >= 2 || m == 0
  {
    if n >= 2 {
      forall sched: seq<nat>, t: State | Run(n, m, Init(n), sched, t) && Shape(n, t) && !Finished(n, m, t)
        ensures exists j :: 0 <= j < n && Enabled(n, m, t, j)
      {
        InitInv(n, m);
        RunFrom(n, m, Init(n), sched, t);
        var j := NoDeadlock(n, m, t);
      }
    } else if m > 0 {
      var sched, t := LonePhilosopherIsStuck(m);
      assert Run(n, m, Init(n), sched, t);
    } else {
      forall sched: seq<nat>, t: State | Run(n, m, Init(n), sched, t) && Shape(n, t)
        ensures Finished(n, m, t)
      {
        assert sched == [];
      }
    }
  }
}
