/** The daemon as a function of the list of processes and of the time: who is admitted when, and where
    the processor, the host's arrays and everybody's records are after so many units of time. */
module DaemonSpec {
  import opened Wrappers
  import opened Counting
  import opened HostResources
  import opened Dispatcher
  import opened Processor

  ghost predicate Ordered(order: seq<nat>, bound: nat) {
    && (forall k :: 0 <= k < |order| ==> order[k] < bound)
    && (forall k, l :: 0 <= k < l < |order| ==> order[k] < order[l])
  }

  lemma {:induction false} SelectionIsOrdered(items: seq<nat>, wanted: seq<bool>, bound: nat)
    requires |items| == |wanted| && Ordered(items, bound)
    ensures Ordered(Select(items, wanted), bound)
  {
    if items != [] {
      var n := |items| - 1;
      SelectionIsOrdered(items[..n], wanted[..n], items[n]);
    }
  }

  /** Those of the list that are wanted. */
  ghost function Picked(items: seq<nat>, wanted: seq<bool>, bound: nat): (r: seq<nat>)
    requires |items| == |wanted| && Ordered(items, bound)
    ensures Ordered(r, bound)
  {
    SelectionIsOrdered(items, wanted, bound);
    Select(items, wanted)
  }

  /** A process of the list, as admission and as the processor see it. */
  datatype Listed = Listed(job: Job, task: Task)

  /** The processor and its queues, the host's arrays, what each process has on record, and who is in
      the dispatcher queue; processes are named by their position in the list. */
  datatype World = World(cpu: Cpu, pools: seq<seq<int>>, io: seq<seq<Claim>>, waiting: seq<nat>)

  ghost predicate Sane(list: seq<Listed>, rt: nat, w: World) {
    && PoolsFit(w.pools, rt) && |w.cpu.lines| == 4
    && |w.io| == |list| && (forall i :: 0 <= i < |list| ==> |w.io[i]| == KINDS)
    && Ordered(w.waiting, |list|)
  }

  /** Those in the dispatcher queue, with what they have on record by now. */
  ghost function Candidates(list: seq<Listed>, rt: nat, w: World): (jobs: seq<Job>)
    requires Sane(list, rt, w)
    ensures |jobs| == |w.waiting| && JobsFit(jobs)
  {
    seq(|w.waiting|, k requires 0 <= k < |w.waiting| => list[w.waiting[k]].job.(io := w.io[w.waiting[k]]))
  }

  /** The pass at this time. */
  ghost function PassAt(list: seq<Listed>, rt: nat, w: World, time: int): (p: Progress)
    requires Sane(list, rt, w)
    ensures PoolsFit(p.pools, rt) && JobsFit(p.jobs) && |p.jobs| == |p.admitted| == |w.waiting|
  {
    Pass(Candidates(list, rt, w), time, rt, w.pools, |w.waiting|)
  }

  /** Those who enter the system at this time, in order. */
  ghost function Entering(list: seq<Listed>, rt: nat, w: World, time: int): (order: seq<nat>)
    requires Sane(list, rt, w)
    ensures Ordered(order, |list|)
  {
    Picked(w.waiting, PassAt(list, rt, w, time).admitted, |list|)
  }

  /** The records after a pass. */
  ghost function Recorded(io: seq<seq<Claim>>, waiting: seq<nat>, jobs: seq<Job>): (r: seq<seq<Claim>>)
    requires |waiting| == |jobs| && Ordered(waiting, |io|)
    ensures |r| == |io|
  {
    if waiting == [] then io
    else
      var n := |waiting| - 1;
      Recorded(io, waiting[..n], jobs[..n])[waiting[n] := jobs[n].io]
  }

  ghost function TasksAt(list: seq<Listed>, order: seq<nat>): (ts: seq<Task>)
    requires Ordered(order, |list|)
    ensures |ts| == |order|
  {
    seq(|order|, k requires 0 <= k < |order| => list[order[k]].task)
  }

  /** The position of the process with this pid. */
  function IndexOf(list: seq<Listed>, pid: int): (i: nat)
    ensures i <= |list| && (i < |list| ==> list[i].job.pid == pid)
    ensures forall k :: 0 <= k < i ==> list[k].job.pid != pid
  {
    if list == [] || list[0].job.pid == pid then 0 else 1 + IndexOf(list[1..], pid)
  }

  /** What the finished process, if any, has on record goes back to the host. */
  ghost function GiveBack(list: seq<Listed>, pools: seq<seq<int>>, io: seq<seq<Claim>>, finished: Option<Task>)
    : (r: seq<seq<int>>)
    requires |pools| == KINDS && |io| == |list| && forall i :: 0 <= i < |io| ==> |io[i]| == KINDS
    ensures |r| == KINDS && forall k :: 0 <= k < KINDS ==> |r[k]| == |pools[k]|
  {
    if finished.None? || IndexOf(list, finished.value.pid) == |list| then pools
    else seq(KINDS, k requires 0 <= k < KINDS => Release(pools[k], io[IndexOf(list, finished.value.pid)][k]))
  }

  lemma {:induction false} RecordedAt(io: seq<seq<Claim>>, waiting: seq<nat>, jobs: seq<Job>)
    requires |waiting| == |jobs| && Ordered(waiting, |io|)
    ensures var r := Recorded(io, waiting, jobs);
            && (forall k :: 0 <= k < |waiting| ==> r[waiting[k]] == jobs[k].io)
            && forall i: nat :: i < |io| && i !in waiting ==> r[i] == io[i]
  {
    if waiting != [] {
      var n := |waiting| - 1;
      RecordedAt(io, waiting[..n], jobs[..n]);
      forall i: nat | i < |io| && i !in waiting
        ensures Recorded(io, waiting, jobs)[i] == io[i]
      {
        assert i !in waiting[..n];
      }
    }
  }

  /** One unit of time: the pass, the processor's cycle, and the release of whoever has finished. */
  ghost function NextWorld(list: seq<Listed>, rt: nat, w: World, time: int): (r: World)
    requires Sane(list, rt, w)
    ensures Sane(list, rt, r)
  {
    var p := PassAt(list, rt, w, time);
    RecordedFits(w.io, w.waiting, p.jobs);
    var io := Recorded(w.io, w.waiting, p.jobs);
    var c := Quantum(w.cpu, TasksAt(list, Entering(list, rt, w, time)));
    World(c.cpu, GiveBack(list, p.pools, io, c.finished), io, Picked(w.waiting, Waiting(p.admitted), |list|))
  }

  lemma {:induction false} RecordedFits(io: seq<seq<Claim>>, waiting: seq<nat>, jobs: seq<Job>)
    requires |waiting| == |jobs| && Ordered(waiting, |io|)
    requires (forall i :: 0 <= i < |io| ==> |io[i]| == KINDS) && JobsFit(jobs)
    ensures forall i :: 0 <= i < |io| ==> |Recorded(io, waiting, jobs)[i]| == KINDS
  {
    if waiting != [] {
      RecordedFits(io, waiting[..|waiting| - 1], jobs[..|waiting| - 1]);
    }
  }

  lemma NextWorldIs(list: seq<Listed>, rt: nat, w: World, time: int)
    requires Sane(list, rt, w)
    ensures var p, r := PassAt(list, rt, w, time), NextWorld(list, rt, w, time);
            var c := Quantum(w.cpu, TasksAt(list, Entering(list, rt, w, time)));
            && Ordered(w.waiting, |w.io|) && |p.jobs| == |w.waiting|
            && r.io == Recorded(w.io, w.waiting, p.jobs) && |r.io| == |list|
            && (forall i :: 0 <= i < |list| ==> |r.io[i]| == KINDS)
            && r.waiting == Picked(w.waiting, Waiting(p.admitted), |list|)
            && r.cpu == c.cpu && r.pools == GiveBack(list, p.pools, r.io, c.finished)
            && Entering(list, rt, w, time) == Select(w.waiting, p.admitted)
  {
    hide PassAt, Quantum, GiveBack, Select;
  }

  ghost predicate GoodList(list: seq<Listed>) {
    forall i :: 0 <= i < |list| ==> Fresh(list[i].job)
  }

  /** Start-up and the reading of the list: everybody waits, in the order of the list. */
  ghost function FirstWorld(list: seq<Listed>, rt: nat, pools: seq<seq<int>>): (w: World)
    requires PoolsFit(pools, rt) && GoodList(list)
    ensures Sane(list, rt, w)
  {
    World(StartUp(), pools, seq(|list|, i requires 0 <= i < |list| => list[i].job.io), seq(|list|, i => i))
  }

  ghost function WorldAt(list: seq<Listed>, rt: nat, pools: seq<seq<int>>, n: nat): (w: World)
    requires PoolsFit(pools, rt) && GoodList(list)
    ensures Sane(list, rt, w)
  {
    if n == 0 then FirstWorld(list, rt, pools)
    else NextWorld(list, rt, WorldAt(list, rt, pools, n - 1), n - 1)
  }

  /** Those who enter at time t. */
  ghost function EnteringAt(list: seq<Listed>, rt: nat, pools: seq<seq<int>>, t: nat): (order: seq<nat>)
    requires PoolsFit(pools, rt) && GoodList(list)
    ensures Ordered(order, |list|)
  {
    Entering(list, rt, WorldAt(list, rt, pools, t), t)
  }

  // ----- Who enters when -----

  /** A pass admits a process exactly when it has arrived and is granted what it needs at its turn. */
  lemma {:induction false} PassAdmits(jobs: seq<Job>, time: int, rt: nat, pools: seq<seq<int>>, n: nat, k: nat)
    requires PoolsFit(pools, rt) && JobsFit(jobs) && k < n <= |jobs|
    ensures Pass(jobs, time, rt, pools, n).admitted[k] <==>
            jobs[k].arrivalTime <= time && Admitted(Pass(jobs, time, rt, pools, k).pools, rt, jobs[k])
  {
    hide Admitted;
    if k < n - 1 {
      PassAdmits(jobs, time, rt, pools, n - 1, k);
    }
  }

  /** Whoever waits either enters or goes on waiting. */
  lemma EntersOrWaits(list: seq<Listed>, rt: nat, w: World, time: int, i: nat)
    requires Sane(list, rt, w)
    ensures i in Entering(list, rt, w, time) ==> i in w.waiting
    ensures i in NextWorld(list, rt, w, time).waiting <==> i in w.waiting && i !in Entering(list, rt, w, time)
  {
    hide Select;
    var admitted := PassAt(list, rt, w, time).admitted;
    if i in Entering(list, rt, w, time) {
      var k := SelectedIsWanted(w.waiting, admitted, i);
      if i in NextWorld(list, rt, w, time).waiting {
        var l := SelectedIsWanted(w.waiting, Waiting(admitted), i);
        assert false;
      }
    } else if i in NextWorld(list, rt, w, time).waiting {
      var l := SelectedIsWanted(w.waiting, Waiting(admitted), i);
    } else if i in w.waiting {
      var k :| 0 <= k < |w.waiting| && w.waiting[k] == i;
      if admitted[k] {
        WantedIsSelected(w.waiting, admitted, k);
      } else {
        WantedIsSelected(w.waiting, Waiting(admitted), k);
      }
    }
  }

  /** The k-th in the queue enters exactly when it has arrived and is granted what it needs, after those before it. */
  lemma EntersExactly(list: seq<Listed>, rt: nat, w: World, time: int, k: nat)
    requires Sane(list, rt, w) && k < |w.waiting|
    ensures var i, jobs := w.waiting[k], Candidates(list, rt, w);
            i in Entering(list, rt, w, time) <==>
            list[i].job.arrivalTime <= time && Admitted(Pass(jobs, time, rt, w.pools, k).pools, rt, jobs[k])
  {
    hide Select, Admitted;
    var i, jobs, admitted := w.waiting[k], Candidates(list, rt, w), PassAt(list, rt, w, time).admitted;
    PassAdmits(jobs, time, rt, w.pools, |jobs|, k);
    if admitted[k] {
      WantedIsSelected(w.waiting, admitted, k);
    } else if i in Entering(list, rt, w, time) {
      var l := SelectedIsWanted(w.waiting, admitted, i);
      assert false;
    }
  }

  /** A process waits for as long as it has not entered. */
  lemma {:induction false} WaitsUntilItEnters(list: seq<Listed>, rt: nat, pools: seq<seq<int>>, n: nat, i: nat)
    requires PoolsFit(pools, rt) && GoodList(list) && i < |list|
    ensures i in WorldAt(list, rt, pools, n).waiting <==> forall t: nat :: t < n ==> i !in EnteringAt(list, rt, pools, t)
  {
    hide NextWorld, Entering;
    if n == 0 {
      assert FirstWorld(list, rt, pools).waiting[i] == i;
    } else {
      WaitsUntilItEnters(list, rt, pools, n - 1, i);
      EntersOrWaits(list, rt, WorldAt(list, rt, pools, n - 1), n - 1, i);
      assert WorldAt(list, rt, pools, n) == NextWorld(list, rt, WorldAt(list, rt, pools, n - 1), n - 1);
      assert i in WorldAt(list, rt, pools, n).waiting <==>
             i in WorldAt(list, rt, pools, n - 1).waiting && i !in EnteringAt(list, rt, pools, n - 1);
    }
  }

  /** In every run: nobody enters before its arrival time, and nobody enters twice. */
  lemma NobodyEntersEarlyOrTwice(list: seq<Listed>, rt: nat, pools: seq<seq<int>>, t: nat, i: nat)
    requires PoolsFit(pools, rt) && GoodList(list) && i in EnteringAt(list, rt, pools, t)
    ensures i < |list| && list[i].job.arrivalTime <= t
    ensures forall s: nat :: s != t ==> i !in EnteringAt(list, rt, pools, s)
  {
    hide Entering, NextWorld, WorldAt;
    var w := WorldAt(list, rt, pools, t);
    EntersOrWaits(list, rt, w, t, i);
    var k :| 0 <= k < |w.waiting| && w.waiting[k] == i;
    EntersExactly(list, rt, w, t, k);
    forall s: nat | s != t
      ensures i !in EnteringAt(list, rt, pools, s)
    {
      WaitsUntilItEnters(list, rt, pools, s, i);
      WaitsUntilItEnters(list, rt, pools, t, i);
      if i in EnteringAt(list, rt, pools, s) {
        EntersOrWaits(list, rt, WorldAt(list, rt, pools, s), s, i);
      }
    }
  }

  /** What a process needs is never changed. */
  ghost predicate SameNeeds(a: seq<Claim>, b: seq<Claim>) {
    |a| == |b| && forall k :: 0 <= k < |a| ==> a[k].needed == b[k].needed
  }

  lemma {:induction false} PassKeepsNeeds(jobs: seq<Job>, time: int, rt: nat, pools: seq<seq<int>>, n: nat)
    requires PoolsFit(pools, rt) && JobsFit(jobs) && n <= |jobs|
    ensures forall i :: 0 <= i < |jobs| ==> SameNeeds(Pass(jobs, time, rt, pools, n).jobs[i].io, jobs[i].io)
  {
    if n > 0 {
      PassKeepsNeeds(jobs, time, rt, pools, n - 1);
      var p := Pass(jobs, time, rt, pools, n - 1);
      var j := p.jobs[n - 1];
      assert SameNeeds(JobAfter(p.pools, rt, j).io, j.io);
    }
  }

  lemma {:induction false} NeedsStay(list: seq<Listed>, rt: nat, pools: seq<seq<int>>, n: nat)
    requires PoolsFit(pools, rt) && GoodList(list)
    ensures forall i :: 0 <= i < |list| ==> SameNeeds(WorldAt(list, rt, pools, n).io[i], list[i].job.io)
  {
    hide Pass, Quantum, Select, SameNeeds;
    if n == 0 {
      SameNeedsAtFirst(list, rt, pools);
    } else {
      NeedsStay(list, rt, pools, n - 1);
      NeedsStayOnce(list, rt, WorldAt(list, rt, pools, n - 1), n - 1);
    }
  }

  lemma SameNeedsAtFirst(list: seq<Listed>, rt: nat, pools: seq<seq<int>>)
    requires PoolsFit(pools, rt) && GoodList(list)
    ensures forall i :: 0 <= i < |list| ==> SameNeeds(FirstWorld(list, rt, pools).io[i], list[i].job.io)
  {
  }

  lemma NeedsStayOnce(list: seq<Listed>, rt: nat, w: World, time: int)
    requires Sane(list, rt, w) && forall i :: 0 <= i < |list| ==> SameNeeds(w.io[i], list[i].job.io)
    ensures forall i :: 0 <= i < |list| ==> SameNeeds(NextWorld(list, rt, w, time).io[i], list[i].job.io)
  {
    hide Pass, Quantum, Select;
    var jobs, p := Candidates(list, rt, w), PassAt(list, rt, w, time);
    PassKeepsNeeds(jobs, time, rt, w.pools, |jobs|);
    RecordedAt(w.io, w.waiting, p.jobs);
    forall i: nat | i < |list|
      ensures SameNeeds(Recorded(w.io, w.waiting, p.jobs)[i], list[i].job.io)
    {
      if i in w.waiting {
        var k :| 0 <= k < |w.waiting| && w.waiting[k] == i;
        assert SameNeeds(p.jobs[k].io, jobs[k].io);
      }
    }
  }

  ghost predicate NeedsNothing(j: Job) {
    forall k :: 0 <= k < |j.io| ==> j.io[k].needed == 0
  }

  /** In every run: a process that needs nothing enters exactly when it arrives (or at the start, if it arrived before). */
  lemma NeedlessEntersOnArrival(list: seq<Listed>, rt: nat, pools: seq<seq<int>>, t: nat, i: nat)
    requires PoolsFit(pools, rt) && GoodList(list) && i < |list| && NeedsNothing(list[i].job)
    ensures i in EnteringAt(list, rt, pools, t) <==> t == if list[i].job.arrivalTime < 0 then 0 else list[i].job.arrivalTime
  {
    hide Entering, NextWorld, WorldAt, Sane;
    var a: nat := if list[i].job.arrivalTime < 0 then 0 else list[i].job.arrivalTime;
    forall s: nat | s < a
      ensures i !in EnteringAt(list, rt, pools, s)
    {
      if i in EnteringAt(list, rt, pools, s) {
        NobodyEntersEarlyOrTwice(list, rt, pools, s, i);
      }
    }
    WaitsUntilItEnters(list, rt, pools, a, i);
    NeedsStay(list, rt, pools, a);
    NeedlessEnters(list, rt, WorldAt(list, rt, pools, a), a, i);
    NobodyEntersEarlyOrTwice(list, rt, pools, a, i);
  }

  lemma NeedlessEnters(list: seq<Listed>, rt: nat, w: World, time: int, i: nat)
    requires Sane(list, rt, w) && i in w.waiting && list[i].job.arrivalTime <= time
    requires NeedsNothing(list[i].job) && SameNeeds(w.io[i], list[i].job.io)
    ensures i in Entering(list, rt, w, time)
  {
    hide Entering, Pass;
    var k :| 0 <= k < |w.waiting| && w.waiting[k] == i;
    EntersExactly(list, rt, w, time, k);
  }

  /** After n units of time everybody still waits who arrives later, and nobody who needs nothing and has arrived. */
  lemma WhoStillWaits(list: seq<Listed>, rt: nat, pools: seq<seq<int>>, n: nat, i: nat)
    requires PoolsFit(pools, rt) && GoodList(list) && i < |list|
    ensures n == 0 || list[i].job.arrivalTime >= n ==> i in WorldAt(list, rt, pools, n).waiting
    ensures NeedsNothing(list[i].job) ==>
              (i in WorldAt(list, rt, pools, n).waiting <==> n == 0 || list[i].job.arrivalTime >= n)
  {
    hide WorldAt, EnteringAt;
    WaitsUntilItEnters(list, rt, pools, n, i);
    forall t: nat | t < n && i in EnteringAt(list, rt, pools, t)
      ensures list[i].job.arrivalTime < n
    {
      NobodyEntersEarlyOrTwice(list, rt, pools, t, i);
    }
    if NeedsNothing(list[i].job) && n > 0 {
      var a: nat := if list[i].job.arrivalTime < 0 then 0 else list[i].job.arrivalTime;
      NeedlessEntersOnArrival(list, rt, pools, a, i);
    }
  }

  // ----- What becomes of everybody -----

  ghost function Batches(list: seq<Listed>, rt: nat, pools: seq<seq<int>>, n: nat): (batches: seq<seq<Task>>)
    requires PoolsFit(pools, rt) && GoodList(list)
    ensures |batches| == n
  {
    if n == 0 then []
    else Batches(list, rt, pools, n - 1) + [TasksAt(list, EnteringAt(list, rt, pools, n - 1))]
  }

  /** The processor is where the batches of those who enter bring it from start-up. */
  lemma {:induction false} WorldRunsBatches(list: seq<Listed>, rt: nat, pools: seq<seq<int>>, n: nat)
    requires PoolsFit(pools, rt) && GoodList(list)
    ensures WorldAt(list, rt, pools, n).cpu == RunAll(Batches(list, rt, pools, n)).cpu
  {
    hide Quantum, Entering, Recorded;
    if n > 0 {
      WorldRunsBatches(list, rt, pools, n - 1);
      assert Batches(list, rt, pools, n)[..n - 1] == Batches(list, rt, pools, n - 1);
    }
  }

  ghost function Everybody(n: nat): (order: seq<nat>)
    ensures |order| == n && Ordered(order, n)
  {
    seq(n, i => i)
  }

  lemma {:induction false} SelectDivides(ts: seq<Task>, chosen: seq<bool>, w: Task -> int)
    requires |ts| == |chosen|
    ensures Sum(ts, w) == Sum(Select(ts, chosen), w) + Sum(Select(ts, Waiting(chosen)), w)
  {
    hide Sum, Select;
    if ts == [] {
      NothingSelected(ts, chosen, w);
    } else {
      var n := |ts| - 1;
      SelectDivides(ts[..n], chosen[..n], w);
      assert Waiting(chosen)[..n] == Waiting(chosen[..n]);
      SelectLast(ts, chosen);
      SelectLast(ts, Waiting(chosen));
      assert ts == ts[..n] + [ts[n]];
      WeightOfOne(ts[n], w);
      SumOfTwo(ts[..n], [ts[n]], w);
      SumOfTwo(Select(ts[..n], chosen[..n]), [ts[n]], w);
      SumOfTwo(Select(ts[..n], Waiting(chosen[..n])), [ts[n]], w);
    }
  }

  lemma NothingSelected(ts: seq<Task>, chosen: seq<bool>, w: Task -> int)
    requires |ts| == |chosen| == 0
    ensures Sum(ts, w) == Sum(Select(ts, chosen), w) == Sum(Select(ts, Waiting(chosen)), w) == 0
  {
  }

  lemma WeightOfOne(t: Task, w: Task -> int)
    ensures Sum([t], w) == w(t)
  {
    assert [t][1..] == [];
  }

  lemma {:induction false} TasksOfSelected(list: seq<Listed>, order: seq<nat>, wanted: seq<bool>)
    requires |order| == |wanted| && Ordered(order, |list|)
    ensures Ordered(Select(order, wanted), |list|)
    ensures TasksAt(list, Select(order, wanted)) == Select(TasksAt(list, order), wanted)
  {
    hide Select;
    SelectionIsOrdered(order, wanted, |list|);
    if order == [] {
      NobodySelected(list, order, wanted);
    } else {
      var n := |order| - 1;
      TasksOfSelected(list, order[..n], wanted[..n]);
      SelectLast(order, wanted);
      SelectLast(TasksAt(list, order), wanted);
      assert TasksAt(list, order)[..n] == TasksAt(list, order[..n]);
      if wanted[n] {
        assert TasksAt(list, Select(order, wanted)) == TasksAt(list, Select(order[..n], wanted[..n])) + [list[order[n]].task];
      }
    }
  }

  lemma NobodySelected(list: seq<Listed>, order: seq<nat>, wanted: seq<bool>)
    requires |order| == |wanted| == 0
    ensures Select(order, wanted) == [] && TasksAt(list, []) == [] == Select(TasksAt(list, []), wanted)
  {
  }

  /** Nothing has been lost between the list of processes and those who have entered. */
  lemma {:induction false} WorldSplits(list: seq<Listed>, rt: nat, pools: seq<seq<int>>, n: nat, w: Task -> int)
    requires PoolsFit(pools, rt) && GoodList(list)
    ensures Sum(TasksAt(list, Everybody(|list|)), w) ==
            Sum(TasksAt(list, WorldAt(list, rt, pools, n).waiting), w) + Sum(RunAll(Batches(list, rt, pools, n)).admitted, w)
  {
    hide Quantum, Sum, PassAt, Select, TasksAt, NextWorld, Entering, RunAll;
    if n > 0 {
      WorldSplits(list, rt, pools, n - 1, w);
      var before := WorldAt(list, rt, pools, n - 1);
      var admitted := PassAt(list, rt, before, n - 1).admitted;
      NextWorldIs(list, rt, before, n - 1);
      TasksOfSelected(list, before.waiting, admitted);
      TasksOfSelected(list, before.waiting, Waiting(admitted));
      SelectDivides(TasksAt(list, before.waiting), admitted, w);
      var batches := Batches(list, rt, pools, n);
      assert batches[..n - 1] == Batches(list, rt, pools, n - 1);
      AdmittedSoFar(batches);
      SumOfTwo(RunAll(batches[..n - 1]).admitted, batches[n - 1], w);
    } else {
      NothingEntered(list, rt, pools, w);
    }
  }

  lemma AdmittedSoFar(batches: seq<seq<Task>>)
    requires batches != []
    ensures RunAll(batches).admitted == RunAll(batches[..|batches| - 1]).admitted + batches[|batches| - 1]
  {
  }

  lemma NothingEntered(list: seq<Listed>, rt: nat, pools: seq<seq<int>>, w: Task -> int)
    requires PoolsFit(pools, rt) && GoodList(list)
    ensures WorldAt(list, rt, pools, 0).waiting == Everybody(|list|) && Sum(RunAll(Batches(list, rt, pools, 0)).admitted, w) == 0
  {
  }

  /** Everybody of the list still waits for admission, or is on the processor or in its queues, or has
      finished, or is one that was overwritten; and all the work asked for is still to do, was lost with
      those overwritten, or was done, one unit per busy cycle. */
  lemma NobodyIsMissing(list: seq<Listed>, rt: nat, pools: seq<seq<int>>, n: nat, pid: int)
    requires PoolsFit(pools, rt) && GoodList(list)
    ensures var w, h, p := WorldAt(list, rt, pools, n), RunAll(Batches(list, rt, pools, n)), OfPid(pid);
            && h.cpu == w.cpu
            && Sum(TasksAt(list, Everybody(|list|)), p) ==
               Sum(TasksAt(list, w.waiting), p) + Total(w.cpu, p) + Sum(h.finished, p) + Sum(h.lost, p)
    ensures var w, h, t := WorldAt(list, rt, pools, n), RunAll(Batches(list, rt, pools, n)), TimeLeft();
            Sum(TasksAt(list, Everybody(|list|)), t) ==
            Sum(TasksAt(list, w.waiting), t) + Total(w.cpu, t) + Sum(h.finished, t) + Sum(h.lost, t) + h.busy
  {
    hide RunAll, WorldAt, Sum, Total, TasksAt;
    WorldRunsBatches(list, rt, pools, n);
    WorldSplits(list, rt, pools, n, OfPid(pid));
    WorldSplits(list, rt, pools, n, TimeLeft());
    EveryRunBalances(Batches(list, rt, pools, n), pid);
  }
}
