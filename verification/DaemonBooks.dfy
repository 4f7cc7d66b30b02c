/** The daemon and the host's resources: a run of the daemon is a run of allocation attempts and
    releases, so everything a run of those conserves is conserved by the daemon. */
module DaemonBooks {
  import opened Wrappers
  import opened Counting
  import opened HostResources
  import R = ResourceRuns
  import A = AdmissionRuns
  import opened Dispatcher
  import opened Processor
  import opened DaemonSpec

  /** A list as it is read: positive pids, all different, and the two views of a process agree on its pid. */
  ghost predicate Numbered(list: seq<Listed>) {
    && (forall i :: 0 <= i < |list| ==> list[i].job.pid == list[i].task.pid > 0)
    && (forall i, j :: 0 <= i < j < |list| ==> list[i].job.pid != list[j].job.pid)
  }

  ghost predicate AllFree(pools: seq<seq<int>>) {
    forall k, x :: 0 <= k < |pools| && 0 <= x < |pools[k]| ==> pools[k][x] == 0
  }

  // ----- Who is in the system -----

  lemma {:induction false} CountPid(list: seq<Listed>, order: seq<nat>, i: nat)
    requires Numbered(list) && Ordered(order, |list|) && i < |list|
    ensures Sum(TasksAt(list, order), OfPid(list[i].job.pid)) == if i in order then 1 else 0
  {
    if order != [] {
      var n := |order| - 1;
      CountPid(list, order[..n], i);
      assert TasksAt(list, order) == TasksAt(list, order[..n]) + [list[order[n]].task];
      SumOfTwo(TasksAt(list, order[..n]), [list[order[n]].task], OfPid(list[i].job.pid));
      WeightOfOne(list[order[n]].task, OfPid(list[i].job.pid));
      assert i in order <==> i in order[..n] || i == order[n];
    }
  }

  lemma {:induction false} UnknownPid(list: seq<Listed>, order: seq<nat>, pid: int)
    requires Numbered(list) && Ordered(order, |list|) && forall i :: 0 <= i < |list| ==> list[i].job.pid != pid
    ensures Sum(TasksAt(list, order), OfPid(pid)) == 0
  {
    if order != [] {
      var n := |order| - 1;
      UnknownPid(list, order[..n], pid);
      assert TasksAt(list, order) == TasksAt(list, order[..n]) + [list[order[n]].task];
      SumOfTwo(TasksAt(list, order[..n]), [list[order[n]].task], OfPid(pid));
      WeightOfOne(list[order[n]].task, OfPid(pid));
    }
  }

  /** How often the process with this pid has finished in the first n units of time. */
  ghost function Finishes(list: seq<Listed>, rt: nat, pools: seq<seq<int>>, n: nat, pid: int): int
    requires PoolsFit(pools, rt) && GoodList(list)
  {
    Sum(RunAll(Batches(list, rt, pools, n)).finished, OfPid(pid))
  }

  /** Whoever has entered and not finished. */
  ghost function Live(list: seq<Listed>, rt: nat, pools: seq<seq<int>>, n: nat): (live: set<nat>)
    requires PoolsFit(pools, rt) && GoodList(list)
  {
    set i: nat | i < |list| && i !in WorldAt(list, rt, pools, n).waiting && Finishes(list, rt, pools, n, list[i].job.pid) == 0
  }

  lemma {:induction false} PlacesAreCounted(ts: seq<Task>, pid: int)
    ensures Sum(ts, OfPid(pid)) >= 0
  {
    SumNonNegative(ts, OfPid(pid));
  }

  lemma TotalIsCounted(cpu: Cpu, pid: int)
    requires |cpu.lines| == 4
    ensures Total(cpu, OfPid(pid)) >= 0
  {
    forall q | 0 <= q < 4
      ensures LineWeight(cpu.lines[q], OfPid(pid)) >= 0
    {
      if cpu.lines[q].Some? {
        PlacesAreCounted(cpu.lines[q].value.items, pid);
      }
    }
  }

  /** Nobody finishes twice, or before having entered. */
  lemma FinishesOnce(list: seq<Listed>, rt: nat, pools: seq<seq<int>>, n: nat, pid: int)
    requires PoolsFit(pools, rt) && GoodList(list) && Numbered(list)
    ensures 0 <= Finishes(list, rt, pools, n, pid) <= 1
    ensures Finishes(list, rt, pools, n, pid) == 1 ==>
              var i := IndexOf(list, pid);
              i < |list| && i !in WorldAt(list, rt, pools, n).waiting
  {
    hide WorldAt, RunAll, Batches, Total, Sum, TasksAt;
    NobodyIsMissing(list, rt, pools, n, pid);
    var w, h := WorldAt(list, rt, pools, n), RunAll(Batches(list, rt, pools, n));
    TotalIsCounted(w.cpu, pid);
    PlacesAreCounted(h.finished, pid);
    PlacesAreCounted(h.lost, pid);
    PlacesAreCounted(TasksAt(list, w.waiting), pid);
    var i := IndexOf(list, pid);
    if i == |list| {
      UnknownPid(list, Everybody(|list|), pid);
    } else {
      CountPid(list, Everybody(|list|), i);
      CountPid(list, w.waiting, i);
    }
  }

  /** Who has finished at time n, if anybody. */
  ghost function FinishedAt(list: seq<Listed>, rt: nat, pools: seq<seq<int>>, n: nat): Option<Task>
    requires PoolsFit(pools, rt) && GoodList(list)
  {
    Quantum(WorldAt(list, rt, pools, n).cpu, TasksAt(list, EnteringAt(list, rt, pools, n))).finished
  }

  lemma FinishesNext(list: seq<Listed>, rt: nat, pools: seq<seq<int>>, n: nat, pid: int)
    requires PoolsFit(pools, rt) && GoodList(list)
    ensures var f := FinishedAt(list, rt, pools, n);
            Finishes(list, rt, pools, n + 1, pid) ==
            Finishes(list, rt, pools, n, pid) + if f.Some? && f.value.pid == pid then 1 else 0
  {
    hide Quantum, WorldAt, EnteringAt;
    WorldRunsBatches(list, rt, pools, n);
    var batches := Batches(list, rt, pools, n + 1);
    assert batches[..n] == Batches(list, rt, pools, n);
    var f, h := FinishedAt(list, rt, pools, n), RunAll(batches[..n]);
    SumOfTwo(h.finished, if f.None? then [] else [f.value], OfPid(pid));
    if f.Some? {
      WeightOfOne(f.value, OfPid(pid));
    }
  }

  /** One unit of time: those entering join, and whoever finishes leaves, having been in the system. */
  lemma LiveNext(list: seq<Listed>, rt: nat, pools: seq<seq<int>>, n: nat)
    requires PoolsFit(pools, rt) && GoodList(list) && Numbered(list)
    ensures var entered := Live(list, rt, pools, n) + set i | i in EnteringAt(list, rt, pools, n);
            var f := FinishedAt(list, rt, pools, n);
            if f.None? then Live(list, rt, pools, n + 1) == entered
            else
              var i := IndexOf(list, f.value.pid);
              i < |list| && i in entered && Live(list, rt, pools, n + 1) == entered - {i}
  {
    hide WorldAt, Finishes, FinishedAt, EnteringAt, Live, Numbered;
    var f := FinishedAt(list, rt, pools, n);
    var entered := Live(list, rt, pools, n) + set i | i in EnteringAt(list, rt, pools, n);
    LiveIsListed(list, rt, pools, n);
    LiveIsListed(list, rt, pools, n + 1);
    forall i: nat | i < |list|
      ensures i in Live(list, rt, pools, n + 1) <==> i in entered && !(f.Some? && f.value.pid == list[i].job.pid)
      ensures f.Some? && f.value.pid == list[i].job.pid ==> i in entered && i == IndexOf(list, f.value.pid)
    {
      LiveNextAt(list, rt, pools, n, i);
      PidIndex(list, i);
    }
    if f.Some? {
      FinishesNext(list, rt, pools, n, f.value.pid);
      FinishesOnce(list, rt, pools, n, f.value.pid);
      FinishesOnce(list, rt, pools, n + 1, f.value.pid);
    }
  }

  lemma LiveIsListed(list: seq<Listed>, rt: nat, pools: seq<seq<int>>, n: nat)
    requires PoolsFit(pools, rt) && GoodList(list)
    ensures forall i :: i in Live(list, rt, pools, n) ==> i < |list|
    ensures forall i :: i in EnteringAt(list, rt, pools, n) ==> i < |list|
  {
  }

  lemma LiveNextAt(list: seq<Listed>, rt: nat, pools: seq<seq<int>>, n: nat, i: nat)
    requires PoolsFit(pools, rt) && GoodList(list) && Numbered(list) && i < |list|
    ensures var f := FinishedAt(list, rt, pools, n);
            var entered := i in Live(list, rt, pools, n) || i in EnteringAt(list, rt, pools, n);
            && (i in Live(list, rt, pools, n + 1) <==> entered && !(f.Some? && f.value.pid == list[i].job.pid))
            && (f.Some? && f.value.pid == list[i].job.pid ==> entered)
  {
    hide Finishes, FinishedAt, NextWorld, Entering;
    var pid := list[i].job.pid;
    EntersOrWaits(list, rt, WorldAt(list, rt, pools, n), n, i);
    FinishesNext(list, rt, pools, n, pid);
    FinishesOnce(list, rt, pools, n, pid);
    FinishesOnce(list, rt, pools, n + 1, pid);
    PidIndex(list, i);
  }

  lemma PidIndex(list: seq<Listed>, i: nat)
    requires Numbered(list) && i < |list|
    ensures IndexOf(list, list[i].job.pid) == i
  {
  }

  // ----- The daemon as a run of attempts and releases -----

  ghost function JobsAt(list: seq<Listed>, io: seq<seq<Claim>>): (jobs: seq<Job>)
    requires |io| == |list|
    ensures |jobs| == |list| && forall i :: 0 <= i < |list| ==> jobs[i] == list[i].job.(io := io[i])
  {
    seq(|list|, i requires 0 <= i < |list| => list[i].job.(io := io[i]))
  }

  ghost function SystemAt(list: seq<Listed>, rt: nat, pools: seq<seq<int>>, n: nat): R.System
    requires PoolsFit(pools, rt) && GoodList(list)
  {
    var w := WorldAt(list, rt, pools, n);
    R.System(w.pools, JobsAt(list, w.io), Live(list, rt, pools, n))
  }

  /** No attempt in the first n passes releases what somebody else owns. */
  ghost predicate HarmlessUntil(list: seq<Listed>, rt: nat, pools: seq<seq<int>>, n: nat)
    requires PoolsFit(pools, rt) && GoodList(list)
  {
    forall t: nat :: t < n ==>
      var w := WorldAt(list, rt, pools, t);
      A.HarmlessTurns(Candidates(list, rt, w), t, rt, w.pools, |w.waiting|)
  }

  lemma {:induction false} PassKeepsNames(jobs: seq<Job>, time: int, rt: nat, pools: seq<seq<int>>, n: nat)
    requires PoolsFit(pools, rt) && JobsFit(jobs) && n <= |jobs|
    ensures forall k :: 0 <= k < |jobs| ==>
              Pass(jobs, time, rt, pools, n).jobs[k] == jobs[k].(io := Pass(jobs, time, rt, pools, n).jobs[k].io)
  {
    if n > 0 {
      PassKeepsNames(jobs, time, rt, pools, n - 1);
    }
  }

  lemma QueueIsQueued(list: seq<Listed>, rt: nat, pools: seq<seq<int>>, n: nat)
    requires PoolsFit(pools, rt) && GoodList(list)
    ensures var w, s := WorldAt(list, rt, pools, n), SystemAt(list, rt, pools, n);
            A.Queued(s, w.waiting) && A.JobsOf(s, w.waiting) == Candidates(list, rt, w)
  {
    hide WorldAt, Finishes;
    var w := WorldAt(list, rt, pools, n);
    assert forall k :: 0 <= k < |w.waiting| ==> w.waiting[k] in w.waiting;
  }

  /** Where the pass has brought everybody, before anybody finishes. */
  lemma AfterThePass(list: seq<Listed>, rt: nat, pools: seq<seq<int>>, n: nat, r: R.System)
    requires PoolsFit(pools, rt) && GoodList(list)
    requires var w, s := WorldAt(list, rt, pools, n), SystemAt(list, rt, pools, n);
             A.Agree(PassAt(list, rt, w, n), s, r, w.waiting)
    ensures r.pools == PassAt(list, rt, WorldAt(list, rt, pools, n), n).pools
    ensures r.jobs == JobsAt(list, WorldAt(list, rt, pools, n + 1).io)
    ensures r.live == Live(list, rt, pools, n) + set i | i in EnteringAt(list, rt, pools, n)
  {
    hide Pass, Select, Finishes, Quantum, GiveBack;
    var w, s := WorldAt(list, rt, pools, n), SystemAt(list, rt, pools, n);
    var p := PassAt(list, rt, w, n);
    NextWorldIs(list, rt, w, n);
    PassKeepsNames(Candidates(list, rt, w), n, rt, w.pools, |w.waiting|);
    RecordedAt(w.io, w.waiting, p.jobs);
    forall i: nat | i < |list|
      ensures r.jobs[i] == list[i].job.(io := Recorded(w.io, w.waiting, p.jobs)[i])
    {
      if i in w.waiting {
        var k :| 0 <= k < |w.waiting| && w.waiting[k] == i;
        assert p.jobs[k] == Candidates(list, rt, w)[k].(io := p.jobs[k].io);
      }
    }
    forall i: nat
      ensures i in r.live <==> i in s.live || i in EnteringAt(list, rt, pools, n)
    {
      EntersOrWaits(list, rt, w, n, i);
      if i in w.waiting {
        var k :| 0 <= k < |w.waiting| && w.waiting[k] == i;
        EntersIfAdmitted(list, rt, w, n, k);
      }
    }
  }

  lemma EntersIfAdmitted(list: seq<Listed>, rt: nat, w: World, time: int, k: nat)
    requires Sane(list, rt, w) && k < |w.waiting|
    ensures w.waiting[k] in Entering(list, rt, w, time) <==> PassAt(list, rt, w, time).admitted[k]
  {
    hide Admitted;
    EntersExactly(list, rt, w, time, k);
    PassAdmits(Candidates(list, rt, w), time, rt, w.pools, |w.waiting|, k);
  }

  /** The release that ends a unit of time in which somebody has finished. */
  lemma AfterTheCycle(list: seq<Listed>, rt: nat, pools: seq<seq<int>>, n: nat, r: R.System) returns (run: seq<R.Event>)
    requires PoolsFit(pools, rt) && GoodList(list) && Numbered(list) && R.Inv(r, rt)
    requires r.pools == PassAt(list, rt, WorldAt(list, rt, pools, n), n).pools
    requires r.jobs == JobsAt(list, WorldAt(list, rt, pools, n + 1).io)
    requires r.live == Live(list, rt, pools, n) + set i | i in EnteringAt(list, rt, pools, n)
    ensures R.RunOk(r, rt, run) && R.Exec(r, rt, run) == SystemAt(list, rt, pools, n + 1)
  {
    hide Pass, Select, Finishes, Quantum, Live, Recorded, R.PoolInv, R.JobOk, R.DistinctPids, Release;
    var w, f := WorldAt(list, rt, pools, n), FinishedAt(list, rt, pools, n);
    NextWorldIs(list, rt, w, n);
    LiveNext(list, rt, pools, n);
    if f.None? {
      run := [];
    } else {
      var e := R.Terminate(IndexOf(list, f.value.pid));
      run := [e];
      R.ShapeAfter(r, rt, e);
      assert run[1..] == [];
      assert R.Apply(r, rt, e).pools == WorldAt(list, rt, pools, n + 1).pools;
    }
  }

  lemma StartIsInitial(list: seq<Listed>, rt: nat, pools: seq<seq<int>>)
    requires PoolsFit(pools, rt) && GoodList(list) && Numbered(list) && AllFree(pools)
    ensures R.Initial(SystemAt(list, rt, pools, 0), rt)
  {
    var s := SystemAt(list, rt, pools, 0);
    assert forall i :: 0 <= i < |list| ==> R.Pids(s.jobs)[i] == list[i].job.pid;
    forall i: nat | i < |list|
      ensures i in WorldAt(list, rt, pools, 0).waiting
    {
      assert WorldAt(list, rt, pools, 0).waiting[i] == i;
    }
    assert s.live == {};
  }

  /** One unit of time, from a state in which the books are in order. */
  lemma QuantumIsARun(list: seq<Listed>, rt: nat, pools: seq<seq<int>>, n: nat) returns (run: seq<R.Event>)
    requires PoolsFit(pools, rt) && GoodList(list) && Numbered(list) && R.Inv(SystemAt(list, rt, pools, n), rt)
    requires var w := WorldAt(list, rt, pools, n);
             A.HarmlessTurns(Candidates(list, rt, w), n, rt, w.pools, |w.waiting|)
    ensures R.Shape(SystemAt(list, rt, pools, n), rt) && R.RunOk(SystemAt(list, rt, pools, n), rt, run)
    ensures R.Exec(SystemAt(list, rt, pools, n), rt, run) == SystemAt(list, rt, pools, n + 1)
  {
    hide WorldAt, Live, PassAt, Pass, A.HarmlessTurns, A.Agree, A.Queued, A.JobsOf, R.Inv, R.RunOk, R.Exec, Candidates, JobsAt;
    var s, w := SystemAt(list, rt, pools, n), WorldAt(list, rt, pools, n);
    QueueIsQueued(list, rt, pools, n);
    var pass, r := A.PassIsARun(s, rt, n, w.waiting, |w.waiting|);
    PassAtIs(list, rt, w, n);
    AfterThePass(list, rt, pools, n, r);
    var release := AfterTheCycle(list, rt, pools, n, r);
    InvShape(s, rt);
    InvShape(r, rt);
    R.RunsJoin(s, rt, pass, release);
    run := pass + release;
  }

  /** Over any number of units of time: as long as no attempt does harm, the daemon's passes and
      releases are a run of harmless events from the start. */
  lemma {:induction false} DaemonIsARun(list: seq<Listed>, rt: nat, pools: seq<seq<int>>, n: nat) returns (run: seq<R.Event>)
    requires PoolsFit(pools, rt) && GoodList(list) && Numbered(list) && AllFree(pools) && HarmlessUntil(list, rt, pools, n)
    ensures var s := SystemAt(list, rt, pools, 0);
            R.Initial(s, rt) && R.RunOk(s, rt, run) && R.Exec(s, rt, run) == SystemAt(list, rt, pools, n)
  {
    hide SystemAt, WorldAt, A.HarmlessTurns, R.Initial, R.Inv, R.Shape, R.Proper, R.Apply, R.HarmlessAttempt;
    StartIsInitial(list, rt, pools);
    var s := SystemAt(list, rt, pools, 0);
    InitialShape(s, rt);
    if n == 0 {
      run := [];
    } else {
      run := DaemonIsARun(list, rt, pools, n - 1);
      R.InitialInv(s, rt);
      R.RunKeepsInv(s, rt, run);
      var more := QuantumIsARun(list, rt, pools, n - 1);
      R.RunsJoin(s, rt, run, more);
      run := run + more;
    }
  }

  lemma PassAtIs(list: seq<Listed>, rt: nat, w: World, time: int)
    requires Sane(list, rt, w)
    ensures PassAt(list, rt, w, time) == Pass(Candidates(list, rt, w), time, rt, w.pools, |w.waiting|)
  {
  }

  lemma InitialShape(s: R.System, rt: nat)
    requires R.Initial(s, rt)
    ensures R.Shape(s, rt)
  {
  }

  lemma InvShape(s: R.System, rt: nat)
    requires R.Inv(s, rt)
    ensures R.Shape(s, rt)
  {
  }

  /** So at every time each taken cell belongs to exactly one process that has entered and not finished,
      each of those has all it needs, and what is free and what is held is the total. */
  lemma DaemonConserves(list: seq<Listed>, rt: nat, pools: seq<seq<int>>, n: nat, k: nat)
    requires PoolsFit(pools, rt) && GoodList(list) && Numbered(list) && AllFree(pools) && HarmlessUntil(list, rt, pools, n)
    requires k < KINDS
    ensures var s := SystemAt(list, rt, pools, n); R.Shape(s, rt) && R.Conserved(s, rt, k)
  {
    hide SystemAt, R.Conserved, HarmlessUntil;
    var run := DaemonIsARun(list, rt, pools, n);
    R.EveryRunConserves(SystemAt(list, rt, pools, 0), rt, run, k);
  }

  // ----- Runs in which nobody is refused -----

  /** In each of the first n passes everybody who has arrived enters. */
  ghost predicate NobodyRefused(list: seq<Listed>, rt: nat, pools: seq<seq<int>>, n: nat)
    requires PoolsFit(pools, rt) && GoodList(list)
  {
    forall t: nat, i: nat :: t < n && i in WorldAt(list, rt, pools, t).waiting && list[i].job.arrivalTime <= t ==>
      i in EnteringAt(list, rt, pools, t)
  }

  lemma {:induction false} UntriedIsUntouched(jobs: seq<Job>, time: int, rt: nat, pools: seq<seq<int>>, n: nat)
    requires PoolsFit(pools, rt) && JobsFit(jobs) && n <= |jobs|
    ensures forall k :: 0 <= k < |jobs| && jobs[k].arrivalTime > time ==> Pass(jobs, time, rt, pools, n).jobs[k] == jobs[k]
  {
    if n > 0 {
      UntriedIsUntouched(jobs, time, rt, pools, n - 1);
    }
  }

  /** Whoever has not arrived yet has nothing on record. */
  lemma {:induction false} NothingOnRecordBeforeArrival(list: seq<Listed>, rt: nat, pools: seq<seq<int>>, n: nat, i: nat)
    requires PoolsFit(pools, rt) && GoodList(list) && i < |list| && (n == 0 || list[i].job.arrivalTime >= n)
    ensures i in WorldAt(list, rt, pools, n).waiting && WorldAt(list, rt, pools, n).io[i] == list[i].job.io
  {
    hide NextWorld, PassAt, EnteringAt, Recorded;
    WhoStillWaits(list, rt, pools, n, i);
    if n > 0 {
      NothingOnRecordBeforeArrival(list, rt, pools, n - 1, i);
      UntouchedOnce(list, rt, WorldAt(list, rt, pools, n - 1), n - 1, i);
    }
  }

  lemma UntouchedOnce(list: seq<Listed>, rt: nat, w: World, time: int, i: nat)
    requires Sane(list, rt, w) && i in w.waiting && list[i].job.arrivalTime > time
    ensures NextWorld(list, rt, w, time).io[i] == w.io[i]
  {
    hide Pass, Recorded, Quantum, GiveBack, Select;
    var jobs, p := Candidates(list, rt, w), PassAt(list, rt, w, time);
    NextWorldIs(list, rt, w, time);
    UntriedIsUntouched(jobs, time, rt, w.pools, |jobs|);
    RecordedAt(w.io, w.waiting, p.jobs);
    var k :| 0 <= k < |w.waiting| && w.waiting[k] == i;
    assert p.jobs[k] == jobs[k];
  }

  /** If nobody who has arrived is ever refused, nobody is tried twice, and no attempt does harm. */
  lemma NobodyRefusedIsHarmless(list: seq<Listed>, rt: nat, pools: seq<seq<int>>, n: nat)
    requires PoolsFit(pools, rt) && GoodList(list) && NobodyRefused(list, rt, pools, n)
    ensures HarmlessUntil(list, rt, pools, n)
  {
    hide WorldAt, EnteringAt, A.HarmlessTurns, Fresh;
    forall t: nat | t < n
      ensures var w := WorldAt(list, rt, pools, t);
              A.HarmlessTurns(Candidates(list, rt, w), t, rt, w.pools, |w.waiting|)
    {
      var w := WorldAt(list, rt, pools, t);
      var jobs := Candidates(list, rt, w);
      forall k | 0 <= k < |jobs| && jobs[k].arrivalTime <= t
        ensures Fresh(jobs[k])
      {
        var i := w.waiting[k];
        assert i in w.waiting;
        ArrivesJustNow(list, rt, pools, n, t, i);
        NothingOnRecordBeforeArrival(list, rt, pools, t, i);
        assert jobs[k] == list[i].job;
      }
      A.FreshTurnsAreHarmless(jobs, t, rt, w.pools);
    }
  }

  lemma ArrivesJustNow(list: seq<Listed>, rt: nat, pools: seq<seq<int>>, n: nat, t: nat, i: nat)
    requires PoolsFit(pools, rt) && GoodList(list) && NobodyRefused(list, rt, pools, n) && t < n && i < |list|
    requires i in WorldAt(list, rt, pools, t).waiting
    ensures t == 0 || list[i].job.arrivalTime >= t
  {
    hide WorldAt, EnteringAt;
    if t > 0 && list[i].job.arrivalTime < t {
      WaitsUntilItEnters(list, rt, pools, t, i);
      WaitsUntilItEnters(list, rt, pools, t - 1, i);
    }
  }

  /** Then the host's resources are conserved. */
  lemma ConservedUnlessRefused(list: seq<Listed>, rt: nat, pools: seq<seq<int>>, n: nat, k: nat)
    requires PoolsFit(pools, rt) && GoodList(list) && Numbered(list) && AllFree(pools) && NobodyRefused(list, rt, pools, n)
    requires k < KINDS
    ensures var s := SystemAt(list, rt, pools, n); R.Shape(s, rt) && R.Conserved(s, rt, k)
  {
    hide SystemAt, R.Conserved, HarmlessUntil, NobodyRefused;
    NobodyRefusedIsHarmless(list, rt, pools, n);
    DaemonConserves(list, rt, pools, n, k);
  }
}
