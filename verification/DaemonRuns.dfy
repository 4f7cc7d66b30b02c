/** Whole runs of the daemon: each unit of time an admission pass and a processor cycle. */
module DaemonRuns {
  import opened Wrappers
  import opened Counting
  import opened HostResources
  import opened ProcessQueue
  import opened Dispatcher
  import opened HostDaemon
  import opened Processor
  import opened DaemonCycle
  import opened DaemonSpec

  // ----- What a pass means for the processor -----

  ghost predicate Distinct(ps: seq<PCB>) {
    forall i, j :: 0 <= i < j < |ps| ==> ps[i] != ps[j]
  }

  /** The processes behind the first n are not among those selected from the first n. */
  lemma LaterIsNotSelected(ps: seq<PCB>, wanted: seq<bool>, n: nat)
    requires n < |ps| && |wanted| == n && Distinct(ps)
    ensures ps[n] !in Select(ps[..n], wanted)
  {
    if ps[n] in Select(ps[..n], wanted) {
      var i := SelectedIsWanted(ps[..n], wanted, ps[n]);
    }
  }

  /** The queues after a pass over processes that are in none of them. */
  lemma {:induction false} PassOnce(lines: seq<Option<Line<PCB>>>, ps: seq<PCB>, admitted: seq<bool>, jobs: seq<Job>)
    requires |lines| == 4 && |ps| == |admitted| <= |jobs|
    requires Once(lines) && Distinct(ps) && forall p :: p in ps ==> p !in Members(lines)
    ensures var after := LinesAfter(lines, ps, admitted, jobs);
            Once(after) && forall p :: p in Members(after) ==> p in Members(lines) || p in Select(ps, admitted)
  {
    hide Once, Members, Sent;
    if ps == [] {
      assert LinesAfter(lines, ps, admitted, jobs) == lines;
    } else {
      var n := |ps| - 1;
      PassOnce(lines, ps[..n], admitted[..n], jobs);
      PassNext(lines, ps, admitted, jobs);
      LaterIsNotSelected(ps, admitted[..n], n);
      SelectLast(ps, admitted);
      if admitted[n] {
        SentOnce(LinesAfter(lines, ps[..n], admitted[..n], jobs), jobs[n].priority, ps[n]);
      }
    }
  }

  lemma PassNext(lines: seq<Option<Line<PCB>>>, ps: seq<PCB>, admitted: seq<bool>, jobs: seq<Job>)
    requires |lines| == 4 && |ps| == |admitted| <= |jobs| && ps != []
    ensures var n := |ps| - 1;
            var before := LinesAfter(lines, ps[..n], admitted[..n], jobs);
            LinesAfter(lines, ps, admitted, jobs) == if admitted[n] then Sent(before, jobs[n].priority, ps[n]) else before
  {
    hide LinesAfter, Sent;
    var n := |ps| - 1;
    LinesNext(lines, ps[..n], admitted[..n], jobs, ps[n], admitted[n]);
    assert ps[..n] + [ps[n]] == ps && admitted[..n] + [admitted[n]] == admitted;
  }

  /** To the processor a pass is the arrival of the admitted, one after the other. */
  lemma {:induction false} PassTasks(lines: seq<Option<Line<PCB>>>, ps: seq<PCB>, admitted: seq<bool>, jobs: seq<Job>)
    requires |lines| == 4 && |ps| == |admitted| <= |jobs|
    requires forall i :: 0 <= i < |ps| ==> ps[i].priority == jobs[i].priority
    ensures TaskLines(LinesAfter(lines, ps, admitted, jobs)) == AdmitAll(TaskLines(lines), Tasks(Select(ps, admitted))).0
    ensures RealTimeAdmitted(admitted, jobs) <==> RealTimeAmong(Tasks(Select(ps, admitted)))
  {
    hide TaskLines, Tasks, Sent, Requeue, RealTimeAmong, RealTimeAdmitted, LinesAfter, Select, AdmitAll;
    if ps == [] {
      NothingArrives(lines, jobs);
    } else {
      var n := |ps| - 1;
      PassTasks(lines, ps[..n], admitted[..n], jobs);
      PassNext(lines, ps, admitted, jobs);
      SelectLast(ps, admitted);
      assert admitted[..n] + [admitted[n]] == admitted;
      RealTimeNext(admitted[..n], admitted[n], jobs);
      if admitted[n] {
        var chosen := Select(ps[..n], admitted[..n]);
        SentTasks(LinesAfter(lines, ps[..n], admitted[..n], jobs), ps[n]);
        TasksNext(chosen, ps[n]);
        RealTimeOneMore(Tasks(chosen), TaskOf(ps[n]));
        AdmitLast(TaskLines(lines), Tasks(chosen), TaskOf(ps[n]));
      }
    }
  }

  lemma NothingArrives(lines: seq<Option<Line<PCB>>>, jobs: seq<Job>)
    requires |lines| == 4
    ensures LinesAfter(lines, [], [], jobs) == lines && Tasks(Select([], [])) == []
    ensures AdmitAll(TaskLines(lines), []).0 == TaskLines(lines)
    ensures !RealTimeAdmitted([], jobs) && !RealTimeAmong([])
  {
  }

  lemma AdmitLast(lines: seq<Option<Line<Task>>>, ts: seq<Task>, t: Task)
    requires |lines| == 4
    ensures AdmitAll(lines, ts + [t]).0 == Requeue(AdmitAll(lines, ts).0, t).0
  {
    assert (ts + [t])[..|ts|] == ts;
  }

  lemma TasksNext(ps: seq<PCB>, p: PCB)
    ensures Tasks(ps + [p]) == Tasks(ps) + [TaskOf(p)]
    ensures Tasks(ps + [p])[..|ps|] == Tasks(ps)
  {
    assert (ps + [p])[..|ps|] == ps;
  }

  lemma RealTimeOneMore(ts: seq<Task>, t: Task)
    ensures RealTimeAmong(ts + [t]) <==> RealTimeAmong(ts) || t.priority == 0
  {
    if RealTimeAmong(ts) {
      var i :| 0 <= i < |ts| && ts[i].priority == 0;
      assert (ts + [t])[i].priority == 0;
    } else if t.priority == 0 {
      assert (ts + [t])[|ts|].priority == 0;
    }
  }

  // ----- One unit of time -----

  /** The dispatcher queue holds ps; the others, in the queues or on the processor, are among `all`. */
  ghost predicate Operating(d: Daemon, ps: seq<PCB>, all: set<PCB>)
    reads d.host, d.host.Repr(), d.ready, d.ready.queues, d.ready.owned, d.dispatcher, d.dispatcher.owned, all, ps
  {
    && InOrder(d, all) && Ahead(d.dispatcher.line, ps) && Distinct(ps)
    && forall p :: p in ps ==> p !in all && OnRecord(d.host.Pools(), p.io)
  }

  ghost function Values(ps: seq<PCB>): (jobs: seq<Job>)
    reads ps
    ensures |jobs| == |ps| && forall i :: 0 <= i < |ps| ==> jobs[i] == ps[i].Value()
  {
    if ps == [] then [] else Values(ps[..|ps| - 1]) + [ps[|ps| - 1].Value()]
  }

  /** What the pass at this time decides, and what it does to the arrays and the records. */
  ghost function Verdict(host: Host, ps: seq<PCB>, time: int): (p: Progress)
    requires PoolsFit(host.Pools(), host.rtMemSpaceMax) && JobsFit(Values(ps))
    reads host.Repr(), ps
    ensures |p.admitted| == |p.jobs| == |ps|
  {
    Pass(Values(ps), time, host.rtMemSpaceMax, host.Pools(), |ps|)
  }

  lemma OperatingIsAt(d: Daemon, ps: seq<PCB>, all: set<PCB>)
    requires Operating(d, ps, all)
    ensures PoolsFit(d.host.Pools(), d.host.rtMemSpaceMax) && JobsFit(Values(ps))
    ensures At(d.host, ps, Progress(d.host.Pools(), Values(ps), []))
  {
  }

  lemma WaitingApart(ps: seq<PCB>, admitted: seq<bool>)
    requires |ps| == |admitted| && Distinct(ps)
    ensures var waiting, chosen := Select(ps, Waiting(admitted)), Select(ps, admitted);
            && Distinct(waiting) && (forall p :: p in waiting ==> p in ps && p !in chosen)
            && forall p :: p in chosen ==> p in ps
  {
    var waiting, chosen := Select(ps, Waiting(admitted)), Select(ps, admitted);
    SelectIsStable(ps, Waiting(admitted));
    forall p | p in waiting
      ensures p in ps && p !in chosen
    {
      var i := SelectedIsWanted(ps, Waiting(admitted), p);
      if p in chosen {
        var j := SelectedIsWanted(ps, admitted, p);
      }
    }
    forall p | p in chosen
      ensures p in ps
    {
      var i := SelectedIsWanted(ps, admitted, p);
    }
  }

  lemma DecisionAt(host: Host, ps: seq<PCB>, p: Progress)
    requires At(host, ps, p)
    ensures host.Valid() && forall q :: q in ps ==> OnRecord(host.Pools(), q.io)
    ensures host.Pools() == p.pools && |ps| == |p.jobs|
    ensures forall i :: 0 <= i < |ps| ==> ps[i].priority == p.jobs[i].priority && ps[i].io == p.jobs[i].io
  {
  }

  /** Everybody is in one place after the pass too. */
  lemma OperatingAfter(d: Daemon, ps: seq<PCB>, all: set<PCB>, admitted: seq<bool>, lines: seq<Option<Line<PCB>>>)
    requires |ps| == |admitted| && Distinct(ps) && |lines| == 4
    requires Unshared(d.ready, d.dispatcher) && d.host.Valid() && Once(d.ready.lines)
    requires Members(lines) <= all && forall p :: p in Members(d.ready.lines) ==> p in Members(lines) || p in Select(ps, admitted)
    requires forall p :: p in all ==> OnRecord(d.host.Pools(), p.io)
    requires forall p :: p in ps ==> p !in all && OnRecord(d.host.Pools(), p.io)
    requires var p := d.host.currentProcess; p != null ==> p in all && p !in Members(lines)
    requires Ahead(d.dispatcher.line, Select(ps, Waiting(admitted)))
    ensures Operating(d, Select(ps, Waiting(admitted)), all + set p | p in Select(ps, admitted))
  {
    hide Unshared, Once, Select, Waiting, Ahead, OnRecord, Members, Host.Valid;
    WaitingApart(ps, admitted);
  }

  lemma AheadAfter(line: Option<Line<PCB>>, ps: seq<PCB>, admitted: seq<bool>)
    requires Ahead(line, ps) && |ps| == |admitted|
    ensures var w := Select(ps, Waiting(admitted)); Ahead(if line.None? then None else Some(Built(w)), w)
  {
  }

  lemma OperatingShape(d: Daemon, ps: seq<PCB>, all: set<PCB>)
    requires Operating(d, ps, all)
    ensures Unshared(d.ready, d.dispatcher) && Ahead(d.dispatcher.line, ps) && |d.ready.lines| == 4
    ensures Once(d.ready.lines) && Distinct(ps) && Members(d.ready.lines) <= all
    ensures (forall p :: p in all ==> OnRecord(d.host.Pools(), p.io)) && forall p :: p in ps ==> p !in all
    ensures var p := d.host.currentProcess; p != null ==> p in all && p !in Members(d.ready.lines)
  {
  }

  /** The pass, as the processor sees it: those admitted arrive in their queues. */
  method AdmitArrivals(d: Daemon, time: int, ghost ps: seq<PCB>, ghost all: set<PCB>)
    returns (rtQUpdated: bool, ghost p: Progress)
    requires Operating(d, ps, all)
    modifies d.host.Repr(), ps`io, d.dispatcher, d.ready, d.ready.queues, d.ready.owned
    ensures p == old(OperatingIsAt(d, ps, all); Verdict(d.host, ps, time)) && |p.admitted| == |p.jobs| == |ps|
    ensures d.host.Pools() == p.pools && forall k :: 0 <= k < |ps| ==> ps[k].io == p.jobs[k].io
    ensures Operating(d, Select(ps, Waiting(p.admitted)), all + set q | q in Select(ps, p.admitted))
    ensures TaskLines(d.ready.lines) == AdmitAll(old(TaskLines(d.ready.lines)), Tasks(Select(ps, p.admitted))).0
    ensures rtQUpdated <==> RealTimeAmong(Tasks(Select(ps, p.admitted)))
    ensures fresh(d.ready.owned - old(d.ready.owned)) && fresh(d.dispatcher.owned - old(d.dispatcher.owned))
  {
    hide At, LinesAfter, Pass, Select, Waiting, RealTimeAdmitted, TaskLines, Tasks, Once, Members, OnRecord;
    hide RealTimeAmong, Unshared, Operating, Ahead, Built, AdmitAll, Distinct, Host.Valid;
    OperatingIsAt(d, ps, all);
    OperatingShape(d, ps, all);
    ghost var jobs, lines, tasks := Values(ps), d.ready.lines, TaskLines(d.ready.lines);
    p := Pass(jobs, time, d.host.rtMemSpaceMax, d.host.Pools(), |ps|);
    PassOnce(lines, ps, p.admitted, jobs);
    AheadAfter(d.dispatcher.line, ps, p.admitted);
    rtQUpdated := d.UpdateDispatcher(time, ps, jobs);
    DecisionAt(d.host, ps, p);
    assert TaskLines(lines) == tasks;
    PassTasks(lines, ps, p.admitted, jobs);
    StillOnRecord(old(d.host.Pools()), d.host.Pools(), all);
    OperatingAfter(d, ps, all, p.admitted, lines);
  }

  lemma {:induction false} SelectTasks(ps: seq<PCB>, wanted: seq<bool>)
    requires |ps| == |wanted|
    ensures Tasks(Select(ps, wanted)) == Select(Tasks(ps), wanted)
  {
    if ps != [] {
      var n := |ps| - 1;
      SelectTasks(ps[..n], wanted[..n]);
      TasksNext(ps[..n], ps[n]);
      assert ps[..n] + [ps[n]] == ps;
      SelectLast(ps, wanted);
      SelectLast(Tasks(ps), wanted);
      if wanted[n] {
        TasksNext(Select(ps[..n], wanted[..n]), ps[n]);
      }
    }
  }

  lemma ReturnedFits(before: seq<seq<int>>, after: seq<seq<int>>, finished: PCB?)
    requires |before| == |after| == KINDS && (finished != null ==> |finished.io| == KINDS)
    requires Returned(before, after, finished)
    ensures forall k :: 0 <= k < KINDS ==> |before[k]| == |after[k]|
  {
  }

  /** The cycle does not touch the processes that wait in the dispatcher queue. */
  method CycleOnce(d: Daemon, rtUpdated: bool, ghost ps: seq<PCB>, ghost all: set<PCB>) returns (finished: PCB?)
    requires Operating(d, ps, all) && (rtUpdated ==> HasHead(TaskLines(d.ready.lines)[0]))
    modifies d.host`currentProcess, d.host.Repr(), d.ready, d.ready.queues, d.ready.owned
    modifies all`priority, all`remainingTime, all`timeSpliceLeft
    ensures Operating(d, ps, all) && fresh(d.ready.owned - old(d.ready.owned)) && Tasks(ps) == old(Tasks(ps))
    ensures d.dispatcher.owned == old(d.dispatcher.owned)
    ensures finished != null ==> finished in all && |finished.io| == KINDS
    ensures Returned(old(d.host.Pools()), d.host.Pools(), finished)
    ensures var r := Cycle(old(View(d)), rtUpdated); View(d) == r.cpu && Running(finished) == r.finished
  {
    hide TaskLines, Tasks, Once, Members, OnRecord, Unshared, InOrder, View, Cycle, Returned, Running;
    UnsharedShape(d.ready, d.dispatcher) by {
      OperatingShape(d, ps, all);
    }
    ghost var pools, waiting := d.host.Pools(), set p | p in ps;
    finished := DoProcessing(d, rtUpdated, all);
    ReturnedFits(pools, d.host.Pools(), finished);
    StillOnRecord(pools, d.host.Pools(), waiting);
    assert Tasks(ps) == old(Tasks(ps)) by {
      assert unchanged(ps);
    }
  }

  /** A unit of time, in terms of the state after the arrivals. */
  lemma QuantumByCycle(cpu: Cpu, ready: Cpu, ts: seq<Task>)
    requires |cpu.lines| == 4 && ready == Cpu(cpu.current, AdmitAll(cpu.lines, ts).0)
    ensures var r, c := Quantum(cpu, ts), Cycle(ready, RealTimeAmong(ts)); r.cpu == c.cpu && r.finished == c.finished
  {
    hide Cycle, AdmitAll, RealTimeAmong;
  }

  /** The same in terms of tasks, with what the cycle needs to know. */
  method Arrive(d: Daemon, time: int, ghost ps: seq<PCB>, ghost all: set<PCB>)
    returns (rtQUpdated: bool, ghost p: Progress, ghost waiting: seq<PCB>, ghost known: set<PCB>)
    requires Operating(d, ps, all)
    modifies d.host.Repr(), ps`io, d.dispatcher, d.ready, d.ready.queues, d.ready.owned
    ensures p == old(OperatingIsAt(d, ps, all); Verdict(d.host, ps, time)) && |p.admitted| == |p.jobs| == |ps|
    ensures d.host.Pools() == p.pools && forall k :: 0 <= k < |ps| ==> ps[k].io == p.jobs[k].io
    ensures waiting == Select(ps, Waiting(p.admitted)) && known == (all + set q | q in Select(ps, p.admitted))
    ensures Operating(d, waiting, known) && |d.ready.lines| == 4
    ensures (forall q :: q in known ==> q in all || q in ps) && forall q :: q in waiting ==> q in ps
    ensures Tasks(waiting) == Select(old(Tasks(ps)), Waiting(p.admitted))
    ensures var arrived := Select(old(Tasks(ps)), p.admitted);
            && View(d) == Cpu(old(View(d)).current, AdmitAll(old(View(d)).lines, arrived).0)
            && (rtQUpdated <==> RealTimeAmong(arrived)) && (rtQUpdated ==> HasHead(TaskLines(d.ready.lines)[0]))
    ensures fresh(d.ready.owned - old(d.ready.owned)) && fresh(d.dispatcher.owned - old(d.dispatcher.owned))
  {
    hide TaskLines, Tasks, Once, Members, OnRecord, Unshared, InOrder, Operating, Select, Waiting;
    hide RealTimeAmong, AdmitAll, Verdict, Distinct;
    OperatingShape(d, ps, all);
    ghost var lines := TaskLines(d.ready.lines);
    rtQUpdated, p := AdmitArrivals(d, time, ps, all);
    waiting, known := Select(ps, Waiting(p.admitted)), all + set q | q in Select(ps, p.admitted);
    WaitingApart(ps, p.admitted);
    SelectTasks(ps, p.admitted);
    SelectTasks(ps, Waiting(p.admitted));
    OperatingShape(d, waiting, known);
    if rtQUpdated {
      RealTimeWaits(lines, Tasks(Select(ps, p.admitted)));
    }
  }

  /** One unit of time on the heap is one unit of time of the processor's specification: those admitted
      arrive, then somebody may run; who waits in the dispatcher queue is as before. */
  method OneQuantum(d: Daemon, time: int, ghost ps: seq<PCB>, ghost all: set<PCB>)
    returns (finished: PCB?, ghost p: Progress, ghost known: set<PCB>)
    requires Operating(d, ps, all)
    modifies d.host`currentProcess, d.host.Repr(), d.dispatcher, d.ready, d.ready.queues, d.ready.owned
    modifies ps`io, ps`priority, ps`remainingTime, ps`timeSpliceLeft, all`priority, all`remainingTime, all`timeSpliceLeft
    ensures p == old(OperatingIsAt(d, ps, all); Verdict(d.host, ps, time)) && |p.admitted| == |p.jobs| == |ps|
    ensures known == all + set q | q in Select(ps, p.admitted)
    ensures forall k :: 0 <= k < |ps| ==> ps[k].io == p.jobs[k].io
    ensures finished != null ==> finished in known && |finished.io| == KINDS
    ensures Returned(p.pools, d.host.Pools(), finished)
    ensures var waiting := Select(ps, Waiting(p.admitted));
            Operating(d, waiting, known) && Tasks(waiting) == Select(old(Tasks(ps)), Waiting(p.admitted))
    ensures var r := Quantum(old(View(d)), Select(old(Tasks(ps)), p.admitted));
            View(d) == r.cpu && Running(finished) == r.finished
    ensures fresh(d.ready.owned - old(d.ready.owned)) && fresh(d.dispatcher.owned - old(d.dispatcher.owned))
  {
    hide *;
    OperatingShape(d, ps, all);
    ghost var before, tasks := View(d), Tasks(ps);
    var rtQUpdated;
    ghost var waiting;
    rtQUpdated, p, waiting, known := Arrive(d, time, ps, all);
    QuantumByCycle(before, View(d), Select(tasks, p.admitted));
    finished := CycleOnce(d, rtQUpdated, waiting, known);
  }

  // ----- The heap and the world -----

  /** The list of processes as it is now. */
  ghost function ListOf(processes: seq<PCB>): (list: seq<Listed>)
    reads processes
    ensures |list| == |processes| && forall i :: 0 <= i < |list| ==> list[i] == Listed(processes[i].Value(), TaskOf(processes[i]))
  {
    if processes == [] then []
    else
      var n := |processes| - 1;
      ListOf(processes[..n]) + [Listed(processes[n].Value(), TaskOf(processes[n]))]
  }

  ghost function Named(processes: seq<PCB>, order: seq<nat>): (ps: seq<PCB>)
    requires Ordered(order, |processes|)
    ensures |ps| == |order| && forall k :: 0 <= k < |order| ==> ps[k] == processes[order[k]]
  {
    seq(|order|, k requires 0 <= k < |order| => processes[order[k]])
  }

  /** Every process has its own pid. */
  ghost predicate DistinctPids(processes: seq<PCB>) {
    forall i, j :: 0 <= i < j < |processes| ==> processes[i].pid != processes[j].pid
  }

  /** `list` is what the processes were when the list was read. */
  ghost predicate Registered(processes: seq<PCB>, list: seq<Listed>) {
    && |list| == |processes| && DistinctPids(processes)
    && forall i :: 0 <= i < |list| ==>
         processes[i].pid == list[i].job.pid == list[i].task.pid && list[i].task.priority == list[i].job.priority
  }

  /** Each process has on record what the world says, and those who wait are as they were in the list. */
  ghost predicate Records(processes: seq<PCB>, list: seq<Listed>, w: World)
    requires |processes| == |list| == |w.io| && Ordered(w.waiting, |list|)
    reads processes
  {
    && (forall i :: 0 <= i < |processes| ==> processes[i].io == w.io[i] && processes[i].arrivalTime == list[i].job.arrivalTime)
    && forall k :: 0 <= k < |w.waiting| ==> TaskOf(processes[w.waiting[k]]) == list[w.waiting[k]].task
  }

  /** The heap is in this state of the world. */
  ghost predicate Reached(d: Daemon, processes: seq<PCB>, list: seq<Listed>, w: World, all: set<PCB>)
    reads d.host, d.host.Repr(), d.ready, d.ready.queues, d.ready.owned, d.dispatcher, d.dispatcher.owned, all, processes
  {
    && Sane(list, d.host.rtMemSpaceMax, w) && Registered(processes, list) && Records(processes, list, w)
    && Operating(d, Named(processes, w.waiting), all) && (forall p :: p in all ==> p in processes)
    && |d.ready.lines| == 4 && View(d) == w.cpu && d.host.Pools() == w.pools
  }

  lemma CandidatesWait(processes: seq<PCB>, list: seq<Listed>, rt: nat, w: World)
    requires Sane(list, rt, w) && Registered(processes, list) && Records(processes, list, w)
    ensures Values(Named(processes, w.waiting)) == Candidates(list, rt, w)
    ensures Tasks(Named(processes, w.waiting)) == TasksAt(list, w.waiting)
  {
    forall k | 0 <= k < |w.waiting|
      ensures processes[w.waiting[k]].Value() == Candidates(list, rt, w)[k]
    {
      assert TaskOf(processes[w.waiting[k]]) == list[w.waiting[k]].task;
    }
  }

  lemma {:induction false} NamedSelected(processes: seq<PCB>, order: seq<nat>, wanted: seq<bool>)
    requires |order| == |wanted| && Ordered(order, |processes|)
    ensures Named(processes, Picked(order, wanted, |processes|)) == Select(Named(processes, order), wanted)
  {
    if order != [] {
      var n := |order| - 1;
      NamedSelected(processes, order[..n], wanted[..n]);
      assert Named(processes, order)[..n] == Named(processes, order[..n]);
      SelectLast(order, wanted);
      SelectLast(Named(processes, order), wanted);
    }
  }

  lemma RecordsAfter(processes: seq<PCB>, waiting: seq<nat>, io: seq<seq<Claim>>, jobs: seq<Job>)
    requires |processes| == |io| && |waiting| == |jobs| && Ordered(waiting, |io|)
    requires forall k :: 0 <= k < |waiting| ==> processes[waiting[k]].io == jobs[k].io
    requires forall i: nat :: i < |io| && i !in waiting ==> processes[i].io == io[i]
    ensures forall i :: 0 <= i < |io| ==> processes[i].io == Recorded(io, waiting, jobs)[i]
  {
    RecordedAt(io, waiting, jobs);
    forall i: nat | i < |io|
      ensures processes[i].io == Recorded(io, waiting, jobs)[i]
    {
      if i in waiting {
        var k :| 0 <= k < |waiting| && waiting[k] == i;
      }
    }
  }

  lemma ReturnedIsGivenBack(processes: seq<PCB>, list: seq<Listed>, io: seq<seq<Claim>>,
                            before: seq<seq<int>>, after: seq<seq<int>>, finished: PCB?)
    requires Registered(processes, list) && |io| == |list| && |before| == |after| == KINDS
    requires forall i :: 0 <= i < |io| ==> |io[i]| == KINDS && processes[i].io == io[i]
    requires finished != null ==> finished in processes
    requires finished != null ==> |finished.io| == KINDS
    requires Returned(before, after, finished)
    ensures after == GiveBack(list, before, io, Running(finished))
  {
    if finished != null {
      var i :| 0 <= i < |processes| && processes[i] == finished;
      var j := IndexOf(list, finished.pid);
      assert list[i].job.pid == finished.pid;
      assert j <= i;
      assert processes[j].pid == processes[i].pid;
      assert j == i;
    }
  }

  /** Nobody else's records are touched. */
  lemma OthersAreApart(processes: seq<PCB>, order: seq<nat>, i: nat)
    requires DistinctPids(processes) && Ordered(order, |processes|) && i < |processes| && i !in order
    ensures processes[i] !in Named(processes, order)
  {
    assert forall k :: 0 <= k < |order| ==> order[k] in order;
  }

  /** The records of those who go on waiting. */
  lemma WaitersAsListed(processes: seq<PCB>, list: seq<Listed>, waiting: seq<nat>, wanted: seq<bool>)
    requires |processes| == |list| && |waiting| == |wanted| && Ordered(waiting, |list|)
    requires Tasks(Select(Named(processes, waiting), wanted)) == Select(TasksAt(list, waiting), wanted)
    ensures var rest := Picked(waiting, wanted, |list|);
            forall k :: 0 <= k < |rest| ==> TaskOf(processes[rest[k]]) == list[rest[k]].task
  {
    hide Select, Tasks;
    var rest := Picked(waiting, wanted, |list|);
    NamedSelected(processes, waiting, wanted);
    TasksOfSelected(list, waiting, wanted);
    forall k | 0 <= k < |rest|
      ensures TaskOf(processes[rest[k]]) == list[rest[k]].task
    {
      assert Tasks(Named(processes, rest))[k] == TasksAt(list, rest)[k];
    }
  }

  /** What one unit of time on the heap has done, put together. */
  lemma ReachedNext(d: Daemon, processes: seq<PCB>, list: seq<Listed>, w: World, time: nat, ps: seq<PCB>,
                    finished: PCB?, all: set<PCB>)
    requires Sane(list, d.host.rtMemSpaceMax, w) && Registered(processes, list) && ps == Named(processes, w.waiting)
    requires var p := PassAt(list, d.host.rtMemSpaceMax, w, time);
             && (forall k :: 0 <= k < |ps| ==> ps[k].io == p.jobs[k].io)
             && (finished != null ==> finished in processes && |finished.io| == KINDS)
             && Returned(p.pools, d.host.Pools(), finished)
             && Operating(d, Select(ps, Waiting(p.admitted)), all)
             && Tasks(Select(ps, Waiting(p.admitted))) == Select(TasksAt(list, w.waiting), Waiting(p.admitted))
    requires forall i: nat :: i < |processes| && i !in w.waiting ==> processes[i].io == w.io[i]
    requires forall i :: 0 <= i < |processes| ==> processes[i].arrivalTime == list[i].job.arrivalTime
    requires |d.ready.lines| == 4 && forall q :: q in all ==> q in processes
    requires var p := PassAt(list, d.host.rtMemSpaceMax, w, time);
             var r := Quantum(w.cpu, Select(TasksAt(list, w.waiting), p.admitted));
             View(d) == r.cpu && Running(finished) == r.finished
    ensures Reached(d, processes, list, NextWorld(list, d.host.rtMemSpaceMax, w, time), all)
  {
    hide Operating, Tasks, Quantum, Select, Waiting, View, Running, Returned, PassAt, GiveBack, TasksAt, NextWorld, Entering;
    hide Recorded, TaskOf, Reached, Sane, Registered;
    var rt := d.host.rtMemSpaceMax;
    var p, next := PassAt(list, rt, w, time), NextWorld(list, rt, w, time);
    NextWorldIs(list, rt, w, time);
    RegisteredShape(processes, list);
    NamedSelected(processes, w.waiting, Waiting(p.admitted));
    TasksOfSelected(list, w.waiting, p.admitted);
    WaitersAsListed(processes, list, w.waiting, Waiting(p.admitted));
    RecordsAfter(processes, w.waiting, w.io, p.jobs);
    ReturnedIsGivenBack(processes, list, next.io, p.pools, d.host.Pools(), finished);
    assert Records(processes, list, next);
    MakeReached(d, processes, list, next, all);
  }

  lemma RegisteredShape(processes: seq<PCB>, list: seq<Listed>)
    requires Registered(processes, list)
    ensures |processes| == |list| && DistinctPids(processes)
  {
  }

  lemma MakeReached(d: Daemon, processes: seq<PCB>, list: seq<Listed>, w: World, all: set<PCB>)
    requires Sane(list, d.host.rtMemSpaceMax, w) && Registered(processes, list) && Records(processes, list, w)
    requires Operating(d, Named(processes, w.waiting), all) && forall p :: p in all ==> p in processes
    requires |d.ready.lines| == 4 && View(d) == w.cpu && d.host.Pools() == w.pools
    ensures Reached(d, processes, list, w, all)
  {
  }

  lemma ReachedShape(d: Daemon, processes: seq<PCB>, list: seq<Listed>, w: World, all: set<PCB>)
    requires Reached(d, processes, list, w, all)
    ensures Sane(list, d.host.rtMemSpaceMax, w) && Registered(processes, list) && Records(processes, list, w)
    ensures |w.io| == |list| == |processes| && Ordered(w.waiting, |list|)
    ensures Operating(d, Named(processes, w.waiting), all) && (forall p :: p in all ==> p in processes)
    ensures |d.ready.lines| == 4 && View(d) == w.cpu && d.host.Pools() == w.pools
  {
  }

  /** The pass over the queue is the pass of the world. */
  lemma VerdictIsPassAt(d: Daemon, processes: seq<PCB>, list: seq<Listed>, w: World, time: int)
    requires Sane(list, d.host.rtMemSpaceMax, w) && Registered(processes, list) && Records(processes, list, w)
    requires d.host.Pools() == w.pools
    ensures var ps := Named(processes, w.waiting);
            && PoolsFit(d.host.Pools(), d.host.rtMemSpaceMax) && JobsFit(Values(ps))
            && Verdict(d.host, ps, time) == PassAt(list, d.host.rtMemSpaceMax, w, time)
            && Tasks(ps) == TasksAt(list, w.waiting)
  {
    hide Pass, Tasks, TasksAt;
    CandidatesWait(processes, list, d.host.rtMemSpaceMax, w);
  }

  lemma WaitersAreListed(processes: seq<PCB>, list: seq<Listed>, w: World)
    requires Registered(processes, list) && |w.io| == |list| && Ordered(w.waiting, |list|) && Records(processes, list, w)
    ensures forall k :: 0 <= k < |w.waiting| ==> Named(processes, w.waiting)[k] in processes
    ensures forall i: nat :: i < |processes| && i !in w.waiting ==>
              processes[i] !in Named(processes, w.waiting) && processes[i].io == w.io[i]
    ensures forall i :: 0 <= i < |processes| ==> processes[i].arrivalTime == list[i].job.arrivalTime
  {
    forall i: nat | i < |processes| && i !in w.waiting
      ensures processes[i] !in Named(processes, w.waiting)
    {
      OthersAreApart(processes, w.waiting, i);
    }
  }

  /** One more unit of time brings the heap to the next state of the world. */
  method NextQuantum(d: Daemon, time: nat, ghost processes: seq<PCB>, ghost list: seq<Listed>,
                     ghost w: World, ghost all: set<PCB>)
    returns (ghost all': set<PCB>)
    requires Reached(d, processes, list, w, all)
    modifies d.host`currentProcess, d.host.Repr(), d.dispatcher, d.ready, d.ready.queues, d.ready.owned
    modifies processes`io, processes`priority, processes`remainingTime, processes`timeSpliceLeft
    ensures Reached(d, processes, list, NextWorld(list, d.host.rtMemSpaceMax, w, time), all')
    ensures fresh(d.ready.owned - old(d.ready.owned)) && fresh(d.dispatcher.owned - old(d.dispatcher.owned))
  {
    hide *;
    ReachedShape(d, processes, list, w, all);
    ghost var ps := Named(processes, w.waiting);
    VerdictIsPassAt(d, processes, list, w, time);
    OperatingShape(d, ps, all);
    WaitersAreListed(processes, list, w);
    var finished;
    ghost var p;
    finished, p, all' := OneQuantum(d, time, ps, all);
    WaitingApart(ps, p.admitted);
    OperatingShape(d, Select(ps, Waiting(p.admitted)), all');
    ReachedNext(d, processes, list, w, time, ps, finished, all');
  }

  // ----- The program -----

  /** The processes of the list go to the dispatcher queue, one after the other. */
  method ReadFile(d: Daemon, processes: seq<PCB>)
    requires Unshared(d.ready, d.dispatcher) && d.dispatcher.line == Some(Line(false, []))
    modifies d.dispatcher, d.dispatcher.owned
    ensures Unshared(d.ready, d.dispatcher) && d.dispatcher.line == Some(Built(processes))
    ensures fresh(d.dispatcher.owned - old(d.dispatcher.owned))
  {
    hide PriorityQueues.Valid, Represents;
    for i := 0 to |processes|
      invariant Unshared(d.ready, d.dispatcher) && d.dispatcher.line == Some(Built(processes[..i])) && d.dispatcher.queue != null
      invariant fresh(d.dispatcher.owned - old(d.dispatcher.owned))
    {
      BuiltNext(processes[..i], processes[i]);
      NextPrefix(processes, i);
      d.dispatcher.Enqueue(processes[i]);
    }
    assert processes[..|processes|] == processes;
  }

  /** The state after start-up and reading the list. */
  lemma StartIsReached(d: Daemon, processes: seq<PCB>, list: seq<Listed>, pools: seq<seq<int>>)
    requires Unshared(d.ready, d.dispatcher) && d.host.Valid() && d.host.currentProcess == null && d.host.Pools() == pools
    requires d.dispatcher.line == Some(Built(processes)) && forall q :: 0 <= q < 4 ==> d.ready.lines[q] == Some(Line(false, []))
    requires DistinctPids(processes) && list == ListOf(processes) && GoodList(list)
    ensures PoolsFit(pools, d.host.rtMemSpaceMax)
    ensures Reached(d, processes, list, FirstWorld(list, d.host.rtMemSpaceMax, pools), {})
  {
    hide Unshared, Operating, Reached, View, StartUp, Fresh, Members;
    ReadyShape(d);
    var w := FirstWorld(list, d.host.rtMemSpaceMax, pools);
    assert Named(processes, w.waiting) == processes;
    StartIsOperating(d, processes);
    MakeReached(d, processes, list, w, {});
  }

  lemma StartIsOperating(d: Daemon, processes: seq<PCB>)
    requires Unshared(d.ready, d.dispatcher) && d.host.Valid() && d.host.currentProcess == null
    requires d.dispatcher.line == Some(Built(processes)) && forall q :: 0 <= q < 4 ==> d.ready.lines[q] == Some(Line(false, []))
    requires DistinctPids(processes) && forall p :: p in processes ==> Fresh(p.Value())
    ensures Operating(d, processes, {}) && View(d) == StartUp()
  {
    assert Members(d.ready.lines) == {};
  }

  /** The main loop: at every time the heap is in that state of the world. */
  method RunDaemon(d: Daemon, runtime: nat, ghost processes: seq<PCB>, ghost list: seq<Listed>, ghost pools: seq<seq<int>>)
    returns (ghost all: set<PCB>)
    requires PoolsFit(pools, d.host.rtMemSpaceMax) && GoodList(list)
    requires Reached(d, processes, list, FirstWorld(list, d.host.rtMemSpaceMax, pools), {})
    modifies d.host`currentProcess, d.host.Repr(), d.dispatcher, d.ready, d.ready.queues, d.ready.owned
    modifies processes`io, processes`priority, processes`remainingTime, processes`timeSpliceLeft
    ensures Reached(d, processes, list, WorldAt(list, d.host.rtMemSpaceMax, pools, runtime), all)
  {
    hide Reached, NextWorld, FirstWorld;
    all := {};
    for time := 0 to runtime
      invariant Reached(d, processes, list, WorldAt(list, d.host.rtMemSpaceMax, pools, time), all)
      invariant fresh(d.ready.owned - old(d.ready.owned)) && fresh(d.dispatcher.owned - old(d.dispatcher.owned))
    {
      all := NextQuantum(d, time, processes, list, WorldAt(list, d.host.rtMemSpaceMax, pools, time), all);
    }
  }

  /** Start up, read the list of processes, and run for so many units of time: the processor and its
      queues, the host's arrays, the dispatcher queue and everybody's records are as the world is then. */
  method HostD(processes: seq<PCB>, runtime: nat, printers: nat, scanners: nat, modems: nat, disks: nat, memory: nat, rt: nat)
    returns (d: Daemon)
    requires rt <= memory && DistinctPids(processes) && forall p :: p in processes ==> Fresh(p.Value())
    modifies processes`io, processes`priority, processes`remainingTime, processes`timeSpliceLeft
    ensures var w := WorldAt(old(ListOf(processes)), rt, FreePools(printers, scanners, modems, disks, memory), runtime);
            && |d.ready.lines| == 4 && View(d) == w.cpu && d.host.Pools() == w.pools
            && Ahead(d.dispatcher.line, Named(processes, w.waiting))
            && forall i :: 0 <= i < |processes| ==> processes[i].io == w.io[i]
  {
    hide Unshared, Reached, WorldAt, Fresh, View, Members, PriorityQueues.Valid;
    ghost var list, pools := ListOf(processes), FreePools(printers, scanners, modems, disks, memory);
    ListIsGood(processes);
    d := InitSystem(printers, scanners, modems, disks, memory, rt);
    ReadFile(d, processes);
    StartIsReached(d, processes, list, pools);
    ghost var all := RunDaemon(d, runtime, processes, list, pools);
    ghost var w := WorldAt(list, rt, pools, runtime);
    ReachedShape(d, processes, list, w, all);
    OperatingShape(d, Named(processes, w.waiting), all);
  }

  lemma ListIsGood(processes: seq<PCB>)
    requires forall p :: p in processes ==> Fresh(p.Value())
    ensures GoodList(ListOf(processes))
  {
  }
}
