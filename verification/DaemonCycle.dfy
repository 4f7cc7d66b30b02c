/** The processor cycle on the linked queues, the PCBs and the host's arrays, and whole runs of the daemon. */
module DaemonCycle {
  import opened Wrappers
  import opened HostResources
  import opened ProcessQueue
  import opened Dispatcher
  import opened HostDaemon
  import opened Processor

  // ----- What the heap stands for -----

  function TaskOf(p: PCB): Task
    reads p`priority, p`remainingTime, p`timeSpliceLeft
  {
    Task(p.pid, p.priority, p.remainingTime, p.timeSpliceLeft)
  }

  ghost function Tasks(ps: seq<PCB>): (r: seq<Task>)
    reads ps`priority, ps`remainingTime, ps`timeSpliceLeft
    ensures |r| == |ps| && forall i :: 0 <= i < |ps| ==> r[i] == TaskOf(ps[i])
  {
    if ps == [] then [] else Tasks(ps[..|ps| - 1]) + [TaskOf(ps[|ps| - 1])]
  }

  ghost function ItemsOf(line: Option<Line<PCB>>): seq<PCB> {
    if line.None? then [] else line.value.items
  }

  ghost function TaskLine(line: Option<Line<PCB>>): Option<Line<Task>>
    reads ItemsOf(line)`priority, ItemsOf(line)`remainingTime, ItemsOf(line)`timeSpliceLeft
  {
    if line.None? then None else Some(Line(line.value.marked, Tasks(line.value.items)))
  }

  /** Everybody who waits in one of the four queues. */
  ghost function Members(lines: seq<Option<Line<PCB>>>): set<PCB>
    requires |lines| == 4
  {
    set q, i | 0 <= q < 4 && 0 <= i < |ItemsOf(lines[q])| :: ItemsOf(lines[q])[i]
  }

  ghost predicate Waits(lines: seq<Option<Line<PCB>>>, q: int, i: int)
    requires |lines| == 4
  {
    0 <= q < 4 && 0 <= i < |ItemsOf(lines[q])|
  }

  /** Nobody waits twice. */
  ghost predicate Once(lines: seq<Option<Line<PCB>>>)
    requires |lines| == 4
  {
    forall q, i, r, j :: Waits(lines, q, i) && Waits(lines, r, j) && (q != r || i != j) ==>
      ItemsOf(lines[q])[i] != ItemsOf(lines[r])[j]
  }

  ghost function TaskLines(lines: seq<Option<Line<PCB>>>): (r: seq<Option<Line<Task>>>)
    requires |lines| == 4
    reads Members(lines)`priority, Members(lines)`remainingTime, Members(lines)`timeSpliceLeft
    ensures |r| == 4 && forall q :: 0 <= q < 4 ==> r[q] == TaskLine(lines[q])
  {
    [TaskLine(lines[0]), TaskLine(lines[1]), TaskLine(lines[2]), TaskLine(lines[3])]
  }

  lemma EnqueueTasks(line: Option<Line<PCB>>, p: PCB)
    ensures TaskLine(EnqueueTo(line, p)) == EnqueueTo(TaskLine(line), TaskOf(p))
  {
    var after, tasks := EnqueueTo(line, p), EnqueueTo(TaskLine(line), TaskOf(p));
    assert Tasks(after.value.items) == tasks.value.items;
  }

  lemma DequeueTasks(line: Line<PCB>)
    requires line.items != []
    ensures TaskLine(Dequeue(line).0) == Dequeue(TaskLine(Some(line)).value).0
  {
    assert Tasks(line.items[1..]) == Tasks(line.items)[1..];
  }

  lemma SentTasks(lines: seq<Option<Line<PCB>>>, p: PCB)
    requires |lines| == 4
    ensures TaskLines(Sent(lines, p.priority, p)) == Requeue(TaskLines(lines), TaskOf(p)).0
  {
    EnqueueTasks(lines[Level(p.priority)], p);
  }

  lemma LeftTasks(lines: seq<Option<Line<PCB>>>, q: nat)
    requires |lines| == 4 && q < 4 && ItemsOf(lines[q]) != []
    ensures var line := TaskLines(lines)[q];
            && line.Some? && line.value.items != [] && line.value.items[0] == TaskOf(lines[q].value.items[0])
            && TaskLines(lines[q := Dequeue(lines[q].value).0]) == TaskLines(lines)[q := Dequeue(line.value).0]
    ensures lines[q].Some? && lines[q].value.items != []
  {
    DequeueTasks(lines[q].value);
  }

  lemma SentOnce(lines: seq<Option<Line<PCB>>>, priority: int, p: PCB)
    requires |lines| == 4 && Once(lines) && p !in Members(lines)
    ensures Once(Sent(lines, priority, p)) && Members(Sent(lines, priority, p)) <= Members(lines) + {p}
  {
    var after, q := Sent(lines, priority, p), Level(priority);
    var k := if lines[q].Some? && lines[q].value.marked then |lines[q].value.items| else 0;
    forall r, i | Waits(after, r, i)
      ensures ItemsOf(after[r])[i] == p ==> r == q && i == k
      ensures ItemsOf(after[r])[i] != p ==> Waits(lines, r, i) && ItemsOf(after[r])[i] == ItemsOf(lines[r])[i]
    {
      if Waits(lines, r, i) {
        assert ItemsOf(lines[r])[i] in Members(lines);
      }
    }
  }

  lemma DequeuedOnce(lines: seq<Option<Line<PCB>>>, q: nat)
    requires |lines| == 4 && q < 4 && Once(lines) && lines[q].Some? && lines[q].value.items != []
    ensures var after := lines[q := Dequeue(lines[q].value).0];
            Once(after) && Members(after) <= Members(lines) - {lines[q].value.items[0]}
    ensures lines[q].value.items[0] in Members(lines)
  {
    var after, items := lines[q := Dequeue(lines[q].value).0], lines[q].value.items;
    assert ItemsOf(lines[q])[0] == items[0];
    assert ItemsOf(after[q]) == items[1..];
    forall r, i | 0 <= r < 4 && 0 <= i < |ItemsOf(after[r])|
      ensures ItemsOf(after[r])[i] in Members(lines) - {items[0]}
    {
      assert ItemsOf(after[r])[i] == if r == q then ItemsOf(lines[q])[i + 1] else ItemsOf(lines[r])[i];
    }
    forall r, i, s, j | Waits(after, r, i) && Waits(after, s, j) && (r != s || i != j)
      ensures ItemsOf(after[r])[i] != ItemsOf(after[s])[j]
    {
      var i', j' := if r == q then i + 1 else i, if s == q then j + 1 else j;
      assert Waits(lines, r, i') && Waits(lines, s, j');
      assert ItemsOf(after[r])[i] == ItemsOf(lines[r])[i'] && ItemsOf(after[s])[j] == ItemsOf(lines[s])[j'];
    }
  }

  // ----- The cycle -----

  ghost function Everyone(d: Daemon): set<PCB>
    requires |d.ready.lines| == 4
    reads d.host, d.ready
  {
    Members(d.ready.lines) + if d.host.currentProcess == null then {} else {d.host.currentProcess}
  }

  /** Nothing is shared, nobody waits twice, and what anybody of these processes has on record lies within the pools. */
  ghost predicate Steady(d: Daemon, all: set<PCB>)
    reads d.host.Repr(), d.ready, d.ready.queues, d.ready.owned, d.dispatcher, d.dispatcher.owned, all
  {
    && Unshared(d.ready, d.dispatcher) && d.host.Valid() && Once(d.ready.lines) && Members(d.ready.lines) <= all
    && forall p :: p in all ==> OnRecord(d.host.Pools(), p.io)
  }

  /** And the running process is not in the queues. */
  ghost predicate InOrder(d: Daemon, all: set<PCB>)
    reads d.host, d.host.Repr(), d.ready, d.ready.queues, d.ready.owned, d.dispatcher, d.dispatcher.owned, all
  {
    && Steady(d, all)
    && var p := d.host.currentProcess; p != null ==> p in all && p !in Members(d.ready.lines)
  }

  ghost function Running(p: PCB?): Option<Task>
    reads p
  {
    if p == null then None else Some(TaskOf(p))
  }

  ghost function View(d: Daemon): (cpu: Cpu)
    requires |d.ready.lines| == 4
    reads d.host, d.ready, Everyone(d)
    ensures |cpu.lines| == 4
  {
    Cpu(Running(d.host.currentProcess), TaskLines(d.ready.lines))
  }

  method Leave(d: Daemon, q: nat) returns (process: PCB)
    requires Unshared(d.ready, d.dispatcher) && q < 4 && ItemsOf(d.ready.lines[q]) != []
    modifies d.ready, d.ready.queues
    ensures Unshared(d.ready, d.dispatcher) && d.ready.owned == old(d.ready.owned)
    ensures process == old(d.ready.lines[q].value.items[0])
    ensures d.ready.lines == old(d.ready.lines)[q := Dequeue(old(d.ready.lines)[q].value).0]
  {
    hide PriorityQueues.Valid, Handle.Valid, Dequeue;
    ReadyShape(d);
    process := d.ready.DequeueAt(q);
    assert d.dispatcher.Valid() by {
      assert unchanged(d.dispatcher, d.dispatcher.owned);
    }
  }

  lemma ReadyShape(d: Daemon)
    requires Unshared(d.ready, d.dispatcher)
    ensures d.ready.Valid() && |d.ready.lines| == |d.ready.queues| == 4
  {
  }

  /** The process at the head of queue q takes over the processor. */
  method StartNext(d: Daemon, q: nat, ghost all: set<PCB>)
    requires Steady(d, all) && q < 4 && ItemsOf(d.ready.lines[q]) != []
    modifies d.host`currentProcess, d.ready, d.ready.queues, all`timeSpliceLeft
    ensures InOrder(d, all) && d.ready.owned == old(d.ready.owned)
    ensures var was := old(TaskLines(d.ready.lines));
            View(d) == RunHead(Cpu(None, was), q, if q == 0 then was[0].value.items[0].remainingTime else q)
  {
    hide Unshared, Once, Dequeue, TaskLine, TaskLines, Host.Valid, OnRecord, ItemsOf, Members;
    ReadyShape(d);
    ghost var lines := d.ready.lines;
    LeftTasks(lines, q);
    DequeuedOnce(lines, q);
    var process := Leave(d, q);
    assert TaskLines(lines) == old(TaskLines(lines)) by {
      assert forall p :: p in all ==> unchanged(p);
    }
    LeftTasks(lines, q);
    label Left:
    d.host.currentProcess := process;
    process.timeSpliceLeft := if q == 0 then process.remainingTime else q;
    assert Unshared(d.ready, d.dispatcher) by {
      assert unchanged@Left(d.ready, d.ready.queues, d.ready.owned, d.dispatcher, d.dispatcher.owned);
    }
    assert TaskLines(d.ready.lines) == old@Left(TaskLines(d.ready.lines)) by {
      assert forall p :: p in all && p != process ==> unchanged@Left(p);
    }
    assert d.host.Pools() == old(d.host.Pools());
  }

  method Join(d: Daemon, process: PCB)
    requires Unshared(d.ready, d.dispatcher)
    modifies d.ready, d.ready.queues, d.ready.owned
    ensures Unshared(d.ready, d.dispatcher) && fresh(d.ready.owned - old(d.ready.owned))
    ensures d.ready.lines == Sent(old(d.ready.lines), process.priority, process)
  {
    hide PriorityQueues.Valid, Handle.Valid, EnqueueTo;
    ReadyShape(d);
    d.ready.EnqueueToPriority(process);
    assert d.dispatcher.Valid() by {
      assert unchanged(d.dispatcher, d.dispatcher.owned);
    }
  }

  /** enqueueToPriority: a process that is not in the queues is sent to that of its priority. */
  method SendToQueue(d: Daemon, process: PCB, ghost all: set<PCB>)
    requires Steady(d, all) && process in all && process !in Members(d.ready.lines)
    modifies d.ready, d.ready.queues, d.ready.owned
    ensures Steady(d, all) && fresh(d.ready.owned - old(d.ready.owned))
    ensures TaskLines(d.ready.lines) == Requeue(old(TaskLines(d.ready.lines)), TaskOf(process)).0
  {
    hide Unshared, Once, TaskLine, TaskLines, Host.Valid, OnRecord, ItemsOf, Members, Sent, Requeue;
    ReadyShape(d);
    ghost var lines := d.ready.lines;
    SentOnce(lines, process.priority, process);
    Join(d, process);
    assert TaskLines(lines) == old(TaskLines(lines)) by {
      assert forall p :: p in all ==> unchanged(p);
    }
    SentTasks(lines, process);
    assert d.host.Pools() == old(d.host.Pools());
  }

  lemma HeadsAgree(lines: seq<Option<Line<PCB>>>)
    requires |lines| == 4
    ensures forall q :: 0 <= q < 4 ==> (TaskLines(lines)[q].Some? <==> lines[q].Some?)
    ensures forall q :: 0 <= q < 4 ==> (HasHead(TaskLines(lines)[q]) <==> ItemsOf(lines[q]) != [])
  {
  }

  /** What the program sees of queue q. */
  lemma QueueIsThere(d: Daemon, q: nat, all: set<PCB>)
    requires Steady(d, all) && q < 4
    ensures |d.ready.queues| == 4
    ensures var h, line := d.ready.queues[q], TaskLines(d.ready.lines)[q];
            && (h.queue != null <==> line.Some?)
            && (h.queue != null ==> (h.queue.process != null <==> HasHead(line)))
            && (HasHead(line) <==> ItemsOf(d.ready.lines[q]) != [])
  {
  }

  /** The running process makes room for a real-time process. */
  method Preempt(d: Daemon, ghost all: set<PCB>)
    requires InOrder(d, all) && d.host.currentProcess != null && d.host.currentProcess.priority != 0
    requires HasHead(TaskLines(d.ready.lines)[0])
    modifies d.host`currentProcess, d.ready, d.ready.queues, d.ready.owned, all`timeSpliceLeft
    ensures InOrder(d, all) && fresh(d.ready.owned - old(d.ready.owned))
    ensures View(d) == Choose(old(View(d)), true).0
  {
    hide Unshared, Once, TaskLine, TaskLines, Host.Valid, OnRecord, Members, Steady, ItemsOf;
    SteadyShape(d, all);
    SendToQueue(d, d.host.currentProcess, all);
    SteadyShape(d, all);
    HeadsAgree(d.ready.lines);
    StartNext(d, 0, all);
  }

  lemma SteadyShape(d: Daemon, all: set<PCB>)
    requires Steady(d, all)
    ensures d.ready.Valid() && |d.ready.lines| == |d.ready.queues| == 4 && Members(d.ready.lines) <= all
  {
  }

  /** Who runs in this cycle. */
  method ChooseNext(d: Daemon, rtUpdated: bool, ghost all: set<PCB>)
    requires InOrder(d, all) && (rtUpdated ==> HasHead(TaskLines(d.ready.lines)[0]))
    modifies d.host`currentProcess, d.ready, d.ready.queues, d.ready.owned, all`timeSpliceLeft
    ensures InOrder(d, all) && fresh(d.ready.owned - old(d.ready.owned))
    ensures View(d) == Choose(old(View(d)), rtUpdated).0
  {
    hide Unshared, Once, TaskLine, TaskLines, Host.Valid, OnRecord, Members, Requeue, Steady, ItemsOf;
    SteadyShape(d, all);
    Unrolled(View(d));
    QueueIsThere(d, 0, all);
    QueueIsThere(d, 1, all);
    QueueIsThere(d, 2, all);
    QueueIsThere(d, 3, all);
    var queues := d.ready.queues;
    if d.host.currentProcess != null {
      if d.host.currentProcess.priority != 0 {
        if rtUpdated {
          Preempt(d, all);
        }
      }
    } else if rtUpdated {
      StartNext(d, 0, all);
    } else if queues[1].queue != null {
      if queues[1].queue.process != null {
        StartNext(d, 1, all);
      }
    } else if queues[2].queue != null {
      if queues[2].queue.process != null {
        StartNext(d, 2, all);
      }
    } else if queues[3].queue != null {
      if queues[3].queue.process != null {
        StartNext(d, 3, all);
      }
    }
  }

  /** The pools, once the finished process, if any, has given back what it held. */
  ghost predicate Returned(before: seq<seq<int>>, after: seq<seq<int>>, finished: PCB?)
    requires |before| == |after| == KINDS && (finished != null ==> |finished.io| == KINDS)
    reads finished
  {
    if finished == null then after == before
    else forall k :: 0 <= k < KINDS ==> after[k] == Release(before[k], finished.io[k])
  }

  lemma StillOnRecord(before: seq<seq<int>>, after: seq<seq<int>>, all: set<PCB>)
    requires |before| == |after| == KINDS && forall k :: 0 <= k < KINDS ==> |before[k]| == |after[k]|
    requires forall p :: p in all ==> OnRecord(before, p.io)
    ensures forall p :: p in all ==> OnRecord(after, p.io)
  {
  }

  /** The process is done: its resources go back to the host. */
  method Finish(d: Daemon, ghost all: set<PCB>) returns (finished: PCB)
    requires InOrder(d, all) && d.host.currentProcess != null
    modifies d.host`currentProcess, d.host.Repr()
    ensures InOrder(d, all) && d.host.currentProcess == null && finished == old(d.host.currentProcess)
    ensures TaskLines(d.ready.lines) == old(TaskLines(d.ready.lines))
    ensures |finished.io| == KINDS && Returned(old(d.host.Pools()), d.host.Pools(), finished)
  {
    hide Unshared, Once, TaskLine, TaskLines, Members, OnRecord;
    SteadyShape(d, all);
    finished := d.host.currentProcess;
    OnRecordShape(d.host.Pools(), finished.io);
    d.host.FreeHostResources(finished);
    d.host.currentProcess := null;
    StillOnRecord(old(d.host.Pools()), d.host.Pools(), all);
    assert Unshared(d.ready, d.dispatcher) by {
      assert unchanged(d.ready, d.ready.queues, d.ready.owned, d.dispatcher, d.dispatcher.owned);
    }
    assert TaskLines(d.ready.lines) == old(TaskLines(d.ready.lines)) by {
      assert forall p :: p in all ==> unchanged(p);
    }
  }

  lemma OnRecordShape(pools: seq<seq<int>>, io: seq<Claim>)
    requires OnRecord(pools, io)
    ensures |io| == KINDS
  {
  }

  method DemoteProcess(process: PCB)
    modifies process`priority, process`timeSpliceLeft
    ensures TaskOf(process) == Demoted(old(TaskOf(process)))
  {
    if process.priority < 3 {
      process.priority := process.priority + 1;
    } else {
      process.timeSpliceLeft := 3;
      process.priority := 1;
    }
  }

  /** The fields of the running process do not matter to the queues. */
  method Demote(d: Daemon, ghost all: set<PCB>)
    requires InOrder(d, all) && d.host.currentProcess != null
    modifies all`priority, all`timeSpliceLeft
    ensures InOrder(d, all) && TaskLines(d.ready.lines) == old(TaskLines(d.ready.lines))
    ensures TaskOf(d.host.currentProcess) == Demoted(old(TaskOf(d.host.currentProcess)))
  {
    hide Unshared, Once, TaskLine, TaskLines, Members, OnRecord;
    SteadyShape(d, all);
    var process := d.host.currentProcess;
    DemoteProcess(process);
    assert Unshared(d.ready, d.dispatcher) by {
      assert unchanged(d.ready, d.ready.queues, d.ready.owned, d.dispatcher, d.dispatcher.owned);
    }
    assert d.host.Pools() == old(d.host.Pools());
    assert TaskLines(d.ready.lines) == old(TaskLines(d.ready.lines)) by {
      assert forall p :: p in all && p != process ==> unchanged(p);
    }
  }

  /** The process's slice is over: it queues again, one level down, or in queue 1 if it was at the bottom. */
  method QueueAgain(d: Daemon, ghost all: set<PCB>)
    requires InOrder(d, all) && d.host.currentProcess != null && d.host.currentProcess.priority >= 1
    modifies d.host`currentProcess, d.ready, d.ready.queues, d.ready.owned, all`priority, all`timeSpliceLeft
    ensures InOrder(d, all) && fresh(d.ready.owned - old(d.ready.owned))
    ensures var was := old(View(d)); View(d) == Cpu(None, Requeue(was.lines, Demoted(was.current.value)).0)
  {
    hide Unshared, Once, TaskLine, TaskLines, Members, OnRecord, Requeue, Steady;
    SteadyShape(d, all);
    Demote(d, all);
    SteadyShape(d, all);
    ghost var lines := Requeue(TaskLines(d.ready.lines), TaskOf(d.host.currentProcess)).0;
    SendToQueue(d, d.host.currentProcess, all);
    SteadyShape(d, all);
    label Joined:
    d.host.currentProcess := null;
    assert Steady(d, all) by {
      assert unchanged@Joined(d.host.Repr(), d.ready, d.ready.queues, d.ready.owned, d.dispatcher, d.dispatcher.owned, all);
    }
    assert TaskLines(d.ready.lines) == lines by {
      assert forall p :: p in all ==> unchanged@Joined(p);
    }
  }

  /** One unit of time for the running process. */
  method Burn(d: Daemon, ghost all: set<PCB>)
    requires InOrder(d, all) && d.host.currentProcess != null
    modifies all`remainingTime, all`timeSpliceLeft
    ensures InOrder(d, all)
    ensures var was := old(View(d)); View(d) == Cpu(Some(Burnt(was.current.value)), was.lines)
  {
    hide Unshared, Once, TaskLine, TaskLines, Members, OnRecord;
    SteadyShape(d, all);
    var process := d.host.currentProcess;
    process.timeSpliceLeft := process.timeSpliceLeft - 1;
    process.remainingTime := process.remainingTime - 1;
    assert Unshared(d.ready, d.dispatcher) by {
      assert unchanged(d.ready, d.ready.queues, d.ready.owned, d.dispatcher, d.dispatcher.owned);
    }
    assert d.host.Pools() == old(d.host.Pools());
    assert TaskLines(d.ready.lines) == old(TaskLines(d.ready.lines)) by {
      assert forall p :: p in all && p != process ==> unchanged(p);
    }
  }

  method RunCurrent(d: Daemon, ghost all: set<PCB>) returns (finished: PCB?)
    requires InOrder(d, all)
    modifies d.host`currentProcess, d.host.Repr(), d.ready, d.ready.queues, d.ready.owned
    modifies all`priority, all`remainingTime, all`timeSpliceLeft
    ensures InOrder(d, all) && fresh(d.ready.owned - old(d.ready.owned))
    ensures var r := Tick(old(View(d))); View(d) == r.cpu && Running(finished) == r.finished
    ensures finished != null ==> finished in all && |finished.io| == KINDS
    ensures Returned(old(d.host.Pools()), d.host.Pools(), finished)
  {
    hide Unshared, Once, TaskLine, TaskLines, Members, OnRecord, Steady, Requeue, Tick, Burnt, Demoted;
    SteadyShape(d, all);
    TickByCases(View(d));
    finished := null;
    if d.host.currentProcess != null {
      Burn(d, all);
      if d.host.currentProcess.remainingTime == 0 {
        finished := Finish(d, all);
      } else if d.host.currentProcess.timeSpliceLeft == 0 && d.host.currentProcess.priority >= 1 {
        QueueAgain(d, all);
      }
    }
  }

  lemma TickByCases(cpu: Cpu)
    requires |cpu.lines| == 4
    ensures var r := Tick(cpu);
            if cpu.current.None? then r.cpu == cpu && r.finished == None
            else
              var t := Burnt(cpu.current.value);
              if t.remainingTime == 0 then r.cpu == Cpu(None, cpu.lines) && r.finished == Some(t)
              else
                && r.finished == None
                && r.cpu == if t.timeSpliceLeft == 0 && t.priority >= 1 then Cpu(None, Requeue(cpu.lines, Demoted(t)).0)
                            else Cpu(Some(t), cpu.lines)
  {
  }

  /** One cycle of the processor, as the branches of the code compute it. */
  method DoProcessing(d: Daemon, rtUpdated: bool, ghost all: set<PCB>) returns (finished: PCB?)
    requires InOrder(d, all) && (rtUpdated ==> HasHead(TaskLines(d.ready.lines)[0]))
    modifies d.host`currentProcess, d.host.Repr(), d.ready, d.ready.queues, d.ready.owned
    modifies all`priority, all`remainingTime, all`timeSpliceLeft
    ensures InOrder(d, all) && fresh(d.ready.owned - old(d.ready.owned))
    ensures var r := Cycle(old(View(d)), rtUpdated); View(d) == r.cpu && Running(finished) == r.finished
    ensures finished != null ==> finished in all && |finished.io| == KINDS
    ensures Returned(old(d.host.Pools()), d.host.Pools(), finished)
  {
    hide InOrder, Running, View, Choose, Tick;
    ChooseNext(d, rtUpdated, all);
    assert d.host.Pools() == old(d.host.Pools());
    finished := RunCurrent(d, all);
  }
}
