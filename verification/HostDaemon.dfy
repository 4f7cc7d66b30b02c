/** The dispatcher's global state and its admission pass over the linked queues. */
module HostDaemon {
  import opened Wrappers
  import opened HostResources
  import opened ProcessQueue
  import opened Dispatcher

  /** A queue variable that ran empty is given a new queue first. */
  method EnqueueIn(h: Handle, process: PCB)
    requires h.Valid()
    modifies h, h.owned
    ensures h.Valid() && fresh(h.owned - old(h.owned)) && old(h.owned) <= h.owned
    ensures h.line == EnqueueTo(old(h.line), process)
  {
    if h.queue == null {
      var queue := new Queue();
      h.queue := queue;
      h.nodes, h.line, h.owned := [queue], Some(Line(false, [])), h.owned + {queue};
    }
    h.Enqueue(process);
  }

  /** The process at the head is looked up, then the head is taken off. */
  method TakeHead(h: Handle) returns (process: PCB)
    requires h.Valid() && h.line.Some? && h.line.value.items != []
    modifies h
    ensures h.Valid() && h.owned == old(h.owned)
    ensures process == old(h.line.value.items[0]) && h.line == Dequeue(old(h.line).value).0
  {
    process := h.queue.process;
    var head := DequeueProcess(h);
  }

  lemma DequeueShape(line: Line<PCB>)
    requires line.items != []
    ensures Dequeue(line).1 == Some(line.items[0])
  {
  }

  /** The queues hold these lines, and share nothing. */
  ghost predicate AllApart(queues: seq<Handle>, lines: seq<Option<Line<PCB>>>, owned: set<Queue>)
    requires |queues| == |lines|
    reads queues, owned
  {
    && (forall q :: 0 <= q < |queues| ==> queues[q].owned <= owned && queues[q].Valid() && queues[q].line == lines[q])
    && (forall q, r :: 0 <= q < r < |queues| ==> queues[q] != queues[r] && queues[q].owned !! queues[r].owned)
  }

  /** The real-time queue and those of priority 1, 2 and 3. */
  class PriorityQueues {
    const queues: seq<Handle>
    ghost var lines: seq<Option<Line<PCB>>>
    ghost var owned: set<Queue>

    ghost predicate Valid()
      reads this, queues, owned
    {
      |queues| == |lines| == 4 && AllApart(queues, lines, owned)
    }

    constructor (queues: seq<Handle>, ghost lines: seq<Option<Line<PCB>>>, ghost owned: set<Queue>)
      requires |queues| == |lines| == 4 && AllApart(queues, lines, owned)
      ensures Valid() && this.queues == queues && this.lines == lines && this.owned == owned
    {
      this.queues, this.lines, this.owned := queues, lines, owned;
    }

    method EnqueueToPriority(process: PCB)
      requires Valid()
      modifies this, queues, owned
      ensures Valid() && fresh(owned - old(owned)) && old(owned) <= owned
      ensures process.priority == 0 ==> lines == old(lines)[0 := EnqueueTo(old(lines)[0], process)]
      ensures process.priority == 1 ==> lines == old(lines)[1 := EnqueueTo(old(lines)[1], process)]
      ensures process.priority == 2 ==> lines == old(lines)[2 := EnqueueTo(old(lines)[2], process)]
      ensures process.priority !in {0, 1, 2} ==> lines == old(lines)[3 := EnqueueTo(old(lines)[3], process)]
    {
      var p := process.priority;
      var q;
      if p == 0 {
        q := 0;
      } else if p == 1 {
        q := 1;
      } else if p == 2 {
        q := 2;
      } else {
        q := 3;
      }
      EnqueueAt(q, process);
    }

    method EnqueueAt(q: nat, process: PCB)
      requires Valid() && q < 4
      modifies this, queues, owned
      ensures Valid() && fresh(owned - old(owned)) && old(owned) <= owned
      ensures lines == old(lines)[q := EnqueueTo(old(lines)[q], process)]
    {
      hide Handle.Valid, EnqueueTo;
      EnqueueIn(queues[q], process);
      forall r | 0 <= r < 4 && r != q
        ensures queues[r].Valid() && queues[r].line == lines[r] && queues[r].owned == old(queues[r].owned)
      {
        assert unchanged(queues[r], old(queues[r].owned));
      }
      owned := owned + queues[q].owned;
      lines := lines[q := queues[q].line];
    }

    /** The head of queue q leaves. */
    method DequeueAt(q: nat) returns (process: PCB)
      requires Valid() && q < 4 && lines[q].Some? && lines[q].value.items != []
      modifies this, queues[q]
      ensures Valid() && owned == old(owned)
      ensures process == old(lines[q].value.items[0]) && lines == old(lines)[q := Dequeue(old(lines)[q].value).0]
    {
      hide Handle.Valid, Dequeue;
      DequeueShape(lines[q].value);
      process := TakeHead(queues[q]);
      forall r | 0 <= r < 4 && r != q
        ensures queues[r].Valid() && queues[r].line == lines[r] && queues[r].owned == old(queues[r].owned)
      {
        assert unchanged(queues[r], queues[r].owned);
      }
      lines := lines[q := queues[q].line];
    }
  }

  method NewPriorityQueues() returns (ready: PriorityQueues)
    ensures fresh(ready) && fresh(ready.queues) && fresh(ready.owned)
    ensures ready.Valid() && forall q :: 0 <= q < 4 ==> ready.lines[q] == Some(Line(false, []))
  {
    var queues: seq<Handle> := [];
    ghost var lines: seq<Option<Line<PCB>>>, owned: set<Queue> := [], {};
    while |queues| < 4
      invariant |queues| == |lines| <= 4 && AllApart(queues, lines, owned)
      invariant forall q :: 0 <= q < |lines| ==> lines[q] == Some(Line(false, []))
      invariant fresh(owned) && fresh(queues)
    {
      var h := new Handle();
      queues, lines, owned := queues + [h], lines + [h.line], owned + h.owned;
    }
    ready := new PriorityQueues(queues, lines, owned);
  }

  // ----- The pass -----

  /** A process that has arrived is tried. */
  method TryNext(host: Host, process: PCB, time: int) returns (admitted: bool)
    requires host.Valid() && OnRecord(host.Pools(), process.io)
    modifies host.Repr(), process`io
    ensures var j, pools, rt := old(process.Value()), old(host.Pools()), host.rtMemSpaceMax;
            && admitted == (time >= j.arrivalTime && Admitted(pools, rt, j))
            && host.Pools() == (if time >= j.arrivalTime then PoolsAfter(pools, rt, j) else pools)
            && process.Value() == (if time >= j.arrivalTime then JobAfter(pools, rt, j) else j)
    ensures OnRecord(host.Pools(), process.io)
  {
    admitted := false;
    if time >= process.arrivalTime {
      var allocResult := host.AllocateResources(process);
      admitted := allocResult != 0;
    }
  }

  /** The host's pools and these PCBs are where the pass has brought them. */
  ghost predicate At(host: Host, ps: seq<PCB>, p: Progress)
    reads host.Repr(), ps
  {
    && host.Valid() && host.Pools() == p.pools && |ps| == |p.jobs| && |p.admitted| <= |ps|
    && (forall i, k :: 0 <= i < k < |ps| ==> ps[i] != ps[k])
    && forall k :: 0 <= k < |ps| ==> ps[k].Value() == p.jobs[k] && OnRecord(p.pools, ps[k].io)
  }

  method TakeTurn(host: Host, process: PCB, time: int, ghost ps: seq<PCB>, ghost p: Progress, ghost next: Progress)
    returns (admitted: bool)
    requires At(host, ps, p) && |p.admitted| < |ps| && process == ps[|p.admitted|]
    requires next == Turn(p, time, host.rtMemSpaceMax)
    modifies host.Repr(), process`io
    ensures At(host, ps, next) && next.admitted == p.admitted + [admitted]
  {
    admitted := TryNext(host, process, time);
  }

  /** A pass works on three things that share nothing: the priority queues, what is left of the old
      dispatcher queue, and the new one. */
  ghost predicate Separate(ready: PriorityQueues, queuePtr: Handle, newDispatcher: Handle)
    reads ready, ready.queues, ready.owned, queuePtr, queuePtr.owned, newDispatcher, newDispatcher.owned
  {
    && ready.Valid() && queuePtr.Valid() && newDispatcher.Valid() && newDispatcher.queue != null
    && queuePtr != newDispatcher && queuePtr !in ready.queues && newDispatcher !in ready.queues
    && queuePtr.owned !! newDispatcher.owned && queuePtr.owned !! ready.owned && newDispatcher.owned !! ready.owned
  }

  ghost predicate Ahead(line: Option<Line<PCB>>, ps: seq<PCB>) {
    ps == if line.None? then [] else line.value.items
  }

  method TakeNext(ready: PriorityQueues, queuePtr: Handle, newDispatcher: Handle, ghost ps: seq<PCB>, ghost n: nat)
    returns (process: PCB)
    requires Separate(ready, queuePtr, newDispatcher) && n < |ps| && Ahead(queuePtr.line, ps[n..])
    modifies queuePtr
    ensures Separate(ready, queuePtr, newDispatcher) && queuePtr.owned == old(queuePtr.owned)
    ensures process == ps[n] && Ahead(queuePtr.line, ps[n + 1..])
    ensures newDispatcher.line == old(newDispatcher.line) && newDispatcher.owned == old(newDispatcher.owned)
  {
    var head := DequeueProcess(queuePtr);
    process := head.process;
    assert ps[n..][1..] == ps[n + 1..];
    assert ready.Valid() && newDispatcher.Valid() by {
      assert unchanged(ready, ready.queues, ready.owned, newDispatcher, newDispatcher.owned);
    }
  }

  /** The next process leaves the old queue and is tried. */
  method DecideNext(host: Host, ready: PriorityQueues, queuePtr: Handle, newDispatcher: Handle, time: int,
                    ghost ps: seq<PCB>, ghost p: Progress, ghost next: Progress)
    returns (process: PCB, admitted: bool)
    requires At(host, ps, p) && |p.admitted| < |ps| && Ahead(queuePtr.line, ps[|p.admitted|..])
    requires next == Turn(p, time, host.rtMemSpaceMax) && Separate(ready, queuePtr, newDispatcher)
    modifies host.Repr(), ps`io, queuePtr
    ensures At(host, ps, next) && next.admitted == p.admitted + [admitted]
    ensures process == ps[|p.admitted|] && process.priority == old(ps[|p.admitted|].priority)
    ensures Ahead(queuePtr.line, ps[|p.admitted| + 1..]) && Separate(ready, queuePtr, newDispatcher)
    ensures newDispatcher.line == old(newDispatcher.line)
    ensures newDispatcher.owned == old(newDispatcher.owned) && ready.owned == old(ready.owned)
  {
    hide At, Turn, Separate, Ahead, Host.Valid;
    process := TakeNext(ready, queuePtr, newDispatcher, ps, |p.admitted|);
    assert At(host, ps, p) by {
      assert unchanged(host.Repr(), ps);
    }
    label Taken:
    admitted := TakeTurn(host, process, time, ps, p, next);
    assert Separate(ready, queuePtr, newDispatcher) by {
      assert unchanged@Taken(ready, ready.queues, ready.owned, queuePtr, queuePtr.owned, newDispatcher, newDispatcher.owned);
    }
  }

  /** An admitted process goes to the queue of its priority, any other waits. */
  method Place(process: PCB, admitted: bool, ready: PriorityQueues, queuePtr: Handle, newDispatcher: Handle)
    requires Separate(ready, queuePtr, newDispatcher)
    modifies ready, ready.queues, ready.owned, newDispatcher, newDispatcher.owned
    ensures Separate(ready, queuePtr, newDispatcher) && queuePtr.line == old(queuePtr.line)
    ensures fresh(ready.owned - old(ready.owned)) && fresh(newDispatcher.owned - old(newDispatcher.owned))
    ensures ready.lines == if admitted then Sent(old(ready.lines), old(process.priority), process) else old(ready.lines)
    ensures newDispatcher.line ==
            if admitted then old(newDispatcher.line) else Some(old(newDispatcher.line).value.Enqueue(process))
  {
    if admitted {
      ready.EnqueueToPriority(process);
    } else {
      newDispatcher.Enqueue(process);
    }
  }

  class Daemon {
    const host: Host
    const dispatcher: Handle
    const ready: PriorityQueues

    constructor (host: Host, dispatcher: Handle, ready: PriorityQueues)
      ensures this.host == host && this.dispatcher == dispatcher && this.ready == ready
    {
      this.host, this.dispatcher, this.ready := host, dispatcher, ready;
    }

    /** One turn of the pass: the next process is tried and placed. */
    method OneTurn(queuePtr: Handle, newDispatcher: Handle, time: int,
                   ghost ps: seq<PCB>, ghost p: Progress, ghost next: Progress)
      returns (admitted: bool, realTime: bool)
      requires At(host, ps, p) && |p.admitted| < |ps| && Ahead(queuePtr.line, ps[|p.admitted|..])
      requires next == Turn(p, time, host.rtMemSpaceMax) && Separate(ready, queuePtr, newDispatcher)
      modifies host.Repr(), ps`io, queuePtr, ready, ready.queues, ready.owned, newDispatcher, newDispatcher.owned
      ensures At(host, ps, next) && next.admitted == p.admitted + [admitted]
      ensures Ahead(queuePtr.line, ps[|p.admitted| + 1..]) && Separate(ready, queuePtr, newDispatcher)
      ensures fresh(ready.owned - old(ready.owned)) && fresh(newDispatcher.owned - old(newDispatcher.owned))
      ensures var process := ps[|p.admitted|];
              && ready.lines == (if admitted then Sent(old(ready.lines), old(process.priority), process) else old(ready.lines))
              && newDispatcher.line ==
                 (if admitted then old(newDispatcher.line) else Some(old(newDispatcher.line).value.Enqueue(process)))
              && (realTime <==> admitted && old(process.priority) == 0)
    {
      hide At, Turn, Separate, Ahead, Sent, Level, EnqueueTo, Host.Valid;
      var process;
      process, admitted := DecideNext(host, ready, queuePtr, newDispatcher, time, ps, p, next);
      realTime := admitted && process.priority == 0;
      label Tried:
      Place(process, admitted, ready, queuePtr, newDispatcher);
      assert At(host, ps, next) by {
        assert unchanged@Tried(host.Repr(), ps);
      }
    }

    /** The whole pass. What it decides is the fold over the queue; the processes that wait stay, in
        order, and the others are appended to their queues, in order. */
    method UpdateDispatcher(time: int, ghost ps: seq<PCB>, ghost jobs: seq<Job>) returns (rtQUpdated: bool)
      requires Unshared(ready, dispatcher) && Ahead(dispatcher.line, ps)
      requires At(host, ps, Progress(host.Pools(), jobs, []))
      modifies host.Repr(), ps`io, dispatcher, ready, ready.queues, ready.owned
      ensures var p := Pass(jobs, time, host.rtMemSpaceMax, old(host.Pools()), |ps|);
              && At(host, ps, p) && Unshared(ready, dispatcher)
              && dispatcher.line == (if old(dispatcher.line).None? then None else Some(Built(Select(ps, Waiting(p.admitted)))))
              && ready.lines == LinesAfter(old(ready.lines), ps, p.admitted, jobs)
              && (rtQUpdated <==> RealTimeAdmitted(p.admitted, jobs))
      ensures fresh(ready.owned - old(ready.owned)) && fresh(dispatcher.owned - old(dispatcher.owned))
    {
      hide At, LinesAfter, Unshared, Pass, Select, Waiting, RealTimeAdmitted;
      AtShape(host, ps, Progress(host.Pools(), jobs, []));
      UnsharedShape(ready, dispatcher);
      if dispatcher.queue == null {
        NothingPlaced(ready.lines, jobs, time, host.rtMemSpaceMax, host.Pools());
        return false;
      }
      rtQUpdated := RunPass(time, ps, jobs);
    }

    /** The pass over a queue that is there. */
    method RunPass(time: int, ghost ps: seq<PCB>, ghost jobs: seq<Job>) returns (rtQUpdated: bool)
      requires Unshared(ready, dispatcher) && Ahead(dispatcher.line, ps) && dispatcher.queue != null
      requires At(host, ps, Progress(host.Pools(), jobs, []))
      modifies host.Repr(), ps`io, dispatcher, ready, ready.queues, ready.owned
      ensures var p := Pass(jobs, time, host.rtMemSpaceMax, old(host.Pools()), |ps|);
              && At(host, ps, p) && Unshared(ready, dispatcher)
              && dispatcher.line == Some(Built(Select(ps, Waiting(p.admitted))))
              && ready.lines == LinesAfter(old(ready.lines), ps, p.admitted, jobs)
              && (rtQUpdated <==> RealTimeAdmitted(p.admitted, jobs))
      ensures fresh(ready.owned - old(ready.owned)) && fresh(dispatcher.owned)
    {
      hide At, Separate, LinesAfter, Unshared, Pass, Select, Waiting, RealTimeAdmitted, Built, Ahead;
      AtShape(host, ps, Progress(host.Pools(), jobs, []));
      UnsharedShape(ready, dispatcher);
      ghost var p := Pass(jobs, time, host.rtMemSpaceMax, host.Pools(), |ps|);
      var queuePtr, newDispatcher, turns := StartPass(ps);
      rtQUpdated := Turns(queuePtr, newDispatcher, time, turns, ps, jobs);
      label Passed:
      FinishPass(queuePtr, newDispatcher);
      assert At(host, ps, p) by {
        assert unchanged@Passed(host.Repr(), ps);
      }
    }

    /** A second pointer to the old queue, a new queue, and how many turns there will be: none if the
        first node has no process. */
    method StartPass(ghost ps: seq<PCB>) returns (queuePtr: Handle, newDispatcher: Handle, turns: nat)
      requires Unshared(ready, dispatcher) && dispatcher.queue != null && Ahead(dispatcher.line, ps)
      ensures fresh(queuePtr) && fresh(newDispatcher) && fresh(newDispatcher.owned) && Separate(ready, queuePtr, newDispatcher)
      ensures Ahead(queuePtr.line, ps) && newDispatcher.line == Some(Line(false, [])) && turns == |ps|
    {
      queuePtr := new Handle.Copy(dispatcher);
      newDispatcher := new Handle();
      var i := 0;
      var count := NumElems(queuePtr.queue, queuePtr.nodes);
      if queuePtr.queue.process == null {
        i := count;
      }
      turns := count - i;
    }

    method FinishPass(ghost queuePtr: Handle, newDispatcher: Handle)
      requires Separate(ready, queuePtr, newDispatcher) && dispatcher != newDispatcher && dispatcher !in ready.queues
      modifies dispatcher
      ensures Unshared(ready, dispatcher) && dispatcher.line == newDispatcher.line && dispatcher.owned == newDispatcher.owned
    {
      dispatcher.queue := newDispatcher.queue;
      dispatcher.nodes, dispatcher.line, dispatcher.owned := newDispatcher.nodes, newDispatcher.line, newDispatcher.owned;
    }

    /** The loop over the old queue. */
    method Turns(queuePtr: Handle, newDispatcher: Handle, time: int, count: nat, ghost ps: seq<PCB>, ghost jobs: seq<Job>)
      returns (rtQUpdated: bool)
      requires At(host, ps, Progress(host.Pools(), jobs, [])) && Ahead(queuePtr.line, ps) && count == |ps|
      requires Separate(ready, queuePtr, newDispatcher) && newDispatcher.line == Some(Line(false, []))
      modifies host.Repr(), ps`io, queuePtr, ready, ready.queues, ready.owned, newDispatcher, newDispatcher.owned
      ensures var p := Pass(jobs, time, host.rtMemSpaceMax, old(host.Pools()), |ps|);
              && At(host, ps, p) && Separate(ready, queuePtr, newDispatcher)
              && newDispatcher.line == Some(Built(Select(ps, Waiting(p.admitted))))
              && ready.lines == LinesAfter(old(ready.lines), ps, p.admitted, jobs)
              && (rtQUpdated <==> RealTimeAdmitted(p.admitted, jobs))
      ensures fresh(ready.owned - old(ready.owned)) && fresh(newDispatcher.owned - old(newDispatcher.owned))
    {
      hide At, Separate, Select, Waiting, LinesAfter, Turn, RealTimeAdmitted, Sent, Ahead, Built;
      ghost var lines, pools, rt := ready.lines, host.Pools(), host.rtMemSpaceMax;
      ghost var p := Progress(pools, jobs, []);
      AtShape(host, ps, p);
      SeparateShape(ready, queuePtr, newDispatcher);
      NothingPlaced(lines, jobs, time, rt, pools);
      rtQUpdated := false;
      var i := 0;
      while i < count
        invariant 0 <= i <= count && p == Pass(jobs, time, rt, pools, i)
        invariant At(host, ps, p) && Ahead(queuePtr.line, ps[i..]) && Separate(ready, queuePtr, newDispatcher)
        invariant newDispatcher.line == Some(Built(Select(ps[..i], Waiting(p.admitted))))
        invariant ready.lines == LinesAfter(lines, ps[..i], p.admitted, jobs)
        invariant fresh(ready.owned - old(ready.owned)) && fresh(newDispatcher.owned - old(newDispatcher.owned))
        invariant rtQUpdated <==> RealTimeAdmitted(p.admitted, jobs)
      {
        ghost var next := Turn(p, time, rt);
        ghost var process := ps[i];
        AtShape(host, ps, p);
        var admitted, realTime := OneTurn(queuePtr, newDispatcher, time, ps, p, next);
        rtQUpdated := rtQUpdated || realTime;
        NextPrefix(ps, i);
        RealTimeNext(p.admitted, admitted, jobs);
        WaitingNext(ps[..i], p.admitted, process, admitted);
        LinesNext(lines, ps[..i], p.admitted, jobs, process, admitted);
        p := next;
        i := i + 1;
      }
      assert ps[..i] == ps;
    }
  }

  lemma NextPrefix<T>(s: seq<T>, n: nat)
    requires n < |s|
    ensures s[..n + 1] == s[..n] + [s[n]] && s[..|s|] == s
  {
  }

  lemma AtShape(host: Host, ps: seq<PCB>, p: Progress)
    requires At(host, ps, p)
    ensures PoolsFit(p.pools, host.rtMemSpaceMax) && host.Pools() == p.pools && JobsFit(p.jobs) && |p.jobs| == |ps|
    ensures forall i :: 0 <= i < |ps| ==> ps[i].priority == p.jobs[i].priority
  {
  }

  lemma SeparateShape(ready: PriorityQueues, queuePtr: Handle, newDispatcher: Handle)
    requires Separate(ready, queuePtr, newDispatcher)
    ensures |ready.lines| == 4 && newDispatcher.line.Some?
  {
  }

  lemma UnsharedShape(ready: PriorityQueues, h: Handle)
    requires Unshared(ready, h)
    ensures |ready.lines| == 4 && h !in ready.queues && (h.line.None? <==> h.queue == null)
  {
  }

  lemma NothingPlaced(lines: seq<Option<Line<PCB>>>, jobs: seq<Job>, time: int, rt: nat, pools: seq<seq<int>>)
    requires |lines| == 4 && PoolsFit(pools, rt) && JobsFit(jobs)
    ensures Pass(jobs, time, rt, pools, 0) == Progress(pools, jobs, [])
    ensures !RealTimeAdmitted([], jobs)
    ensures Built(Select<PCB>([], Waiting([]))) == Line(false, []) && LinesAfter(lines, [], [], jobs) == lines
  {
  }

  ghost predicate Unshared(ready: PriorityQueues, h: Handle)
    reads ready, ready.queues, ready.owned, h, h.owned
  {
    ready.Valid() && h.Valid() && h !in ready.queues && h.owned !! ready.owned
  }

  /** Everything is free, and all queues are there and empty. */
  method InitSystem(printers: nat, scanners: nat, modems: nat, disks: nat, memory: nat, rt: nat) returns (d: Daemon)
    requires rt <= memory
    ensures fresh(d) && fresh(d.host) && fresh(d.host.Repr()) && fresh(d.dispatcher) && fresh(d.dispatcher.owned)
    ensures fresh(d.ready) && fresh(d.ready.queues) && fresh(d.ready.owned)
    ensures d.host.Valid() && d.host.rtMemSpaceMax == rt && d.host.AllFree() && d.host.currentProcess == null
    ensures d.host.Pools() == FreePools(printers, scanners, modems, disks, memory)
    ensures Unshared(d.ready, d.dispatcher) && d.dispatcher.line == Some(Line(false, []))
    ensures forall q :: 0 <= q < 4 ==> d.ready.lines[q] == Some(Line(false, []))
  {
    var ready := NewPriorityQueues();
    var dispatcher := new Handle();
    var host := new Host(printers, scanners, modems, disks, memory, rt);
    d := new Daemon(host, dispatcher, ready);
  }
}
