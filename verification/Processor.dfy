/** One processor cycle over the priority queues: who runs, for how long, and what becomes of the others. */
module Processor {
  import opened Wrappers
  import opened Counting
  import opened ProcessQueue
  import opened Dispatcher

  datatype Task = Task(pid: int, priority: int, remainingTime: int, timeSpliceLeft: int)

  /** The process on the processor, and the real-time queue and those of priority 1, 2 and 3. */
  datatype Cpu = Cpu(current: Option<Task>, lines: seq<Option<Line<Task>>>)

  ghost predicate Sound(cpu: Cpu) {
    |cpu.lines| == 4 && forall q :: 0 <= q < 4 ==> cpu.lines[q].Some? ==> cpu.lines[q].value.Ok()
  }

  /** A queue that is there and has a process at its head. */
  predicate HasHead(line: Option<Line<Task>>) {
    line.Some? && line.value.items != []
  }

  /** enqueueToPriority; and the process whose place was taken, if any. */
  function Requeue(lines: seq<Option<Line<Task>>>, t: Task): (r: (seq<Option<Line<Task>>>, seq<Task>))
    requires |lines| == 4
  {
    var q := Level(t.priority);
    (lines[q := EnqueueTo(lines[q], t)],
     if lines[q].Some? && lines[q].value.LosesHead() then [lines[q].value.items[0]] else [])
  }

  /** The head of queue q becomes the running process. */
  function RunHead(cpu: Cpu, q: nat, timeSplice: int): Cpu
    requires |cpu.lines| == 4 && q < 4 && HasHead(cpu.lines[q])
  {
    Cpu(Some(cpu.lines[q].value.items[0].(timeSpliceLeft := timeSplice)), cpu.lines[q := Dequeue(cpu.lines[q].value).0])
  }

  function TakeRealTime(cpu: Cpu): Cpu
    requires |cpu.lines| == 4
  {
    if HasHead(cpu.lines[0]) then RunHead(cpu, 0, cpu.lines[0].value.items[0].remainingTime) else cpu
  }

  /** The first queue that is there is the only one looked at, even if nobody waits in it. */
  function TakeFirst(cpu: Cpu, q: nat): Cpu
    requires |cpu.lines| == 4 && 1 <= q <= 4
    decreases 4 - q
  {
    if q == 4 then cpu
    else if cpu.lines[q].None? then TakeFirst(cpu, q + 1)
    else if HasHead(cpu.lines[q]) then RunHead(cpu, q, q) else cpu
  }

  /** Who runs in this cycle, and who was overwritten when the running process had to make room. */
  function Choose(cpu: Cpu, rtUpdated: bool): (r: (Cpu, seq<Task>))
    requires |cpu.lines| == 4
  {
    if cpu.current.Some? then
      if cpu.current.value.priority != 0 && rtUpdated then
        var (lines, lost) := Requeue(cpu.lines, cpu.current.value);
        (TakeRealTime(Cpu(cpu.current, lines)), lost)
      else (cpu, [])
    else if rtUpdated then (TakeRealTime(cpu), [])
    else (TakeFirst(cpu, 1), [])
  }

  datatype Cycled = Cycled(cpu: Cpu, finished: Option<Task>, lost: seq<Task>)

  /** A process after one unit of time. */
  function Burnt(t: Task): Task {
    t.(timeSpliceLeft := t.timeSpliceLeft - 1, remainingTime := t.remainingTime - 1)
  }

  /** One level down, or from the bottom back to the top. */
  function Demoted(t: Task): Task {
    if t.priority < 3 then t.(priority := t.priority + 1) else t.(timeSpliceLeft := 3, priority := 1)
  }

  /** One unit of time for the running process; then it may be done, or have to queue again. */
  function Tick(cpu: Cpu): Cycled
    requires |cpu.lines| == 4
  {
    if cpu.current.None? then Cycled(cpu, None, [])
    else
      var t := Burnt(cpu.current.value);
      if t.remainingTime == 0 then
        Cycled(Cpu(None, cpu.lines), Some(t), [])
      else if t.timeSpliceLeft == 0 && t.priority >= 1 then
        var (lines, lost) := Requeue(cpu.lines, Demoted(t));
        Cycled(Cpu(None, lines), None, lost)
      else
        Cycled(Cpu(Some(t), cpu.lines), None, [])
  }

  function Cycle(cpu: Cpu, rtUpdated: bool): (r: Cycled)
    requires |cpu.lines| == 4
    ensures |r.cpu.lines| == 4
  {
    var (chosen, lost) := Choose(cpu, rtUpdated);
    var r := Tick(chosen);
    r.(lost := lost + r.lost)
  }

  // ----- Accounts -----

  // What the processes on a list, in a queue, on the processor and in its queues weigh together.

  ghost function LineWeight(line: Option<Line<Task>>, w: Task -> int): int {
    if line.None? then 0 else Sum(line.value.items, w)
  }

  ghost function Held(o: Option<Task>, w: Task -> int): int {
    if o.None? then 0 else w(o.value)
  }

  ghost function Queued(lines: seq<Option<Line<Task>>>, w: Task -> int): int
    requires |lines| == 4
  {
    LineWeight(lines[0], w) + LineWeight(lines[1], w) + LineWeight(lines[2], w) + LineWeight(lines[3], w)
  }

  ghost function Total(cpu: Cpu, w: Task -> int): int
    requires |cpu.lines| == 4
  {
    Held(cpu.current, w) + Queued(cpu.lines, w)
  }

  ghost function OfPid(pid: int): Task -> int {
    (t: Task) => if t.pid == pid then 1 else 0
  }

  ghost function TimeLeft(): Task -> int {
    (t: Task) => t.remainingTime
  }

  /** A weight that depends on the process and its remaining time only. */
  ghost predicate Stable(w: Task -> int) {
    forall t: Task, s: int, p: int :: w(t.(timeSpliceLeft := s)) == w(t) && w(t.(priority := p)) == w(t)
  }

  lemma QueuedUpdated(lines: seq<Option<Line<Task>>>, q: nat, line: Option<Line<Task>>, w: Task -> int)
    requires |lines| == 4 && q < 4
    ensures Queued(lines[q := line], w) == Queued(lines, w) - LineWeight(lines[q], w) + LineWeight(line, w)
  {
  }

  lemma EnqueueWeight(line: Option<Line<Task>>, t: Task, w: Task -> int)
    requires line.Some? ==> line.value.Ok()
    ensures var lost := if line.Some? && line.value.LosesHead() then [line.value.items[0]] else [];
            LineWeight(EnqueueTo(line, t), w) + Sum(lost, w) == LineWeight(line, w) + w(t)
  {
    var items := if line.None? then [] else line.value.items;
    SumOfTwo(items, [t], w);
    if items != [] {
      assert items[0 := t] == [t] + items[1..];
    }
  }

  lemma RequeueWeight(lines: seq<Option<Line<Task>>>, t: Task, w: Task -> int)
    requires Sound(Cpu(None, lines))
    ensures var (after, lost) := Requeue(lines, t);
            Sound(Cpu(None, after)) && Queued(after, w) + Sum(lost, w) == Queued(lines, w) + w(t)
  {
    var q := Level(t.priority);
    EnqueueWeight(lines[q], t, w);
    QueuedUpdated(lines, q, EnqueueTo(lines[q], t), w);
  }

  lemma RunHeadWeight(cpu: Cpu, q: nat, timeSplice: int, w: Task -> int)
    requires Sound(cpu) && q < 4 && HasHead(cpu.lines[q]) && Stable(w)
    ensures var r := RunHead(cpu, q, timeSplice); Sound(r) && Total(r, w) == Total(cpu, w) - Held(cpu.current, w)
  {
    var items := cpu.lines[q].value.items;
    var rest := Dequeue(cpu.lines[q].value).0;
    QueuedUpdated(cpu.lines, q, rest, w);
    assert |items| == 1 ==> items[1..] == [];
    assert LineWeight(rest, w) == Sum(items[1..], w);
    assert w(items[0].(timeSpliceLeft := timeSplice)) == w(items[0]);
  }

  lemma {:induction false} TakeFirstWeight(cpu: Cpu, q: nat, w: Task -> int)
    requires Sound(cpu) && 1 <= q <= 4 && cpu.current == None && Stable(w)
    ensures Sound(TakeFirst(cpu, q)) && Total(TakeFirst(cpu, q), w) == Total(cpu, w)
    decreases 4 - q
  {
    if q < 4 {
      if cpu.lines[q].None? {
        TakeFirstWeight(cpu, q + 1, w);
      } else if HasHead(cpu.lines[q]) {
        RunHeadWeight(cpu, q, q, w);
      }
    }
  }

  lemma ChooseWeight(cpu: Cpu, rtUpdated: bool, w: Task -> int)
    requires Sound(cpu) && (rtUpdated ==> HasHead(cpu.lines[0])) && Stable(w)
    ensures var (r, lost) := Choose(cpu, rtUpdated); Sound(r) && Total(r, w) + Sum(lost, w) == Total(cpu, w)
  {
    if cpu.current.Some? {
      if cpu.current.value.priority != 0 && rtUpdated {
        var c := cpu.current.value;
        RequeueWeight(cpu.lines, c, w);
        var lines := Requeue(cpu.lines, c).0;
        RunHeadWeight(Cpu(cpu.current, lines), 0, lines[0].value.items[0].remainingTime, w);
      }
    } else if rtUpdated {
      RunHeadWeight(cpu, 0, cpu.lines[0].value.items[0].remainingTime, w);
    } else {
      TakeFirstWeight(cpu, 1, w);
    }
  }

  /** A tick changes nothing but the running process, by one unit. */
  lemma TickWeight(cpu: Cpu, w: Task -> int)
    requires Sound(cpu) && Stable(w)
    ensures var r := Tick(cpu);
            var ran := if cpu.current.None? then 0
                       else w(cpu.current.value.(remainingTime := cpu.current.value.remainingTime - 1)) - w(cpu.current.value);
            Sound(r.cpu) && Total(r.cpu, w) + Held(r.finished, w) + Sum(r.lost, w) == Total(cpu, w) + ran
  {
    if cpu.current.Some? {
      var c := cpu.current.value;
      var less := c.(remainingTime := c.remainingTime - 1);
      var t := Burnt(c);
      assert t == less.(timeSpliceLeft := c.timeSpliceLeft - 1);
      if t.remainingTime != 0 && t.timeSpliceLeft == 0 && t.priority >= 1 {
        DemotedWeight(t, w);
        RequeueWeight(cpu.lines, Demoted(t), w);
      }
    }
  }

  lemma DemotedWeight(t: Task, w: Task -> int)
    requires Stable(w)
    ensures w(Demoted(t)) == w(t)
  {
    if t.priority >= 3 {
      var aged := t.(priority := 1);
      assert w(aged) == w(t) && Demoted(t) == aged.(timeSpliceLeft := 3);
    }
  }

  ghost predicate Balanced(cpu: Cpu, r: Cycled, ran: int, w: Task -> int)
    requires |cpu.lines| == |r.cpu.lines| == 4
  {
    Total(r.cpu, w) + Held(r.finished, w) + Sum(r.lost, w) == Total(cpu, w) + ran
  }

  /** No process appears or disappears in a cycle, except by finishing or by being overwritten; and the
      work left goes down by exactly one unit whenever somebody runs. */
  lemma CycleBalances(cpu: Cpu, rtUpdated: bool, pid: int)
    requires Sound(cpu) && (rtUpdated ==> HasHead(cpu.lines[0]))
    ensures var r := Cycle(cpu, rtUpdated);
            && Sound(r.cpu) && Balanced(cpu, r, 0, OfPid(pid))
            && Balanced(cpu, r, if Choose(cpu, rtUpdated).0.current.Some? then -1 else 0, TimeLeft())
  {
    var (chosen, lost) := Choose(cpu, rtUpdated);
    ChooseWeight(cpu, rtUpdated, OfPid(pid));
    TickWeight(chosen, OfPid(pid));
    SumOfTwo(lost, Tick(chosen).lost, OfPid(pid));
    ChooseWeight(cpu, rtUpdated, TimeLeft());
    TickWeight(chosen, TimeLeft());
    SumOfTwo(lost, Tick(chosen).lost, TimeLeft());
  }

  // ----- When is a process overwritten? -----

  /** Every process waits in the queue of its priority. */
  ghost predicate Sorted(cpu: Cpu)
    requires |cpu.lines| == 4
  {
    forall q, i :: 0 <= q < 4 && cpu.lines[q].Some? && 0 <= i < |cpu.lines[q].value.items| ==>
      Level(cpu.lines[q].value.items[i].priority) == q
  }

  /** The coming tick uses up the time slice, but not the process. */
  predicate SliceEnds(t: Task) {
    t.timeSpliceLeft == 1 && t.remainingTime != 1 && t.priority >= 1
  }

  /** Where a process whose slice is over goes. */
  function NextLevel(t: Task): nat {
    if t.priority < 3 then Level(t.priority + 1) else 1
  }

  /** The queue this cycle writes to, if any, told from the state before: that of a process that has to
      make room for a real-time process, or of one whose time slice ends. Among those just chosen that is
      the head of queue 1 only, whose slice is a single unit. */
  function WritesTo(cpu: Cpu, rtUpdated: bool): (q: Option<nat>)
    requires |cpu.lines| == 4
    ensures q.Some? ==> q.value < 4
  {
    if cpu.current.Some? then
      var c := cpu.current.value;
      if c.priority != 0 && rtUpdated then Some(Level(c.priority))
      else if SliceEnds(c) then Some(NextLevel(c)) else None
    else if !rtUpdated && HasHead(cpu.lines[1]) && cpu.lines[1].value.items[0].remainingTime != 1 then Some(2)
    else None
  }

  predicate HeadAtRisk(line: Option<Line<Task>>) {
    line.Some? && line.value.LosesHead()
  }

  lemma TickLoses(cpu: Cpu)
    requires |cpu.lines| == 4 && cpu.current.Some?
    ensures var c := cpu.current.value;
            Tick(cpu).lost ==
            if SliceEnds(c) && HeadAtRisk(cpu.lines[NextLevel(c)]) then [cpu.lines[NextLevel(c)].value.items[0]] else []
  {
  }

  /** A real-time process takes over; it keeps its slice, and so does not queue again in this cycle. */
  lemma PreemptionLoses(cpu: Cpu)
    requires Sound(cpu) && Sorted(cpu) && HasHead(cpu.lines[0])
    requires cpu.current.Some? && cpu.current.value.priority != 0
    ensures Cycle(cpu, true).lost == Requeue(cpu.lines, cpu.current.value).1
  {
    var chosen := Choose(cpu, true).0;
    var head := cpu.lines[0].value.items[0];
    assert Level(head.priority) == 0;
    TickLoses(chosen);
  }

  lemma TakingLoses(cpu: Cpu, rtUpdated: bool)
    requires Sound(cpu) && Sorted(cpu) && cpu.current.None? && (rtUpdated ==> HasHead(cpu.lines[0]))
    ensures Cycle(cpu, rtUpdated).lost ==
            if WritesTo(cpu, rtUpdated).Some? && HeadAtRisk(cpu.lines[2]) then [cpu.lines[2].value.items[0]] else []
  {
    Unrolled(cpu);
    var q := if rtUpdated then 0 else if cpu.lines[1].Some? then 1 else if cpu.lines[2].Some? then 2 else 3;
    if HasHead(cpu.lines[q]) {
      var head := cpu.lines[q].value.items[0];
      assert Level(head.priority) == q;
      TickLoses(Choose(cpu, rtUpdated).0);
    }
  }

  /** A cycle overwrites the head of a queue exactly when the queue it writes to is there, not empty
      and unmarked; then just that process is lost. */
  lemma CycleLosesExactly(cpu: Cpu, rtUpdated: bool)
    requires Sound(cpu) && Sorted(cpu) && (rtUpdated ==> HasHead(cpu.lines[0]))
    ensures var q := WritesTo(cpu, rtUpdated);
            Cycle(cpu, rtUpdated).lost ==
            if q.Some? && HeadAtRisk(cpu.lines[q.value]) then [cpu.lines[q.value].value.items[0]] else []
  {
    hide Cycle, Sorted;
    if cpu.current.None? {
      TakingLoses(cpu, rtUpdated);
    } else if cpu.current.value.priority != 0 && rtUpdated {
      PreemptionLoses(cpu);
    } else {
      RunningOnLoses(cpu, rtUpdated);
    }
  }

  lemma RunningOnLoses(cpu: Cpu, rtUpdated: bool)
    requires |cpu.lines| == 4 && cpu.current.Some? && (cpu.current.value.priority == 0 || !rtUpdated)
    ensures Cycle(cpu, rtUpdated).lost == Tick(cpu).lost
    ensures var c := cpu.current.value;
            Cycle(cpu, rtUpdated).lost ==
            if SliceEnds(c) && HeadAtRisk(cpu.lines[NextLevel(c)]) then [cpu.lines[NextLevel(c)].value.items[0]] else []
  {
    TickLoses(cpu);
  }

  lemma EnqueueSorted(lines: seq<Option<Line<Task>>>, t: Task)
    requires |lines| == 4 && Sorted(Cpu(None, lines))
    ensures Sorted(Cpu(None, Requeue(lines, t).0))
  {
  }

  lemma ChooseSorted(cpu: Cpu, rtUpdated: bool)
    requires Sound(cpu) && Sorted(cpu)
    ensures Sorted(Choose(cpu, rtUpdated).0)
  {
    Unrolled(cpu);
    if cpu.current.Some? {
      EnqueueSorted(cpu.lines, cpu.current.value);
    }
  }

  lemma CycleSorted(cpu: Cpu, rtUpdated: bool)
    requires Sound(cpu) && Sorted(cpu)
    ensures Sorted(Cycle(cpu, rtUpdated).cpu)
  {
    ChooseSorted(cpu, rtUpdated);
    var chosen := Choose(cpu, rtUpdated).0;
    if chosen.current.Some? {
      EnqueueSorted(chosen.lines, Demoted(Burnt(chosen.current.value)));
    }
  }

  /** The processor idles exactly when nobody is running and nobody waits in the one queue looked at:
      that of real-time processes if one has just come, otherwise the first of the others that is there. */
  lemma IdleExactly(cpu: Cpu, rtUpdated: bool)
    requires |cpu.lines| == 4
    ensures Choose(cpu, rtUpdated).0.current.None? <==>
            && cpu.current.None?
            && !HasHead(if rtUpdated then cpu.lines[0]
                        else if cpu.lines[1].Some? then cpu.lines[1]
                        else if cpu.lines[2].Some? then cpu.lines[2] else cpu.lines[3])
  {
    Unrolled(cpu);
  }

  lemma Unrolled(cpu: Cpu)
    requires |cpu.lines| == 4
    ensures TakeFirst(cpu, 1) ==
            var q := if cpu.lines[1].Some? then 1 else if cpu.lines[2].Some? then 2 else 3;
            if HasHead(cpu.lines[q]) then RunHead(cpu, q, q) else cpu
  {
    assert TakeFirst(cpu, 4) == cpu;
  }

  // ----- Whole runs -----

  /** Processes just admitted join their queues, one after the other. */
  function AdmitAll(lines: seq<Option<Line<Task>>>, ts: seq<Task>): (r: (seq<Option<Line<Task>>>, seq<Task>))
    requires |lines| == 4
    ensures |r.0| == 4
  {
    if ts == [] then (lines, [])
    else
      var n := |ts| - 1;
      var (before, lost) := AdmitAll(lines, ts[..n]);
      var (after, more) := Requeue(before, ts[n]);
      (after, lost + more)
  }

  predicate RealTimeAmong(ts: seq<Task>) {
    exists i :: 0 <= i < |ts| && ts[i].priority == 0
  }

  /** One unit of time: the processes admitted in it join their queues, then the processor has its cycle. */
  function Quantum(cpu: Cpu, admitted: seq<Task>): (r: Cycled)
    requires |cpu.lines| == 4
    ensures |r.cpu.lines| == 4
  {
    var (lines, lost) := AdmitAll(cpu.lines, admitted);
    var r := Cycle(Cpu(cpu.current, lines), RealTimeAmong(admitted));
    r.(lost := lost + r.lost)
  }

  /** The system over time: all that were admitted, that finished and that were overwritten, and for
      how many units of time somebody ran. */
  datatype Ledger = Ledger(cpu: Cpu, admitted: seq<Task>, finished: seq<Task>, lost: seq<Task>, busy: nat)

  /** initSystem: nobody runs, all four queues are there and empty. */
  function StartUp(): (cpu: Cpu)
    ensures Sound(cpu) && Sorted(cpu) && forall q :: 0 <= q < 4 ==> cpu.lines[q] == Some(Line(false, []))
  {
    Cpu(None, [Some(Line(false, [])), Some(Line(false, [])), Some(Line(false, [])), Some(Line(false, []))])
  }

  /** `batches` are the processes admitted in each unit of time. */
  function RunAll(batches: seq<seq<Task>>): (h: Ledger)
    ensures |h.cpu.lines| == 4
  {
    if batches == [] then Ledger(StartUp(), [], [], [], 0)
    else
      var n := |batches| - 1;
      var h := RunAll(batches[..n]);
      var r := Quantum(h.cpu, batches[n]);
      var ready := Cpu(h.cpu.current, AdmitAll(h.cpu.lines, batches[n]).0);
      Ledger(r.cpu, h.admitted + batches[n], h.finished + (if r.finished.None? then [] else [r.finished.value]), h.lost + r.lost,
             h.busy + if Choose(ready, RealTimeAmong(batches[n])).0.current.Some? then 1 else 0)
  }

  lemma {:induction false} AdmitAllWeight(lines: seq<Option<Line<Task>>>, ts: seq<Task>, w: Task -> int)
    requires Sound(Cpu(None, lines))
    ensures var (after, lost) := AdmitAll(lines, ts);
            Sound(Cpu(None, after)) && Queued(after, w) + Sum(lost, w) == Queued(lines, w) + Sum(ts, w)
  {
    hide Requeue;
    if ts != [] {
      var n := |ts| - 1;
      AdmitAllWeight(lines, ts[..n], w);
      var (before, lost) := AdmitAll(lines, ts[..n]);
      RequeueWeight(before, ts[n], w);
      SumOfTwo(lost, Requeue(before, ts[n]).1, w);
      SumOfTwo(ts[..n], [ts[n]], w);
      assert ts == ts[..n] + [ts[n]];
    }
  }

  /** After a real-time process was admitted one is waiting, as the processor assumes. */
  lemma {:induction false} RealTimeWaits(lines: seq<Option<Line<Task>>>, ts: seq<Task>)
    requires |lines| == 4 && RealTimeAmong(ts)
    ensures HasHead(AdmitAll(lines, ts).0[0])
  {
    var n := |ts| - 1;
    if ts[n].priority != 0 {
      var i :| 0 <= i < |ts| && ts[i].priority == 0;
      assert ts[..n][i].priority == 0;
      RealTimeWaits(lines, ts[..n]);
    }
  }

  lemma QuantumBalances(cpu: Cpu, ts: seq<Task>, pid: int)
    requires Sound(cpu)
    ensures var r, ready := Quantum(cpu, ts), Cpu(cpu.current, AdmitAll(cpu.lines, ts).0);
            && Sound(r.cpu) && Balanced(cpu, r, Sum(ts, OfPid(pid)), OfPid(pid))
            && var ran := if Choose(ready, RealTimeAmong(ts)).0.current.Some? then 1 else 0;
               Balanced(cpu, r, Sum(ts, TimeLeft()) - ran, TimeLeft())
  {
    var (lines, lost) := AdmitAll(cpu.lines, ts);
    var ready := Cpu(cpu.current, lines);
    AdmitAllWeight(cpu.lines, ts, OfPid(pid));
    AdmitAllWeight(cpu.lines, ts, TimeLeft());
    if RealTimeAmong(ts) {
      RealTimeWaits(cpu.lines, ts);
    }
    CycleBalances(ready, RealTimeAmong(ts), pid);
    SumOfTwo(lost, Cycle(ready, RealTimeAmong(ts)).lost, OfPid(pid));
    SumOfTwo(lost, Cycle(ready, RealTimeAmong(ts)).lost, TimeLeft());
  }

  ghost predicate Accounted(h: Ledger, ran: int, w: Task -> int)
    requires |h.cpu.lines| == 4
  {
    Sum(h.admitted, w) == Total(h.cpu, w) + Sum(h.finished, w) + Sum(h.lost, w) + ran
  }

  lemma NextAccounted(h: Ledger, cpu: Cpu, r: Cycled, ts: seq<Task>, before: int, ran: int, w: Task -> int, h': Ledger)
    requires |h.cpu.lines| == |r.cpu.lines| == 4 && Accounted(h, before, w)
    requires Balanced(h.cpu, r, Sum(ts, w) - ran, w)
    requires h'.cpu == r.cpu && h'.admitted == h.admitted + ts && h'.lost == h.lost + r.lost
    requires h'.finished == h.finished + if r.finished.None? then [] else [r.finished.value]
    ensures Accounted(h', before + ran, w)
  {
    SumOfTwo(h.admitted, ts, w);
    SumOfTwo(h.lost, r.lost, w);
    SumOfTwo(h.finished, if r.finished.None? then [] else [r.finished.value], w);
  }

  /** From start-up, whatever is admitted and when: every process admitted is on the processor or in
      the queues, or has finished, or is one that was overwritten, each as often as it was admitted; and
      the work admitted is the work left, the work lost with the overwritten, and one unit per busy cycle. */
  lemma {:induction false} EveryRunBalances(batches: seq<seq<Task>>, pid: int)
    ensures var h := RunAll(batches);
            Sound(h.cpu) && Accounted(h, 0, OfPid(pid)) && Accounted(h, h.busy, TimeLeft())
  {
    if batches != [] {
      var n := |batches| - 1;
      var h, h' := RunAll(batches[..n]), RunAll(batches);
      EveryRunBalances(batches[..n], pid);
      QuantumBalances(h.cpu, batches[n], pid);
      var r := Quantum(h.cpu, batches[n]);
      NextAccounted(h, h.cpu, r, batches[n], 0, 0, OfPid(pid), h');
      NextAccounted(h, h.cpu, r, batches[n], h.busy, h'.busy - h.busy, TimeLeft(), h');
    }
  }

  lemma {:induction false} AdmitAllSorted(lines: seq<Option<Line<Task>>>, ts: seq<Task>)
    requires |lines| == 4 && Sorted(Cpu(None, lines))
    ensures Sorted(Cpu(None, AdmitAll(lines, ts).0))
  {
    if ts != [] {
      var n := |ts| - 1;
      AdmitAllSorted(lines, ts[..n]);
      EnqueueSorted(AdmitAll(lines, ts[..n]).0, ts[n]);
    }
  }

  ghost predicate Waits(cpu: Cpu, q: nat, t: Task)
    requires |cpu.lines| == 4 && q < 4
  {
    cpu.lines[q].Some? && t in cpu.lines[q].value.items
  }

  /** In every run every process waits in the queue of its priority, so that CycleLosesExactly applies. */
  lemma EveryRunIsSorted(batches: seq<seq<Task>>)
    ensures var cpu := RunAll(batches).cpu;
            && Sound(cpu) && Sorted(cpu)
            && (forall t :: Waits(cpu, 0, t) ==> t.priority == 0)
            && (forall t :: Waits(cpu, 1, t) ==> t.priority == 1)
            && (forall t :: Waits(cpu, 2, t) ==> t.priority == 2)
            && (forall t :: Waits(cpu, 3, t) ==> t.priority !in {0, 1, 2})
  {
    RunKeepsSorted(batches);
  }

  lemma {:induction false} RunKeepsSorted(batches: seq<seq<Task>>)
    ensures var h := RunAll(batches); Sound(h.cpu) && Sorted(h.cpu)
  {
    EveryRunBalances(batches, 0);
    if batches != [] {
      var n := |batches| - 1;
      var h := RunAll(batches[..n]);
      RunKeepsSorted(batches[..n]);
      AdmitAllSorted(h.cpu.lines, batches[n]);
      AdmitAllWeight(h.cpu.lines, batches[n], TimeLeft());
      CycleSorted(Cpu(h.cpu.current, AdmitAll(h.cpu.lines, batches[n]).0), RealTimeAmong(batches[n]));
    }
  }

  // ----- How long a process runs -----

  /** The last of these units of time, from this state on. */
  function LastOf(cpu: Cpu, batches: seq<seq<Task>>): (r: Cycled)
    requires |cpu.lines| == 4 && batches != []
    ensures |r.cpu.lines| == 4
    decreases |batches|
  {
    var r := Quantum(cpu, batches[0]);
    if |batches| == 1 then r else LastOf(r.cpu, batches[1..])
  }

  ghost predicate NoRealTime(batches: seq<seq<Task>>) {
    forall k :: 0 <= k < |batches| ==> !RealTimeAmong(batches[k])
  }

  lemma RequeuedWaits(lines: seq<Option<Line<Task>>>, t: Task)
    requires |lines| == 4
    ensures var after := Requeue(lines, t).0[Level(t.priority)]; after.Some? && t in after.value.items
  {
    var items := Requeue(lines, t).0[Level(t.priority)].value.items;
    assert items[0] == t || items[|items| - 1] == t;
  }

  lemma StepOn(cpu: Cpu, ts: seq<Task>)
    requires |cpu.lines| == 4 && cpu.current.Some? && (cpu.current.value.priority == 0 || !RealTimeAmong(ts))
    ensures var c, r := cpu.current.value, Quantum(cpu, ts);
            && (c.remainingTime == 1 ==> r.cpu.current == None && r.finished == Some(Burnt(c)))
            && (c.remainingTime != 1 && !(c.timeSpliceLeft == 1 && c.priority >= 1) ==>
                  r.cpu.current == Some(Burnt(c)) && r.finished == None)
            && (SliceEnds(c) ==> r.cpu.current == None && r.finished == None && Waits(r.cpu, NextLevel(c), Demoted(Burnt(c))))
  {
    var c := cpu.current.value;
    RequeuedWaits(AdmitAll(cpu.lines, ts).0, Demoted(Burnt(c)));
  }

  /** A process of priority 1 or more on the processor that is not interrupted: it goes on until its work
      or its slice is used up, and then is finished or waits in the queue one level down, or in queue 1. */
  lemma {:induction false} RunsItsSlice(cpu: Cpu, batches: seq<seq<Task>>)
    requires |cpu.lines| == 4 && cpu.current.Some? && cpu.current.value.priority >= 1 && NoRealTime(batches)
    requires 0 < |batches| <= cpu.current.value.timeSpliceLeft
    requires !(0 < cpu.current.value.remainingTime < |batches|)
    decreases |batches|
    ensures var c, n, r := cpu.current.value, |batches|, LastOf(cpu, batches);
            if c.remainingTime == n then
              r.cpu.current == None && r.finished == Some(c.(timeSpliceLeft := c.timeSpliceLeft - n, remainingTime := 0))
            else if c.timeSpliceLeft == n then
              && r.cpu.current == None && r.finished == None
              && var left := c.(timeSpliceLeft := 0, remainingTime := c.remainingTime - n);
                 && (c.priority == 1 ==> Waits(r.cpu, 2, left.(priority := 2)))
                 && (c.priority == 2 ==> Waits(r.cpu, 3, left.(priority := 3)))
                 && (c.priority >= 3 ==> Waits(r.cpu, 1, left.(priority := 1, timeSpliceLeft := 3)))
            else
              && r.finished == None
              && r.cpu.current == Some(c.(timeSpliceLeft := c.timeSpliceLeft - n, remainingTime := c.remainingTime - n))
  {
    hide Quantum, Waits;
    StepOn(cpu, batches[0]);
    if |batches| > 1 {
      RunsItsSlice(Quantum(cpu, batches[0]).cpu, batches[1..]);
    }
  }

  /** A real-time process, or one of a priority below that, keeps the processor until its work is done; a
      real-time process even when others come. */
  lemma {:induction false} RunsToTheEnd(cpu: Cpu, batches: seq<seq<Task>>)
    requires |cpu.lines| == 4 && cpu.current.Some? && cpu.current.value.priority <= 0
    requires cpu.current.value.priority == 0 || NoRealTime(batches)
    requires batches != [] && !(0 < cpu.current.value.remainingTime < |batches|)
    decreases |batches|
    ensures var c, n, r := cpu.current.value, |batches|, LastOf(cpu, batches);
            var left := c.(timeSpliceLeft := c.timeSpliceLeft - n, remainingTime := c.remainingTime - n);
            if c.remainingTime == n then r.cpu.current == None && r.finished == Some(left)
            else r.cpu.current == Some(left) && r.finished == None
  {
    hide Quantum, Waits;
    StepOn(cpu, batches[0]);
    if |batches| > 1 {
      RunsToTheEnd(Quantum(cpu, batches[0]).cpu, batches[1..]);
    }
  }

  /** Queue q is the first of the three that is there, and t is at its head. */
  predicate NextIs(lines: seq<Option<Line<Task>>>, q: nat, t: Task)
    requires |lines| == 4
  {
    1 <= q <= 3 && HasHead(lines[q]) && lines[q].value.items[0] == t && forall r :: 1 <= r < q ==> lines[r].None?
  }

  lemma NextIsOneOfThree(lines: seq<Option<Line<Task>>>, q: nat, t: Task)
    requires |lines| == 4 && NextIs(lines, q, t)
    ensures 1 <= q <= 3
  {
  }

  /** Taking a process is as if it had been on the processor with a slice of 1, 2 or 3 already. */
  lemma TakenAsRunning(cpu: Cpu, ts: seq<Task>, q: nat, t: Task) returns (running: Cpu)
    requires |cpu.lines| == 4 && cpu.current.None? && !RealTimeAmong(ts) && NextIs(AdmitAll(cpu.lines, ts).0, q, t)
    ensures |running.lines| == 4 && !RealTimeAmong([])
    ensures running.current == Some(t.(timeSpliceLeft := if q == 1 then 1 else if q == 2 then 2 else 3))
    ensures Quantum(running, []).cpu == Quantum(cpu, ts).cpu && Quantum(running, []).finished == Quantum(cpu, ts).finished
  {
    var lines := AdmitAll(cpu.lines, ts).0;
    Unrolled(Cpu(None, lines));
    running := Choose(Cpu(None, lines), false).0;
  }

  /** With nobody on the processor and no real-time arrivals, the head of the first of queues 1, 2 and 3
      that is there runs for exactly 1, 2 or 3 units of time, or for as long as it still needs if that is
      less. Then it is finished or waits in the queue of the next lower priority; from the lowest, in queue 1. */
  lemma TakenRunsItsSlice(cpu: Cpu, batches: seq<seq<Task>>, q: nat, t: Task)
    requires |cpu.lines| == 4 && cpu.current.None? && NoRealTime(batches) && t.priority >= 1
    requires batches != [] && NextIs(AdmitAll(cpu.lines, batches[0]).0, q, t) && |batches| <= q
    requires !(0 < t.remainingTime < |batches|)
    ensures var n, r := |batches|, LastOf(cpu, batches);
            if t.remainingTime == n then
              r.cpu.current == None && r.finished == Some(t.(timeSpliceLeft := q - n, remainingTime := 0))
            else if n == q then
              && r.cpu.current == None && r.finished == None
              && var left := t.(timeSpliceLeft := 0, remainingTime := t.remainingTime - n);
                 && (t.priority == 1 ==> Waits(r.cpu, 2, left.(priority := 2)))
                 && (t.priority == 2 ==> Waits(r.cpu, 3, left.(priority := 3)))
                 && (t.priority >= 3 ==> Waits(r.cpu, 1, left.(priority := 1, timeSpliceLeft := 3)))
            else
              r.finished == None && r.cpu.current == Some(t.(timeSpliceLeft := q - n, remainingTime := t.remainingTime - n))
  {
    hide Quantum, Waits, NextIs, AdmitAll;
    var running := TakenAsRunning(cpu, batches[0], q, t);
    assert 1 <= q <= 3 by {
      NextIsOneOfThree(AdmitAll(cpu.lines, batches[0]).0, q, t);
    }
    RunsItsSlice(running, [[]] + batches[1..]);
    assert ([[]] + batches[1..])[1..] == batches[1..];
  }

  /** When a real-time process comes and none is running, the one at the head of their queue takes over
      at once, and whoever was running waits in the queue of its priority, with what is left of its slice. */
  lemma RealTimeTakesOver(cpu: Cpu, ts: seq<Task>, t: Task)
    requires |cpu.lines| == 4 && RealTimeAmong(ts) && (cpu.current.Some? ==> cpu.current.value.priority != 0)
    requires var rt := AdmitAll(cpu.lines, ts).0[0]; HasHead(rt) && rt.value.items[0] == t && t.priority == 0
    ensures var r, left := Quantum(cpu, ts), t.(timeSpliceLeft := t.remainingTime - 1, remainingTime := t.remainingTime - 1);
            && (if t.remainingTime == 1 then r.cpu.current == None && r.finished == Some(left)
                else r.cpu.current == Some(left) && r.finished == None)
            && (cpu.current.Some? ==>
                  var c := cpu.current.value;
                  && (c.priority == 1 ==> Waits(r.cpu, 1, c)) && (c.priority == 2 ==> Waits(r.cpu, 2, c))
                  && (c.priority !in {0, 1, 2} ==> Waits(r.cpu, 3, c)))
  {
    hide AdmitAll;
    var ready := Cpu(cpu.current, AdmitAll(cpu.lines, ts).0);
    var chosen := Choose(ready, true).0;
    ChooseRealTime(ready, t);
    assert Tick(chosen).cpu.lines == chosen.lines;
  }

  lemma ChooseRealTime(cpu: Cpu, t: Task)
    requires |cpu.lines| == 4 && (cpu.current.Some? ==> cpu.current.value.priority != 0)
    requires HasHead(cpu.lines[0]) && cpu.lines[0].value.items[0] == t
    ensures var chosen := Choose(cpu, true).0;
            && chosen.current == Some(t.(timeSpliceLeft := t.remainingTime))
            && (cpu.current.Some? ==> var c := cpu.current.value;
                                      Waits(chosen, if c.priority == 1 then 1 else if c.priority == 2 then 2 else 3, c))
  {
    if cpu.current.Some? {
      RequeuedWaits(cpu.lines, cpu.current.value);
    }
  }

  // ----- Starvation -----

  /** Those of the given level, in order. */
  function OfLevel(ts: seq<Task>, q: nat): (r: seq<Task>) {
    if ts == [] then []
    else OfLevel(ts[..|ts| - 1], q) + if Level(ts[|ts| - 1].priority) == q then [ts[|ts| - 1]] else []
  }

  lemma {:induction false} AdmitAllByLevel(lines: seq<Option<Line<Task>>>, ts: seq<Task>, q: nat)
    requires |lines| == 4 && q < 4
    ensures AdmitAll(lines, ts).0[q] == EnqueueAll(lines[q], OfLevel(ts, q))
  {
    if ts != [] {
      var n := |ts| - 1;
      AdmitAllByLevel(lines, ts[..n], q);
      if Level(ts[n].priority) == q {
        EnqueueAllNext(lines[q], OfLevel(ts[..n], q), ts[n]);
      } else {
        assert OfLevel(ts[..n], q) + [] == OfLevel(ts[..n], q);
      }
    }
  }

  /** Only real-time processes run, and the queue of priority 1 is there but empty. */
  ghost predicate Blocked(cpu: Cpu) {
    && |cpu.lines| == 4 && Sorted(cpu) && cpu.lines[1] == Some(Line(false, []))
    && (cpu.current.Some? ==> cpu.current.value.priority == 0)
  }

  ghost predicate NoneOfLevel(ts: seq<Task>, q: nat) {
    forall i :: 0 <= i < |ts| ==> Level(ts[i].priority) != q
  }

  lemma {:induction false} NothingOfLevel(ts: seq<Task>, q: nat)
    requires NoneOfLevel(ts, q)
    ensures OfLevel(ts, q) == []
  {
    if ts != [] {
      NothingOfLevel(ts[..|ts| - 1], q);
    }
  }

  lemma BlockedCycle(cpu: Cpu, rtUpdated: bool)
    requires Blocked(cpu)
    ensures var r := Cycle(cpu, rtUpdated);
            && Blocked(r.cpu) && r.cpu.lines[2] == cpu.lines[2] && r.cpu.lines[3] == cpu.lines[3]
            && (r.finished.Some? ==> r.finished.value.priority == 0)
  {
    Unrolled(cpu);
  }

  /** As long as nobody of priority 1 is admitted, real-time processes come and go, and the queues of
      priority 2 and 3 only grow. */
  lemma BlockedQuantum(cpu: Cpu, ts: seq<Task>)
    requires Blocked(cpu) && NoneOfLevel(ts, 1)
    ensures var r := Quantum(cpu, ts);
            && Blocked(r.cpu) && (r.finished.Some? ==> r.finished.value.priority == 0)
            && r.cpu.lines[2] == EnqueueAll(cpu.lines[2], OfLevel(ts, 2))
            && r.cpu.lines[3] == EnqueueAll(cpu.lines[3], OfLevel(ts, 3))
  {
    NothingOfLevel(ts, 1);
    AdmitAllByLevel(cpu.lines, ts, 1);
    AdmitAllByLevel(cpu.lines, ts, 2);
    AdmitAllByLevel(cpu.lines, ts, 3);
    AdmitAllSorted(cpu.lines, ts);
    BlockedCycle(Cpu(cpu.current, AdmitAll(cpu.lines, ts).0), RealTimeAmong(ts));
  }

  lemma {:induction false} OfLevelOfTwo(a: seq<Task>, b: seq<Task>, q: nat)
    ensures OfLevel(a + b, q) == OfLevel(a, q) + OfLevel(b, q)
  {
    if b == [] {
      assert a + b == a;
      assert OfLevel(a, q) + [] == OfLevel(a, q);
    } else {
      var n := |b| - 1;
      assert (a + b)[..|a + b| - 1] == a + b[..n];
      OfLevelOfTwo(a, b[..n], q);
    }
  }

  /** All of this level who were ever admitted are waiting as they came, in order; first to last untouched. */
  ghost predicate AllWaiting(h: Ledger, q: nat)
    requires |h.cpu.lines| == 4 && q < 4
  {
    h.cpu.lines[q] == Some(Built(OfLevel(h.admitted, q)))
  }

  lemma GrowsBuilt(items: seq<Task>, more: seq<Task>)
    ensures EnqueueAll(Some(Built(items)), more) == Some(Built(items + more))
  {
    EnqueueAllAppends(Some(Built(items)), more);
    assert items + [] == items;
  }

  /** From start-up, in every run in which nobody of priority 1 is admitted: nobody but real-time
      processes ever runs, and all others wait for ever, as they came. */
  lemma {:induction false} LowerPrioritiesStarve(batches: seq<seq<Task>>)
    requires forall n :: 0 <= n < |batches| ==> NoneOfLevel(batches[n], 1)
    ensures var h := RunAll(batches);
            && Blocked(h.cpu) && AllWaiting(h, 2) && AllWaiting(h, 3)
            && forall i :: 0 <= i < |h.finished| ==> h.finished[i].priority == 0
  {
    if batches != [] {
      var n := |batches| - 1;
      var h := RunAll(batches[..n]);
      LowerPrioritiesStarve(batches[..n]);
      BlockedQuantum(h.cpu, batches[n]);
      OfLevelOfTwo(h.admitted, batches[n], 2);
      OfLevelOfTwo(h.admitted, batches[n], 3);
      GrowsBuilt(OfLevel(h.admitted, 2), OfLevel(batches[n], 2));
      GrowsBuilt(OfLevel(h.admitted, 3), OfLevel(batches[n], 3));
    }
  }

  /** One process in the first unit of time, and nobody in the n that follow. */
  function Alone(t: Task, n: nat): (batches: seq<seq<Task>>)
    ensures |batches| == n + 1 && batches[0] == [t] && forall k :: 0 < k <= n ==> batches[k] == []
  {
    if n == 0 then [[t]] else Alone(t, n - 1) + [[]]
  }

  lemma {:induction false} AloneAdmitted(t: Task, n: nat)
    ensures RunAll(Alone(t, n)).admitted == [t]
  {
    var batches := Alone(t, n);
    if n == 0 {
      assert batches[..0] == [];
      assert [] + [t] == [t];
    } else {
      AloneAdmitted(t, n - 1);
      assert batches[..n] == Alone(t, n - 1);
      assert [t] + [] == [t];
    }
  }

  /** So a process of priority 2 or lower that is alone in the system never runs, however long one waits. */
  lemma AloneAndWaiting(t: Task, n: nat)
    requires t.priority !in {0, 1}
    ensures RunAll(Alone(t, n)).cpu.lines[if t.priority == 2 then 2 else 3] == Some(Line(true, [t]))
  {
    hide RunAll;
    LowerPrioritiesStarve(Alone(t, n));
    AloneAdmitted(t, n);
    assert OfLevel([t], if t.priority == 2 then 2 else 3) == [t] by {
      assert [t][..0] == [];
    }
  }
}
