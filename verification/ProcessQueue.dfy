/** The linked queue of processes, and what its head flag does to first-in first-out order. */
module ProcessQueue {
  import opened Wrappers
  import opened HostResources

  // ----- What the operations mean -----

  /** A queue: is its head marked, and what does it hold. Only a queue that holds something is ever marked. */
  datatype Line<+T> = Line(marked: bool, items: seq<T>) {
    ghost predicate Ok() {
      marked ==> items != []
    }

    /** Without the mark the head is overwritten. */
    function Enqueue(x: T): (r: Line<T>)
      ensures r.Ok() && r.marked
    {
      Line(true, if marked then items + [x] else if items == [] then [x] else items[0 := x])
    }

    predicate LosesHead() {
      !marked && items != []
    }
  }

  /** The head leaves, and its successor is not marked; a queue that runs empty is gone. */
  function Dequeue<T>(q: Line<T>): (r: (Option<Line<T>>, Option<T>))
    ensures r.0.Some? ==> r.0.value.Ok()
    ensures r.1.None? <==> q.items == []
    ensures r.1.Some? ==> q.items == [r.1.value] + if r.0.None? then [] else r.0.value.items
  {
    if q.items == [] then (Some(Line(false, [])), None)
    else if |q.items| == 1 then (None, Some(q.items[0]))
    else (Some(Line(false, q.items[1..])), Some(q.items[0]))
  }

  datatype Op<T> = Put(x: T) | Take

  /** A queue variable over time: the queue, if there is one, all that was put in, all that was taken
      out, and how many heads were overwritten. */
  datatype History<T> = History(line: Option<Line<T>>, put: seq<T>, taken: seq<T>, lost: nat) {
    function Items(): seq<T> {
      if line.None? then [] else line.value.items
    }
  }

  /** A put on a queue that is gone starts a new one; a take needs a queue. */
  function Perform<T>(h: History<T>, op: Op<T>): History<T> {
    match op
    case Put(x) =>
      var q := if h.line.None? then Line(false, []) else h.line.value;
      History(Some(q.Enqueue(x)), h.put + [x], h.taken, h.lost + if q.LosesHead() then 1 else 0)
    case Take =>
      if h.line.None? then h
      else
        var r := Dequeue(h.line.value);
        History(r.0, h.put, if r.1.None? then h.taken else h.taken + [r.1.value], h.lost)
  }

  function PerformAll<T>(h: History<T>, ops: seq<Op<T>>): History<T>
    decreases |ops|
  {
    if ops == [] then h else PerformAll(Perform(h, ops[0]), ops[1..])
  }

  function Empty<T>(): History<T> {
    History(Some(Line(false, [])), [], [], 0)
  }

  ghost predicate Tallied<T>(h: History<T>) {
    && (h.line.Some? ==> h.line.value.Ok())
    && |h.put| == |h.taken| + |h.Items()| + h.lost
    && (h.lost == 0 ==> h.put == h.taken + h.Items())
  }

  lemma {:induction false} PerformAllTallies<T>(h: History<T>, ops: seq<Op<T>>)
    requires Tallied(h)
    ensures Tallied(PerformAll(h, ops))
    decreases |ops|
  {
    if ops != [] {
      PerformTallies(h, ops[0]);
      PerformAllTallies(Perform(h, ops[0]), ops[1..]);
    }
  }

  lemma PerformTallies<T>(h: History<T>, op: Op<T>)
    requires Tallied(h)
    ensures Tallied(Perform(h, op))
  {
    match op {
      case Put(x) => PutTallies(h, x);
      case Take => TakeTallies(h);
    }
  }

  lemma PutTallies<T>(h: History<T>, x: T)
    requires Tallied(h)
    ensures Tallied(Perform(h, Put(x)))
  {
    var r := Perform(h, Put(x));
    if r.lost == h.lost {
      assert r.Items() == h.Items() + [x];
      Associative(h.taken, h.Items(), [x]);
    }
  }

  lemma TakeTallies<T>(h: History<T>)
    requires Tallied(h)
    ensures Tallied(Perform(h, Take))
  {
    var r := Perform(h, Take);
    if h.Items() != [] {
      assert h.Items() == [h.Items()[0]] + r.Items();
      Associative(h.taken, [h.Items()[0]], r.Items());
    }
  }

  lemma Associative<T>(a: seq<T>, b: seq<T>, c: seq<T>)
    ensures a + b + c == a + (b + c)
  {
  }

  lemma {:induction false} PerformAllNext<T>(h: History<T>, ops: seq<Op<T>>, op: Op<T>)
    ensures PerformAll(h, ops + [op]) == Perform(PerformAll(h, ops), op)
    decreases |ops|
  {
    if ops == [] {
      assert [op][1..] == [];
    } else {
      assert (ops + [op])[0] == ops[0] && (ops + [op])[1..] == ops[1..] + [op];
      PerformAllNext(Perform(h, ops[0]), ops[1..], op);
    }
  }

  /** A count of what should be waiting, kept from the operations alone: a take when nothing waits takes nothing. */
  function Pending<T>(ops: seq<Op<T>>): nat {
    if ops == [] then 0
    else
      var before := Pending(ops[..|ops| - 1]);
      if ops[|ops| - 1].Put? then before + 1 else if before == 0 then 0 else before - 1
  }

  /** Operation k is a put, and the one before it a take that left something behind. */
  predicate PutAfterTake<T>(ops: seq<Op<T>>, k: int)
    requires 0 < k < |ops|
  {
    ops[k].Put? && ops[k - 1].Take? && Pending(ops[..k]) > 0
  }

  /** Once takes have begun, nothing is put in until the queue is drained. */
  ghost predicate DrainedBeforeRefill<T>(ops: seq<Op<T>>) {
    forall k :: 0 < k < |ops| ==> !PutAfterTake(ops, k)
  }

  lemma RefillNext<T>(ops: seq<Op<T>>)
    requires ops != []
    ensures var n := |ops| - 1;
            DrainedBeforeRefill(ops) <==> DrainedBeforeRefill(ops[..n]) && (n == 0 || !PutAfterTake(ops, n))
  {
    var n := |ops| - 1;
    forall k | 0 < k < n
      ensures PutAfterTake(ops[..n], k) <==> PutAfterTake(ops, k)
    {
      assert ops[..n][..k] == ops[..k];
    }
  }

  /** The counter is right, and the head is unmarked after a take only, as long as nothing is overwritten. */
  lemma {:induction false} LossFreeExactly<T>(ops: seq<Op<T>>)
    ensures var h := PerformAll(Empty(), ops);
            && (h.lost == 0 <==> DrainedBeforeRefill(ops))
            && (h.lost == 0 ==>
                  && |h.Items()| == Pending(ops)
                  && (h.Items() != [] ==> (h.line.value.marked <==> ops != [] && ops[|ops| - 1].Put?)))
    decreases |ops|
  {
    if ops != [] {
      var n := |ops| - 1;
      LossFreeExactly(ops[..n]);
      RefillNext(ops);
      assert ops == ops[..n] + [ops[n]];
      PerformAllNext(Empty(), ops[..n], ops[n]);
    }
  }

  /** Over any run each overwritten head is one process lost, and the queue is first-in first-out
      exactly when each put that comes right after a take finds the queue drained. */
  lemma FifoExactly<T>(ops: seq<Op<T>>)
    ensures var h := PerformAll(Empty(), ops);
            && |h.put| == |h.taken| + |h.Items()| + h.lost
            && (h.put == h.taken + h.Items() <==> DrainedBeforeRefill(ops))
  {
    PerformAllTallies(Empty<T>(), ops);
    LossFreeExactly(ops);
  }

  /** Fill first, drain later: first-in first-out, in whatever state draining stops. */
  lemma FillThenDrain<T>(ops: seq<Op<T>>, n: nat)
    requires n <= |ops| && (forall k :: 0 <= k < |ops| ==> (ops[k].Put? <==> k < n))
    ensures var h := PerformAll(Empty(), ops); h.put == h.taken + h.Items()
  {
    FifoExactly(ops);
  }

  /** Mixed use: a put after a take that left something behind destroys the new head. */
  lemma MixedUseLoses<T>(a: T, b: T, c: T)
    ensures var h := PerformAll(Empty(), [Put(a), Put(b), Take, Put(c)]);
            h.taken == [a] && h.Items() == [c] && h.lost == 1
  {
    var ops := [Put(a), Put(b), Take, Put(c)];
    var h1 := Perform(Empty(), ops[0]);
    var h2 := Perform(h1, ops[1]);
    var h3 := Perform(h2, ops[2]);
    assert ops[1..] == [Put(b), Take, Put(c)] && ops[1..][1..] == [Take, Put(c)] && ops[1..][1..][1..] == [Put(c)];
    assert ops[1..][1..][1..][1..] == [];
    calc {
      PerformAll(Empty(), ops);
      PerformAll(h1, ops[1..]);
      PerformAll(h2, ops[1..][1..]);
      PerformAll(h3, ops[1..][1..][1..]);
      Perform(h3, Put(c));
    }
  }

  // ----- The linked structure -----

  class Queue {
    var isHead: bool
    var next: Queue?
    var process: PCB?

    /** initializeQueue */
    constructor ()
      ensures !isHead && next == null && process == null
    {
      isHead, next, process := false, null, null;
    }
  }

  ghost predicate Linked(nodes: seq<Queue>)
    reads nodes
  {
    && |nodes| > 0
    && (forall i, j :: 0 <= i < j < |nodes| ==> nodes[i] != nodes[j])
    && forall i :: 0 <= i < |nodes| ==> nodes[i].next == Successor(nodes, i)
  }

  ghost function Successor(nodes: seq<Queue>, i: nat): Queue? {
    if i + 1 < |nodes| then nodes[i + 1] else null
  }

  /** The nodes hold the line: one each, and only the first may be marked. A line of nothing is a
      single node without a process. */
  ghost predicate Represents(nodes: seq<Queue>, q: Line<PCB>)
    reads nodes
  {
    && Linked(nodes) && q.Ok()
    && (forall i :: 0 <= i < |nodes| ==> (nodes[i].isHead <==> i == 0 && q.marked))
    && (if q.items == [] then |nodes| == 1 && nodes[0].process == null
        else |nodes| == |q.items| && forall i :: 0 <= i < |nodes| ==> nodes[i].process == q.items[i])
  }

  method EnqueueProcess(queuePtr: Queue, currentProcess: PCB, ghost nodes: seq<Queue>, ghost q: Line<PCB>)
    returns (ghost nodes': seq<Queue>)
    requires Represents(nodes, q) && |nodes| > 0 && nodes[0] == queuePtr
    modifies nodes
    ensures Represents(nodes', q.Enqueue(currentProcess)) && |nodes'| > 0 && nodes'[0] == queuePtr
    ensures forall n :: n in nodes' ==> n in nodes || fresh(n)
  {
    if !queuePtr.isHead {
      queuePtr.process := currentProcess;
      queuePtr.isHead := true;
      nodes' := nodes;
    } else {
      var iter := queuePtr;
      ghost var i := 0;
      while iter.next != null
        invariant 0 <= i < |nodes| && iter == nodes[i]
        decreases |nodes| - i
      {
        iter := iter.next;
        i := i + 1;
      }
      var node := new Queue();
      node.process := currentProcess;
      iter.next := node;
      nodes' := nodes + [node];
    }
  }

  /** A queue variable, the nodes it leads to and the line they hold; None once the queue is gone. */
  class Handle {
    var queue: Queue?
    ghost var nodes: seq<Queue>
    ghost var line: Option<Line<PCB>>
    /** Every node the variable ever led to. */
    ghost var owned: set<Queue>

    ghost predicate Valid()
      reads this, owned
    {
      && (forall i :: 0 <= i < |nodes| ==> nodes[i] in owned)
      && if queue == null then nodes == [] && line.None?
         else line.Some? && Represents(nodes, line.value) && |nodes| > 0 && nodes[0] == queue
    }

    /** A variable that holds a new queue (initializeQueue) */
    constructor ()
      ensures Valid() && fresh(owned) && line == Some(Line(false, []))
    {
      var node := new Queue();
      queue, nodes, line, owned := node, [node], Some(Line(false, [])), {node};
    }

    /** A second variable that holds the same queue */
    constructor Copy(other: Handle)
      requires other.Valid()
      ensures Valid() && owned == other.owned && queue == other.queue && nodes == other.nodes && line == other.line
    {
      queue, nodes, line, owned := other.queue, other.nodes, other.line, other.owned;
    }

    method Enqueue(process: PCB)
      requires Valid() && queue != null
      modifies this, owned
      ensures Valid() && fresh(owned - old(owned)) && old(owned) <= owned && queue == old(queue)
      ensures line == Some(old(line).value.Enqueue(process))
    {
      hide Represents, Linked;
      ghost var q := line.value;
      ghost var after := EnqueueProcess(queue, process, nodes, q);
      nodes, line := after, Some(q.Enqueue(process));
      owned := owned + set n | n in after;
    }
  }

  /** What the first node shows of the line, and the line without it. */
  lemma BehindTheHead(nodes: seq<Queue>, q: Line<PCB>)
    requires Represents(nodes, q)
    ensures |nodes| > 0 && (nodes[0].process == null <==> q.items == [])
    ensures q.items == [] ==> Dequeue(q) == (Some(q), None)
    ensures q.items != [] ==>
              && q.items[0] == nodes[0].process
              && if nodes[0].next == null then nodes[1..] == [] && Dequeue(q).0 == None
                 else |nodes| > 1 && nodes[1] == nodes[0].next
                      && Dequeue(q).0.Some? && Represents(nodes[1..], Dequeue(q).0.value)
  {
    if q.items != [] && nodes[0].next != null {
      var rest := nodes[1..];
      assert forall i :: 0 <= i < |rest| ==> rest[i] == nodes[i + 1];
      assert forall i :: 0 <= i < |rest| ==> rest[i].next == Successor(rest, i);
    }
  }

  /** Only the variable moves on; the nodes stay as they are. */
  method DequeueProcess(queuePtrAddress: Handle) returns (head: Queue?)
    requires queuePtrAddress.Valid() && queuePtrAddress.queue != null
    modifies queuePtrAddress
    ensures queuePtrAddress.Valid() && queuePtrAddress.owned == old(queuePtrAddress.owned)
    ensures var r := Dequeue(old(queuePtrAddress.line).value);
            && queuePtrAddress.line == r.0
            && (head == null <==> r.1 == None) && (head != null ==> r.1 == Some(head.process))
  {
    hide Represents;
    BehindTheHead(queuePtrAddress.nodes, queuePtrAddress.line.value);
    var queue := queuePtrAddress.queue;
    if queue.process == null {
      return null;
    }
    ghost var nodes := queuePtrAddress.nodes;
    if queue.next == null {
      queuePtrAddress.queue := null;
    } else {
      queuePtrAddress.queue := queue.next;
    }
    queuePtrAddress.nodes := nodes[1..];
    queuePtrAddress.line := Dequeue(queuePtrAddress.line.value).0;
    return queue;
  }

  method NumElems(queuePtr: Queue?, ghost nodes: seq<Queue>) returns (count: nat)
    requires (queuePtr == null <==> nodes == []) && (queuePtr != null ==> Linked(nodes) && nodes[0] == queuePtr)
    ensures count == |nodes|
  {
    if queuePtr == null {
      return 0;
    }
    var cursor := queuePtr;
    count := 1;
    while cursor.next != null
      invariant 1 <= count <= |nodes| && cursor == nodes[count - 1]
      decreases |nodes| - count
    {
      count := count + 1;
      cursor := cursor.next;
    }
  }
}
