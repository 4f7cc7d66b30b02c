/** The admission pass: every process that has arrived is tried once, in order; those that are given
    their resources go to the queue of their priority, all others wait for the next pass. */
module Dispatcher {
  import opened Wrappers
  import opened HostResources
  import opened ProcessQueue

  // ----- What a pass decides -----

  /** The pools, the PCBs and who was admitted, once the first processes have had their turn. */
  datatype Progress = Progress(pools: seq<seq<int>>, jobs: seq<Job>, admitted: seq<bool>)

  ghost predicate JobsFit(jobs: seq<Job>) {
    forall i :: 0 <= i < |jobs| ==> |jobs[i].io| == KINDS
  }

  ghost function Pass(jobs: seq<Job>, time: int, rt: nat, pools: seq<seq<int>>, n: nat): (r: Progress)
    requires PoolsFit(pools, rt) && JobsFit(jobs) && n <= |jobs|
    ensures PoolsFit(r.pools, rt) && |r.jobs| == |jobs| && JobsFit(r.jobs) && |r.admitted| == n
    ensures forall i :: n <= i < |jobs| ==> r.jobs[i] == jobs[i]
    ensures forall i :: 0 <= i < |jobs| ==> r.jobs[i].priority == jobs[i].priority
  {
    if n == 0 then
      Progress(pools, jobs, [])
    else
      Turn(Pass(jobs, time, rt, pools, n - 1), time, rt)
  }

  /** The turn of the next process. */
  ghost function Turn(p: Progress, time: int, rt: nat): (r: Progress)
    requires PoolsFit(p.pools, rt) && JobsFit(p.jobs) && |p.admitted| < |p.jobs|
    ensures PoolsFit(r.pools, rt)
  {
    var n := |p.admitted|;
    var j := p.jobs[n];
    if time >= j.arrivalTime then
      Progress(PoolsAfter(p.pools, rt, j), p.jobs[n := JobAfter(p.pools, rt, j)], p.admitted + [Admitted(p.pools, rt, j)])
    else
      p.(admitted := p.admitted + [false])
  }

  /** The items that are wanted, in their order. */
  function Select<T>(items: seq<T>, wanted: seq<bool>): (r: seq<T>)
    requires |items| == |wanted|
  {
    if items == [] then []
    else
      var n := |items| - 1;
      Select(items[..n], wanted[..n]) + if wanted[n] then [items[n]] else []
  }

  lemma SelectNext<T>(items: seq<T>, wanted: seq<bool>, x: T, w: bool)
    requires |items| == |wanted|
    ensures Select(items + [x], wanted + [w]) == Select(items, wanted) + if w then [x] else []
  {
    assert (items + [x])[..|items|] == items && (wanted + [w])[..|items|] == wanted;
  }

  lemma {:induction false} SelectedIsWanted<T>(items: seq<T>, wanted: seq<bool>, x: T) returns (i: nat)
    requires |items| == |wanted| && x in Select(items, wanted)
    ensures i < |items| && wanted[i] && items[i] == x
  {
    var n := |items| - 1;
    if wanted[n] && items[n] == x {
      i := n;
    } else {
      i := SelectedIsWanted(items[..n], wanted[..n], x);
    }
  }

  lemma {:induction false} WantedIsSelected<T>(items: seq<T>, wanted: seq<bool>, k: nat)
    requires |items| == |wanted| && k < |items| && wanted[k]
    ensures items[k] in Select(items, wanted)
  {
    var n := |items| - 1;
    if k < n {
      WantedIsSelected(items[..n], wanted[..n], k);
    }
  }

  lemma SelectLast<T>(items: seq<T>, wanted: seq<bool>)
    requires |items| == |wanted| > 0
    ensures var n := |items| - 1;
            var front := Select(items[..n], wanted[..n]);
            Select(items, wanted) == if wanted[n] then front + [items[n]] else front
  {
  }

  function Level(priority: int): (q: nat)
    ensures q < 4
  {
    if priority == 0 then 0 else if priority == 1 then 1 else if priority == 2 then 2 else 3
  }

  /** Who waits for the next pass; who goes to queue q. */
  function Waiting(admitted: seq<bool>): (r: seq<bool>)
    ensures |r| == |admitted|
  {
    seq(|admitted|, i requires 0 <= i < |admitted| => !admitted[i])
  }

  function Bound(admitted: seq<bool>, jobs: seq<Job>, q: nat): (r: seq<bool>)
    requires |admitted| <= |jobs|
    ensures |r| == |admitted|
  {
    seq(|admitted|, i requires 0 <= i < |admitted| => admitted[i] && Level(jobs[i].priority) == q)
  }

  function EnqueueTo<T>(line: Option<Line<T>>, x: T): Option<Line<T>> {
    Some((if line.None? then Line(false, []) else line.value).Enqueue(x))
  }

  function EnqueueAll<T>(line: Option<Line<T>>, xs: seq<T>): (r: Option<Line<T>>) {
    if xs == [] then line else EnqueueTo(EnqueueAll(line, xs[..|xs| - 1]), xs[|xs| - 1])
  }

  lemma EnqueueAllNext<T>(line: Option<Line<T>>, xs: seq<T>, x: T)
    ensures EnqueueAll(line, xs + [x]) == EnqueueTo(EnqueueAll(line, xs), x)
  {
    assert (xs + [x])[..|xs|] == xs;
  }

  /** On a queue that is gone, empty or marked, all are appended in order. */
  lemma {:induction false} EnqueueAllAppends<T>(line: Option<Line<T>>, xs: seq<T>)
    requires line.Some? ==> !line.value.LosesHead() && line.value.Ok()
    ensures var r := EnqueueAll(line, xs);
            var items := if line.None? then [] else line.value.items;
            if xs == [] then r == line else r == Some(Line(true, items + xs))
  {
    if xs != [] {
      var items := if line.None? then [] else line.value.items;
      var front, x := xs[..|xs| - 1], xs[|xs| - 1];
      EnqueueAllAppends(line, front);
      assert items + xs == items + front + [x];
      if front == [] {
        assert xs == [x];
        assert items == [] ==> items + xs == [x];
      }
    }
  }

  lemma {:induction false} EnqueueAllFirst<T>(line: Option<Line<T>>, x: T, rest: seq<T>)
    ensures EnqueueAll(line, [x] + rest) == EnqueueAll(EnqueueTo(line, x), rest)
    decreases |rest|
  {
    hide EnqueueTo;
    if rest == [] {
      EnqueueAllNext(line, [], x);
      assert [x] + rest == [] + [x];
    } else {
      var front, last := rest[..|rest| - 1], rest[|rest| - 1];
      EnqueueAllFirst(line, x, front);
      EnqueueAllNext(line, [x] + front, last);
      assert [x] + rest == [x] + front + [last];
    }
  }

  /** An unmarked head is overwritten by the first that comes, and the others are appended. */
  lemma EnqueueAllOverwrites<T>(line: Line<T>, xs: seq<T>)
    requires line.LosesHead() && xs != []
    ensures EnqueueAll(Some(line), xs) == Some(Line(true, line.items[0 := xs[0]] + xs[1..]))
  {
    assert xs == [xs[0]] + xs[1..];
    EnqueueAllFirst(Some(line), xs[0], xs[1..]);
    var after := EnqueueTo(Some(line), xs[0]);
    EnqueueAllAppends(after, xs[1..]);
    assert after.value.items + [] == after.value.items;
  }

  /** The positions selected, in increasing order. */
  function Positions(wanted: seq<bool>): (r: seq<int>) {
    if wanted == [] then []
    else
      var n := |wanted| - 1;
      Positions(wanted[..n]) + if wanted[n] then [n] else []
  }

  /** r takes the items at the given positions, which are increasing and just the wanted ones. */
  ghost predicate SubsequenceAt<T>(items: seq<T>, wanted: seq<bool>, r: seq<T>, at: seq<int>)
    requires |items| == |wanted|
  {
    && |r| == |at|
    && (forall a :: 0 <= a < |at| ==> 0 <= at[a] < |items| && wanted[at[a]] && r[a] == items[at[a]])
    && (forall a, b :: 0 <= a < b < |at| ==> at[a] < at[b])
    && (forall i :: 0 <= i < |items| && wanted[i] ==> i in at)
  }

  lemma SubsequenceNext<T>(items: seq<T>, wanted: seq<bool>, r: seq<T>, at: seq<int>)
    requires |items| == |wanted| > 0 && SubsequenceAt(items[..|items| - 1], wanted[..|items| - 1], r, at)
    ensures var n := |items| - 1;
            if wanted[n] then SubsequenceAt(items, wanted, r + [items[n]], at + [n]) else SubsequenceAt(items, wanted, r, at)
  {
    var n := |items| - 1;
    assert forall i :: 0 <= i < n ==> items[..n][i] == items[i] && wanted[..n][i] == wanted[i];
  }

  /** A selection is the subsequence of exactly the wanted items. */
  lemma {:induction false} SelectIsStable<T>(items: seq<T>, wanted: seq<bool>)
    requires |items| == |wanted|
    ensures SubsequenceAt(items, wanted, Select(items, wanted), Positions(wanted))
  {
    if items != [] {
      var n := |items| - 1;
      SelectIsStable(items[..n], wanted[..n]);
      SubsequenceNext(items, wanted, Select(items[..n], wanted[..n]), Positions(wanted[..n]));
      assert Select(items[..n], wanted[..n]) + [] == Select(items[..n], wanted[..n]);
      assert Positions(wanted[..n]) + [] == Positions(wanted[..n]);
    }
  }

  /** How often an item is selected. */
  ghost function Times<T>(x: T, items: seq<T>, wanted: seq<bool>): nat
    requires |items| == |wanted|
  {
    multiset(Select(items, wanted))[x]
  }

  lemma SelectCounts<T>(x: T, items: seq<T>, wanted: seq<bool>, before: seq<bool>)
    requires |items| == |wanted| > 0 && before == wanted[..|items| - 1]
    ensures Times(x, items, wanted) ==
            Times(x, items[..|items| - 1], before) + if wanted[|items| - 1] && items[|items| - 1] == x then 1 else 0
  {
  }

  /** How often an item is in the five selections together. */
  ghost function TimesInAll<T>(x: T, items: seq<T>, admitted: seq<bool>, jobs: seq<Job>): nat
    requires |items| == |admitted| <= |jobs|
  {
    Times(x, items, Waiting(admitted))
    + Times(x, items, Bound(admitted, jobs, 0)) + Times(x, items, Bound(admitted, jobs, 1))
    + Times(x, items, Bound(admitted, jobs, 2)) + Times(x, items, Bound(admitted, jobs, 3))
  }

  /** The pass is a partition: every process is in exactly one of the five selections, as often as it was in the queue. */
  lemma {:induction false} PassPartitions<T>(x: T, items: seq<T>, admitted: seq<bool>, jobs: seq<Job>)
    requires |items| == |admitted| <= |jobs|
    ensures TimesInAll(x, items, admitted, jobs) == multiset(items)[x]
  {
    if items != [] {
      var n := |items| - 1;
      PassPartitions(x, items[..n], admitted[..n], jobs);
      CountsInAll(x, items, admitted, jobs);
      LastCounts(x, items);
    }
  }

  lemma LastCounts<T>(x: T, items: seq<T>)
    requires |items| > 0
    ensures var n := |items| - 1; multiset(items)[x] == multiset(items[..n])[x] + if items[n] == x then 1 else 0
  {
    assert items == items[..|items| - 1] + [items[|items| - 1]];
  }

  lemma CountsInAll<T>(x: T, items: seq<T>, admitted: seq<bool>, jobs: seq<Job>)
    requires |items| == |admitted| <= |jobs| && |items| > 0
    ensures var n := |items| - 1;
            TimesInAll(x, items, admitted, jobs) ==
            TimesInAll(x, items[..n], admitted[..n], jobs) + if items[n] == x then 1 else 0
  {
    WaitingCounts(x, items, admitted);
    BoundCounts(x, items, admitted, jobs, 0);
    BoundCounts(x, items, admitted, jobs, 1);
    BoundCounts(x, items, admitted, jobs, 2);
    BoundCounts(x, items, admitted, jobs, 3);
  }

  lemma WaitingCounts<T>(x: T, items: seq<T>, admitted: seq<bool>)
    requires |items| == |admitted| > 0
    ensures var n := |items| - 1;
            Times(x, items, Waiting(admitted)) ==
            Times(x, items[..n], Waiting(admitted[..n])) + if !admitted[n] && items[n] == x then 1 else 0
  {
    SelectCounts(x, items, Waiting(admitted), Waiting(admitted[..|items| - 1]));
  }

  lemma BoundCounts<T>(x: T, items: seq<T>, admitted: seq<bool>, jobs: seq<Job>, q: nat)
    requires |items| == |admitted| <= |jobs| && |items| > 0
    ensures var n := |items| - 1;
            Times(x, items, Bound(admitted, jobs, q)) ==
            Times(x, items[..n], Bound(admitted[..n], jobs, q))
            + if admitted[n] && Level(jobs[n].priority) == q && items[n] == x then 1 else 0
  {
    SelectCounts(x, items, Bound(admitted, jobs, q), Bound(admitted[..|items| - 1], jobs, q));
  }

  // ----- What is left in the queues -----

  /** The queue that is built up from nothing is marked as soon as it holds something. */
  function Built<T>(items: seq<T>): (r: Line<T>)
    ensures r.Ok()
  {
    Line(items != [], items)
  }

  /** The priority queues, once the first processes have had their turn. */
  ghost function LinesAfter<T>(lines: seq<Option<Line<T>>>, items: seq<T>, admitted: seq<bool>, jobs: seq<Job>)
    : (r: seq<Option<Line<T>>>)
    requires |lines| == 4 && |items| == |admitted| <= |jobs|
    ensures |r| == 4
  {
    seq(4, q requires 0 <= q < 4 => EnqueueAll(lines[q], Select(items, Bound(admitted, jobs, q))))
  }

  function Items<T>(line: Option<Line<T>>): seq<T> {
    if line.None? then [] else line.value.items
  }

  /** A priority queue grows by those admitted at its priority, in their order, exactly when nobody is
      sent to it or it is gone, empty or marked; otherwise just its head is lost to the first of them. */
  lemma QueuesGrowExactly<T>(lines: seq<Option<Line<T>>>, items: seq<T>, admitted: seq<bool>, jobs: seq<Job>, q: nat)
    requires |lines| == 4 && |items| == |admitted| <= |jobs| && q < 4 && (lines[q].Some? ==> lines[q].value.Ok())
    ensures var sent, before := Select(items, Bound(admitted, jobs, q)), Items(lines[q]);
            var after := Items(LinesAfter(lines, items, admitted, jobs)[q]);
            if sent != [] && lines[q].Some? && lines[q].value.LosesHead()
            then after == before[0 := sent[0]] + sent[1..] && after != before + sent
            else after == before + sent
  {
    var sent := Select(items, Bound(admitted, jobs, q));
    if sent != [] && lines[q].Some? && lines[q].value.LosesHead() {
      EnqueueAllOverwrites(lines[q].value, sent);
    } else if sent == [] {
      assert Items(lines[q]) + sent == Items(lines[q]);
    } else {
      EnqueueAllAppends(lines[q], sent);
    }
  }

  lemma BuiltNext<T>(items: seq<T>, x: T)
    ensures Built(items + [x]) == Built(items).Enqueue(x)
  {
    assert items == [] ==> items + [x] == [x];
  }

  lemma WaitingNext<T>(items: seq<T>, admitted: seq<bool>, x: T, a: bool)
    requires |items| == |admitted|
    ensures var w := Select(items, Waiting(admitted));
            Built(Select(items + [x], Waiting(admitted + [a]))) == if a then Built(w) else Built(w).Enqueue(x)
  {
    hide Select, Built;
    assert Waiting(admitted + [a]) == Waiting(admitted) + [!a];
    SelectNext(items, Waiting(admitted), x, !a);
    var w := Select(items, Waiting(admitted));
    BuiltNext(w, x);
    assert w + [] == w;
  }

  lemma BoundNext<T>(line: Option<Line<T>>, items: seq<T>, admitted: seq<bool>, jobs: seq<Job>, q: nat, x: T, a: bool)
    requires |items| == |admitted| < |jobs|
    ensures var l := EnqueueAll(line, Select(items, Bound(admitted, jobs, q)));
            EnqueueAll(line, Select(items + [x], Bound(admitted + [a], jobs, q))) ==
            if a && Level(jobs[|items|].priority) == q then EnqueueTo(l, x) else l
  {
    var w := a && Level(jobs[|items|].priority) == q;
    assert Bound(admitted + [a], jobs, q) == Bound(admitted, jobs, q) + [w];
    SelectNext(items, Bound(admitted, jobs, q), x, w);
    var s := Select(items, Bound(admitted, jobs, q));
    assert s + [] == s;
    EnqueueAllNext(line, s, x);
  }

  /** The priority queues after one more process is sent to them. */
  ghost function Sent<T>(lines: seq<Option<Line<T>>>, priority: int, x: T): (r: seq<Option<Line<T>>>)
    requires |lines| == 4
    ensures |r| == 4
  {
    lines[Level(priority) := EnqueueTo(lines[Level(priority)], x)]
  }

  lemma LinesNext<T>(lines: seq<Option<Line<T>>>, items: seq<T>, admitted: seq<bool>, jobs: seq<Job>, x: T, a: bool)
    requires |lines| == 4 && |items| == |admitted| < |jobs|
    ensures var l := LinesAfter(lines, items, admitted, jobs);
            LinesAfter(lines, items + [x], admitted + [a], jobs) == if a then Sent(l, jobs[|items|].priority, x) else l
  {
    var l, q := LinesAfter(lines, items, admitted, jobs), Level(jobs[|items|].priority);
    var l' := LinesAfter(lines, items + [x], admitted + [a], jobs);
    forall r: nat | r < 4
      ensures l'[r] == if a && q == r then EnqueueTo(l[r], x) else l[r]
    {
      BoundNext(lines[r], items, admitted, jobs, r, x, a);
    }
  }

  ghost predicate RealTimeAdmitted(admitted: seq<bool>, jobs: seq<Job>)
    requires |admitted| <= |jobs|
  {
    exists i :: 0 <= i < |admitted| && admitted[i] && jobs[i].priority == 0
  }

  lemma RealTimeNext(admitted: seq<bool>, a: bool, jobs: seq<Job>)
    requires |admitted| < |jobs|
    ensures RealTimeAdmitted(admitted + [a], jobs) <==> RealTimeAdmitted(admitted, jobs) || (a && jobs[|admitted|].priority == 0)
  {
    if RealTimeAdmitted(admitted, jobs) {
      var i :| 0 <= i < |admitted| && admitted[i] && jobs[i].priority == 0;
      assert (admitted + [a])[i];
    } else if a && jobs[|admitted|].priority == 0 {
      assert (admitted + [a])[|admitted|];
    }
  }
}
