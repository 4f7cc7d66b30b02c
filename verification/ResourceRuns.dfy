/** Whole runs of allocation attempts and releases: who owns which cell of the host. */
module ResourceRuns {
  import opened FirstFit
  import opened HostResources

  // ----- One pool, with every process's claim on it -----

  ghost predicate InRange(c: Claim, x: int) {
    c.start != -1 && c.start <= x < c.start + c.have
  }

  /** Cells of the live processes' ranges carry their pids, and every other cell is free. */
  ghost predicate Owned(cells: seq<int>, claims: seq<Claim>, pids: seq<int>, live: set<nat>)
    requires |claims| == |pids|
  {
    && (forall i, x :: i in live && i < |claims| && 0 <= x < |cells| && InRange(claims[i], x) ==> cells[x] == pids[i])
    && (forall x :: 0 <= x < |cells| && cells[x] != 0 ==> exists i :: i in live && i < |claims| && InRange(claims[i], x))
  }

  ghost function Free(cells: seq<int>): (n: nat) {
    multiset(cells)[0]
  }

  /** What the live ones of the first n processes hold. */
  ghost function Held(claims: seq<Claim>, live: set<nat>, n: nat): int
    requires n <= |claims|
  {
    if n == 0 then 0 else Held(claims, live, n - 1) + if n - 1 in live then claims[n - 1].have else 0
  }

  ghost predicate PoolInv(cells: seq<int>, claims: seq<Claim>, pids: seq<int>, live: set<nat>)
    requires |claims| == |pids|
  {
    Owned(cells, claims, pids, live) && Free(cells) + Held(claims, live, |claims|) == |cells|
  }

  ghost predicate DistinctPids(pids: seq<int>) {
    (forall i :: 0 <= i < |pids| ==> pids[i] > 0) && forall i, j :: 0 <= i < j < |pids| ==> pids[i] != pids[j]
  }

  lemma {:induction false} HeldSame(c1: seq<Claim>, l1: set<nat>, c2: seq<Claim>, l2: set<nat>, n: nat)
    requires n <= |c1| && n <= |c2|
    requires forall i :: 0 <= i < n ==> (i in l1 <==> i in l2) && (i in l1 ==> c1[i] == c2[i])
    ensures Held(c1, l1, n) == Held(c2, l2, n)
  {
    if n > 0 {
      HeldSame(c1, l1, c2, l2, n - 1);
    }
  }

  lemma {:induction false} HeldWith(claims: seq<Claim>, live: set<nat>, i: nat, c: Claim, n: nat)
    requires i < n <= |claims| && i !in live
    ensures Held(claims[i := c], live + {i}, n) == Held(claims, live, n) + c.have
  {
    if i == n - 1 {
      HeldSame(claims, live, claims[i := c], live + {i}, n - 1);
    } else {
      HeldWith(claims, live, i, c, n - 1);
    }
  }

  lemma {:induction false} FreeFilled(cells: seq<int>, start: nat, n: nat, v: int)
    requires start + n <= |cells| && v != 0
    ensures (forall x :: start <= x < start + n ==> cells[x] == 0) ==> Free(Filled(cells, start, n, v)) == Free(cells) - n
    ensures (forall x :: start <= x < start + n ==> cells[x] == v) ==> Free(Filled(cells, start, n, 0)) == Free(cells) + n
  {
    var a, b, c := cells[..start], cells[start..start + n], cells[start + n..];
    assert cells == a + b + c;
    if forall x :: start <= x < start + n ==> cells[x] == 0 {
      assert Filled(cells, start, n, v) == a + Filled(b, 0, n, v) + c;
      AllSame(b, 0);
      AllSame(Filled(b, 0, n, v), v);
    }
    if forall x :: start <= x < start + n ==> cells[x] == v {
      assert Filled(cells, start, n, 0) == a + Filled(b, 0, n, 0) + c;
      AllSame(b, v);
      AllSame(Filled(b, 0, n, 0), 0);
    }
  }

  lemma {:induction false} AllSame(s: seq<int>, v: int)
    requires forall x :: 0 <= x < |s| ==> s[x] == v
    ensures Free(s) == if v == 0 then |s| else 0
  {
    if |s| > 0 {
      assert s == s[..|s| - 1] + [s[|s| - 1]];
      AllSame(s[..|s| - 1], v);
    }
  }

  /** A process that was not live is given a free range, or needs nothing here. */
  lemma GrantKeepsPool(cells: seq<int>, claims: seq<Claim>, pids: seq<int>, live: set<nat>, i: nat, c: Claim)
    requires |claims| == |pids| && i < |claims| && i !in live && DistinctPids(pids)
    requires PoolInv(cells, claims, pids, live)
    requires 0 <= c.start && 0 <= c.have && c.start + c.have <= |cells|
    requires forall x :: c.start <= x < c.start + c.have ==> cells[x] == 0
    ensures PoolInv(Filled(cells, c.start, c.have, pids[i]), claims[i := c], pids, live + {i})
  {
    HeldWith(claims, live, i, c, |claims|);
    FreeFilled(cells, c.start, c.have, pids[i]);
    GrantKeepsOwned(cells, claims, pids, live, i, c);
  }

  lemma GrantKeepsOwned(cells: seq<int>, claims: seq<Claim>, pids: seq<int>, live: set<nat>, i: nat, c: Claim)
    requires |claims| == |pids| && i < |claims| && i !in live && DistinctPids(pids)
    requires Owned(cells, claims, pids, live)
    requires 0 <= c.start && 0 <= c.have && c.start + c.have <= |cells|
    requires forall x :: c.start <= x < c.start + c.have ==> cells[x] == 0
    ensures Owned(Filled(cells, c.start, c.have, pids[i]), claims[i := c], pids, live + {i})
  {
    var cells', claims' := Filled(cells, c.start, c.have, pids[i]), claims[i := c];
    forall x | 0 <= x < |cells| && cells'[x] != 0
      ensures exists j :: j in live + {i} && j < |claims'| && InRange(claims'[j], x)
    {
      if c.start <= x < c.start + c.have {
        assert InRange(claims'[i], x);
      } else {
        var j :| j in live && j < |claims| && InRange(claims[j], x);
        assert InRange(claims'[j], x);
      }
    }
    forall j, x | j in live + {i} && j < |claims'| && 0 <= x < |cells| && InRange(claims'[j], x)
      ensures cells'[x] == pids[j]
    {
      assert j != i ==> cells[x] == pids[j] > 0;
    }
  }

  lemma NothingKeepsPool(cells: seq<int>, claims: seq<Claim>, pids: seq<int>, live: set<nat>, i: nat, c: Claim)
    requires |claims| == |pids| && i < |claims| && i !in live
    requires PoolInv(cells, claims, pids, live) && c.start == -1 && c.have == 0
    ensures PoolInv(cells, claims[i := c], pids, live + {i})
  {
    HeldWith(claims, live, i, c, |claims|);
    var claims' := claims[i := c];
    forall x | 0 <= x < |cells| && cells[x] != 0
      ensures exists j :: j in live + {i} && j < |claims'| && InRange(claims'[j], x)
    {
      var j :| j in live && j < |claims| && InRange(claims[j], x);
      assert InRange(claims'[j], x);
    }
  }

  /** What a process that is not live has on record does not matter. */
  lemma RecordIsIdle(cells: seq<int>, claims: seq<Claim>, pids: seq<int>, live: set<nat>, i: nat, c: Claim)
    requires |claims| == |pids| && i < |claims| && i !in live && PoolInv(cells, claims, pids, live)
    ensures PoolInv(cells, claims[i := c], pids, live)
  {
    HeldSame(claims, live, claims[i := c], live, |claims|);
    var claims' := claims[i := c];
    forall x | 0 <= x < |cells| && cells[x] != 0
      ensures exists j :: j in live && j < |claims'| && InRange(claims'[j], x)
    {
      var j :| j in live && j < |claims| && InRange(claims[j], x);
      assert InRange(claims'[j], x);
    }
  }

  lemma ReleaseKeepsPool(cells: seq<int>, claims: seq<Claim>, pids: seq<int>, live: set<nat>, i: nat)
    requires |claims| == |pids| && i < |claims| && i in live && DistinctPids(pids)
    requires PoolInv(cells, claims, pids, live)
    requires var c := claims[i];
             (c.start == -1 && c.have == 0) || (0 <= c.start && 0 <= c.have && c.start + c.have <= |cells|)
    ensures PoolInv(Release(cells, claims[i]), claims, pids, live - {i})
  {
    var c, after := claims[i], Release(cells, claims[i]);
    HeldWith(claims, live - {i}, i, c, |claims|);
    assert claims[i := c] == claims && live - {i} + {i} == live;
    if c.start != -1 {
      assert forall x :: c.start <= x < c.start + c.have ==> InRange(c, x);
      FreeFilled(cells, c.start, c.have, pids[i]);
    }
    forall x | 0 <= x < |cells| && after[x] != 0
      ensures exists j :: j in live - {i} && j < |claims| && InRange(claims[j], x)
    {
      var j :| j in live && j < |claims| && InRange(claims[j], x);
      assert j != i;
    }
    forall j, x | j in live - {i} && j < |claims| && 0 <= x < |cells| && InRange(claims[j], x)
      ensures after[x] == pids[j]
    {
      assert cells[x] == pids[j];
      assert InRange(c, x) ==> cells[x] == pids[i];
    }
  }

  // ----- The host and all processes -----

  datatype System = System(pools: seq<seq<int>>, jobs: seq<Job>, live: set<nat>)

  datatype Event = Attempt(i: nat) | Terminate(i: nat)

  ghost function Column(jobs: seq<Job>, k: nat): (r: seq<Claim>)
    requires forall i :: 0 <= i < |jobs| ==> k < |jobs[i].io|
    ensures |r| == |jobs|
  {
    seq(|jobs|, i requires 0 <= i < |jobs| => jobs[i].io[k])
  }

  ghost function Pids(jobs: seq<Job>): (r: seq<int>)
    ensures |r| == |jobs|
  {
    seq(|jobs|, i requires 0 <= i < |jobs| => jobs[i].pid)
  }

  /** A claim on record is for exactly what is needed, within the part of the pool its process may see. */
  ghost predicate ClaimOk(c: Claim, base: nat, n: nat) {
    || (c.start == -1 && c.have == 0)
    || (c.have == c.needed > 0 && base <= c.start && c.start + c.have <= base + n)
  }

  ghost predicate JobOk(pools: seq<seq<int>>, rt: nat, j: Job)
    requires PoolsFit(pools, rt)
  {
    && |j.io| == KINDS
    && forall k :: 0 <= k < KINDS ==>
         ClaimOk(j.io[k], Base(k, j.priority, rt), Extent(k, j.priority, rt, |pools[k]|))
  }

  ghost predicate Shape(s: System, rt: nat) {
    && PoolsFit(s.pools, rt) && (forall i :: 0 <= i < |s.jobs| ==> JobOk(s.pools, rt, s.jobs[i]))
    && DistinctPids(Pids(s.jobs)) && (forall i :: i in s.live ==> i < |s.jobs|)
  }

  ghost predicate Inv(s: System, rt: nat) {
    && Shape(s, rt)
    && (forall k :: 0 <= k < KINDS ==> PoolInv(s.pools[k], Column(s.jobs, k), Pids(s.jobs), s.live))
    && (forall i, k :: i in s.live && 0 <= k < KINDS ==> s.jobs[i].io[k].have == s.jobs[i].io[k].needed)
  }

  /** The attempt succeeds, or whatever the PCB still has on record is free or granted anew: checkable before the call. */
  ghost predicate HarmlessAttempt(pools: seq<seq<int>>, rt: nat, j: Job)
    requires PoolsFit(pools, rt) && |j.io| == KINDS
  {
    Admitted(pools, rt, j) || forall k :: 0 <= k < KINDS ==> Harmless(pools, rt, j, k)
  }

  /** A process in the system is not tried again, and only processes in the system leave it. */
  ghost predicate Proper(s: System, e: Event) {
    e.i < |s.jobs| && (e.Attempt? <==> e.i !in s.live)
  }

  ghost function Apply(s: System, rt: nat, e: Event): (r: System)
    requires Shape(s, rt) && Proper(s, e)
  {
    var j := s.jobs[e.i];
    match e
    case Attempt(i) =>
      System(PoolsAfter(s.pools, rt, j), s.jobs[i := JobAfter(s.pools, rt, j)],
             if Admitted(s.pools, rt, j) then s.live + {i} else s.live)
    case Terminate(i) =>
      System(seq(KINDS, k requires 0 <= k < KINDS => Release(s.pools[k], j.io[k])), s.jobs, s.live - {i})
  }

  lemma TryInBounds(cells: seq<int>, c: Claim, pid: int, base: nat, n: nat)
    requires base + n <= |cells|
    ensures var g := Try(cells, c, pid, base, n);
            c.needed != 0 && g.ok ==>
              && g.claim.have == g.claim.needed == c.needed > 0 && base <= g.claim.start
              && g.claim.start + g.claim.have <= base + n
              && (forall x :: g.claim.start <= x < g.claim.start + g.claim.have ==> cells[x] == 0)
              && g.cells == Filled(cells, g.claim.start, g.claim.have, pid)
  {
    if c.needed != 0 {
      var window := cells[base..base + n];
      var s := Search(window, c.needed, pid);
      assert forall x :: 0 <= x < n ==> window[x] == cells[base + x];
      if s != -1 {
        assert forall x :: base + s <= x < base + s + c.needed ==> cells[x] == window[x - base];
      }
    }
  }

  lemma ShapeAfter(s: System, rt: nat, e: Event)
    requires Shape(s, rt) && Proper(s, e)
    ensures Shape(Apply(s, rt, e), rt)
  {
    var r, j := Apply(s, rt, e), s.jobs[e.i];
    assert Pids(r.jobs) == Pids(s.jobs);
    if e.Attempt? {
      forall k | 0 <= k < KINDS
        ensures ClaimOk(r.jobs[e.i].io[k], Base(k, j.priority, rt), Extent(k, j.priority, rt, |s.pools[k]|))
      {
        TryInBounds(s.pools[k], j.io[k], j.pid, Base(k, j.priority, rt), Extent(k, j.priority, rt, |s.pools[k]|));
      }
      assert JobOk(r.pools, rt, r.jobs[e.i]);
    }
  }

  /** One kind: granted with all the others, or only put on record. */
  lemma AttemptKeepsPool(cells: seq<int>, claims: seq<Claim>, pids: seq<int>, live: set<nat>, i: nat, base: nat, n: nat, all: bool)
    requires |claims| == |pids| && i < |claims| && i !in live && DistinctPids(pids) && PoolInv(cells, claims, pids, live)
    requires base + n <= |cells| && ClaimOk(claims[i], base, n)
    ensures var g := Try(cells, claims[i], pids[i], base, n);
            if all && g.ok
            then PoolInv(g.cells, claims[i := g.claim], pids, live + {i}) && g.claim.have == g.claim.needed
            else PoolInv(cells, claims[i := g.claim], pids, live)
  {
    hide PoolInv, DistinctPids;
    var c := claims[i];
    var g := Try(cells, c, pids[i], base, n);
    TryInBounds(cells, c, pids[i], base, n);
    if all && g.ok {
      if c.needed == 0 {
        NothingKeepsPool(cells, claims, pids, live, i, g.claim);
      } else {
        GrantKeepsPool(cells, claims, pids, live, i, g.claim);
      }
    } else {
      RecordIsIdle(cells, claims, pids, live, i, g.claim);
    }
  }

  lemma AttemptKeepsInv(s: System, rt: nat, i: nat)
    requires Inv(s, rt) && Proper(s, Attempt(i)) && HarmlessAttempt(s.pools, rt, s.jobs[i])
    ensures Inv(Apply(s, rt, Attempt(i)), rt)
  {
    hide PoolInv, Try, Harmless, DistinctPids, ClaimOk;
    var r, j := Apply(s, rt, Attempt(i)), s.jobs[i];
    ShapeAfter(s, rt, Attempt(i));
    var pids := Pids(s.jobs);
    assert Pids(r.jobs) == pids;
    if !Admitted(s.pools, rt, j) {
      FailureRestoresExactly(s.pools, rt, j);
    }
    forall k | 0 <= k < KINDS
      ensures PoolInv(r.pools[k], Column(r.jobs, k), pids, r.live)
      ensures Admitted(s.pools, rt, j) ==> r.jobs[i].io[k].have == r.jobs[i].io[k].needed
    {
      var claims, g := Column(s.jobs, k), TryKind(s.pools, rt, j, k);
      assert Column(r.jobs, k) == claims[i := g.claim];
      AttemptKeepsPool(s.pools[k], claims, pids, s.live, i, Base(k, j.priority, rt), Extent(k, j.priority, rt, |s.pools[k]|),
                       Admitted(s.pools, rt, j));
    }
  }

  lemma TerminateKeepsInv(s: System, rt: nat, i: nat)
    requires Inv(s, rt) && Proper(s, Terminate(i))
    ensures Inv(Apply(s, rt, Terminate(i)), rt)
  {
    var r := Apply(s, rt, Terminate(i));
    ShapeAfter(s, rt, Terminate(i));
    forall k | 0 <= k < KINDS
      ensures PoolInv(r.pools[k], Column(r.jobs, k), Pids(r.jobs), r.live)
    {
      assert ClaimOk(s.jobs[i].io[k], Base(k, s.jobs[i].priority, rt), Extent(k, s.jobs[i].priority, rt, |s.pools[k]|));
      assert Column(s.jobs, k)[i] == s.jobs[i].io[k];
      ReleaseKeepsPool(s.pools[k], Column(s.jobs, k), Pids(s.jobs), s.live, i);
    }
  }

  lemma HarmfulFreesACell(pools: seq<seq<int>>, rt: nat, j: Job) returns (k: nat, x: nat)
    requires PoolsFit(pools, rt) && JobOk(pools, rt, j) && !HarmlessAttempt(pools, rt, j)
    ensures k < KINDS && x < |pools[k]| && pools[k][x] != 0 && PoolsAfter(pools, rt, j)[k][x] == 0
  {
    k :| 0 <= k < KINDS && !Harmless(pools, rt, j, k);
    var c := j.io[k];
    x :| 0 <= x < |pools[k]| && c.start <= x < c.start + c.have && pools[k][x] != 0;
    assert ClaimOk(c, Base(k, j.priority, rt), Extent(k, j.priority, rt, |pools[k]|));
    assert TryKind(pools, rt, j, k) == Grant(false, pools[k], c);
  }

  /** A taken cell cannot become free while its owner's claim stands. */
  lemma LostCell(before: seq<int>, after: seq<int>, claims: seq<Claim>, claims': seq<Claim>,
                 pids: seq<int>, live: set<nat>, x: nat)
    requires |claims| == |claims'| == |pids| && DistinctPids(pids) && Owned(before, claims, pids, live)
    requires forall o :: o in live && o < |claims| ==> claims[o] == claims'[o]
    requires x < |before| == |after| && before[x] != 0 && after[x] == 0
    ensures !PoolInv(after, claims', pids, live)
  {
    var o :| o in live && o < |claims| && InRange(claims[o], x);
    assert InRange(claims'[o], x) && pids[o] > 0;
  }

  /** A harmful attempt frees a cell that a live process owns. */
  lemma HarmfulBreaksInv(s: System, rt: nat, i: nat)
    requires Inv(s, rt) && Proper(s, Attempt(i)) && !HarmlessAttempt(s.pools, rt, s.jobs[i])
    ensures !Inv(Apply(s, rt, Attempt(i)), rt)
  {
    var k, x := HarmfulFreesACell(s.pools, rt, s.jobs[i]);
    ShapeAfter(s, rt, Attempt(i));
    var r := Apply(s, rt, Attempt(i));
    assert Pids(r.jobs) == Pids(s.jobs);
    LostCell(s.pools[k], r.pools[k], Column(s.jobs, k), Column(r.jobs, k), Pids(s.jobs), s.live, x);
  }

  /** Ownership survives an attempt exactly when the attempt is harmless. */
  lemma AttemptKeepsInvExactly(s: System, rt: nat, i: nat)
    requires Inv(s, rt) && Proper(s, Attempt(i))
    ensures Inv(Apply(s, rt, Attempt(i)), rt) <==> HarmlessAttempt(s.pools, rt, s.jobs[i])
  {
    if HarmlessAttempt(s.pools, rt, s.jobs[i]) {
      AttemptKeepsInv(s, rt, i);
    } else {
      HarmfulBreaksInv(s, rt, i);
    }
  }

  // ----- Runs -----

  ghost predicate RunOk(s: System, rt: nat, run: seq<Event>)
    requires Shape(s, rt)
    decreases |run|
  {
    run != [] ==>
      && Proper(s, run[0])
      && (run[0].Attempt? ==> HarmlessAttempt(s.pools, rt, s.jobs[run[0].i]))
      && (ShapeAfter(s, rt, run[0]); RunOk(Apply(s, rt, run[0]), rt, run[1..]))
  }

  ghost function Exec(s: System, rt: nat, run: seq<Event>): (r: System)
    requires Shape(s, rt) && RunOk(s, rt, run)
    decreases |run|
  {
    if run == [] then s else (ShapeAfter(s, rt, run[0]); Exec(Apply(s, rt, run[0]), rt, run[1..]))
  }

  /** Runs may be joined. */
  lemma {:induction false} RunsJoin(s: System, rt: nat, run: seq<Event>, more: seq<Event>)
    requires Shape(s, rt) && RunOk(s, rt, run) && Shape(Exec(s, rt, run), rt) && RunOk(Exec(s, rt, run), rt, more)
    ensures RunOk(s, rt, run + more) && Exec(s, rt, run + more) == Exec(Exec(s, rt, run), rt, more)
    decreases |run|
  {
    hide HarmlessAttempt, Apply;
    if run == [] {
      assert [] + more == more;
    } else {
      ShapeAfter(s, rt, run[0]);
      RunsJoin(Apply(s, rt, run[0]), rt, run[1..], more);
      assert (run + more)[0] == run[0] && (run + more)[1..] == run[1..] + more;
    }
  }

  /** A run may be continued by another event. */
  lemma {:induction false} RunOneMore(s: System, rt: nat, run: seq<Event>, e: Event)
    requires Shape(s, rt) && RunOk(s, rt, run) && Shape(Exec(s, rt, run), rt) && Proper(Exec(s, rt, run), e)
    requires e.Attempt? ==> HarmlessAttempt(Exec(s, rt, run).pools, rt, Exec(s, rt, run).jobs[e.i])
    ensures RunOk(s, rt, run + [e]) && Exec(s, rt, run + [e]) == Apply(Exec(s, rt, run), rt, e)
    decreases |run|
  {
    hide HarmlessAttempt, Apply;
    if run == [] {
      assert [] + [e] == [e] && [e][1..] == [];
      ShapeAfter(s, rt, e);
    } else {
      ShapeAfter(s, rt, run[0]);
      RunOneMore(Apply(s, rt, run[0]), rt, run[1..], e);
      assert (run + [e])[0] == run[0] && (run + [e])[1..] == run[1..] + [e];
    }
  }

  /** An all-free host and PCBs that were never tried. */
  ghost predicate Initial(s: System, rt: nat) {
    && Shape(s, rt) && s.live == {}
    && (forall i :: 0 <= i < |s.jobs| ==> Fresh(s.jobs[i]))
    && (forall k, x :: 0 <= k < KINDS && 0 <= x < |s.pools[k]| ==> s.pools[k][x] == 0)
  }

  lemma InitialInv(s: System, rt: nat)
    requires Initial(s, rt)
    ensures Inv(s, rt)
  {
    forall k | 0 <= k < KINDS
      ensures PoolInv(s.pools[k], Column(s.jobs, k), Pids(s.jobs), s.live)
    {
      AllSame(s.pools[k], 0);
      NoneHeld(Column(s.jobs, k), |s.jobs|);
    }
  }

  lemma {:induction false} NoneHeld(claims: seq<Claim>, n: nat)
    requires n <= |claims|
    ensures Held(claims, {}, n) == 0
  {
    if n > 0 {
      NoneHeld(claims, n - 1);
    }
  }

  lemma {:induction false} RunKeepsInv(s: System, rt: nat, run: seq<Event>)
    requires Inv(s, rt) && RunOk(s, rt, run)
    ensures Inv(Exec(s, rt, run), rt)
    decreases |run|
  {
    if run != [] {
      match run[0] {
        case Attempt(i) => AttemptKeepsInv(s, rt, i);
        case Terminate(i) => TerminateKeepsInv(s, rt, i);
      }
      RunKeepsInv(Apply(s, rt, run[0]), rt, run[1..]);
    }
  }

  /** Every taken cell belongs to exactly one process in the system, to its recorded range; each process
      has all it needs; real-time memory is at the front and the rest behind; and nothing is lost. */
  ghost predicate Conserved(r: System, rt: nat, k: nat)
    requires Shape(r, rt) && k < KINDS
  {
    && (forall x :: 0 <= x < |r.pools[k]| && r.pools[k][x] != 0 ==> exists i :: i in r.live && InRange(r.jobs[i].io[k], x))
    && (forall x, i :: 0 <= x < |r.pools[k]| && i in r.live && InRange(r.jobs[i].io[k], x) ==> r.pools[k][x] == r.jobs[i].pid)
    && (forall x, i, j :: i in r.live && InRange(r.jobs[i].io[k], x) && j in r.live && InRange(r.jobs[j].io[k], x) ==> i == j)
    && (forall i :: i in r.live ==> r.jobs[i].io[k].have == r.jobs[i].io[k].needed)
    && (forall i, x :: i in r.live && k == MEMORY && InRange(r.jobs[i].io[k], x) ==> (x < rt <==> r.jobs[i].priority == 0))
    && Free(r.pools[k]) + Held(Column(r.jobs, k), r.live, |r.jobs|) == |r.pools[k]|
  }

  lemma EveryRunConserves(s: System, rt: nat, run: seq<Event>, k: nat)
    requires Initial(s, rt) && RunOk(s, rt, run) && k < KINDS
    ensures Shape(Exec(s, rt, run), rt) && Conserved(Exec(s, rt, run), rt, k)
  {
    InitialInv(s, rt);
    RunKeepsInv(s, rt, run);
    InvConserves(Exec(s, rt, run), rt, k);
  }

  /** Every step is possible, whatever it does. */
  ghost predicate ProperRun(s: System, rt: nat, run: seq<Event>)
    requires Shape(s, rt)
    decreases |run|
  {
    run != [] ==> Proper(s, run[0]) && (ShapeAfter(s, rt, run[0]); ProperRun(Apply(s, rt, run[0]), rt, run[1..]))
  }

  ghost predicate TriedOnce(run: seq<Event>) {
    forall a, b :: 0 <= a < b < |run| && run[a].Attempt? && run[b].Attempt? ==> run[a].i != run[b].i
  }

  lemma {:induction false} TriedOnceIsHarmless(s: System, rt: nat, run: seq<Event>)
    requires Shape(s, rt) && ProperRun(s, rt, run) && TriedOnce(run)
    requires forall a :: 0 <= a < |run| && run[a].Attempt? && run[a].i < |s.jobs| ==> Fresh(s.jobs[run[a].i])
    ensures RunOk(s, rt, run)
    decreases |run|
  {
    if run != [] {
      var e := run[0];
      ShapeAfter(s, rt, e);
      if e.Attempt? {
        FreshIsHarmless(s.pools, rt, s.jobs[e.i]);
      }
      forall a | 0 <= a < |run[1..]| && run[1..][a].Attempt? && run[1..][a].i < |s.jobs|
        ensures Fresh(Apply(s, rt, e).jobs[run[1..][a].i])
      {
        assert run[1..][a] == run[a + 1];
      }
      TriedOnceIsHarmless(Apply(s, rt, e), rt, run[1..]);
    }
  }

  /** In particular: whatever happens, as long as no process is tried a second time. */
  lemma RunsWithoutRetriesConserve(s: System, rt: nat, run: seq<Event>, k: nat)
    requires Initial(s, rt) && ProperRun(s, rt, run) && TriedOnce(run) && k < KINDS
    ensures RunOk(s, rt, run) && Shape(Exec(s, rt, run), rt) && Conserved(Exec(s, rt, run), rt, k)
  {
    TriedOnceIsHarmless(s, rt, run);
    EveryRunConserves(s, rt, run, k);
  }

  lemma InvConserves(r: System, rt: nat, k: nat)
    requires Inv(r, rt) && k < KINDS
    ensures Conserved(r, rt, k)
  {
    var claims, pids := Column(r.jobs, k), Pids(r.jobs);
    assert PoolInv(r.pools[k], claims, pids, r.live);
    forall x | 0 <= x < |r.pools[k]| && r.pools[k][x] != 0
      ensures exists i :: i in r.live && InRange(r.jobs[i].io[k], x)
    {
      var i :| i in r.live && i < |claims| && InRange(claims[i], x);
      assert InRange(r.jobs[i].io[k], x);
    }
    forall i, x | i in r.live && InRange(r.jobs[i].io[k], x)
      ensures 0 <= x < |r.pools[k]| && r.pools[k][x] == r.jobs[i].pid
      ensures k == MEMORY ==> (x < rt <==> r.jobs[i].priority == 0)
    {
      var j := r.jobs[i];
      assert ClaimOk(j.io[k], Base(k, j.priority, rt), Extent(k, j.priority, rt, |r.pools[k]|));
      assert InRange(claims[i], x) && pids[i] == j.pid;
    }
    forall x, i, j | i in r.live && InRange(r.jobs[i].io[k], x) && j in r.live && InRange(r.jobs[j].io[k], x)
      ensures i == j
    {
      assert r.pools[k][x] == r.jobs[i].pid;
      assert r.pools[k][x] == r.jobs[j].pid;
      assert pids[i] == pids[j];
    }
  }

  /** First attempts are always harmless. */
  lemma FreshIsHarmless(pools: seq<seq<int>>, rt: nat, j: Job)
    requires PoolsFit(pools, rt) && Fresh(j)
    ensures HarmlessAttempt(pools, rt, j)
  {
  }

  // ----- A failed process that is tried again -----

  /** Two printers and no memory. The first process wants both printers and memory, the second one printer. */
  ghost function Greedy(printers: Claim): Job {
    Job(1, 1, 0, [printers, Claim(0, 0, -1), Claim(0, 0, -1), Claim(0, 0, -1), Claim(1, 0, -1)])
  }

  ghost function Modest(printers: Claim): Job {
    Job(2, 1, 0, [printers, Claim(0, 0, -1), Claim(0, 0, -1), Claim(0, 0, -1), Claim(0, 0, -1)])
  }

  ghost function Printers(cells: seq<int>): seq<seq<int>> {
    [cells, [], [], [], []]
  }

  lemma GreedyFails(cells: seq<int>, c: Claim)
    requires |cells| == 2
    ensures !Admitted(Printers(cells), 0, Greedy(c))
    ensures var g := Try(cells, c, 1, 0, 2);
            && PoolsAfter(Printers(cells), 0, Greedy(c)) == Printers(Release(g.cells, g.claim))
            && JobAfter(Printers(cells), 0, Greedy(c)) == Greedy(g.claim)
  {
    assert !TryKind(Printers(cells), 0, Greedy(c), MEMORY).ok;
  }

  lemma ModestSucceeds(cells: seq<int>, c: Claim)
    requires |cells| == 2 && Try(cells, c, 2, 0, 2).ok
    ensures Admitted(Printers(cells), 0, Modest(c))
    ensures var g := Try(cells, c, 2, 0, 2);
            && PoolsAfter(Printers(cells), 0, Modest(c)) == Printers(g.cells)
            && JobAfter(Printers(cells), 0, Modest(c)) == Modest(g.claim)
  {
  }

  lemma PrintersTried()
    ensures Try([0, 0], Claim(2, 0, -1), 1, 0, 2) == Grant(true, [1, 1], Claim(2, 2, 0))
    ensures Try([0, 0], Claim(1, 0, -1), 2, 0, 2) == Grant(true, [2, 0], Claim(1, 1, 0))
    ensures Try([2, 0], Claim(2, 2, 0), 1, 0, 2) == Grant(false, [2, 0], Claim(2, 2, 0))
  {
    assert [0, 0][0..2] == [0, 0] && [2, 0][0..2] == [2, 0];
    SearchIs([0, 0], 2, 1, 0);
    SearchIs([0, 0], 1, 2, 0);
    assert [2, 0][0] != 0;
  }

  ghost function Scene(cells: seq<int>, greedy: Claim, modest: Claim, live: set<nat>): System {
    System(Printers(cells), [Greedy(greedy), Modest(modest)], live)
  }

  /** The first process fails and keeps both printers on record; the second is given one of them; the
      first is tried again, fails again, and releases the printer of the second, which still counts on it. */
  lemma RetryTakesFromOthers()
    ensures var s0 := Scene([0, 0], Claim(2, 0, -1), Claim(1, 0, -1), {});
            var s1 := Scene([0, 0], Claim(2, 2, 0), Claim(1, 0, -1), {});
            var s2 := Scene([2, 0], Claim(2, 2, 0), Claim(1, 1, 0), {1});
            var s3 := Scene([0, 0], Claim(2, 2, 0), Claim(1, 1, 0), {1});
            && Initial(s0, 0) && Proper(s0, Attempt(0)) && Apply(s0, 0, Attempt(0)) == s1
            && Inv(s1, 0) && Proper(s1, Attempt(1)) && Apply(s1, 0, Attempt(1)) == s2
            && Inv(s2, 0) && Proper(s2, Attempt(0)) && Apply(s2, 0, Attempt(0)) == s3
            && !Inv(s3, 0)
  {
    FirstAttempt();
    SecondAttempt();
    ThirdAttempt();
  }

  lemma FirstAttempt()
    ensures var s0 := Scene([0, 0], Claim(2, 0, -1), Claim(1, 0, -1), {});
            var s1 := Scene([0, 0], Claim(2, 2, 0), Claim(1, 0, -1), {});
            Initial(s0, 0) && Proper(s0, Attempt(0)) && Apply(s0, 0, Attempt(0)) == s1 && Inv(s1, 0)
  {
    hide PoolInv, PoolsAfter, JobAfter, Admitted, Try;
    var s0 := Scene([0, 0], Claim(2, 0, -1), Claim(1, 0, -1), {});
    PrintersTried();
    assert Pids(s0.jobs) == [1, 2];
    InitialInv(s0, 0);
    FreshIsHarmless(s0.pools, 0, s0.jobs[0]);
    AttemptKeepsInv(s0, 0, 0);
    GreedyFails([0, 0], Claim(2, 0, -1));
    assert Filled([1, 1], 0, 2, 0) == [0, 0];
  }

  lemma SecondAttempt()
    requires Inv(Scene([0, 0], Claim(2, 2, 0), Claim(1, 0, -1), {}), 0)
    ensures var s1 := Scene([0, 0], Claim(2, 2, 0), Claim(1, 0, -1), {});
            var s2 := Scene([2, 0], Claim(2, 2, 0), Claim(1, 1, 0), {1});
            Proper(s1, Attempt(1)) && Apply(s1, 0, Attempt(1)) == s2 && Inv(s2, 0)
  {
    var s1 := Scene([0, 0], Claim(2, 2, 0), Claim(1, 0, -1), {});
    PrintersTried();
    ModestSucceeds([0, 0], Claim(1, 0, -1));
    AttemptKeepsInv(s1, 0, 1);
  }

  lemma ThirdAttempt()
    requires Inv(Scene([2, 0], Claim(2, 2, 0), Claim(1, 1, 0), {1}), 0)
    ensures var s2 := Scene([2, 0], Claim(2, 2, 0), Claim(1, 1, 0), {1});
            var s3 := Scene([0, 0], Claim(2, 2, 0), Claim(1, 1, 0), {1});
            Proper(s2, Attempt(0)) && Apply(s2, 0, Attempt(0)) == s3 && !Inv(s3, 0)
  {
    hide PoolInv, PoolsAfter, JobAfter, Try;
    var s2 := Scene([2, 0], Claim(2, 2, 0), Claim(1, 1, 0), {1});
    PrintersTried();
    GreedyFails([2, 0], Claim(2, 2, 0));
    assert Filled([2, 0], 0, 2, 0) == [0, 0];
    assert s2.pools[0][0] != 0;
    assert !Harmless(s2.pools, 0, s2.jobs[0], 0);
    HarmfulBreaksInv(s2, 0, 0);
  }
}
