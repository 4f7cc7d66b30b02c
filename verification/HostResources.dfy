/** The host's five resource pools and what an allocation attempt does to them. The kinds are printers,
    scanners, modems, disks and memory; the first four are handled by the same code. */
module HostResources {
  import opened FirstFit

  const KINDS := 5
  const MEMORY := 4

  /** What a process wants of one kind, how much it was last given, and from which cell on (-1: never given). */
  datatype Claim = Claim(needed: int, have: int, start: int)

  /** The part of a PCB that admission looks at. */
  datatype Job = Job(pid: int, priority: int, arrivalTime: int, io: seq<Claim>)

  /** Real-time processes see the first rt cells of memory, the others see the rest. */
  function Base(kind: nat, priority: int, rt: nat): nat {
    if kind == MEMORY && priority != 0 then rt else 0
  }

  function Extent(kind: nat, priority: int, rt: nat, length: nat): nat
    requires kind == MEMORY ==> rt <= length
  {
    if kind != MEMORY then length else if priority == 0 then rt else length - rt
  }

  ghost function Filled(cells: seq<int>, start: int, n: int, v: int): (r: seq<int>) {
    seq(|cells|, i requires 0 <= i < |cells| => if start <= i < start + n then v else cells[i])
  }

  datatype Grant = Grant(ok: bool, cells: seq<int>, claim: Claim)

  /** One kind: nothing needed is granted at once; otherwise the first fit decides. */
  ghost function Try(cells: seq<int>, c: Claim, pid: int, base: nat, n: nat): Grant
    requires base + n <= |cells|
  {
    if c.needed == 0 then
      Grant(true, cells, c)
    else
      var s := Search(cells[base..base + n], c.needed, pid);
      if s == -1 then
        Grant(false, cells, c)
      else
        Grant(true, Filled(cells, base + s, c.needed, pid), Claim(c.needed, c.needed, base + s))
  }

  ghost function Release(cells: seq<int>, c: Claim): seq<int> {
    if c.start == -1 then cells else Filled(cells, c.start, c.have, 0)
  }

  ghost predicate PoolsFit(pools: seq<seq<int>>, rt: nat) {
    |pools| == KINDS && rt <= |pools[MEMORY]|
  }

  ghost function TryKind(pools: seq<seq<int>>, rt: nat, j: Job, k: nat): Grant
    requires PoolsFit(pools, rt) && |j.io| == KINDS && k < KINDS
  {
    Try(pools[k], j.io[k], j.pid, Base(k, j.priority, rt), Extent(k, j.priority, rt, |pools[k]|))
  }

  /** Every kind is granted. */
  ghost predicate Admitted(pools: seq<seq<int>>, rt: nat, j: Job)
    requires PoolsFit(pools, rt) && |j.io| == KINDS
  {
    forall k :: 0 <= k < KINDS ==> TryKind(pools, rt, j, k).ok
  }

  /** The pools after an attempt: all grants stand, or everything the PCB has on record is released. */
  ghost function PoolsAfter(pools: seq<seq<int>>, rt: nat, j: Job): (r: seq<seq<int>>)
    requires PoolsFit(pools, rt) && |j.io| == KINDS
    ensures PoolsFit(r, rt) && forall k :: 0 <= k < KINDS ==> |r[k]| == |pools[k]|
  {
    seq(KINDS, k requires 0 <= k < KINDS =>
      var g := TryKind(pools, rt, j, k);
      if Admitted(pools, rt, j) then g.cells else Release(g.cells, g.claim))
  }

  /** The PCB after an attempt: a failed one leaves the grants on record too. */
  ghost function JobAfter(pools: seq<seq<int>>, rt: nat, j: Job): (r: Job)
    requires PoolsFit(pools, rt) && |j.io| == KINDS
    ensures r.pid == j.pid && r.priority == j.priority && r.arrivalTime == j.arrivalTime && |r.io| == KINDS
  {
    j.(io := seq(KINDS, k requires 0 <= k < KINDS => TryKind(pools, rt, j, k).claim))
  }

  // ----- When does a failed attempt leave the pools as they were? -----

  ghost predicate RangeFree(cells: seq<int>, c: Claim) {
    c.start == -1 || forall i :: 0 <= i < |cells| && c.start <= i < c.start + c.have ==> cells[i] == 0
  }

  /** A kind is harmless if it was granted in this attempt, or whatever the PCB has on record from before is free. */
  ghost predicate Harmless(pools: seq<seq<int>>, rt: nat, j: Job, k: nat)
    requires PoolsFit(pools, rt) && |j.io| == KINDS && k < KINDS
  {
    (j.io[k].needed != 0 && TryKind(pools, rt, j, k).ok) || RangeFree(pools[k], j.io[k])
  }

  lemma TryThenRelease(cells: seq<int>, c: Claim, pid: int, base: nat, n: nat)
    requires base + n <= |cells|
    ensures var g := Try(cells, c, pid, base, n);
            Release(g.cells, g.claim) == cells <==> (c.needed != 0 && g.ok) || RangeFree(cells, c)
  {
    var g := Try(cells, c, pid, base, n);
    var window := cells[base..base + n];
    if c.needed != 0 && g.ok {
      var s := Search(window, c.needed, pid);
      assert forall i :: 0 <= i < n ==> window[i] == cells[base + i];
      assert forall i :: base + s <= i < base + s + c.needed ==> cells[i] == window[i - base] == 0;
      assert Release(g.cells, g.claim) == cells;
    } else if RangeFree(cells, c) {
      assert Release(cells, c) == cells;
    } else {
      var i :| 0 <= i < |cells| && c.start <= i < c.start + c.have && cells[i] != 0;
      assert Release(cells, c)[i] == 0;
    }
  }

  /** A failed attempt restores the host exactly when no kind still on record from an earlier attempt,
      and not granted again in this one, has been taken by somebody since. */
  lemma FailureRestoresExactly(pools: seq<seq<int>>, rt: nat, j: Job)
    requires PoolsFit(pools, rt) && |j.io| == KINDS && !Admitted(pools, rt, j)
    ensures PoolsAfter(pools, rt, j) == pools <==> forall k :: 0 <= k < KINDS ==> Harmless(pools, rt, j, k)
  {
    var after := PoolsAfter(pools, rt, j);
    forall k | 0 <= k < KINDS
      ensures after[k] == pools[k] <==> Harmless(pools, rt, j, k)
    {
      TryThenRelease(pools[k], j.io[k], j.pid, Base(k, j.priority, rt), Extent(k, j.priority, rt, |pools[k]|));
    }
    if forall k :: 0 <= k < KINDS ==> Harmless(pools, rt, j, k) {
      assert after == pools;
    }
  }

  /** newPCB: nothing was ever given. */
  predicate Fresh(j: Job) {
    |j.io| == KINDS && forall k :: 0 <= k < KINDS ==> j.io[k].have == 0 && j.io[k].start == -1
  }

  /** All or nothing, for a PCB that was never tried before. */
  lemma FreshFailureRestores(pools: seq<seq<int>>, rt: nat, j: Job)
    requires PoolsFit(pools, rt) && Fresh(j) && !Admitted(pools, rt, j)
    ensures PoolsAfter(pools, rt, j) == pools
  {
    FailureRestoresExactly(pools, rt, j);
  }

  /** Cells s, ..., s + n - 1 are free and lie between the bounds; a length that is not positive has no such cells. */
  ghost predicate FreeRange(cells: seq<int>, lo: int, hi: int, n: int, s: int) {
    n > 0 && 0 <= lo <= s && s + n <= hi <= |cells| && forall i :: s <= i < s + n ==> cells[i] == 0
  }

  /** Granted exactly when there is such a range between the bounds, and then the first. */
  ghost predicate FirstRangeGranted(cells: seq<int>, lo: int, hi: int, n: int, g: Grant) {
    && (g.ok <==> exists s :: FreeRange(cells, lo, hi, n, s))
    && (g.ok ==> g.claim.have == n && FreeRange(cells, lo, hi, n, g.claim.start))
    && (g.ok ==> forall s :: FreeRange(cells, lo, hi, n, s) ==> g.claim.start <= s)
  }

  lemma TryGrantsExactly(cells: seq<int>, c: Claim, pid: int, lo: nat, hi: nat)
    requires lo <= hi <= |cells| && pid !in cells && c.needed != 0
    ensures FirstRangeGranted(cells, lo, hi, c.needed, Try(cells, c, pid, lo, hi - lo))
  {
    var window := cells[lo..hi];
    assert cells[lo..lo + (hi - lo)] == window;
    assert forall i :: 0 <= i < hi - lo ==> window[i] == cells[lo + i];
    if c.needed < 0 {
      assert !Try(cells, c, pid, lo, hi - lo).ok;
      return;
    }
    SearchIsExact(window, c.needed, pid);
    forall s
      ensures FreeWindow(window, s - lo, c.needed) <==> FreeRange(cells, lo, hi, c.needed, s)
    {
      if FreeWindow(window, s - lo, c.needed) {
        assert forall i :: s <= i < s + c.needed ==> cells[i] == window[i - lo];
      }
    }
    var r := Search(window, c.needed, pid);
    if r != -1 {
      assert FreeWindow(window, (lo + r) - lo, c.needed);
      assert FreeRange(cells, lo, hi, c.needed, lo + r);
    }
    forall s | FreeRange(cells, lo, hi, c.needed, s)
      ensures r != -1 && lo + r <= s
    {
      assert FreeWindow(window, s - lo, c.needed);
    }
  }

  /** The range granted of one kind: the whole array for devices, the first rt cells of memory for
      real-time processes and the rest of it for all others; where it starts is the first place where it fits. */
  lemma KindGrantedExactly(pools: seq<seq<int>>, rt: nat, j: Job, k: nat)
    requires PoolsFit(pools, rt) && |j.io| == KINDS && k < KINDS
    requires j.pid !in pools[k] && j.io[k].needed != 0
    ensures var cells, needed, g := pools[k], j.io[k].needed, TryKind(pools, rt, j, k);
            if k != 4 then FirstRangeGranted(cells, 0, |cells|, needed, g)
            else if j.priority == 0 then FirstRangeGranted(cells, 0, rt, needed, g)
            else FirstRangeGranted(cells, rt, |cells|, needed, g)
  {
    var lo := Base(k, j.priority, rt);
    TryGrantsExactly(pools[k], j.io[k], j.pid, lo, lo + Extent(k, j.priority, rt, |pools[k]|));
  }

  /** A process that owns nothing is admitted exactly when each kind it needs has a free range that is
      long enough: devices anywhere, memory among the first rt cells for real-time processes, and among the rest for others. */
  lemma AdmittedExactly(pools: seq<seq<int>>, rt: nat, j: Job)
    requires PoolsFit(pools, rt) && |j.io| == KINDS
    requires forall k :: 0 <= k < KINDS ==> j.pid !in pools[k]
    ensures Admitted(pools, rt, j) <==>
            && (forall k :: 0 <= k < 4 ==>
                  j.io[k].needed == 0 || exists s :: FreeRange(pools[k], 0, |pools[k]|, j.io[k].needed, s))
            && (|| j.io[4].needed == 0
                || (j.priority == 0 && exists s :: FreeRange(pools[4], 0, rt, j.io[4].needed, s))
                || (j.priority != 0 && exists s :: FreeRange(pools[4], rt, |pools[4]|, j.io[4].needed, s)))
  {
    hide FreeRange, TryKind;
    forall k | 0 <= k < KINDS
      ensures if j.io[k].needed == 0 then TryKind(pools, rt, j, k).ok
              else
                var cells, needed, g := pools[k], j.io[k].needed, TryKind(pools, rt, j, k);
                if k != 4 then FirstRangeGranted(cells, 0, |cells|, needed, g)
                else if j.priority == 0 then FirstRangeGranted(cells, 0, rt, needed, g)
                else FirstRangeGranted(cells, rt, |cells|, needed, g)
    {
      if j.io[k].needed == 0 {
        NothingNeeded(pools, rt, j, k);
      } else {
        KindGrantedExactly(pools, rt, j, k);
      }
    }
  }

  lemma NothingNeeded(pools: seq<seq<int>>, rt: nat, j: Job, k: nat)
    requires PoolsFit(pools, rt) && |j.io| == KINDS && k < KINDS && j.io[k].needed == 0
    ensures TryKind(pools, rt, j, k).ok
  {
  }

  // ----- The program -----

  class PCB {
    const pid: int
    var priority: int
    var arrivalTime: int
    var remainingTime: int
    var timeSpliceLeft: int
    var io: seq<Claim>

    function Value(): Job
      reads this
    {
      Job(pid, priority, arrivalTime, io)
    }

    /** newPCB, filled in by the reader of the process list */
    constructor (pid: int, priority: int, arrivalTime: int, remainingTime: int, needs: seq<int>)
      requires |needs| == KINDS
      ensures Fresh(Value()) && this.pid == pid && this.priority == priority && this.arrivalTime == arrivalTime
      ensures this.remainingTime == remainingTime && timeSpliceLeft == 0
      ensures forall k :: 0 <= k < KINDS ==> io[k].needed == needs[k]
    {
      this.pid, this.priority, this.arrivalTime := pid, priority, arrivalTime;
      this.remainingTime, timeSpliceLeft := remainingTime, 0;
      io := seq(KINDS, k requires 0 <= k < KINDS => Claim(needs[k], 0, -1));
    }
  }

  /** Whatever the PCB has on record lies within the pools. */
  ghost predicate OnRecord(pools: seq<seq<int>>, io: seq<Claim>) {
    && |io| == |pools| == KINDS
    && forall k :: 0 <= k < KINDS ==> io[k].start != -1 ==>
         0 <= io[k].start && 0 <= io[k].have && io[k].start + io[k].have <= |pools[k]|
  }

  /** So many devices of each kind and so many cells of memory, all free. */
  ghost function FreePools(printers: nat, scanners: nat, modems: nat, disks: nat, memory: nat): (pools: seq<seq<int>>) {
    [seq(printers, _ => 0), seq(scanners, _ => 0), seq(modems, _ => 0), seq(disks, _ => 0), seq(memory, _ => 0)]
  }

  class Host {
    const printersAlloc: array<int>
    const scannersAlloc: array<int>
    const modemsAlloc: array<int>
    const disksAlloc: array<int>
    const memSpace: array<int>
    const rtMemSpaceMax: nat
    var currentProcess: PCB?

    ghost function Repr(): set<array<int>> {
      {printersAlloc, scannersAlloc, modemsAlloc, disksAlloc, memSpace}
    }

    ghost predicate Valid() {
      && printersAlloc != scannersAlloc && printersAlloc != modemsAlloc && printersAlloc != disksAlloc
      && printersAlloc != memSpace && scannersAlloc != modemsAlloc && scannersAlloc != disksAlloc
      && scannersAlloc != memSpace && modemsAlloc != disksAlloc && modemsAlloc != memSpace && disksAlloc != memSpace
      && rtMemSpaceMax <= memSpace.Length
    }

    ghost function Pools(): (pools: seq<seq<int>>)
      reads Repr()
      ensures |pools| == KINDS && |pools[MEMORY]| == memSpace.Length
    {
      [printersAlloc[..], scannersAlloc[..], modemsAlloc[..], disksAlloc[..], memSpace[..]]
    }

    ghost predicate AllFree()
      reads Repr()
    {
      forall k, i :: 0 <= k < KINDS && 0 <= i < |Pools()[k]| ==> Pools()[k][i] == 0
    }

    /** initSystem */
    constructor (printers: nat, scanners: nat, modems: nat, disks: nat, memory: nat, rt: nat)
      requires rt <= memory
      ensures Valid() && fresh(Repr()) && PoolsFit(Pools(), rtMemSpaceMax) && rtMemSpaceMax == rt
      ensures AllFree() && currentProcess == null && Pools() == FreePools(printers, scanners, modems, disks, memory)
    {
      printersAlloc := new int[printers](_ => 0);
      scannersAlloc := new int[scanners](_ => 0);
      modemsAlloc := new int[modems](_ => 0);
      disksAlloc := new int[disks](_ => 0);
      memSpace := new int[memory](_ => 0);
      rtMemSpaceMax, currentProcess := rt, null;
      new;
      assert printersAlloc[..] == seq(printers, _ => 0) && scannersAlloc[..] == seq(scanners, _ => 0);
      assert modemsAlloc[..] == seq(modems, _ => 0) && disksAlloc[..] == seq(disks, _ => 0);
      assert memSpace[..] == seq(memory, _ => 0);
    }

    method AllocateResources(process: PCB) returns (result: int)
      requires Valid() && OnRecord(Pools(), process.io)
      modifies Repr(), process`io
      ensures var j := old(process.Value());
              && result == (if !old(Admitted(Pools(), rtMemSpaceMax, j)) then 0 else if j.priority == 0 then 2 else 1)
              && Pools() == old(PoolsAfter(Pools(), rtMemSpaceMax, j))
              && process.Value() == old(JobAfter(Pools(), rtMemSpaceMax, j))
              && OnRecord(Pools(), process.io)
    {
      ghost var before, j := Pools(), process.Value();
      var all := TryAll(process);
      ghost var granted := Pools();
      if all {
        AllGranted(before, rtMemSpaceMax, j, granted, process.io);
        return if process.priority == 0 then 2 else 1;
      } else {
        NoneOutOfBounds(before, rtMemSpaceMax, j, granted, process.io);
        FreeHostResources(process);
        RolledBack(before, rtMemSpaceMax, j, granted, process.io, Pools());
        return 0;
      }
    }

    /** All five kinds are tried, whatever becomes of the earlier ones. */
    method TryAll(process: PCB) returns (all: bool)
      requires Valid() && |process.io| == KINDS
      modifies Repr(), process`io
      ensures all == old(Admitted(Pools(), rtMemSpaceMax, process.Value())) && |process.io| == KINDS
      ensures Tried(old(Pools()), rtMemSpaceMax, old(process.Value()), Pools(), process.io)
    {
      ghost var before, j := Pools(), process.Value();
      var printers := AllocateKind(process, 0, printersAlloc, 0, printersAlloc.Length);
      var scanners := AllocateKind(process, 1, scannersAlloc, 0, scannersAlloc.Length);
      var modems := AllocateKind(process, 2, modemsAlloc, 0, modemsAlloc.Length);
      var disks := AllocateKind(process, 3, disksAlloc, 0, disksAlloc.Length);
      var memory := AllocateMemory(process, memSpace, rtMemSpaceMax);
      AllTried(before, rtMemSpaceMax, j, Pools(), process.io, [printers, scanners, modems, disks, memory]);
      return printers && scanners && modems && disks && memory;
    }

    method FreeHostResources(process: PCB)
      requires Valid() && OnRecord(Pools(), process.io)
      modifies Repr()
      ensures forall k :: 0 <= k < KINDS ==> Pools()[k] == Release(old(Pools())[k], process.io[k])
    {
      ReleaseKind(process.io[0], printersAlloc);
      ReleaseKind(process.io[1], scannersAlloc);
      ReleaseKind(process.io[2], modemsAlloc);
      ReleaseKind(process.io[3], disksAlloc);
      ReleaseKind(process.io[4], memSpace);
    }
  }

  /** The state once all five kinds were tried. */
  ghost predicate Tried(before: seq<seq<int>>, rt: nat, j: Job, granted: seq<seq<int>>, io: seq<Claim>)
    requires PoolsFit(before, rt) && |j.io| == |io| == |granted| == KINDS
  {
    forall k :: 0 <= k < KINDS ==> granted[k] == TryKind(before, rt, j, k).cells && io[k] == TryKind(before, rt, j, k).claim
  }

  lemma AllTried(before: seq<seq<int>>, rt: nat, j: Job, granted: seq<seq<int>>, io: seq<Claim>, oks: seq<bool>)
    requires PoolsFit(before, rt) && |j.io| == |io| == |granted| == |oks| == KINDS
    requires Grant(oks[0], granted[0], io[0]) == Try(before[0], j.io[0], j.pid, 0, |before[0]|)
    requires Grant(oks[1], granted[1], io[1]) == Try(before[1], j.io[1], j.pid, 0, |before[1]|)
    requires Grant(oks[2], granted[2], io[2]) == Try(before[2], j.io[2], j.pid, 0, |before[2]|)
    requires Grant(oks[3], granted[3], io[3]) == Try(before[3], j.io[3], j.pid, 0, |before[3]|)
    requires Grant(oks[4], granted[4], io[4]) == TryKind(before, rt, j, MEMORY)
    ensures Tried(before, rt, j, granted, io)
    ensures Admitted(before, rt, j) <==> oks[0] && oks[1] && oks[2] && oks[3] && oks[4]
  {
    forall k | 0 <= k < KINDS
      ensures Grant(oks[k], granted[k], io[k]) == TryKind(before, rt, j, k)
    {
    }
  }

  lemma NoneOutOfBounds(before: seq<seq<int>>, rt: nat, j: Job, granted: seq<seq<int>>, io: seq<Claim>)
    requires PoolsFit(before, rt) && |j.io| == |io| == |granted| == KINDS && OnRecord(before, j.io)
    requires Tried(before, rt, j, granted, io)
    ensures io == JobAfter(before, rt, j).io && OnRecord(granted, io)
  {
  }

  lemma AllGranted(before: seq<seq<int>>, rt: nat, j: Job, granted: seq<seq<int>>, io: seq<Claim>)
    requires PoolsFit(before, rt) && |j.io| == |io| == |granted| == KINDS && OnRecord(before, j.io)
    requires Tried(before, rt, j, granted, io) && Admitted(before, rt, j)
    ensures io == JobAfter(before, rt, j).io && granted == PoolsAfter(before, rt, j) && OnRecord(granted, io)
  {
    NoneOutOfBounds(before, rt, j, granted, io);
  }

  lemma RolledBack(before: seq<seq<int>>, rt: nat, j: Job, granted: seq<seq<int>>, io: seq<Claim>, after: seq<seq<int>>)
    requires PoolsFit(before, rt) && |j.io| == |io| == |granted| == |after| == KINDS
    requires Tried(before, rt, j, granted, io) && !Admitted(before, rt, j) && OnRecord(granted, io)
    requires forall k :: 0 <= k < KINDS ==> after[k] == Release(granted[k], io[k])
    ensures after == PoolsAfter(before, rt, j) && OnRecord(after, io)
  {
  }

  method AllocateKind(process: PCB, k: nat, cells: array<int>, base: nat, n: nat) returns (ok: bool)
    requires k < |process.io| && base + n <= cells.Length
    modifies cells, process`io
    ensures var g := old(Try(cells[..], process.io[k], process.pid, base, n));
            ok == g.ok && cells[..] == g.cells && process.io == old(process.io)[k := g.claim]
  {
    var needed := process.io[k].needed;
    if needed == 0 {
      return true;
    }
    assert cells[..][base..base + n] == cells[base..base + n];
    var startCursor := CheckResourcesFreeFirstFit(needed, process.pid, n, cells, base);
    if startCursor != -1 {
      Fill(cells, base + startCursor, needed, process.pid);
      process.io := process.io[k := Claim(needed, needed, base + startCursor)];
      return true;
    }
    return false;
  }

  /** Real-time processes see the front of the memory array, the others the rest of it. */
  method AllocateMemory(process: PCB, memSpace: array<int>, rt: nat) returns (ok: bool)
    requires |process.io| == KINDS && rt <= memSpace.Length
    modifies memSpace, process`io
    ensures var g := old(if process.priority == 0 then Try(memSpace[..], process.io[4], process.pid, 0, rt)
                         else Try(memSpace[..], process.io[4], process.pid, rt, memSpace.Length - rt));
            ok == g.ok && memSpace[..] == g.cells && process.io == old(process.io)[4 := g.claim]
  {
    if process.priority == 0 {
      ok := AllocateKind(process, MEMORY, memSpace, 0, rt);
    } else {
      ok := AllocateKind(process, MEMORY, memSpace, rt, memSpace.Length - rt);
    }
  }

  method ReleaseKind(c: Claim, cells: array<int>)
    requires c.start != -1 ==> 0 <= c.start && 0 <= c.have && c.start + c.have <= cells.Length
    modifies cells
    ensures cells[..] == Release(old(cells[..]), c)
  {
    if c.start != -1 {
      Fill(cells, c.start, c.have, 0);
    }
  }

  method Fill(cells: array<int>, start: nat, n: nat, v: int)
    requires start + n <= cells.Length
    modifies cells
    ensures cells[..] == Filled(old(cells[..]), start, n, v)
  {
    var i := start;
    while i < start + n
      invariant start <= i <= start + n
      invariant forall x :: 0 <= x < cells.Length ==> cells[x] == if start <= x < i then v else old(cells[x])
    {
      cells[i] := v;
      i := i + 1;
    }
  }
}
