/** The multi-threaded translation loop. Workers claim addresses through a shared cursor under one
    mutex and translate them under another; only the loop test reads the cursor without a lock. A
    step of the model is one such test, one lock or unlock, the claim, or one stage of a
    translation, by any worker. */
module ThreadedTranslator {
  import opened Wrappers
  import opened Counting
  import opened AgeRing
  import opened PagingSpec
  import opened PagingTheorems

  datatype Point =
    | Test | LockCursor | Claim | UnlockCursor
    | LockTable | CheckTlb | FindPage | LoadPage | Print | UpdateTlb | UnlockTable
    | Exited

  datatype Worker = Worker(at: Point, index: nat, frame: nat, hit: bool)

  /** t TLB slots, p frames, n addresses, w workers. `cells` is the buffer the addresses were read
      into; what lies behind the first n cells is arbitrary. Reading the addresses fails unless they
      fit in the buffer; nothing more is known of its size. */
  datatype Config = Config(t: nat, p: nat, store: seq<int>, n: nat, w: nat, cells: seq<int>) {
    /** How far the cursor can get: every worker may pass the test for the last address. */
    function Limit(): nat
      requires w > 0
    {
      if n == 0 then 0 else n + w - 1
    }

    predicate Ok() {
      t > 0 && p > 0 && |store| == 65536 && w > 0 && n <= |cells|
    }
  }

  /** `order` lists the claimed indices in the order in which their claimants took the table lock. */
  datatype State = State(workers: seq<Worker>, cursor: nat, cursorLock: Option<nat>, tableLock: Option<nat>,
                         mem: Machine, order: seq<nat>)

  function Init(c: Config): State {
    State(seq(c.w, _ => Worker(Test, 0, 0, false)), 0, None, None, IDLE, [])
  }

  predicate Shape(c: Config, s: State) {
    |s.workers| == c.w && Fits(c.p, s.mem)
  }

  predicate InTable(p: Point) {
    match p
    case CheckTlb | FindPage | LoadPage | Print | UpdateTlb | UnlockTable => true
    case _ => false
  }

  predicate InBounds(c: Config, x: Worker, mem: Machine) {
    x.index < |c.cells| && (x.at.Print? || x.at.UpdateTlb? ==> x.frame < Occupied(|mem.faults|, c.p))
  }

  datatype Staged = Staged(worker: Worker, mem: Machine)

  /** The part of a translation that one step does while the table is locked. */
  function Stage(c: Config, x: Worker, mem: Machine): (r: Staged)
    requires c.Ok() && Fits(c.p, mem) && InTable(x.at) && !x.at.UnlockTable? && InBounds(c, x, mem)
    ensures Fits(c.p, r.mem) && InTable(r.worker.at) && r.worker.index == x.index
  {
    var page, offset := PageNumber(c.cells[x.index]), PageOffset(c.cells[x.index]);
    match x.at
    case CheckTlb =>
      var e := Lookup(Window(c.t, mem.tlb), page);
      if e.Some? then Staged(x.(at := Print, frame := e.value.frame, hit := true), mem.(hits := mem.hits + 1))
      else Staged(x.(at := FindPage), mem)
    case FindPage =>
      var f := Find(c.p, mem.faults, page);
      if f.Some? then Staged(x.(at := Print, frame := f.value, hit := false), mem)
      else Staged(x.(at := LoadPage), mem)
    case LoadPage =>
      Staged(x.(at := Print, frame := |mem.faults| % c.p, hit := false), mem.(faults := mem.faults + [page]))
    case Print =>
      assert Resident(c.p, mem.faults, x.frame) < 256;
      var value := Byte(c.store, Resident(c.p, mem.faults, x.frame), offset);
      Staged(x.(at := UpdateTlb), mem.(output := mem.output + [Line(c.cells[x.index], x.frame * 256 + offset, value)]))
    case UpdateTlb =>
      Staged(x.(at := UnlockTable), mem.(tlb := mem.tlb + [Entry(page, x.frame, x.hit, |mem.faults|)]))
  }

  /** Locks that are taken are waited for. The other conditions are that no access is out of bounds.
      For the frames they are proved never to fail in a run; a claim fails when the cursor is at the
      end of the buffer, and what the program does from there on is not defined. */
  predicate Enabled(c: Config, s: State, i: nat)
    requires Shape(c, s) && i < c.w
  {
    var x := s.workers[i];
    match x.at
    case LockCursor => s.cursorLock == None
    case LockTable => s.tableLock == None
    case Claim => s.cursor < |c.cells|
    case Test | UnlockCursor | UnlockTable => true
    case Exited => false
    case _ => InBounds(c, x, s.mem)
  }

  function Step(c: Config, s: State, i: nat): (r: State)
    requires c.Ok() && Shape(c, s) && i < c.w && Enabled(c, s, i)
    ensures Shape(c, r)
  {
    var x := s.workers[i];
    match x.at
    case Test =>
      s.(workers := s.workers[i := x.(at := if s.cursor < c.n then LockCursor else Exited)])
    case LockCursor =>
      s.(workers := s.workers[i := x.(at := Claim)], cursorLock := Some(i))
    case Claim =>
      s.(workers := s.workers[i := x.(at := UnlockCursor, index := s.cursor)], cursor := s.cursor + 1)
    case UnlockCursor =>
      s.(workers := s.workers[i := x.(at := LockTable)], cursorLock := None)
    case LockTable =>
      s.(workers := s.workers[i := x.(at := CheckTlb)], tableLock := Some(i), order := s.order + [x.index])
    case UnlockTable =>
      s.(workers := s.workers[i := x.(at := Test)], tableLock := None)
    case CheckTlb | FindPage | LoadPage | Print | UpdateTlb =>
      var st := Stage(c, x, s.mem);
      s.(workers := s.workers[i := st.worker], mem := st.mem)
  }

  ghost predicate Run(c: Config, s: State, sched: seq<nat>, r: State)
    requires c.Ok() && Shape(c, s)
    decreases |sched|
  {
    if sched == [] then
      r == s
    else
      sched[0] < c.w && Enabled(c, s, sched[0]) && Run(c, Step(c, s, sched[0]), sched[1..], r)
  }

  // ----- Linearisation -----

  function Addresses(c: Config, order: seq<nat>): (addresses: seq<int>)
    requires forall k :: 0 <= k < |order| ==> order[k] < |c.cells|
  {
    seq(|order|, k requires 0 <= k < |order| => c.cells[order[k]])
  }

  /** How far the worker inside the table lock has got, given the memory `m` it started from. */
  ghost predicate Progress(c: Config, m: Machine, x: Worker, mem: Machine)
    requires c.Ok() && Fits(c.p, m) && x.index < |c.cells|
  {
    var page := PageNumber(c.cells[x.index]);
    var o := Translate(c.t, c.p, m, page);
    var r := Access(c.t, c.p, c.store, m, c.cells[x.index]);
    match x.at
    case CheckTlb => mem == m
    case FindPage => mem == m && Lookup(Window(c.t, m.tlb), page).None?
    case LoadPage => mem == m && Lookup(Window(c.t, m.tlb), page).None? && Find(c.p, m.faults, page).None?
    case Print => x.frame == o.frame && x.hit == o.hit && mem == r.(tlb := m.tlb, output := m.output)
    case UpdateTlb => x.frame == o.frame && x.hit == o.hit && mem == r.(tlb := m.tlb)
    case UnlockTable => mem == r
    case _ => false
  }

  /** The indices whose translation is complete. */
  function Completed(s: State): seq<nat> {
    if s.tableLock == None || s.order == [] then s.order else s.order[..|s.order| - 1]
  }

  ghost predicate OrderInBounds(c: Config, s: State) {
    forall k :: 0 <= k < |s.order| ==> s.order[k] < |c.cells|
  }

  /** The sequential run over the completed translations, in the order of the table lock. */
  ghost function Sequential(c: Config, s: State): (m: Machine)
    requires c.Ok() && OrderInBounds(c, s)
    ensures Fits(c.p, m)
  {
    Exec(c.t, c.p, c.store, Addresses(c, Completed(s)))
  }

  ghost predicate TableLocked(c: Config, s: State)
    requires Shape(c, s)
  {
    && (forall i :: 0 <= i < c.w ==> (s.tableLock == Some(i) <==> InTable(s.workers[i].at)))
    && (s.tableLock.Some? ==> s.tableLock.value < c.w && s.order != [] &&
                              s.order[|s.order| - 1] == s.workers[s.tableLock.value].index)
  }

  /** The memory is that of a sequential run, or of a partly done access after it. */
  ghost predicate Linear(c: Config, s: State)
    requires c.Ok() && Shape(c, s)
  {
    && OrderInBounds(c, s) && TableLocked(c, s)
    && match s.tableLock
       case None => s.mem == Sequential(c, s)
       case Some(i) => Progress(c, Sequential(c, s), s.workers[i], s.mem)
  }

  /** One stage of the critical section brings the memory one stage closer to the next sequential access. */
  lemma StageKeepsProgress(c: Config, m: Machine, x: Worker, mem: Machine)
    requires c.Ok() && Fits(c.p, mem) && InTable(x.at) && !x.at.UnlockTable? && InBounds(c, x, mem)
    requires Fits(c.p, m) && Progress(c, m, x, mem)
    ensures Progress(c, m, Stage(c, x, mem).worker, Stage(c, x, mem).mem)
  {
  }

  lemma StageStepKeepsLinear(c: Config, s: State, i: nat)
    requires c.Ok() && Shape(c, s) && i < c.w && Enabled(c, s, i) && Linear(c, s)
    requires InTable(s.workers[i].at) && !s.workers[i].at.UnlockTable?
    ensures Linear(c, Step(c, s, i))
  {
    assert s.tableLock == Some(i);
    StageKeepsProgress(c, Sequential(c, s), s.workers[i], s.mem);
    assert Completed(Step(c, s, i)) == Completed(s);
  }

  lemma StepKeepsTableLocked(c: Config, s: State, i: nat)
    requires c.Ok() && Shape(c, s) && i < c.w && Enabled(c, s, i) && TableLocked(c, s)
    ensures TableLocked(c, Step(c, s, i))
  {
    assert s.tableLock == Some(i) <==> InTable(s.workers[i].at);
  }

  lemma FinishedAccess(c: Config, m: Machine, x: Worker, mem: Machine)
    requires c.Ok() && Fits(c.p, m) && x.index < |c.cells| && Progress(c, m, x, mem) && x.at.UnlockTable?
    ensures mem == Access(c.t, c.p, c.store, m, c.cells[x.index])
  {
  }

  lemma SequentialNext(c: Config, order: seq<nat>)
    requires c.Ok() && order != [] && forall k :: 0 <= k < |order| ==> order[k] < |c.cells|
    ensures Exec(c.t, c.p, c.store, Addresses(c, order)) ==
            Access(c.t, c.p, c.store, Exec(c.t, c.p, c.store, Addresses(c, order[..|order| - 1])),
                   c.cells[order[|order| - 1]])
  {
    var n := |order| - 1;
    assert Addresses(c, order) == Addresses(c, order[..n]) + [c.cells[order[n]]];
    ExecAppend(c.t, c.p, c.store, Addresses(c, order[..n]), c.cells[order[n]]);
  }

  lemma CompleteOne(c: Config, s: State, r: State, i: nat)
    requires c.Ok() && Shape(c, s) && Linear(c, s) && s.tableLock == Some(i) && s.workers[i].at.UnlockTable?
    requires Shape(c, r) && TableLocked(c, r) && r.tableLock == None && r.order == s.order && r.mem == s.mem
    ensures Linear(c, r)
  {
    SequentialNext(c, s.order);
    FinishedAccess(c, Sequential(c, s), s.workers[i], s.mem);
  }

  lemma BeginOne(c: Config, s: State, r: State, i: nat)
    requires c.Ok() && Shape(c, s) && Linear(c, s) && s.tableLock == None && i < c.w && s.workers[i].index < |c.cells|
    requires Shape(c, r) && TableLocked(c, r) && r.tableLock == Some(i) && r.mem == s.mem
    requires r.order == s.order + [s.workers[i].index] && r.workers[i] == s.workers[i].(at := CheckTlb)
    ensures Linear(c, r)
  {
    assert Completed(r) == Completed(s);
  }

  lemma OutsideTable(c: Config, s: State, r: State)
    requires c.Ok() && Shape(c, s) && Linear(c, s)
    requires Shape(c, r) && TableLocked(c, r) && r.tableLock == s.tableLock && r.order == s.order && r.mem == s.mem
    requires s.tableLock.Some? ==> r.workers[s.tableLock.value] == s.workers[s.tableLock.value]
    ensures Linear(c, r)
  {
  }

  lemma StepKeepsLinear(c: Config, s: State, i: nat)
    requires c.Ok() && Shape(c, s) && i < c.w && Enabled(c, s, i) && Linear(c, s)
    requires s.workers[i].at.LockTable? ==> s.workers[i].index < |c.cells|
    ensures Linear(c, Step(c, s, i))
  {
    StepKeepsTableLocked(c, s, i);
    if s.workers[i].at.LockTable? {
      BeginOne(c, s, Step(c, s, i), i);
    } else if !InTable(s.workers[i].at) {
      OutsideTable(c, s, Step(c, s, i));
    } else if s.workers[i].at.UnlockTable? {
      CompleteOne(c, s, Step(c, s, i), i);
    } else {
      StageStepKeepsLinear(c, s, i);
    }
  }

  // ----- The cursor -----

  /** Has passed the loop test but not yet taken an address. */
  predicate Committed(p: Point) {
    p.LockCursor? || p.Claim?
  }

  /** Has taken an address but not yet the table lock. */
  predicate Waiting(p: Point) {
    p.UnlockCursor? || p.LockTable?
  }

  function ClaimsToCome(): Worker -> int {
    (x: Worker) => if Committed(x.at) then 1 else 0
  }

  function CommittedCount(workers: seq<Worker>): (k: nat)
    ensures k <= |workers|
  {
    SumNonNegative(workers, ClaimsToCome());
    SumAtMostLength(workers, ClaimsToCome());
    Sum(workers, ClaimsToCome())
  }

  ghost predicate Bounded(c: Config, s: State)
    requires c.Ok() && Shape(c, s)
  {
    && s.cursor + CommittedCount(s.workers) <= c.Limit() && s.cursor <= |c.cells|
    && (forall i :: 0 <= i < c.w ==> (s.cursorLock == Some(i) <==> s.workers[i].at.Claim? || s.workers[i].at.UnlockCursor?))
    && (s.cursorLock.Some? ==> s.cursorLock.value < c.w)
    && (forall i :: 0 <= i < c.w && s.workers[i].at.Exited? ==> c.n <= s.cursor)
  }

  /** Every index below the cursor has been claimed once, and is either in the order of
      translation or with exactly one worker waiting for the table. */
  ghost predicate Claims(c: Config, s: State)
    requires c.Ok() && Shape(c, s)
  {
    && (forall k :: 0 <= k < |s.order| ==> s.order[k] < s.cursor)
    && Unique(s.order)
    && (forall i :: 0 <= i < c.w && Waiting(s.workers[i].at) ==> s.workers[i].index < s.cursor && s.workers[i].index !in s.order)
    && (forall i, j :: 0 <= i < j < c.w && Waiting(s.workers[i].at) && Waiting(s.workers[j].at) ==>
          s.workers[i].index != s.workers[j].index)
    && (forall k: nat :: k < s.cursor && k !in s.order ==>
          exists i :: 0 <= i < c.w && Waiting(s.workers[i].at) && s.workers[i].index == k)
  }

  ghost predicate Inv(c: Config, s: State)
    requires c.Ok()
  {
    Shape(c, s) && Linear(c, s) && Bounded(c, s) && Claims(c, s)
  }

  lemma StepKeepsBounded(c: Config, s: State, i: nat)
    requires c.Ok() && Shape(c, s) && Bounded(c, s) && i < c.w && Enabled(c, s, i)
    ensures Bounded(c, Step(c, s, i))
  {
    var r := Step(c, s, i);
    SumUpdate(s.workers, ClaimsToCome(), i, r.workers[i]);
  }

  /** Any step keeps a claimed index claimed. */
  lemma ClaimedStaysClaimed(c: Config, s: State, i: nat, k: nat)
    requires c.Ok() && Shape(c, s) && Claims(c, s) && i < c.w && Enabled(c, s, i)
    requires k < Step(c, s, i).cursor && k !in Step(c, s, i).order
    ensures exists j :: 0 <= j < c.w && Waiting(Step(c, s, i).workers[j].at) && Step(c, s, i).workers[j].index == k
  {
    var r := Step(c, s, i);
    if s.workers[i].at.Claim? && k == s.cursor {
      assert Waiting(r.workers[i].at) && r.workers[i].index == k;
    } else {
      assert k !in s.order;
      var j :| 0 <= j < c.w && Waiting(s.workers[j].at) && s.workers[j].index == k;
      assert s.workers[i].at.LockTable? ==> s.workers[i].index in r.order;
      assert Waiting(r.workers[j].at) && r.workers[j].index == k;
    }
  }

  lemma OrderStaysUnique(c: Config, s: State, i: nat)
    requires c.Ok() && Shape(c, s) && Claims(c, s) && i < c.w && Enabled(c, s, i)
    ensures var r := Step(c, s, i);
            && (forall k :: 0 <= k < |r.order| ==> r.order[k] < r.cursor)
            && Unique(r.order)
  {
  }

  lemma WaitersStayDistinct(c: Config, s: State, i: nat)
    requires c.Ok() && Shape(c, s) && Claims(c, s) && i < c.w && Enabled(c, s, i)
    ensures var r := Step(c, s, i);
            && (forall j :: 0 <= j < c.w && Waiting(r.workers[j].at) ==>
                  r.workers[j].index < r.cursor && r.workers[j].index !in r.order)
            && (forall j, k :: 0 <= j < k < c.w && Waiting(r.workers[j].at) && Waiting(r.workers[k].at) ==>
                  r.workers[j].index != r.workers[k].index)
  {
  }

  lemma StepKeepsClaims(c: Config, s: State, i: nat)
    requires c.Ok() && Shape(c, s) && Claims(c, s) && i < c.w && Enabled(c, s, i)
    ensures Claims(c, Step(c, s, i))
  {
    var r := Step(c, s, i);
    OrderStaysUnique(c, s, i);
    WaitersStayDistinct(c, s, i);
    forall k: nat | k < r.cursor && k !in r.order
      ensures exists j :: 0 <= j < c.w && Waiting(r.workers[j].at) && r.workers[j].index == k
    {
      ClaimedStaysClaimed(c, s, i, k);
    }
  }

  lemma StepKeepsInv(c: Config, s: State, i: nat)
    requires c.Ok() && Inv(c, s) && i < c.w && Enabled(c, s, i)
    ensures Inv(c, Step(c, s, i))
  {
    StepKeepsLinear(c, s, i);
    StepKeepsBounded(c, s, i);
    StepKeepsClaims(c, s, i);
  }

  lemma InitInv(c: Config)
    requires c.Ok()
    ensures Inv(c, Init(c))
  {
    SumUniform(Init(c).workers, ClaimsToCome(), 0);
    assert Addresses(c, []) == [];
  }

  lemma {:induction false} RunKeepsInv(c: Config, s: State, sched: seq<nat>, r: State)
    requires c.Ok() && Inv(c, s) && Run(c, s, sched, r)
    ensures Inv(c, r)
    decreases |sched|
  {
    if sched != [] {
      StepKeepsInv(c, s, sched[0]);
      RunKeepsInv(c, Step(c, s, sched[0]), sched[1..], r);
    }
  }

  predicate AllExited(c: Config, s: State)
    requires Shape(c, s)
  {
    forall i :: 0 <= i < c.w ==> s.workers[i].at.Exited?
  }

  /** The numbers below n, each once. */
  lemma {:induction false} PermutationLength(order: seq<nat>, n: nat)
    requires Unique(order) && (forall k :: 0 <= k < |order| ==> order[k] < n)
    requires forall k: nat :: k < n ==> k in order
    ensures |order| == n
  {
    UniqueSize(order);
    BoundedSize(n, Elements(order));
  }

  /** In every reachable state, whoever else is under way: if nobody holds the table, its contents,
      the counters and the output are those of the sequential translator run on the addresses in the
      order in which the table was locked; and the cursor stays within its limit. */
  lemma EveryRunIsSequential(c: Config, sched: seq<nat>, s: State)
    requires c.Ok() && Run(c, Init(c), sched, s)
    ensures Inv(c, s) && s.cursor <= c.Limit()
    ensures s.tableLock == None ==> s.mem == Exec(c.t, c.p, c.store, Addresses(c, s.order))
  {
    InitInv(c);
    RunKeepsInv(c, Init(c), sched, s);
  }

  /** When all workers are done every index below n, and perhaps up to w - 1 more, has been
      translated exactly once. */
  lemma FinishedRunTranslatesAll(c: Config, sched: seq<nat>, s: State)
    requires c.Ok() && Run(c, Init(c), sched, s) && Shape(c, s) && AllExited(c, s)
    ensures Unique(s.order) && (forall k :: 0 <= k < |s.order| ==> s.order[k] < |c.cells|)
    ensures c.n <= |s.order| == s.cursor <= c.Limit()
    ensures forall k: nat :: k in s.order <==> k < s.cursor
    ensures s.mem == Exec(c.t, c.p, c.store, Addresses(c, s.order))
  {
    EveryRunIsSequential(c, sched, s);
    assert s.workers[0].at.Exited?;
    PermutationLength(s.order, s.cursor);
  }

  // ----- Progress -----

  lemma SomebodyCommitted(workers: seq<Worker>, i: nat)
    requires i < |workers| && Committed(workers[i].at)
    ensures CommittedCount(workers) >= 1
  {
    SumNonNegative(workers, ClaimsToCome());
  }

  lemma TableHolderCanMove(c: Config, s: State, i: nat)
    requires c.Ok() && Inv(c, s) && s.tableLock == Some(i)
    ensures i < c.w && Enabled(c, s, i)
  {
    var m := Sequential(c, s);
    var o := Translate(c.t, c.p, m, PageNumber(c.cells[s.workers[i].index]));
    assert Progress(c, m, s.workers[i], s.mem);
  }

  /** Worker i is about to read the cell behind the end of the buffer. */
  predicate ReadsBeyond(c: Config, s: State, i: nat)
    requires Shape(c, s)
  {
    i < c.w && s.workers[i].at.Claim? && s.cursor >= |c.cells|
  }

  /** Until all have exited somebody can move, or is about to read behind the buffer; no other access
      is ever out of bounds. */
  lemma NoDeadlock(c: Config, s: State) returns (j: nat)
    requires c.Ok() && Inv(c, s) && !AllExited(c, s)
    ensures j < c.w && (Enabled(c, s, j) || ReadsBeyond(c, s, j))
  {
    if s.tableLock.Some? {
      j := s.tableLock.value;
      TableHolderCanMove(c, s, j);
    } else if s.cursorLock.Some? {
      j := s.cursorLock.value;
    } else {
      var i :| 0 <= i < c.w && !s.workers[i].at.Exited?;
      assert s.tableLock != Some(i) && s.cursorLock != Some(i);
      j := i;
    }
  }

  function Rank(p: Point): nat {
    match p
    case Exited => 0
    case Test => 1
    case UnlockTable => 2
    case UpdateTlb => 3
    case Print => 4
    case LoadPage => 5
    case FindPage => 6
    case CheckTlb => 7
    case LockTable => 8
    case UnlockCursor => 9
    case Claim => 10
    case LockCursor => 11
  }

  function RankOf(): Worker -> int {
    (x: Worker) => Rank(x.at)
  }

  function RankSum(workers: seq<Worker>): nat {
    SumNonNegative(workers, RankOf());
    Sum(workers, RankOf())
  }

  /** Bounds the steps to come: eleven for every address that can still be claimed, and what each worker has left. */
  function Potential(c: Config, s: State): int
    requires c.Ok()
  {
    11 * (c.Limit() - s.cursor - CommittedCount(s.workers)) + RankSum(s.workers)
  }

  lemma StepLowersPotential(c: Config, s: State, i: nat)
    requires c.Ok() && Shape(c, s) && i < c.w && Enabled(c, s, i)
    ensures Potential(c, Step(c, s, i)) < Potential(c, s)
  {
    SumUpdate(s.workers, ClaimsToCome(), i, Step(c, s, i).workers[i]);
    SumUpdate(s.workers, RankOf(), i, Step(c, s, i).workers[i]);
  }

  lemma {:induction false} RunFrom(c: Config, s: State, sched: seq<nat>, r: State)
    requires c.Ok() && Inv(c, s) && Run(c, s, sched, r)
    ensures |sched| + Potential(c, r) <= Potential(c, s) && Potential(c, r) >= 0
    decreases |sched|
  {
    if sched != [] {
      StepKeepsInv(c, s, sched[0]);
      StepLowersPotential(c, s, sched[0]);
      RunFrom(c, Step(c, s, sched[0]), sched[1..], r);
    }
  }

  /** Every scheduler brings every worker to its end within 11 steps per claimed address. */
  lemma EveryRunIsBounded(c: Config, sched: seq<nat>, s: State)
    requires c.Ok() && Run(c, Init(c), sched, s)
    ensures |sched| <= 11 * c.Limit() + c.w
  {
    InitInv(c);
    SumUniform(Init(c).workers, ClaimsToCome(), 0);
    SumUniform(Init(c).workers, RankOf(), 1);
    RunFrom(c, Init(c), sched, s);
  }

  // ----- Which cells can be claimed -----

  lemma {:induction false} RunAppend(c: Config, s: State, a: seq<nat>, r: State, b: seq<nat>, q: State)
    requires c.Ok() && Shape(c, s) && Run(c, s, a, r) && Shape(c, r) && Run(c, r, b, q)
    ensures Run(c, s, a + b, q)
    decreases |a|
  {
    if a == [] {
      assert a + b == b;
    } else {
      assert (a + b)[0] == a[0] && (a + b)[1..] == a[1..] + b;
      RunAppend(c, Step(c, s, a[0]), a[1..], r, b, q);
    }
  }

  lemma RunOne(c: Config, s: State, i: nat)
    requires c.Ok() && Shape(c, s) && i < c.w && Enabled(c, s, i)
    ensures Run(c, s, [i], Step(c, s, i))
  {
    assert [i][1..] == [];
    assert Run(c, Step(c, s, i), [], Step(c, s, i));
  }

  /** Everybody is about to test the cursor. */
  ghost predicate Quiet(c: Config, s: State)
    requires c.Ok()
  {
    Inv(c, s) && forall j :: 0 <= j < c.w ==> s.workers[j].at == Test
  }

  ghost predicate OnlyMover(c: Config, s: State, i: nat)
    requires c.Ok()
  {
    && Inv(c, s) && i < c.w && !s.workers[i].at.Exited?
    && (Committed(s.workers[i].at) ==> s.cursor < c.n)
    && forall j :: 0 <= j < c.w && j != i ==> s.workers[j].at == Test
  }

  lemma StepWithinLoop(c: Config, s: State, i: nat)
    requires c.Ok() && Shape(c, s) && i < c.w && Enabled(c, s, i) && !s.workers[i].at.Test?
    ensures var r := Step(c, s, i);
            && (forall j :: 0 <= j < c.w && j != i ==> r.workers[j] == s.workers[j])
            && 0 < Rank(r.workers[i].at) < Rank(s.workers[i].at)
            && r.cursor + ClaimsToCome()(r.workers[i]) == s.cursor + ClaimsToCome()(s.workers[i])
  {
    hide Translate, Resident, FindFrom;
    if InTable(s.workers[i].at) && !s.workers[i].at.UnlockTable? {
      assert Rank(Stage(c, s.workers[i], s.mem).worker.at) < Rank(s.workers[i].at);
    }
  }

  lemma MoverStep(c: Config, s: State, i: nat)
    requires c.Ok() && OnlyMover(c, s, i) && !s.workers[i].at.Test?
    ensures Enabled(c, s, i)
    ensures var r := Step(c, s, i);
            && OnlyMover(c, r, i) && Run(c, s, [i], r)
            && Rank(r.workers[i].at) < Rank(s.workers[i].at)
            && r.cursor + ClaimsToCome()(r.workers[i]) == s.cursor + ClaimsToCome()(s.workers[i])
  {
    OnlyMoverCanMove(c, s, i);
    StepWithinLoop(c, s, i);
    StepKeepsInv(c, s, i);
    RunOne(c, s, i);
  }

  /** Left alone, a worker returns to the loop test. */
  lemma {:induction false} BackToTest(c: Config, s: State, i: nat) returns (sched: seq<nat>, r: State)
    requires c.Ok() && OnlyMover(c, s, i)
    ensures Run(c, s, sched, r) && Quiet(c, r)
    ensures r.cursor == s.cursor + ClaimsToCome()(s.workers[i])
    decreases Rank(s.workers[i].at)
  {
    if s.workers[i].at.Test? {
      sched, r := [], s;
    } else {
      MoverStep(c, s, i);
      var s' := Step(c, s, i);
      sched, r := BackToTest(c, s', i);
      RunAppend(c, s, [i], s', sched, r);
      sched := [i] + sched;
    }
  }

  lemma OnlyMoverCanMove(c: Config, s: State, i: nat)
    requires c.Ok() && OnlyMover(c, s, i)
    ensures Enabled(c, s, i)
  {
    hide Claims, Progress, Sequential, InBounds;
    if s.tableLock == Some(i) {
      TableHolderCanMove(c, s, i);
    } else {
      assert forall j :: 0 <= j < c.w && j != i ==> s.tableLock != Some(j);
      assert s.tableLock == None;
    }
  }

  lemma PassTest(c: Config, s: State, i: nat)
    requires c.Ok() && Quiet(c, s) && s.cursor < c.n && i < c.w
    ensures Enabled(c, s, i)
    ensures var r := Step(c, s, i);
            OnlyMover(c, r, i) && Run(c, s, [i], r) && r.cursor == s.cursor && ClaimsToCome()(r.workers[i]) == 1
  {
    hide Linear, Claims, Progress;
    StepKeepsInv(c, s, i);
    RunOne(c, s, i);
  }

  lemma ClaimOne(c: Config, s: State) returns (sched: seq<nat>, r: State)
    requires c.Ok() && Quiet(c, s) && s.cursor < c.n
    ensures Run(c, s, sched, r) && Quiet(c, r) && r.cursor == s.cursor + 1
  {
    hide Step, Run, Linear, Claims;
    PassTest(c, s, 0);
    var s1 := Step(c, s, 0);
    sched, r := BackToTest(c, s1, 0);
    RunAppend(c, s, [0], s1, sched, r);
    sched := [0] + sched;
  }

  lemma {:induction false} CursorCanReach(c: Config, k: nat) returns (sched: seq<nat>, s: State)
    requires c.Ok() && k <= c.n
    ensures Run(c, Init(c), sched, s) && Quiet(c, s) && s.cursor == k
  {
    if k == 0 {
      InitInv(c);
      sched, s := [], Init(c);
    } else {
      var sched0, s0 := CursorCanReach(c, k - 1);
      var sched1: seq<nat>;
      sched1, s := ClaimOne(c, s0);
      RunAppend(c, Init(c), sched0, s0, sched1, s);
      sched := sched0 + sched1;
    }
  }

  /** The first k workers have passed the test and claim next, the others have yet to make it. */
  ghost predicate Passed(c: Config, s: State, k: nat)
    requires c.Ok()
  {
    && Shape(c, s) && s.cursorLock == None && k <= c.w
    && (forall j :: 0 <= j < k ==> s.workers[j].at == LockCursor)
    && (forall j :: k <= j < c.w ==> s.workers[j].at == Test)
  }

  /** Before anybody takes the cursor lock, everybody can pass the test. */
  lemma {:induction false} AllPass(c: Config, s: State, k: nat) returns (sched: seq<nat>, r: State)
    requires c.Ok() && Passed(c, s, k) && s.cursor < c.n
    ensures Run(c, s, sched, r) && Passed(c, r, c.w) && r.cursor == s.cursor
    decreases c.w - k
  {
    if k == c.w {
      sched, r := [], s;
    } else {
      var s' := Step(c, s, k);
      RunOne(c, s, k);
      sched, r := AllPass(c, s', k + 1);
      RunAppend(c, s, [k], s', sched, r);
      sched := [k] + sched;
    }
  }

  /** Workers i, i + 1, ... are waiting to claim, whatever the cursor says by then. */
  ghost predicate Claimants(c: Config, s: State, i: nat)
    requires c.Ok()
  {
    Shape(c, s) && s.cursorLock == None && i <= c.w && forall j :: i <= j < c.w ==> s.workers[j].at == LockCursor
  }

  /** A worker that has passed the test claims the next cell. */
  lemma ClaimsNext(c: Config, s: State, i: nat) returns (sched: seq<nat>, r: State)
    requires c.Ok() && Claimants(c, s, i) && i < c.w && s.cursor < |c.cells|
    ensures Run(c, s, sched, r) && Claimants(c, r, i + 1) && r.cursor == s.cursor + 1
  {
    var s1 := Step(c, s, i);
    var s2 := Step(c, s1, i);
    r := Step(c, s2, i);
    RunOne(c, s, i);
    RunOne(c, s1, i);
    RunOne(c, s2, i);
    RunAppend(c, s1, [i], s2, [i], r);
    RunAppend(c, s, [i], s1, [i] + [i], r);
    sched := [i] + ([i] + [i]);
  }

  lemma {:induction false} ClaimUpTo(c: Config, s: State, i: nat, b: nat) returns (sched: seq<nat>, r: State)
    requires c.Ok() && Claimants(c, s, i) && s.cursor <= b <= |c.cells| && b - s.cursor < c.w - i
    ensures Run(c, s, sched, r) && Claimants(c, r, i + b - s.cursor) && r.cursor == b
    decreases b - s.cursor
  {
    if s.cursor == b {
      sched, r := [], s;
    } else {
      var one, s' := ClaimsNext(c, s, i);
      sched, r := ClaimUpTo(c, s', i + 1, b);
      RunAppend(c, s, one, s', sched, r);
      sched := one + sched;
    }
  }

  /** Some run brings some worker to the point of claiming cell b. */
  ghost predicate CanClaim(c: Config, b: nat)
    requires c.Ok()
  {
    exists sched: seq<nat>, s: State, i: nat ::
      Run(c, Init(c), sched, s) && Shape(c, s) && i < c.w && s.workers[i].at.Claim? && s.cursor == b
  }

  /** From a state in which everybody is at the test, all pass it, the first ones claim the cells up
      to b, and the next one takes the lock. */
  lemma ClaimFrom(c: Config, s: State, b: nat) returns (sched: seq<nat>, r: State, i: nat)
    requires c.Ok() && Quiet(c, s) && s.cursor < c.n && s.cursor <= b <= |c.cells| && b - s.cursor < c.w
    ensures Run(c, s, sched, r) && Shape(c, r) && i < c.w && r.workers[i].at.Claim? && r.cursor == b
  {
    hide Run, Linear, Claims;
    QuietIsUnlocked(c, s);
    var pass, s1 := AllPass(c, s, 0);
    var claims, s2 := ClaimUpTo(c, s1, 0, b);
    i := b - s.cursor;
    r := Step(c, s2, i);
    RunOne(c, s2, i);
    RunAppend(c, s1, claims, s2, [i], r);
    RunAppend(c, s, pass, s1, claims + [i], r);
    sched := pass + (claims + [i]);
  }

  lemma QuietIsUnlocked(c: Config, s: State)
    requires c.Ok() && Quiet(c, s)
    ensures Passed(c, s, 0)
  {
    assert forall i :: 0 <= i < c.w ==> s.cursorLock != Some(i);
  }

  /** Exactly the first n + w - 1 cells can be claimed, in so far as they exist: the test is made
      without the lock, so all w workers may pass it for the last address. */
  lemma ClaimedExactly(c: Config, b: nat)
    requires c.Ok() && b <= |c.cells|
    ensures CanClaim(c, b) <==> b < c.Limit()
  {
    if b < c.Limit() {
      var start := if b < c.n then b else c.n - 1;
      var sched0, s0 := CursorCanReach(c, start);
      var sched1, s1, i := ClaimFrom(c, s0, b);
      RunAppend(c, Init(c), sched0, s0, sched1, s1);
    }
    if CanClaim(c, b) {
      var sched: seq<nat>, s: State, i: nat :|
        Run(c, Init(c), sched, s) && Shape(c, s) && i < c.w && s.workers[i].at.Claim? && s.cursor == b;
      EveryRunIsSequential(c, sched, s);
      SomebodyCommitted(s.workers, i);
    }
  }

  ghost predicate NeverOvershoots(c: Config)
    requires c.Ok()
  {
    forall sched: seq<nat>, s: State, i: nat ::
      Run(c, Init(c), sched, s) && Shape(c, s) && i < c.w && s.workers[i].at.Claim? ==> s.cursor < c.n
  }

  /** Only cells that hold an address are ever claimed, in all runs, exactly when there is a single
      worker (or no address). */
  lemma NeverOvershootsExactly(c: Config)
    requires c.Ok()
    ensures NeverOvershoots(c) <==> c.w == 1 || c.n == 0
  {
    ClaimedExactly(c, c.n);
    if c.w == 1 || c.n == 0 {
      forall sched: seq<nat>, s: State, i: nat |
        Run(c, Init(c), sched, s) && Shape(c, s) && i < c.w && s.workers[i].at.Claim?
        ensures s.cursor < c.n
      {
        EveryRunIsSequential(c, sched, s);
        SomebodyCommitted(s.workers, i);
      }
    }
  }

  ghost predicate NeverReadsBeyond(c: Config)
    requires c.Ok()
  {
    forall sched: seq<nat>, s: State, i: nat ::
      Run(c, Init(c), sched, s) && Shape(c, s) ==> !ReadsBeyond(c, s, i)
  }

  /** No run reads behind the end of the buffer exactly when there is room for w - 1 cells behind the
      addresses (or there is no address). */
  lemma NeverReadsBeyondExactly(c: Config)
    requires c.Ok()
    ensures NeverReadsBeyond(c) <==> c.n == 0 || c.n + c.w - 1 <= |c.cells|
  {
    ClaimedExactly(c, |c.cells|);
    if NeverReadsBeyond(c) && CanClaim(c, |c.cells|) {
      var sched: seq<nat>, s: State, i: nat :|
        Run(c, Init(c), sched, s) && Shape(c, s) && i < c.w && s.workers[i].at.Claim? && s.cursor == |c.cells|;
      assert ReadsBeyond(c, s, i);
    }
    if !CanClaim(c, |c.cells|) {
      forall sched: seq<nat>, s: State, i: nat | Run(c, Init(c), sched, s) && Shape(c, s)
        ensures !ReadsBeyond(c, s, i)
      {
        EveryRunIsSequential(c, sched, s);
      }
    }
  }

  const MAX_ADDRESSES := 2000
  const MAX_CONCURRENT := 3

  /** With the program's buffer and its three workers the one number of addresses that is accepted
      but not safe is 1999. */
  lemma UnsafeForTheLastListOnly(c: Config)
    requires c.Ok() && |c.cells| == MAX_ADDRESSES && c.w == MAX_CONCURRENT && c.n < MAX_ADDRESSES
    ensures NeverReadsBeyond(c) <==> c.n != MAX_ADDRESSES - 1
  {
    NeverReadsBeyondExactly(c);
  }
}
