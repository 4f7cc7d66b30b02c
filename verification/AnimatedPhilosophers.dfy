/** The animated dining philosophers: the basic protocol, plus one socket guarded by its own mutex
    over which every fork movement is reported. Receiving the client's request and answering it is
    one step, enabled whenever the thread is there (a client is always ready); the answers sent so
    far are the log. The main result is that this protocol refines the basic one and that its log
    tells the truth about the forks. */
module AnimatedPhilosophers {
  import opened Wrappers
  import opened Forks
  import opened Counting
  import B = BasicPhilosophers

  /** A philosopher's program counter: the step it takes next.
      Each fork is locked, then announced under the socket lock; both are returned under one
      socket lock, each announced just before it is unlocked. */
  datatype Point =
    | LockFirst | SockForFirst | SendFirst | UnsockFirst
    | LockSecond | SockForSecond | SendSecond | UnsockSecond
    | SockForReturn | SendLeft | UnlockLeft | SendRight | UnlockRight | UnsockReturn

  datatype Diner = Diner(meals: nat, at: Point)

  /** "fork, philosopher, up or down" */
  datatype Message = Message(fork: nat, phil: nat, up: bool)

  datatype State = State(diners: seq<Diner>, owner: seq<Option<nat>>, sock: Option<nat>, log: seq<Message>)

  function Init(n: nat): State {
    State(seq(n, _ => Diner(0, LockFirst)), seq(n, _ => None), None, [])
  }

  predicate Shape(n: nat, s: State) {
    |s.diners| == n && |s.owner| == n
  }

  function Next(p: Point): Point {
    match p
    case LockFirst => SockForFirst
    case SockForFirst => SendFirst
    case SendFirst => UnsockFirst
    case UnsockFirst => LockSecond
    case LockSecond => SockForSecond
    case SockForSecond => SendSecond
    case SendSecond => UnsockSecond
    case UnsockSecond => SockForReturn
    case SockForReturn => SendLeft
    case SendLeft => UnlockLeft
    case UnlockLeft => SendRight
    case SendRight => UnlockRight
    case UnlockRight => UnsockReturn
    case UnsockReturn => LockFirst
  }

  predicate Enabled(n: nat, m: nat, s: State, i: nat)
    requires Shape(n, s) && i < n
  {
    match s.diners[i].at
    case LockFirst => s.diners[i].meals < m && s.owner[FirstFork(n, i)] == None
    case LockSecond => s.owner[SecondFork(n, i)] == None
    case SockForFirst | SockForSecond | SockForReturn => s.sock == None
    case _ => true
  }

  function Step(n: nat, m: nat, s: State, i: nat): (t: State)
    requires Shape(n, s) && i < n && Enabled(n, m, s, i)
    ensures Shape(n, t)
  {
    var d := s.diners[i];
    var s' := s.(diners := s.diners[i := d.(at := Next(d.at))]);
    match d.at
    case LockFirst => s'.(owner := s.owner[FirstFork(n, i) := Some(i)])
    case LockSecond => s'.(owner := s.owner[SecondFork(n, i) := Some(i)])
    case SockForFirst | SockForSecond | SockForReturn => s'.(sock := Some(i))
    case SendFirst => s'.(log := s.log + [Message(FirstFork(n, i), i, true)])
    case SendSecond => s'.(log := s.log + [Message(SecondFork(n, i), i, true)])
    case UnsockFirst | UnsockSecond => s'.(sock := None)
    case SendLeft => s'.(log := s.log + [Message(LeftFork(i), i, false)])
    case UnlockLeft => s'.(owner := s.owner[LeftFork(i) := None])
    case SendRight => s'.(log := s.log + [Message(RightFork(n, i), i, false)])
    case UnlockRight => s'.(owner := s.owner[RightFork(n, i) := None])
    case UnsockReturn => s'.(sock := None, diners := s.diners[i := Diner(d.meals + 1, LockFirst)])
  }

  ghost predicate Run(n: nat, m: nat, s: State, sched: seq<nat>, t: State)
    requires Shape(n, s)
    decreases |sched|
  {
    if sched == [] then
      t == s
    else
      sched[0] < n && Enabled(n, m, s, sched[0]) && Run(n, m, Step(n, m, s, sched[0]), sched[1..], t)
  }

  // ----- Refinement of the basic protocol -----

  function StageOf(p: Point): B.Stage {
    match p
    case LockFirst | UnsockReturn => B.Thinking
    case SockForFirst | SendFirst | UnsockFirst | LockSecond => B.OneFork
    case SendRight | UnlockRight => B.LeftReturned
    case _ => B.Eating
  }

  /** Forget the socket: a meal counts as eaten once the second fork is unlocked. */
  function BasicDiner(d: Diner): B.Diner {
    B.Diner(d.meals + (if d.at.UnsockReturn? then 1 else 0), StageOf(d.at))
  }

  function Basic(s: State): B.State {
    B.State(seq(|s.diners|, i requires 0 <= i < |s.diners| => BasicDiner(s.diners[i])), s.owner)
  }

  /** Does the step lock or unlock a fork? */
  predicate MovesFork(p: Point) {
    p.LockFirst? || p.LockSecond? || p.UnlockLeft? || p.UnlockRight?
  }

  /** Every step is either invisible in the basic protocol or a step of it by the same philosopher. */
  lemma StepRefinesBasic(n: nat, m: nat, s: State, i: nat)
    requires Shape(n, s) && i < n && Enabled(n, m, s, i)
    ensures MovesFork(s.diners[i].at) ==>
              B.Enabled(n, m, Basic(s), i) && Basic(Step(n, m, s, i)) == B.Step(n, m, Basic(s), i)
    ensures !MovesFork(s.diners[i].at) ==> Basic(Step(n, m, s, i)) == Basic(s)
  {
    var t := Step(n, m, s, i);
    assert forall j :: 0 <= j < n && j != i ==> Basic(t).diners[j] == Basic(s).diners[j];
    if MovesFork(s.diners[i].at) {
      assert Basic(t).diners == B.Step(n, m, Basic(s), i).diners;
    } else {
      assert Basic(t).diners == Basic(s).diners;
    }
  }

  // ----- The invariant -----

  predicate HoldsSocket(p: Point) {
    match p
    case SendFirst | UnsockFirst | SendSecond | UnsockSecond => true
    case SendLeft | UnlockLeft | SendRight | UnlockRight | UnsockReturn => true
    case _ => false
  }

  /** Who has fork f in the hand, going by the log alone. */
  function Holder(log: seq<Message>, f: nat): Option<nat> {
    if log == [] then
      None
    else
      var last := log[|log| - 1];
      if last.fork != f then Holder(log[..|log| - 1], f)
      else if last.up then Some(last.phil)
      else None
  }

  /** The messages about each fork alternate: it goes up only when it is down, and only the
      philosopher who picked it up puts it down. */
  predicate Alternates(log: seq<Message>) {
    log != [] ==>
      var before, last := log[..|log| - 1], log[|log| - 1];
      Alternates(before) && Holder(before, last.fork) == (if last.up then None else Some(last.phil))
  }

  /** Is fork f announced as being in philosopher i's hand when i is at point p? */
  predicate Announced(n: nat, p: Point, i: nat, f: nat)
    requires i < n
  {
    match p
    case UnsockFirst | LockSecond | SockForSecond | SendSecond => f == FirstFork(n, i)
    case UnsockSecond | SockForReturn | SendLeft => f == LeftFork(i) || f == RightFork(n, i)
    case UnlockLeft | SendRight => f == RightFork(n, i)
    case _ => false
  }

  ghost predicate LogInv(n: nat, s: State)
    requires Shape(n, s)
  {
    && Alternates(s.log)
    && (forall k :: 0 <= k < |s.log| ==> s.log[k].fork < n && s.log[k].phil < n)
    && (forall f :: 0 <= f < n && Holder(s.log, f).Some? ==> Holder(s.log, f).value < n)
    && (forall f, i :: 0 <= f < n && 0 <= i < n ==>
          (Holder(s.log, f) == Some(i) <==> Announced(n, s.diners[i].at, i, f)))
  }

  ghost predicate SocketInv(n: nat, s: State)
    requires Shape(n, s)
  {
    && (s.sock.Some? ==> s.sock.value < n)
    && (forall i :: 0 <= i < n ==> (s.sock == Some(i) <==> HoldsSocket(s.diners[i].at)))
  }

  ghost predicate Inv(n: nat, m: nat, s: State) {
    Shape(n, s) && B.Inv(n, m, Basic(s)) && SocketInv(n, s) && LogInv(n, s)
  }

  lemma HolderAfter(log: seq<Message>, msg: Message, f: nat)
    ensures Holder(log + [msg], f) ==
            if msg.fork != f then Holder(log, f) else if msg.up then Some(msg.phil) else None
  {
    assert (log + [msg])[..|log|] == log;
  }

  /** A fork that is announced as held really is held, by the same philosopher. */
  lemma AnnouncedIsOwned(n: nat, m: nat, s: State, i: nat, f: nat)
    requires Inv(n, m, s) && i < n && f < n && Announced(n, s.diners[i].at, i, f)
    ensures s.owner[f] == Some(i)
  {
    assert Basic(s).owner[f] == Some(i) <==> B.Holds(n, Basic(s).diners[i], i, f);
  }

  lemma AnnouncementIsLegal(n: nat, m: nat, s: State, i: nat, msg: Message)
    requires n >= 2 && Inv(n, m, s) && i < n && Enabled(n, m, s, i)
    requires Step(n, m, s, i).log == s.log + [msg]
    ensures msg.fork < n && msg.phil == i
    ensures Alternates(s.log + [msg])
    ensures forall f, j :: 0 <= f < n && 0 <= j < n ==>
              (Holder(s.log + [msg], f) == Some(j) <==> Announced(n, Step(n, m, s, i).diners[j].at, j, f))
  {
    assert (s.log + [msg])[|s.log|] == msg;
    assert (s.log + [msg])[..|s.log|] == s.log;
    if msg.up && Holder(s.log, msg.fork).Some? {
      var k := Holder(s.log, msg.fork).value;
      AnnouncedIsOwned(n, m, s, k, msg.fork);
      assert B.Holds(n, Basic(s).diners[i], i, msg.fork);
    }
    forall f, j | 0 <= f < n && 0 <= j < n
      ensures Holder(s.log + [msg], f) == Some(j) <==> Announced(n, Step(n, m, s, i).diners[j].at, j, f)
    {
      HolderAfter(s.log, msg, f);
      assert Holder(s.log, f) == Some(j) <==> Announced(n, s.diners[j].at, j, f);
      assert Holder(s.log, f) == Some(i) <==> Announced(n, s.diners[i].at, i, f);
    }
  }

  /** A step reports at most one movement; if it reports none, nothing is announced differently. */
  lemma StepReports(n: nat, m: nat, s: State, i: nat)
    requires Shape(n, s) && i < n && Enabled(n, m, s, i)
    ensures var t := Step(n, m, s, i);
            if t.log == s.log
            then forall f, j :: 0 <= f < n && 0 <= j < n ==>
                   (Announced(n, t.diners[j].at, j, f) <==> Announced(n, s.diners[j].at, j, f))
            else |t.log| == |s.log| + 1 && t.log == s.log + [t.log[|s.log|]]
  {
  }

  lemma StepKeepsLogInv(n: nat, m: nat, s: State, i: nat)
    requires n >= 2 && Inv(n, m, s) && i < n && Enabled(n, m, s, i)
    ensures LogInv(n, Step(n, m, s, i))
  {
    hide Step, Enabled, Announced, Alternates, Holder, SocketInv;
    var t := Step(n, m, s, i);
    StepReports(n, m, s, i);
    if t.log != s.log {
      var msg := t.log[|s.log|];
      AnnouncementIsLegal(n, m, s, i, msg);
      forall f | 0 <= f < n
        ensures Holder(t.log, f).Some? ==> Holder(t.log, f).value < n
      {
        HolderAfter(s.log, msg, f);
      }
    }
  }

  lemma StepKeepsSocketInv(n: nat, m: nat, s: State, i: nat)
    requires Shape(n, s) && SocketInv(n, s) && i < n && Enabled(n, m, s, i)
    ensures SocketInv(n, Step(n, m, s, i))
  {
    assert s.sock == Some(i) <==> HoldsSocket(s.diners[i].at);
  }

  lemma StepKeepsInv(n: nat, m: nat, s: State, i: nat)
    requires n >= 2 && Inv(n, m, s) && i < n && Enabled(n, m, s, i)
    ensures Inv(n, m, Step(n, m, s, i))
  {
    hide Step, Enabled, Basic, LogInv, SocketInv;
    StepRefinesBasic(n, m, s, i);
    StepKeepsSocketInv(n, m, s, i);
    if MovesFork(s.diners[i].at) {
      B.StepKeepsInv(n, m, Basic(s), i);
    }
    StepKeepsLogInv(n, m, s, i);
  }

  lemma InitInv(n: nat, m: nat)
    ensures Inv(n, m, Init(n))
  {
    B.InitInv(n, m);
    assert Basic(Init(n)) == B.Init(n);
  }

  /** The run as the basic protocol sees it: the scheduled steps that lock or unlock a fork. */
  lemma {:induction false} RunRefinesBasic(n: nat, m: nat, s: State, sched: seq<nat>, t: State)
    returns (basicSched: seq<nat>)
    requires n >= 2 && Inv(n, m, s) && Run(n, m, s, sched, t)
    ensures Inv(n, m, t) && B.Run(n, m, Basic(s), basicSched, Basic(t))
    decreases |sched|
  {
    basicSched := [];
    if sched != [] {
      var i := sched[0];
      StepKeepsInv(n, m, s, i);
      StepRefinesBasic(n, m, s, i);
      basicSched := RunRefinesBasic(n, m, Step(n, m, s, i), sched[1..], t);
      if MovesFork(s.diners[i].at) {
        assert ([i] + basicSched)[1..] == basicSched;
        basicSched := [i] + basicSched;
      }
    }
  }

  // ----- Consequences -----

  /** In every reachable state the log alternates, and a fork it shows as raised is locked by the
      philosopher it names. */
  lemma LogAgreesWithLocks(n: nat, m: nat, sched: seq<nat>, s: State)
    requires n >= 2 && Run(n, m, Init(n), sched, s)
    ensures Shape(n, s) && Alternates(s.log)
    ensures forall f :: 0 <= f < n && Holder(s.log, f).Some? ==> s.owner[f] == Holder(s.log, f)
  {
    InitInv(n, m);
    var _ := RunRefinesBasic(n, m, Init(n), sched, s);
    forall f | 0 <= f < n && Holder(s.log, f).Some?
      ensures s.owner[f] == Holder(s.log, f)
    {
      AnnouncedIsOwned(n, m, s, Holder(s.log, f).value, f);
    }
  }

  /** Between the lock of the second fork and the first unlock: the source's meal and the messages around it. */
  ghost function HoldingBoth(n: nat, s: State): set<nat>
    requires Shape(n, s)
  {
    set i: nat | i < n && StageOf(s.diners[i].at).Eating?
  }

  /** Mutual exclusion carries over from the basic protocol. */
  lemma AtMostHalfEat(n: nat, m: nat, sched: seq<nat>, s: State, i: nat)
    requires n >= 2 && Run(n, m, Init(n), sched, s) && i < n
    ensures Shape(n, s) && 2 * |HoldingBoth(n, s)| <= n
    ensures !(i in HoldingBoth(n, s) && RightFork(n, i) in HoldingBoth(n, s))
  {
    InitInv(n, m);
    var _ := RunRefinesBasic(n, m, Init(n), sched, s);
    B.AtMostHalfEat(n, m, Basic(s));
    B.NeighboursNeverEatTogether(n, m, Basic(s), i);
    assert HoldingBoth(n, s) == B.Eaters(n, Basic(s));
  }

  predicate Finished(n: nat, m: nat, s: State)
    requires Shape(n, s)
  {
    forall i :: 0 <= i < n ==> s.diners[i] == Diner(m, LockFirst)
  }

  /** The socket lock adds no deadlock: its holder never waits, and when nobody holds it the
      basic protocol has a philosopher that can move. */
  lemma NoDeadlock(n: nat, m: nat, s: State) returns (j: nat)
    requires n >= 2 && Inv(n, m, s) && !Finished(n, m, s)
    ensures j < n && Enabled(n, m, s, j)
  {
    if s.sock.Some? {
      j := s.sock.value;
    } else if i :| 0 <= i < n && s.diners[i].at in {SockForFirst, SockForSecond, SockForReturn} {
      j := i;
    } else {
      assert forall i :: 0 <= i < n ==> !HoldsSocket(s.diners[i].at);
      var i :| 0 <= i < n && s.diners[i] != Diner(m, LockFirst);
      assert Basic(s).diners[i] != B.Diner(m, B.Thinking);
      j := B.NoDeadlock(n, m, Basic(s));
      assert s.diners[j].at == LockFirst || s.diners[j].at == LockSecond;
    }
  }

  // ----- Exact termination -----

  function Work(m: nat, d: Diner): int {
    14 * (m - d.meals) -
    (match d.at
     case LockFirst => 0
     case SockForFirst => 1
     case SendFirst => 2
     case UnsockFirst => 3
     case LockSecond => 4
     case SockForSecond => 5
     case SendSecond => 6
     case UnsockSecond => 7
     case SockForReturn => 8
     case SendLeft => 9
     case UnlockLeft => 10
     case SendRight => 11
     case UnlockRight => 12
     case UnsockReturn => 13)
  }

  function WorkOf(m: nat): Diner -> int {
    (d: Diner) => Work(m, d)
  }

  function Remaining(m: nat, ds: seq<Diner>): int {
    Sum(ds, WorkOf(m))
  }

  lemma StepDoesOneUnitOfWork(n: nat, m: nat, s: State, i: nat)
    requires Shape(n, s) && i < n && Enabled(n, m, s, i)
    ensures Remaining(m, Step(n, m, s, i).diners) == Remaining(m, s.diners) - 1
  {
    SumUpdate(s.diners, WorkOf(m), i, Step(n, m, s, i).diners[i]);
  }

  lemma {:induction false} RunFrom(n: nat, m: nat, s: State, sched: seq<nat>, t: State)
    requires n >= 2 && Inv(n, m, s) && Run(n, m, s, sched, t)
    ensures Inv(n, m, t) && |sched| + Remaining(m, t.diners) == Remaining(m, s.diners)
    decreases |sched|
  {
    hide Step, Enabled, Remaining, LogInv, SocketInv;
    if sched != [] {
      StepKeepsInv(n, m, s, sched[0]);
      StepDoesOneUnitOfWork(n, m, s, sched[0]);
      RunFrom(n, m, Step(n, m, s, sched[0]), sched[1..], t);
    }
  }

  lemma WorkIsNonNegative(n: nat, m: nat, s: State)
    requires Inv(n, m, s)
    ensures Remaining(m, s.diners) >= 0
    ensures Remaining(m, s.diners) == 0 <==> Finished(n, m, s)
  {
    forall i | 0 <= i < n
      ensures Work(m, s.diners[i]) >= 0
      ensures Work(m, s.diners[i]) == 0 <==> s.diners[i] == Diner(m, LockFirst)
    {
      assert Basic(s).diners[i].meals + (if Basic(s).diners[i].stage.Thinking? then 0 else 1) <= m;
    }
    SumNonNegative(s.diners, WorkOf(m));
  }

  lemma InitialWork(n: nat, m: nat)
    ensures Remaining(m, Init(n).diners) == 14 * n * m
  {
    assert n * (14 * m) == 14 * n * m;
    SumUniform(Init(n).diners, WorkOf(m), 14 * m);
  }

  lemma FinishedMeansAllFree(n: nat, m: nat, t: State)
    requires Inv(n, m, t) && Finished(n, m, t)
    ensures t.sock == None
    ensures forall f :: 0 <= f < n ==> t.owner[f] == None && Holder(t.log, f) == None
    ensures forall i :: 0 <= i < n ==> !Enabled(n, m, t, i)
  {
    assert forall i :: 0 <= i < n ==> Basic(t).diners[i] == B.Diner(m, B.Thinking);
    assert Basic(t).owner == t.owner;
  }

  /** Under every scheduler a run that cannot be continued has made exactly 14 * n * m steps; then
      everybody has eaten m meals, and every fork and the socket are free and announced so. */
  lemma EveryMaximalRunFinishes(n: nat, m: nat, sched: seq<nat>, t: State)
    requires n >= 2 && Run(n, m, Init(n), sched, t)
    ensures Inv(n, m, t) && |sched| <= 14 * n * m
    ensures (forall i :: 0 <= i < n ==> !Enabled(n, m, t, i)) <==> |sched| == 14 * n * m
    ensures |sched| == 14 * n * m ==>
              && Finished(n, m, t) && t.sock == None
              && forall f :: 0 <= f < n ==> t.owner[f] == None && Holder(t.log, f) == None
  {
    InitInv(n, m);
    InitialWork(n, m);
    RunFrom(n, m, Init(n), sched, t);
    WorkIsNonNegative(n, m, t);
    if Finished(n, m, t) {
      FinishedMeansAllFree(n, m, t);
    } else {
      var j := NoDeadlock(n, m, t);
    }
  }
}
