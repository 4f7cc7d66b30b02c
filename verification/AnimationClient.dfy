/** The animation client as an observer: it sees nothing of the protocol but its messages, and
    rebuilds from them which forks are raised and how many meals each bowl has served. Heights are
    in the client's own unit, relative to the resting height. */
module AnimationClient {
  import opened Wrappers
  import opened Forks
  import opened AnimatedPhilosophers

  datatype Bowl = Bowl(numUp: int, meals: int)

  datatype Scene = Scene(forkZ: seq<int>, bowls: seq<Bowl>)

  function Opening(n: nat): Scene {
    Scene(seq(n, _ => 0), seq(n, _ => Bowl(0, 0)))
  }

  /** Bowls are numbered one further round the table than the philosophers that use them. */
  function BowlOf(n: nat, phil: nat): (b: nat)
    requires n > 0
    ensures b < n
    ensures phil < n ==> b == RightFork(n, phil)
  {
    (phil + 1) % n
  }

  function MoveFork(z: int, up: bool): int {
    if up then z + 1 else z - 1
  }

  function CountFork(b: Bowl, up: bool): Bowl {
    var numUp := if up then b.numUp + 1 else b.numUp - 1;
    Bowl(numUp, if numUp == 2 then b.meals + 1 else b.meals)
  }

  function See(n: nat, c: Scene, msg: Message): Scene
    requires n > 0 && |c.forkZ| == |c.bowls| == n && msg.fork < n
  {
    var b := BowlOf(n, msg.phil);
    Scene(c.forkZ[msg.fork := MoveFork(c.forkZ[msg.fork], msg.up)],
          c.bowls[b := CountFork(c.bowls[b], msg.up)])
  }

  function Replay(n: nat, log: seq<Message>): (c: Scene)
    requires n > 0 && forall k :: 0 <= k < |log| ==> log[k].fork < n
    ensures |c.forkZ| == |c.bowls| == n
  {
    if log == [] then Opening(n) else See(n, Replay(n, log[..|log| - 1]), log[|log| - 1])
  }

  // ----- What the observer knows -----

  /** Forks philosopher i is shown to hold when it is at p. */
  function HandsUp(p: Point): int {
    match p
    case UnsockFirst | LockSecond | SockForSecond | SendSecond => 1
    case UnsockSecond | SockForReturn | SendLeft => 2
    case UnlockLeft | SendRight => 1
    case _ => 0
  }

  /** Meals the observer has credited: from the moment the second fork is announced. */
  function Credited(d: Diner): int {
    match d.at
    case UnsockSecond | SockForReturn | SendLeft | UnlockLeft | SendRight | UnlockRight | UnsockReturn => d.meals + 1
    case _ => d.meals
  }

  ghost predicate Agrees(n: nat, s: State, c: Scene)
    requires Shape(n, s)
  {
    && |c.forkZ| == |c.bowls| == n
    && (forall f :: 0 <= f < n ==> c.forkZ[f] == if Holder(s.log, f).Some? then 1 else 0)
    && (forall i :: 0 <= i < n ==> c.bowls[RightFork(n, i)] == Bowl(HandsUp(s.diners[i].at), Credited(s.diners[i])))
  }

  /** Every fork is down or raised once, and no philosopher is shown with more than two. */
  ghost predicate Sane(c: Scene) {
    && (forall f :: 0 <= f < |c.forkZ| ==> 0 <= c.forkZ[f] <= 1)
    && (forall b :: 0 <= b < |c.bowls| ==> 0 <= c.bowls[b].numUp <= 2)
  }

  ghost predicate SaneThroughout(n: nat, log: seq<Message>)
    requires n > 0 && forall k :: 0 <= k < |log| ==> log[k].fork < n
  {
    forall k :: 0 <= k <= |log| ==> Sane(Replay(n, log[..k]))
  }

  ghost predicate WatchInv(n: nat, m: nat, s: State)
    requires n > 0
  {
    Inv(n, m, s) && Agrees(n, s, Replay(n, s.log)) && SaneThroughout(n, s.log)
  }

  lemma AgreesIsSane(n: nat, s: State, c: Scene)
    requires n > 0 && Shape(n, s) && Agrees(n, s, c)
    ensures Sane(c)
  {
    forall b | 0 <= b < n
      ensures 0 <= c.bowls[b].numUp <= 2
    {
      var i := if b == 0 then n - 1 else b - 1;
      assert RightFork(n, i) == b;
    }
  }

  lemma ForksStayInAgreement(n: nat, log: seq<Message>, c: Scene, msg: Message)
    requires n > 0 && |c.forkZ| == |c.bowls| == n && msg.fork < n && Alternates(log + [msg])
    requires forall f :: 0 <= f < n ==> c.forkZ[f] == if Holder(log, f).Some? then 1 else 0
    ensures forall f :: 0 <= f < n ==> See(n, c, msg).forkZ[f] == if Holder(log + [msg], f).Some? then 1 else 0
  {
    assert (log + [msg])[..|log|] == log && (log + [msg])[|log|] == msg;
    forall f | 0 <= f < n
      ensures See(n, c, msg).forkZ[f] == if Holder(log + [msg], f).Some? then 1 else 0
    {
      HolderAfter(log, msg, f);
    }
  }

  lemma SendCounts(n: nat, m: nat, s: State, i: nat, msg: Message)
    requires Shape(n, s) && i < n && Enabled(n, m, s, i) && Step(n, m, s, i).log == s.log + [msg]
    ensures var d, d' := s.diners[i], Step(n, m, s, i).diners[i];
            CountFork(Bowl(HandsUp(d.at), Credited(d)), msg.up) == Bowl(HandsUp(d'.at), Credited(d'))
  {
    assert (s.log + [msg])[|s.log|] == msg;
  }

  lemma BowlsStayInAgreement(n: nat, m: nat, s: State, c: Scene, i: nat, msg: Message)
    requires Shape(n, s) && Agrees(n, s, c) && i < n && Enabled(n, m, s, i)
    requires Step(n, m, s, i).log == s.log + [msg] && msg.fork < n && msg.phil == i
    ensures var t := Step(n, m, s, i);
            forall j :: 0 <= j < n ==>
              See(n, c, msg).bowls[RightFork(n, j)] == Bowl(HandsUp(t.diners[j].at), Credited(t.diners[j]))
  {
    hide HandsUp, Credited, CountFork, Holder;
    var t := Step(n, m, s, i);
    SendCounts(n, m, s, i, msg);
    forall j | 0 <= j < n
      ensures See(n, c, msg).bowls[RightFork(n, j)] == Bowl(HandsUp(t.diners[j].at), Credited(t.diners[j]))
    {
      assert c.bowls[RightFork(n, j)] == Bowl(HandsUp(s.diners[j].at), Credited(s.diners[j]));
      if j != i {
        assert RightFork(n, j) != RightFork(n, i) && t.diners[j] == s.diners[j];
      }
    }
  }

  lemma MessageKeepsAgreement(n: nat, m: nat, s: State, i: nat, msg: Message)
    requires n >= 2 && WatchInv(n, m, s) && i < n && Enabled(n, m, s, i)
    requires Step(n, m, s, i).log == s.log + [msg] && msg.fork < n && msg.phil == i
    ensures Agrees(n, Step(n, m, s, i), See(n, Replay(n, s.log), msg))
  {
    hide Step, Enabled, SocketInv, HandsUp, Credited, SaneThroughout, Announced, Alternates, Replay;
    AnnouncementIsLegal(n, m, s, i, msg);
    ForksStayInAgreement(n, s.log, Replay(n, s.log), msg);
    BowlsStayInAgreement(n, m, s, Replay(n, s.log), i, msg);
  }

  lemma SaneOneMore(n: nat, log: seq<Message>, msg: Message)
    requires n > 0 && msg.fork < n && forall k :: 0 <= k < |log| ==> log[k].fork < n
    requires SaneThroughout(n, log) && Sane(Replay(n, log + [msg]))
    ensures SaneThroughout(n, log + [msg])
  {
    var longer := log + [msg];
    forall k | 0 <= k <= |longer|
      ensures Sane(Replay(n, longer[..k]))
    {
      assert longer[..k] == if k <= |log| then log[..k] else longer;
    }
  }

  lemma QuietStepKeepsAgreement(n: nat, m: nat, s: State, i: nat, c: Scene)
    requires n > 0 && Shape(n, s) && Agrees(n, s, c) && i < n && Enabled(n, m, s, i)
    requires Step(n, m, s, i).log == s.log
    ensures Agrees(n, Step(n, m, s, i), c)
  {
    assert HandsUp(Step(n, m, s, i).diners[i].at) == HandsUp(s.diners[i].at);
    assert Credited(Step(n, m, s, i).diners[i]) == Credited(s.diners[i]);
  }

  lemma MessageKeepsWatching(n: nat, m: nat, s: State, i: nat, msg: Message)
    requires n >= 2 && WatchInv(n, m, s) && i < n && Enabled(n, m, s, i)
    requires Step(n, m, s, i).log == s.log + [msg] && msg.fork < n && msg.phil == i
    ensures Agrees(n, Step(n, m, s, i), Replay(n, s.log + [msg])) && SaneThroughout(n, s.log + [msg])
  {
    var log := s.log + [msg];
    MessageKeepsAgreement(n, m, s, i, msg);
    assert log[..|log| - 1] == s.log;
    AgreesIsSane(n, Step(n, m, s, i), Replay(n, log));
    SaneOneMore(n, s.log, msg);
  }

  lemma StepKeepsWatchInv(n: nat, m: nat, s: State, i: nat)
    requires n >= 2 && WatchInv(n, m, s) && i < n && Enabled(n, m, s, i)
    ensures WatchInv(n, m, Step(n, m, s, i))
  {
    hide Step, Enabled, SocketInv, Agrees, SaneThroughout, Announced, Alternates, Replay;
    var t := Step(n, m, s, i);
    StepKeepsInv(n, m, s, i);
    StepReports(n, m, s, i);
    if t.log == s.log {
      QuietStepKeepsAgreement(n, m, s, i, Replay(n, s.log));
    } else {
      var msg := t.log[|s.log|];
      AnnouncementIsLegal(n, m, s, i, msg);
      MessageKeepsWatching(n, m, s, i, msg);
    }
  }

  lemma {:induction false} WatchRun(n: nat, m: nat, s: State, sched: seq<nat>, t: State)
    requires n >= 2 && WatchInv(n, m, s) && Run(n, m, s, sched, t)
    ensures WatchInv(n, m, t)
    decreases |sched|
  {
    if sched != [] {
      StepKeepsWatchInv(n, m, s, sched[0]);
      WatchRun(n, m, Step(n, m, s, sched[0]), sched[1..], t);
    }
  }

  lemma InitWatchInv(n: nat, m: nat)
    requires n > 0
    ensures WatchInv(n, m, Init(n))
  {
    InitInv(n, m);
  }

  /** In every interleaving, after every message, the scene is sane; and having seen all of them the
      client shows exactly the forks that are announced as held and the meals that were started. */
  lemma ObserverAgrees(n: nat, m: nat, sched: seq<nat>, s: State)
    requires n >= 2 && Run(n, m, Init(n), sched, s)
    ensures Inv(n, m, s) && SaneThroughout(n, s.log) && Agrees(n, s, Replay(n, s.log))
  {
    InitWatchInv(n, m);
    WatchRun(n, m, Init(n), sched, s);
  }

  lemma FinishedScene(n: nat, m: nat, s: State, c: Scene)
    requires n > 0 && Shape(n, s) && Agrees(n, s, c) && Finished(n, m, s)
    requires forall f :: 0 <= f < n ==> Holder(s.log, f) == None
    ensures c == Scene(seq(n, _ => 0), seq(n, _ => Bowl(0, m)))
  {
    forall b | 0 <= b < n
      ensures c.bowls[b] == Bowl(0, m)
    {
      var i := if b == 0 then n - 1 else b - 1;
      assert RightFork(n, i) == b;
    }
    assert c.bowls == seq(n, _ => Bowl(0, m));
  }

  /** A run that has come to its end is shown with every fork down and m meals in every bowl. */
  lemma FinishedRunIsShownFinished(n: nat, m: nat, sched: seq<nat>, s: State)
    requires n >= 2 && Run(n, m, Init(n), sched, s) && |sched| == 14 * n * m
    ensures Inv(n, m, s) && Replay(n, s.log) == Scene(seq(n, _ => 0), seq(n, _ => Bowl(0, m)))
  {
    hide Run, Agrees, Finished, SaneThroughout, Replay;
    ObserverAgrees(n, m, sched, s);
    EveryMaximalRunFinishes(n, m, sched, s);
    FinishedScene(n, m, s, Replay(n, s.log));
  }

  // ----- The messages on the wire -----

  function DigitChar(k: nat): (c: char)
    requires k <= 9
    ensures IsDigit(c) && DigitValue(c) == k
  {
    k as char + '0'
  }

  function DigitValue(c: char): (k: nat)
    requires IsDigit(c)
    ensures k <= 9
  {
    (c - '0') as nat
  }

  predicate IsDigit(c: char) {
    '0' <= c <= '9'
  }

  predicate AllDigits(t: string) {
    forall k :: 0 <= k < |t| ==> IsDigit(t[k])
  }

  function Decimal(k: nat): (t: string)
    ensures |t| >= 1 && AllDigits(t) && (k <= 9 <==> |t| == 1)
  {
    if k <= 9 then [DigitChar(k)] else Decimal(k / 10) + [DigitChar(k % 10)]
  }

  /** `sprintf` of fork, philosopher and direction; three bytes of it are sent. */
  function Encode(msg: Message): (t: string)
    ensures |t| == 3 && AllDigits(t)
  {
    (Decimal(msg.fork) + Decimal(msg.phil) + (if msg.up then "1" else "0"))[..3]
  }

  /** The client reads one digit for each field. */
  function Decode(t: string): Message
    requires |t| == 3 && AllDigits(t)
  {
    Message(DigitValue(t[0]), DigitValue(t[1]), DigitValue(t[2]) != 0)
  }

  /** What goes over the wire for ids of one digit: fork, philosopher, and 1 for up or 0 for down. */
  lemma WireFormat(msg: Message)
    requires msg.fork <= 9 && msg.phil <= 9
    ensures Encode(msg) == [msg.fork as char + '0', msg.phil as char + '0', if msg.up then '1' else '0']
    ensures var t := Encode(msg);
            Decode(t) == Message((t[0] - '0') as nat, (t[1] - '0') as nat, t[2] != '0')
  {
  }

  /** The text is long enough and says which fork moves, and how. */
  predicate NamesFork(n: nat, t: string) {
    |t| >= 3 && IsDigit(t[0]) && IsDigit(t[2]) && DigitValue(t[0]) < n
  }

  /** The client recovers a message exactly when both numbers have one digit. */
  lemma WireRoundTrip(msg: Message)
    ensures Decode(Encode(msg)) == msg <==> msg.fork <= 9 && msg.phil <= 9
  {
    var t := Encode(msg);
    if msg.fork <= 9 {
      assert t[0] == DigitChar(msg.fork);
      if msg.phil <= 9 {
        assert t[1] == DigitChar(msg.phil);
        assert t[2] == if msg.up then '1' else '0';
      }
    }
  }

  /** The client fed with messages as they arrive; None once it has died of an index error. */
  function ReplayWire(n: nat, texts: seq<string>): (c: Option<Scene>)
    requires n > 0 && forall k :: 0 <= k < |texts| ==> |texts[k]| == 3 && AllDigits(texts[k])
    ensures c.Some? ==> |c.value.forkZ| == |c.value.bowls| == n
  {
    if texts == [] then
      Some(Opening(n))
    else
      var before := ReplayWire(n, texts[..|texts| - 1]);
      var msg := Decode(texts[|texts| - 1]);
      if before.None? || msg.fork >= n then None else Some(See(n, before.value, msg))
  }

  function Wire(log: seq<Message>): (texts: seq<string>)
    ensures |texts| == |log| && forall k :: 0 <= k < |texts| ==> |texts[k]| == 3 && AllDigits(texts[k])
  {
    seq(|log|, k requires 0 <= k < |log| => Encode(log[k]))
  }

  /** For up to ten philosophers nothing is lost on the wire, so all of the above holds of what the
      client really receives. */
  lemma {:induction false} WireCarriesTheLog(n: nat, log: seq<Message>)
    requires 0 < n <= 10 && forall k :: 0 <= k < |log| ==> log[k].fork < n && log[k].phil < n
    ensures ReplayWire(n, Wire(log)) == Some(Replay(n, log))
  {
    if log != [] {
      var before, last := log[..|log| - 1], log[|log| - 1];
      WireCarriesTheLog(n, before);
      WireRoundTrip(last);
      assert Wire(log)[..|log| - 1] == Wire(before);
    }
  }

  ghost predicate ClientFaithful(n: nat, m: nat)
    requires n > 0
  {
    forall sched: seq<nat>, s: State :: Run(n, m, Init(n), sched, s) && Shape(n, s) ==>
      var c := ReplayWire(n, Wire(s.log));
      c.Some? && Agrees(n, s, c.value)
  }

  /** With more than ten philosophers already the first report of philosopher 10 is misread. */
  lemma PhilosopherTenIsMisread(n: nat, m: nat) returns (sched: seq<nat>, s: State)
    requires n > 10 && m > 0
    ensures Run(n, m, Init(n), sched, s) && Shape(n, s)
    ensures var c := ReplayWire(n, Wire(s.log)); c.None? || !Agrees(n, s, c.value)
  {
    var s1 := Step(n, m, Init(n), 10);
    var s2 := Step(n, m, s1, 10);
    s := Step(n, m, s2, 10);
    sched := [10, 10, 10];
    assert Run(n, m, s, [], s);
    assert Run(n, m, s2, [10], s) by { assert [10][1..] == []; }
    assert Run(n, m, s1, [10, 10], s) by { assert [10, 10][1..] == [10]; }
    assert Run(n, m, Init(n), sched, s) by { assert [10, 10, 10][1..] == [10, 10]; }
    var msg := s.log[0];
    assert s.log == [] + [msg] && msg == Message(FirstFork(n, 10), 10, true) && msg.fork >= 10;
    HolderAfter([], msg, msg.fork);
    var texts := Wire(s.log);
    assert texts == [Encode(msg)] && texts[..|texts| - 1] == [];
    var c := ReplayWire(n, texts);
    assert Decode(Encode(msg)).fork != msg.fork;
    assert ReplayWire(n, []) == Some(Opening(n));
    assert c == Some(See(n, Opening(n), Decode(texts[0])));
    assert c.value.forkZ[msg.fork] == 0;
  }

  /** What the client shows agrees with the table in every interleaving exactly when there are at
      most ten philosophers. */
  lemma ClientFaithfulExactlyUpToTen(n: nat, m: nat)
    requires n >= 2 && m > 0
    ensures ClientFaithful(n, m) <==> n <= 10
  {
    if n <= 10 {
      forall sched: seq<nat>, s: State | Run(n, m, Init(n), sched, s) && Shape(n, s)
        ensures var c := ReplayWire(n, Wire(s.log)); c.Some? && Agrees(n, s, c.value)
      {
        ObserverAgrees(n, m, sched, s);
        WireCarriesTheLog(n, s.log);
      }
    } else {
      var sched, s := PhilosopherTenIsMisread(n, m);
      assert Run(n, m, Init(n), sched, s);
    }
  }

  // ----- The client's own code -----

  class PhilosophicalDiners {
    const n: nat
    const forks: array<int>
    const bowls: array<Bowl>

    ghost predicate Valid() {
      n > 0 && forks.Length == bowls.Length == n
    }

    ghost function View(): (c: Scene)
      requires Valid()
      reads forks, bowls
      ensures |c.forkZ| == |c.bowls| == n
    {
      Scene(forks[..], bowls[..])
    }

    constructor (n: nat)
      requires n > 0
      ensures Valid() && this.n == n && fresh(forks) && fresh(bowls) && View() == Opening(n)
    {
      this.n := n;
      forks := new int[n](_ => 0);
      bowls := new Bowl[n](_ => Bowl(0, 0));
    }

    method AnimBowl(phil: nat, up: bool)
      requires Valid()
      modifies bowls
      ensures View().bowls ==
              var b := BowlOf(n, phil); old(View()).bowls[b := CountFork(old(View()).bowls[b], up)]
    {
      var bowlNum := (phil + 1) % n;
      if up {
        bowls[bowlNum] := bowls[bowlNum].(numUp := bowls[bowlNum].numUp + 1);
      } else {
        bowls[bowlNum] := bowls[bowlNum].(numUp := bowls[bowlNum].numUp - 1);
      }
      if bowls[bowlNum].numUp == 2 {
        bowls[bowlNum] := bowls[bowlNum].(meals := bowls[bowlNum].meals + 1);
      }
    }

    method AnimFork(forkNum: nat, up: bool)
      requires Valid() && forkNum < n
      modifies forks
      ensures View().forkZ == old(View()).forkZ[forkNum := MoveFork(old(View()).forkZ[forkNum], up)]
    {
      forks[forkNum] := if up then forks[forkNum] + 1 else forks[forkNum] - 1;
    }

    /** One answer from the simulation, whatever its text: the fork moves if the first and third
        characters are digits and name a fork, and only then is the second character read as the
        philosopher. `ok` is false where the source dies of an index or a value error. */
    method Comm(message: string) returns (ok: bool)
      requires Valid()
      modifies forks, bowls
      ensures ok <==> NamesFork(n, message) && IsDigit(message[1])
      ensures NamesFork(n, message) && !ok ==>
                View() == old(View()).(forkZ := old(View()).forkZ[DigitValue(message[0]) :=
                                                MoveFork(old(View()).forkZ[DigitValue(message[0])], DigitValue(message[2]) != 0)])
      ensures !NamesFork(n, message) ==> View() == old(View())
      ensures ok ==> View() == See(n, old(View()), Decode(message[..3]))
    {
      if |message| < 3 || !IsDigit(message[0]) || !IsDigit(message[2]) {
        return false;
      }
      var fork, up := DigitValue(message[0]), DigitValue(message[2]) != 0;
      if fork >= n {
        return false;
      }
      AnimFork(fork, up);
      if !IsDigit(message[1]) {
        return false;
      }
      AnimBowl(DigitValue(message[1]), up);
      return true;
    }
  }
}
