/** The table shared by both versions of the dining philosophers: which forks a philosopher
    uses, and in which order `pickup_forks` takes them. */
module Forks {

  function LeftFork(i: nat): nat {
    i
  }

  function RightFork(n: nat, i: nat): (f: nat)
    requires i < n
    ensures f < n
    ensures f == if i + 1 < n then i + 1 else 0
  {
    (i + 1) % n
  }

  /** The fork taken first. The source's comment says the lower-numbered one; its code takes the higher. */
  function FirstFork(n: nat, i: nat): (f: nat)
    requires i < n
    ensures f < n
  {
    if LeftFork(i) > RightFork(n, i) then LeftFork(i) else RightFork(n, i)
  }

  function SecondFork(n: nat, i: nat): (f: nat)
    requires i < n
    ensures f < n
    ensures n >= 2 ==> f < FirstFork(n, i)
    ensures {FirstFork(n, i), f} == {LeftFork(i), RightFork(n, i)}
  {
    if LeftFork(i) > RightFork(n, i) then RightFork(n, i) else LeftFork(i)
  }
}
