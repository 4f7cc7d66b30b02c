/** The puzzle generator. Random draws are nondeterministic choices, so what is proved holds of every
    sequence of draws. The cells drawn for digging are a list that is given beforehand: the source goes
    on drawing for as long as it takes, and a run of the model ends where the list does. */
module SudokuGenerator {
  import opened Wrappers
  import opened SudokuGrid
  import opened SudokuSolved
  import opened SudokuArrays
  import opened SudokuDigging
  import opened SudokuProgram

  ghost predicate Solved(g: Grid) {
    Full(g) && Valid(g)
  }

  lemma ShuffleKeepsSolved(f: seq<int>, g: Grid, t: Grid)
    requires ShuffledBy(f, g, t) && Solved(g)
    ensures Solved(t)
  {
    ShuffleKeepsValid(f, g, t);
    forall r, c | InRange(r, c)
      ensures t[r][c] != 0
    {
      assert t[r] == g[f[r]];
      assert InRange(f[r], c);
    }
  }

  lemma RotateKeepsSolved(g: Grid)
    requires Solved(g)
    ensures Solved(Rotate(g))
  {
    RotateKeepsValid(g);
    forall r, c | InRange(r, c)
      ensures Rotate(g)[r][c] != 0
    {
      assert InRange(8 - c, r);
    }
  }

  /** One round: at most two rows of each band change places, then the grid is turned. */
  ghost function AfterRound(g: Grid, f: seq<int>): (t: Grid)
    requires IsGrid(g) && Exchanges(f)
    ensures IsGrid(t)
  {
    Rotate(seq(9, r requires 0 <= r < 9 => g[f[r]]))
  }

  ghost predicate AllExchanges(rounds: seq<seq<int>>) {
    forall k :: 0 <= k < |rounds| ==> Exchanges(rounds[k])
  }

  /** The built-in solution after some rounds. */
  ghost function AfterRounds(rounds: seq<seq<int>>): (t: Grid)
    requires AllExchanges(rounds)
    ensures IsGrid(t)
  {
    SolvedIsFullGrid();
    if rounds == [] then SOLVED else AfterRound(AfterRounds(rounds[..|rounds| - 1]), rounds[|rounds| - 1])
  }

  lemma RoundIs(g: Grid, f: seq<int>, t: Grid)
    requires IsGrid(g) && IsGrid(t) && Exchanges(f) && ShuffledBy(f, g, t)
    ensures Rotate(t) == AfterRound(g, f)
  {
    assert t == seq(9, r requires 0 <= r < 9 => g[f[r]]);
  }

  method ShuffleOnce(a: array<array<int>>) returns (b: array<array<int>>, ghost f: seq<int>)
    requires WellFormed(a) && Solved(Contents(a))
    modifies a
    ensures fresh(b) && fresh(b[..]) && WellFormed(b) && Solved(Contents(b))
    ensures Exchanges(f) && Contents(b) == AfterRound(old(Contents(a)), f)
  {
    hide Contents, Solved, Rotate, ShuffledBy, BandShuffle, Exchanges;
    ghost var g := Contents(a);
    f := SwapRows(a);
    ShuffleKeepsSolved(f, g, Contents(a));
    RoundIs(g, f, Contents(a));
    b := RotateArray(a);
    RotateKeepsSolved(Contents(a));
  }

  /** Swap and rotate a random number of times; the bound is drawn anew before every round. */
  method Shuffle(count: nat) returns (a: array<array<int>>, ghost rounds: seq<seq<int>>)
    requires count > 0
    ensures fresh(a) && fresh(a[..]) && WellFormed(a) && Solved(Contents(a))
    ensures |rounds| < count && AllExchanges(rounds) && Contents(a) == AfterRounds(rounds)
  {
    hide Contents, Solved, AfterRound, Exchanges;
    StartIsSolved();
    a := DecodeSudokuString(Encode(SOLVED));
    rounds := [];
    var i := 0;
    var bound: int :| 0 <= bound < count;
    while i < bound
      invariant 0 <= i == |rounds| < count && bound < count
      invariant fresh(a) && fresh(a[..]) && WellFormed(a) && Solved(Contents(a))
      invariant AllExchanges(rounds) && Contents(a) == AfterRounds(rounds)
      decreases count - i
    {
      ghost var f;
      a, f := ShuffleOnce(a);
      assert (rounds + [f])[..|rounds|] == rounds;
      rounds := rounds + [f];
      i := i + 1;
      bound :| 0 <= bound < count;
    }
  }

  lemma StartIsSolved()
    ensures IsGrid(SOLVED) && Solved(SOLVED) && Decode(Encode(SOLVED)) == SOLVED
  {
    SolvedIsValid();
    DecodeEncode(SOLVED);
  }

  method Erase(a: array<array<int>>, r: int, c: int)
    requires WellFormed(a) && InRange(r, c)
    modifies a[r]
    ensures WellFormed(a) && Contents(a) == old(Contents(a))[r := old(Contents(a))[r][c := 0]]
  {
    ghost var g := Contents(a);
    assert g[r] == a[r][..];
    a[r][c] := 0;
    forall k | 0 <= k < 9
      ensures Contents(a)[k] == g[r := g[r][c := 0]][k]
    {
      assert Contents(a)[k] == a[k][..];
    }
    RemovedAfter(g, (r, c), Contents(a));
  }

  ghost predicate UsedAre(usedArray: array2<bool>, used: set<Cell>)
    reads usedArray
  {
    && usedArray.Length0 == usedArray.Length1 == 9 && used <= AllCells()
    && forall r, c :: InRange(r, c) ==> (usedArray[r, c] <==> (r, c) in used)
  }

  /** The cells among the first n draws. */
  ghost function Drawn(draws: seq<Cell>, n: nat): (used: set<Cell>)
    requires n <= |draws|
  {
    set k | 0 <= k < n :: draws[k]
  }

  ghost predicate Draws(draws: seq<Cell>) {
    forall k :: 0 <= k < |draws| ==> InRange(draws[k].0, draws[k].1)
  }

  lemma DrawnNext(draws: seq<Cell>, n: nat)
    requires n < |draws| && Draws(draws)
    ensures Drawn(draws, n + 1) == Drawn(draws, n) + {draws[n]} && draws[n] in AllCells()
  {
    assert (draws[n].0, draws[n].1) == draws[n];
  }

  /** Draw until a cell comes up that was not drawn before, and mark it; None if the draws run out first. */
  method DrawUnused(usedArray: array2<bool>, draws: seq<Cell>, pos: nat) returns (p: Option<Cell>, next: nat)
    requires Draws(draws) && pos <= |draws| && UsedAre(usedArray, Drawn(draws, pos))
    modifies usedArray
    ensures pos <= next <= |draws| && UsedAre(usedArray, Drawn(draws, next))
    ensures p.None? ==> next == |draws| && Drawn(draws, next) == Drawn(draws, pos)
    ensures p.Some? ==>
              && pos < next && draws[next - 1] == p.value && Drawn(draws, next - 1) == Drawn(draws, pos)
              && p.value in AllCells() && p.value !in Drawn(draws, pos) && Drawn(draws, next) == Drawn(draws, pos) + {p.value}
  {
    hide Drawn, AllCells;
    next := pos;
    while next < |draws|
      invariant pos <= next <= |draws| && UsedAre(usedArray, Drawn(draws, next))
      invariant Drawn(draws, next) == Drawn(draws, pos)
    {
      var cell := draws[next];
      DrawnNext(draws, next);
      assert (cell.0, cell.1) == cell;
      next := next + 1;
      if !usedArray[cell.0, cell.1] {
        usedArray[cell.0, cell.1] := true;
        return Some(cell), next;
      }
      assert Drawn(draws, next) == Drawn(draws, pos);
    }
    p := None;
  }

  method DigOne(a: array<array<int>>, countArray: array<int>, r: int, c: int, i: int, ghost g: Grid, ghost used: set<Cell>)
    returns (j: int)
    requires WellFormed(a) && InRange(r, c) && (r, c) in AllCells() && (r, c) !in used
    requires countArray.Length == 9 && forall k :: 0 <= k < 9 ==> countArray != a[k]
    requires Dug(g, Contents(a), used, countArray[..], i) && a[r][c] == g[r][c] && countArray[g[r][c] - 1] < 8
    modifies a[r], countArray
    ensures WellFormed(a) && Dug(g, Contents(a), used + {(r, c)}, countArray[..], j) && j == i + 1
  {
    ghost var t, counts := Contents(a), countArray[..];
    countArray[a[r][c] - 1] := countArray[a[r][c] - 1] + 1;
    Erase(a, r, c);
    RemoveKeepsDug(g, t, used, counts, i, (r, c), Contents(a), countArray[..]);
    j := i + 1;
  }

  ghost predicate Digging(a: array<array<int>>, usedArray: array2<bool>, countArray: array<int>,
                          g: Grid, used: set<Cell>, i: int)
    reads a, a[..], usedArray, countArray
  {
    && WellFormed(a) && UsedAre(usedArray, used)
    && countArray.Length == 9 && (forall k :: 0 <= k < 9 ==> countArray != a[k])
    && Dug(g, Contents(a), used, countArray[..], i)
  }

  /** What a round does with the cell it has drawn. */
  method DigCell(a: array<array<int>>, countArray: array<int>, r: int, c: int, i: int, ghost g: Grid, ghost used: set<Cell>)
    returns (j: int)
    requires WellFormed(a) && InRange(r, c) && (r, c) in AllCells() && (r, c) !in used
    requires countArray.Length == 9 && forall k :: 0 <= k < 9 ==> countArray != a[k]
    requires Dug(g, Contents(a), used, countArray[..], i)
    modifies a[r], countArray
    ensures WellFormed(a) && Dug(g, Contents(a), used + {(r, c)}, countArray[..], j) && i <= j <= i + 1
  {
    assert (r, c) !in Removed(Contents(a));
    assert Contents(a)[r] == a[r][..] && a[r][c] == g[r][c];
    if countArray[a[r][c] - 1] >= 8 {
      SkipKeepsDug(g, Contents(a), used, countArray[..], i, (r, c));
      j := i;
    } else {
      j := DigOne(a, countArray, r, c, i, g, used);
    }
  }

  lemma FewerLeft(used: set<Cell>, p: Cell)
    requires p in AllCells() && p !in used
    ensures |AllCells() - (used + {p})| < |AllCells() - used| && InRange(p.0, p.1)
  {
    assert AllCells() - used == AllCells() - (used + {p}) + {p};
  }

  /** One round of the digging loop. */
  method DigRound(a: array<array<int>>, usedArray: array2<bool>, countArray: array<int>, i: int,
                  draws: seq<Cell>, pos: nat, ghost g: Grid)
    returns (stuck: bool, j: int, next: nat)
    requires Draws(draws) && pos <= |draws| && Digging(a, usedArray, countArray, g, Drawn(draws, pos), i)
    modifies a[..], usedArray, countArray
    ensures pos <= next <= |draws| && Digging(a, usedArray, countArray, g, Drawn(draws, next), j) && a[..] == old(a[..])
    ensures if stuck then next == |draws| && j == i
            else |AllCells() - Drawn(draws, next)| < |AllCells() - Drawn(draws, pos)| && i <= j <= i + 1
  {
    hide Contents, Dug, UsedAre, AllCells, IsGrid, Drawn;
    var p;
    p, next := DrawUnused(usedArray, draws, pos);
    if p.None? {
      return true, i, next;
    }
    ghost var used := Drawn(draws, pos);
    stuck := false;
    FewerLeft(used, p.value);
    assert (p.value.0, p.value.1) == p.value;
    j := DigCell(a, countArray, p.value.0, p.value.1, i, g, used);
  }

  /** As many clues as asked for, and every digit among them. */
  ghost predicate GoodPuzzle(t: Grid, count: nat) {
    && IsGrid(t) && Valid(t)
    && |Clues(t)| == (if count < 81 then count else 81)
    && forall d :: 1 <= d <= 9 ==> HasDigit(t, d)
  }

  method FreshTables() returns (usedArray: array2<bool>, countArray: array<int>)
    ensures fresh(usedArray) && fresh(countArray) && UsedAre(usedArray, {})
    ensures countArray[..] == [0, 0, 0, 0, 0, 0, 0, 0, 0]
  {
    usedArray := new bool[9, 9]((r, c) => false);
    countArray := new int[9](_ => 0);
  }

  method DigLoop(a: array<array<int>>, usedArray: array2<bool>, countArray: array<int>, count: nat,
                 draws: seq<Cell>, ghost g: Grid)
    returns (stuck: bool, i: int, pos: nat)
    requires Draws(draws) && Digging(a, usedArray, countArray, g, {}, 0)
    modifies a[..], usedArray, countArray
    ensures pos <= |draws| && Digging(a, usedArray, countArray, g, Drawn(draws, pos), i)
    ensures if stuck then pos == |draws| && i < 81 - count
            else if count < 81 then i == 81 - count else i == 0
  {
    pos := 0;
    assert Drawn(draws, 0) == {};
    i := 0;
    stuck := false;
    while i < 81 - count && !stuck
      invariant pos <= |draws| && a[..] == old(a[..]) && Digging(a, usedArray, countArray, g, Drawn(draws, pos), i)
      invariant if count < 81 then i <= 81 - count else i == 0
      invariant stuck ==> pos == |draws| && i < 81 - count
      decreases !stuck, |AllCells() - Drawn(draws, pos)|
    {
      stuck, i, pos := DigRound(a, usedArray, countArray, i, draws, pos, g);
    }
  }

  /** Take away 81 - count clues, but never the ninth of a digit. With fewer than nine clues to leave it
      never comes to an end, however long the draws go on; otherwise it does by the time every cell
      has been drawn. */
  method Dig(a: array<array<int>>, count: nat, draws: seq<Cell>) returns (stuck: bool)
    requires WellFormed(a) && Solved(Contents(a)) && Draws(draws)
    modifies a[..]
    ensures WellFormed(a) && (!stuck ==> GoodPuzzle(Contents(a), count)) && Emptied(old(Contents(a)), Contents(a))
    ensures (count < 9 ==> stuck) && (count >= 9 && Drawn(draws, |draws|) == AllCells() ==> !stuck)
  {
    ghost var g := Contents(a);
    NothingDug(g);
    var usedArray, countArray := FreshTables();
    var i, pos;
    stuck, i, pos := DigLoop(a, usedArray, countArray, count, draws, g);
    DigOutcome(g, Contents(a), Drawn(draws, pos), countArray[..], i, count, stuck);
  }

  lemma DigOutcome(g: Grid, t: Grid, used: set<Cell>, counts: seq<int>, i: int, count: nat, stuck: bool)
    requires Dug(g, t, used, counts, i)
    requires if stuck then i < 81 - count else if count < 81 then i == 81 - count else i == 0
    ensures (count < 9 ==> stuck) && (count >= 9 && used == AllCells() ==> !stuck)
    ensures !stuck ==> GoodPuzzle(t, count)
  {
    AtMostSeventyTwo(g, t, used, counts, i);
    WhatIsLeft(g, t, used, counts, i);
  }

  /** Generate a puzzle and put it to the program's own test. Whatever is drawn, it never comes out
      unless at least nine clues are asked for, and then it does once every cell has come up; the
      puzzle that comes out is one, and the test accepts it. */
  method GenerateSudokuPuzzle(count: nat, draws: seq<Cell>, rowThreads: nat, columnThreads: nat, blockThreads: nat)
    returns (puzzle: Option<string>, result: int, ghost rounds: seq<seq<int>>)
    requires count > 0 && Draws(draws) && rowThreads > 0 && columnThreads > 0 && blockThreads > 0
    ensures (count < 9 ==> puzzle.None?) && (count >= 9 && Drawn(draws, |draws|) == AllCells() ==> puzzle.Some?)
    ensures puzzle.Some? ==>
              |puzzle.value| == 81 && IsDigits(puzzle.value) && result == 1 && GoodPuzzle(Decode(puzzle.value), count)
    ensures AllExchanges(rounds) && (puzzle.Some? ==> Emptied(AfterRounds(rounds), Decode(puzzle.value)))
  {
    hide Contents, Decode, IsDigits, Valid, Clues, HasDigit, Emptied, AfterRounds, AllExchanges;
    var a;
    a, rounds := Shuffle(count);
    var stuck := Dig(a, count, draws);
    if stuck {
      return None, 0, rounds;
    }
    ghost var t := Contents(a);
    var s := WriteDown(a);
    assert Decode(s) == t && GoodPuzzle(t, count);
    result := TestSudokuString(s, rowThreads, columnThreads, blockThreads);
    puzzle := Some(s);
  }

  lemma EncodeAt(g: Grid, i: nat, j: nat)
    requires IsGrid(g) && i < 9 && j < 9
    ensures Encode(g)[i * 9 + j] == g[i][j] as char + '0'
  {
    assert (i * 9 + j) / 9 == i && (i * 9 + j) % 9 == j;
  }

  /** The nested loops that turn the grid into a string. */
  method WriteDown(a: array<array<int>>) returns (s: string)
    requires WellFormed(a)
    ensures |s| == 81 && IsDigits(s) && Decode(s) == Contents(a)
  {
    hide Contents, Encode, Decode, IsDigits;
    s := "";
    ghost var g := Contents(a);
    DecodeEncode(g);
    for i := 0 to 9
      invariant |s| == i * 9
      invariant forall k :: 0 <= k < |s| ==> s[k] == Encode(g)[k]
    {
      assert g[i] == a[i][..];
      for j := 0 to 9
        invariant |s| == i * 9 + j
        invariant forall k :: 0 <= k < |s| ==> s[k] == Encode(g)[k]
      {
        EncodeAt(g, i, j);
        s := s + [a[i][j] as char + '0'];
      }
    }
    assert s == Encode(g);
  }
}
