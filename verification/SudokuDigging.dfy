/** Counting the cells of a solved grid while some of them are emptied. */
module SudokuDigging {
  import opened SudokuGrid

  type Cell = (int, int)

  /** The cells of the first n rows. */
  ghost function CellsTo(n: int): set<Cell> {
    set r, c | 0 <= r < n && 0 <= c < 9 :: (r, c)
  }

  ghost function AllCells(): set<Cell> {
    CellsTo(9)
  }

  /** The first k cells of row r. */
  ghost function RowCells(r: int, k: nat): set<Cell> {
    if k == 0 then {} else RowCells(r, k - 1) + {(r, k - 1)}
  }

  lemma {:induction false} RowSize(r: int, k: nat)
    ensures |RowCells(r, k)| == k
    ensures forall p :: p in RowCells(r, k) <==> p.0 == r && 0 <= p.1 < k
  {
    if k > 0 {
      RowSize(r, k - 1);
    }
  }

  lemma {:induction false} CellsToSize(n: nat)
    ensures |CellsTo(n)| == 9 * n
  {
    hide RowCells;
    if n > 0 {
      CellsToSize(n - 1);
      RowSize(n - 1, 9);
      OneMoreRow(n);
      assert |CellsTo(n)| == |CellsTo(n - 1)| + |RowCells(n - 1, 9)|;
    } else {
      assert CellsTo(0) == {};
    }
  }

  lemma OneMoreRow(n: nat)
    requires n > 0
    ensures CellsTo(n) == CellsTo(n - 1) + RowCells(n - 1, 9) && CellsTo(n - 1) !! RowCells(n - 1, 9)
  {
    hide RowCells;
    RowSize(n - 1, 9);
    forall p: Cell
      ensures p in CellsTo(n) <==> p in CellsTo(n - 1) + RowCells(n - 1, 9)
    {
    }
  }

  ghost predicate Full(g: Grid) {
    IsGrid(g) && forall r, c :: InRange(r, c) ==> g[r][c] != 0
  }

  ghost function OfDigit(g: Grid, s: set<Cell>, d: int): set<Cell>
    requires IsGrid(g)
  {
    set p: Cell | p in s && InRange(p.0, p.1) && g[p.0][p.1] == d
  }

  /** How many of the cells have a digit up to d. */
  ghost function SumTo(g: Grid, s: set<Cell>, d: nat): nat
    requires IsGrid(g)
  {
    if d == 0 then 0 else SumTo(g, s, d - 1) + |OfDigit(g, s, d)|
  }

  ghost function UpToDigit(g: Grid, s: set<Cell>, d: int): set<Cell>
    requires IsGrid(g)
  {
    set p: Cell | p in s && InRange(p.0, p.1) && 1 <= g[p.0][p.1] <= d
  }

  lemma {:induction false} CountByDigit(g: Grid, s: set<Cell>, d: nat)
    requires IsGrid(g)
    ensures |UpToDigit(g, s, d)| == SumTo(g, s, d)
  {
    if d == 0 {
      assert UpToDigit(g, s, 0) == {};
    } else {
      CountByDigit(g, s, d - 1);
      assert UpToDigit(g, s, d) == UpToDigit(g, s, d - 1) + OfDigit(g, s, d);
      assert UpToDigit(g, s, d - 1) !! OfDigit(g, s, d);
    }
  }

  lemma SizeByDigit(g: Grid, s: set<Cell>)
    requires Full(g) && s <= AllCells()
    ensures |s| == SumTo(g, s, 9)
  {
    CountByDigit(g, s, 9);
    forall p | p in s
      ensures p in UpToDigit(g, s, 9)
    {
      assert p in AllCells();
      assert InRange(p.0, p.1);
    }
    assert UpToDigit(g, s, 9) == s;
  }

  lemma {:induction false} OnePerRow(s: set<Cell>, n: nat)
    requires forall p :: p in s ==> 0 <= p.0 < n
    requires forall p, q :: p in s && q in s && p.0 == q.0 ==> p == q
    ensures |s| <= n
  {
    if n == 0 {
      assert s == {};
    } else {
      var rest := set p | p in s && p.0 < n - 1;
      OnePerRow(rest, n - 1);
      if p :| p in s && p.0 == n - 1 {
        assert s == rest + {p};
      } else {
        assert s == rest;
      }
    }
  }

  lemma DigitAtMostNine(g: Grid, d: int)
    requires Full(g) && Valid(g)
    ensures |OfDigit(g, AllCells(), d)| <= 9
  {
    var s := OfDigit(g, AllCells(), d);
    forall p, q | p in s && q in s && p.0 == q.0
      ensures p == q
    {
      assert !Clash(g, p.0, p.1, q.0, q.1);
    }
    OnePerRow(s, 9);
  }

  lemma {:induction false} SumToAtMost(g: Grid, s: set<Cell>, d: nat, m: nat)
    requires IsGrid(g) && forall e :: 1 <= e <= d ==> |OfDigit(g, s, e)| <= m
    ensures SumTo(g, s, d) <= m * d
    ensures SumTo(g, s, d) == m * d ==> forall e :: 1 <= e <= d ==> |OfDigit(g, s, e)| == m
  {
    if d > 0 {
      SumToAtMost(g, s, d - 1, m);
      assert m * d == m * (d - 1) + m;
    }
  }

  lemma {:induction false} SumToExactly(g: Grid, s: set<Cell>, d: nat, m: nat)
    requires IsGrid(g) && forall e :: 1 <= e <= d ==> |OfDigit(g, s, e)| == m
    ensures SumTo(g, s, d) == m * d
  {
    if d > 0 {
      SumToExactly(g, s, d - 1, m);
      assert m * d == m * (d - 1) + m;
    }
  }

  /** A solved grid has every digit nine times. */
  lemma EveryDigitNineTimes(g: Grid)
    requires Full(g) && Valid(g)
    ensures forall d :: 1 <= d <= 9 ==> |OfDigit(g, AllCells(), d)| == 9
  {
    forall d | 1 <= d <= 9
      ensures |OfDigit(g, AllCells(), d)| <= 9
    {
      DigitAtMostNine(g, d);
    }
    CellsToSize(9);
    SizeByDigit(g, AllCells());
    SumToAtMost(g, AllCells(), 9, 9);
  }

  // ----- The digging loop's bookkeeping -----

  ghost function Removed(t: Grid): set<Cell>
    requires IsGrid(t)
  {
    set r, c | 0 <= r < 9 && 0 <= c < 9 && t[r][c] == 0 :: (r, c)
  }

  /** t is the solved grid g after digging: `used` are the cells drawn so far, `counts[d - 1]` says
      how often digit d has been taken away, and k is the number of cells emptied. */
  ghost predicate Dug(g: Grid, t: Grid, used: set<Cell>, counts: seq<int>, k: int) {
    && Full(g) && Valid(g) && Emptied(g, t) && |counts| == 9
    && used <= AllCells() && Removed(t) <= used
    && k == |Removed(t)|
    && forall d :: 1 <= d <= 9 ==>
         && |OfDigit(g, Removed(t), d)| == counts[d - 1]
         && counts[d - 1] == if |OfDigit(g, used, d)| < 8 then |OfDigit(g, used, d)| else 8
  }

  lemma NothingDug(g: Grid)
    requires Full(g) && Valid(g)
    ensures Dug(g, g, {}, [0, 0, 0, 0, 0, 0, 0, 0, 0], 0)
  {
    assert Removed(g) == {};
    assert forall d :: OfDigit(g, {}, d) == {};
  }

  lemma DrawOne(g: Grid, used: set<Cell>, p: Cell, d: int)
    requires IsGrid(g) && p in AllCells() && p !in used
    ensures InRange(p.0, p.1)
    ensures |OfDigit(g, used + {p}, d)| == |OfDigit(g, used, d)| + if g[p.0][p.1] == d then 1 else 0
  {
    if g[p.0][p.1] == d {
      assert OfDigit(g, used + {p}, d) == OfDigit(g, used, d) + {p};
    } else {
      assert OfDigit(g, used + {p}, d) == OfDigit(g, used, d);
    }
  }

  /** A drawn cell whose digit has already gone eight times stays. */
  lemma SkipKeepsDug(g: Grid, t: Grid, used: set<Cell>, counts: seq<int>, k: int, p: Cell)
    requires Dug(g, t, used, counts, k) && p in AllCells() && p !in used
    requires InRange(p.0, p.1) && counts[g[p.0][p.1] - 1] >= 8
    ensures Dug(g, t, used + {p}, counts, k)
  {
    forall d | 1 <= d <= 9
      ensures counts[d - 1] == if |OfDigit(g, used + {p}, d)| < 8 then |OfDigit(g, used + {p}, d)| else 8
    {
      DrawOne(g, used, p, d);
    }
  }

  lemma RemovedAfter(t: Grid, p: Cell, t': Grid)
    requires IsGrid(t) && InRange(p.0, p.1) && t' == t[p.0 := t[p.0][p.1 := 0]]
    ensures IsGrid(t') && Removed(t') == Removed(t) + {p}
    ensures forall r, c :: InRange(r, c) ==> t'[r][c] == if (r, c) == p then 0 else t[r][c]
  {
    forall r, c | InRange(r, c)
      ensures t'[r][c] == if (r, c) == p then 0 else t[r][c]
    {
    }
    assert IsGrid(t');
    forall q | q in Removed(t) + {p}
      ensures q in Removed(t')
    {
      assert InRange(q.0, q.1) && t'[q.0][q.1] == 0;
    }
  }

  lemma CountAfterRemoval(g: Grid, used: set<Cell>, removed: set<Cell>, counts: seq<int>, p: Cell, counts': seq<int>, d: int)
    requires IsGrid(g) && |counts| == 9 && p in AllCells() && p !in used && p !in removed && 1 <= d <= 9
    requires InRange(p.0, p.1) && g[p.0][p.1] != 0
    requires var e := g[p.0][p.1]; counts[e - 1] < 8 && counts' == counts[e - 1 := counts[e - 1] + 1]
    requires |OfDigit(g, removed, d)| == counts[d - 1]
    requires counts[d - 1] == if |OfDigit(g, used, d)| < 8 then |OfDigit(g, used, d)| else 8
    ensures |OfDigit(g, removed + {p}, d)| == counts'[d - 1]
    ensures counts'[d - 1] == if |OfDigit(g, used + {p}, d)| < 8 then |OfDigit(g, used + {p}, d)| else 8
  {
    DrawOne(g, used, p, d);
    DrawOne(g, removed, p, d);
  }

  /** Any other drawn cell is emptied and counted. */
  lemma RemoveKeepsDug(g: Grid, t: Grid, used: set<Cell>, counts: seq<int>, k: int, p: Cell, t': Grid, counts': seq<int>)
    requires Dug(g, t, used, counts, k) && p in AllCells() && p !in used && InRange(p.0, p.1)
    requires var d := g[p.0][p.1]; counts[d - 1] < 8 && counts' == counts[d - 1 := counts[d - 1] + 1]
    requires t' == t[p.0 := t[p.0][p.1 := 0]]
    ensures Dug(g, t', used + {p}, counts', k + 1)
  {
    RemovedAfter(t, p, t');
    assert p !in Removed(t);
    forall d | 1 <= d <= 9
      ensures |OfDigit(g, Removed(t'), d)| == counts'[d - 1]
      ensures counts'[d - 1] == if |OfDigit(g, used + {p}, d)| < 8 then |OfDigit(g, used + {p}, d)| else 8
    {
      CountAfterRemoval(g, used, Removed(t), counts, p, counts', d);
    }
  }

  /** At most 72 cells can be emptied; when every cell has been drawn it is exactly 72, so one cell of each digit was skipped. */
  lemma AtMostSeventyTwo(g: Grid, t: Grid, used: set<Cell>, counts: seq<int>, k: int)
    requires Dug(g, t, used, counts, k)
    ensures k <= 72 && (used == AllCells() ==> k == 72)
  {
    SizeByDigit(g, Removed(t));
    SumToAtMost(g, Removed(t), 9, 8);
    if used == AllCells() {
      EveryDigitNineTimes(g);
      SumToExactly(g, Removed(t), 9, 8);
    }
  }

  ghost function Clues(t: Grid): set<Cell>
    requires IsGrid(t)
  {
    AllCells() - Removed(t)
  }

  ghost predicate HasDigit(t: Grid, d: int)
    requires IsGrid(t)
  {
    exists r, c :: InRange(r, c) && t[r][c] == d
  }

  /** What is left: 81 - k clues, and every digit among them. */
  lemma WhatIsLeft(g: Grid, t: Grid, used: set<Cell>, counts: seq<int>, k: int)
    requires Dug(g, t, used, counts, k)
    ensures Valid(t) && |Clues(t)| == 81 - k
    ensures forall d :: 1 <= d <= 9 ==> HasDigit(t, d)
  {
    EmptyingKeepsValid(g, t);
    CellsToSize(9);
    assert AllCells() == Removed(t) + Clues(t);
    EveryDigitNineTimes(g);
    forall d | 1 <= d <= 9
      ensures HasDigit(t, d)
    {
      var all, gone := OfDigit(g, AllCells(), d), OfDigit(g, Removed(t), d);
      assert gone <= all && |gone| <= 8;
      assert all - gone != {} by {
        assert all == gone + (all - gone);
      }
      var p :| p in all - gone;
      assert InRange(p.0, p.1) && t[p.0][p.1] == d;
    }
  }
}
