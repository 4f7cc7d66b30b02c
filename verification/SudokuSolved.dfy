/** The solution that is built into the program, and the proof that it is one. */
module SudokuSolved {
  import opened SudokuGrid

  const SOLVED: Grid := [
    [1, 2, 3, 5, 6, 7, 8, 9, 4],
    [4, 5, 6, 1, 8, 9, 2, 3, 7],
    [7, 8, 9, 2, 3, 4, 1, 5, 6],
    [2, 1, 4, 3, 5, 6, 7, 8, 9],
    [3, 6, 5, 7, 9, 8, 4, 1, 2],
    [8, 9, 7, 4, 1, 2, 3, 6, 5],
    [5, 3, 2, 6, 4, 1, 9, 7, 8],
    [6, 4, 8, 9, 7, 3, 5, 2, 1],
    [9, 7, 1, 8, 2, 5, 6, 4, 3]]

  lemma SolvedIsFullGrid()
    ensures IsGrid(SOLVED) && forall r, c :: InRange(r, c) ==> SOLVED[r][c] != 0
  {
    forall r, c | InRange(r, c)
      ensures 1 <= SOLVED[r][c] <= 9
    {
      assert r in {0, 1, 2, 3, 4, 5, 6, 7, 8} && c in {0, 1, 2, 3, 4, 5, 6, 7, 8};
    }
  }

  lemma TopRowsClear()
    requires IsGrid(SOLVED)
    ensures NoRepeats(SOLVED[0]) && NoRepeats(SOLVED[1]) && NoRepeats(SOLVED[2])
  {
  }

  lemma MiddleRowsClear()
    requires IsGrid(SOLVED)
    ensures NoRepeats(SOLVED[3]) && NoRepeats(SOLVED[4]) && NoRepeats(SOLVED[5])
  {
  }

  lemma BottomRowsClear()
    requires IsGrid(SOLVED)
    ensures NoRepeats(SOLVED[6]) && NoRepeats(SOLVED[7]) && NoRepeats(SOLVED[8])
  {
  }

  lemma RowsClear()
    requires IsGrid(SOLVED)
    ensures forall i :: 0 <= i < 9 ==> NoRepeats(Row(SOLVED, i))
  {
    hide NoRepeats;
    TopRowsClear();
    MiddleRowsClear();
    BottomRowsClear();
    forall i | 0 <= i < 9
      ensures NoRepeats(Row(SOLVED, i))
    {
      assert i in {0, 1, 2, 3, 4, 5, 6, 7, 8};
    }
  }

  function Down(g: Grid, c: int): seq<int>
    requires IsGrid(g) && 0 <= c < 9
  {
    [g[0][c], g[1][c], g[2][c], g[3][c], g[4][c], g[5][c], g[6][c], g[7][c], g[8][c]]
  }

  predicate DownsClear(g: Grid)
    requires IsGrid(g)
  {
    && NoRepeats(Down(g, 0)) && NoRepeats(Down(g, 1)) && NoRepeats(Down(g, 2))
    && NoRepeats(Down(g, 3)) && NoRepeats(Down(g, 4)) && NoRepeats(Down(g, 5))
    && NoRepeats(Down(g, 6)) && NoRepeats(Down(g, 7)) && NoRepeats(Down(g, 8))
  }

  lemma ColumnsClear(g: Grid)
    requires IsGrid(g) && DownsClear(g)
    ensures forall j :: 0 <= j < 9 ==> NoRepeats(Column(g, j))
  {
    forall j | 0 <= j < 9
      ensures NoRepeats(Column(g, j))
    {
      assert Column(g, j) == Down(g, j);
      assert j in {0, 1, 2, 3, 4, 5, 6, 7, 8};
    }
  }

  lemma LeftDownsClear()
    requires IsGrid(SOLVED)
    ensures NoRepeats(Down(SOLVED, 0)) && NoRepeats(Down(SOLVED, 1)) && NoRepeats(Down(SOLVED, 2))
  {
  }

  lemma MiddleDownsClear()
    requires IsGrid(SOLVED)
    ensures NoRepeats(Down(SOLVED, 3)) && NoRepeats(Down(SOLVED, 4)) && NoRepeats(Down(SOLVED, 5))
  {
  }

  lemma RightDownsClear()
    requires IsGrid(SOLVED)
    ensures NoRepeats(Down(SOLVED, 6)) && NoRepeats(Down(SOLVED, 7)) && NoRepeats(Down(SOLVED, 8))
  {
  }

  lemma SolvedDownsClear()
    requires IsGrid(SOLVED)
    ensures DownsClear(SOLVED)
  {
    hide NoRepeats, Down;
    LeftDownsClear();
    MiddleDownsClear();
    RightDownsClear();
  }

  /** The nine cells of the block whose first cell is (r, c). */
  function Nine(g: Grid, r: int, c: int): seq<int>
    requires IsGrid(g) && 0 <= r < 7 && 0 <= c < 7
  {
    [g[r][c], g[r][c + 1], g[r][c + 2],
     g[r + 1][c], g[r + 1][c + 1], g[r + 1][c + 2],
     g[r + 2][c], g[r + 2][c + 1], g[r + 2][c + 2]]
  }

  predicate NinesClear(g: Grid)
    requires IsGrid(g)
  {
    && NoRepeats(Nine(g, 0, 0)) && NoRepeats(Nine(g, 0, 3)) && NoRepeats(Nine(g, 0, 6))
    && NoRepeats(Nine(g, 3, 0)) && NoRepeats(Nine(g, 3, 3)) && NoRepeats(Nine(g, 3, 6))
    && NoRepeats(Nine(g, 6, 0)) && NoRepeats(Nine(g, 6, 3)) && NoRepeats(Nine(g, 6, 6))
  }

  lemma BlockIsNine(g: Grid, b: int)
    requires IsGrid(g) && 0 <= b < 9
    ensures Block(g, b) == Nine(g, b / 3 * 3, b % 3 * 3)
  {
  }

  lemma BlocksClear(g: Grid)
    requires IsGrid(g) && NinesClear(g)
    ensures forall b :: 0 <= b < 9 ==> NoRepeats(Block(g, b))
  {
    forall b | 0 <= b < 9
      ensures NoRepeats(Block(g, b))
    {
      BlockIsNine(g, b);
      assert b / 3 in {0, 1, 2} && b % 3 in {0, 1, 2};
    }
  }

  lemma TopNinesClear()
    requires IsGrid(SOLVED)
    ensures NoRepeats(Nine(SOLVED, 0, 0)) && NoRepeats(Nine(SOLVED, 0, 3)) && NoRepeats(Nine(SOLVED, 0, 6))
  {
  }

  lemma MiddleNinesClear()
    requires IsGrid(SOLVED)
    ensures NoRepeats(Nine(SOLVED, 3, 0)) && NoRepeats(Nine(SOLVED, 3, 3)) && NoRepeats(Nine(SOLVED, 3, 6))
  {
  }

  lemma BottomNinesClear()
    requires IsGrid(SOLVED)
    ensures NoRepeats(Nine(SOLVED, 6, 0)) && NoRepeats(Nine(SOLVED, 6, 3)) && NoRepeats(Nine(SOLVED, 6, 6))
  {
  }

  lemma SolvedNinesClear()
    requires IsGrid(SOLVED)
    ensures NinesClear(SOLVED)
  {
    hide NoRepeats, Nine;
    TopNinesClear();
    MiddleNinesClear();
    BottomNinesClear();
  }

  lemma SolvedIsValid()
    ensures IsGrid(SOLVED) && Valid(SOLVED)
    ensures forall r, c :: InRange(r, c) ==> SOLVED[r][c] != 0
  {
    SolvedIsFullGrid();
    RowsClear();
    SolvedDownsClear();
    ColumnsClear(SOLVED);
    SolvedNinesClear();
    BlocksClear(SOLVED);
    ValidByUnits(SOLVED);
  }
}
