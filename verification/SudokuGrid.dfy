/** Sudoku grids as values: when a grid is free of repeats, which changes keep it so, and how a grid
    is written as a string of 81 digits. Zero stands for an empty cell. */
module SudokuGrid {

  type Grid = seq<seq<int>>

  predicate IsGrid(g: Grid) {
    |g| == 9 && forall r :: 0 <= r < 9 ==> |g[r]| == 9 && forall c :: 0 <= c < 9 ==> 0 <= g[r][c] <= 9
  }

  predicate InRange(r: int, c: int) {
    0 <= r < 9 && 0 <= c < 9
  }

  predicate SameUnit(r: int, c: int, r': int, c': int) {
    r == r' || c == c' || (r / 3 == r' / 3 && c / 3 == c' / 3)
  }

  /** Two different cells of one row, column or block with the same digit. */
  predicate Clash(g: Grid, r: int, c: int, r': int, c': int)
    requires IsGrid(g) && InRange(r, c) && InRange(r', c')
  {
    (r != r' || c != c') && SameUnit(r, c, r', c') && g[r][c] != 0 && g[r][c] == g[r'][c']
  }

  ghost predicate Valid(g: Grid)
    requires IsGrid(g)
  {
    forall r, c, r', c' :: InRange(r, c) && InRange(r', c') ==> !Clash(g, r, c, r', c')
  }

  // ----- Rows, columns and blocks -----

  function Row(g: Grid, i: int): (u: seq<int>)
    requires IsGrid(g) && 0 <= i < 9
    ensures |u| == 9
  {
    g[i]
  }

  function Column(g: Grid, j: int): (u: seq<int>)
    requires IsGrid(g) && 0 <= j < 9
    ensures |u| == 9 && forall i :: 0 <= i < 9 ==> u[i] == g[i][j]
  {
    seq(9, i requires 0 <= i < 9 => g[i][j])
  }

  /** Blocks are numbered row by row, and so are the cells of a block. */
  function Block(g: Grid, b: int): (u: seq<int>)
    requires IsGrid(g) && 0 <= b < 9
    ensures |u| == 9 && forall k :: 0 <= k < 9 ==> u[k] == g[b / 3 * 3 + k / 3][b % 3 * 3 + k % 3]
  {
    seq(9, k requires 0 <= k < 9 => g[b / 3 * 3 + k / 3][b % 3 * 3 + k % 3])
  }

  predicate NoRepeats(u: seq<int>) {
    forall i, j :: 0 <= i < j < |u| && u[i] != 0 ==> u[i] != u[j]
  }

  ghost predicate UnitsValid(g: Grid)
    requires IsGrid(g)
  {
    forall i :: 0 <= i < 9 ==> NoRepeats(Row(g, i)) && NoRepeats(Column(g, i)) && NoRepeats(Block(g, i))
  }

  lemma BlockRepeatIsClash(g: Grid, b: int, k: int, k': int)
    requires IsGrid(g) && 0 <= b < 9 && 0 <= k < k' < 9
    requires Block(g, b)[k] != 0 && Block(g, b)[k] == Block(g, b)[k']
    ensures exists r, c, r', c' :: InRange(r, c) && InRange(r', c') && Clash(g, r, c, r', c')
  {
    hide Block;
    var r, c, r', c' := b / 3 * 3 + k / 3, b % 3 * 3 + k % 3, b / 3 * 3 + k' / 3, b % 3 * 3 + k' % 3;
    assert InRange(r, c) && InRange(r', c') && r / 3 == b / 3 == r' / 3 && c / 3 == b % 3 == c' / 3;
    assert Clash(g, r, c, r', c');
  }

  lemma ClashIsRepeat(g: Grid, r: int, c: int, r': int, c': int)
    requires IsGrid(g) && InRange(r, c) && InRange(r', c') && Clash(g, r, c, r', c')
    ensures !UnitsValid(g)
  {
    if r == r' {
      assert !NoRepeats(Row(g, r));
    } else if c == c' {
      assert Column(g, c)[r] == Column(g, c)[r'];
      assert !NoRepeats(Column(g, c));
    } else {
      var b, k, k' := r / 3 * 3 + c / 3, r % 3 * 3 + c % 3, r' % 3 * 3 + c' % 3;
      assert b / 3 == r / 3 && b % 3 == c / 3;
      assert k / 3 == r % 3 && k % 3 == c % 3 && k' / 3 == r' % 3 && k' % 3 == c' % 3;
      assert Block(g, b)[k] == g[r][c] && Block(g, b)[k'] == g[r'][c'];
      assert !NoRepeats(Block(g, b));
    }
  }

  /** No cell clashes with another exactly when none of the 27 units has a repeat. */
  lemma ValidByUnits(g: Grid)
    requires IsGrid(g)
    ensures Valid(g) <==> UnitsValid(g)
  {
    if UnitsValid(g) {
      forall r, c, r', c' | InRange(r, c) && InRange(r', c')
        ensures !Clash(g, r, c, r', c')
      {
        if Clash(g, r, c, r', c') {
          ClashIsRepeat(g, r, c, r', c');
        }
      }
    }
    if Valid(g) {
      forall i | 0 <= i < 9
        ensures NoRepeats(Row(g, i)) && NoRepeats(Column(g, i)) && NoRepeats(Block(g, i))
      {
        forall k, k' | 0 <= k < k' < 9
          ensures Row(g, i)[k] != 0 ==> Row(g, i)[k] != Row(g, i)[k']
          ensures Column(g, i)[k] != 0 ==> Column(g, i)[k] != Column(g, i)[k']
          ensures Block(g, i)[k] != 0 ==> Block(g, i)[k] != Block(g, i)[k']
        {
          assert !Clash(g, i, k, i, k') && !Clash(g, k, i, k', i);
          if Block(g, i)[k] != 0 && Block(g, i)[k] == Block(g, i)[k'] {
            BlockRepeatIsClash(g, i, k, k');
          }
        }
      }
    }
  }

  // ----- Full units are permutations -----

  function Digits(u: seq<int>): set<int> {
    set x | x in u
  }

  lemma {:induction false} DigitsSize(u: seq<int>)
    requires 0 !in u
    ensures |Digits(u)| <= |u|
    ensures |Digits(u)| == |u| <==> NoRepeats(u)
  {
    if u != [] {
      var n := |u| - 1;
      var rest := u[..n];
      DigitsSize(rest);
      assert u == rest + [u[n]];
      assert Digits(u) == Digits(rest) + {u[n]};
      if u[n] in rest {
        var k :| 0 <= k < n && rest[k] == u[n];
        assert u[k] != 0 && u[k] == u[n];
      }
    }
  }

  lemma {:induction false} OneToNine(n: nat, s: set<int>)
    requires forall x :: x in s ==> 1 <= x <= n
    ensures |s| <= n
    ensures |s| == n ==> forall x :: 1 <= x <= n ==> x in s
  {
    if n == 0 {
      assert forall x :: x !in s;
      assert s == {};
    } else {
      OneToNine(n - 1, s - {n});
      if n in s {
        assert |s - {n}| == |s| - 1;
        forall x | |s| == n && 1 <= x <= n
          ensures x in s
        {
          assert x == n || x in s - {n};
        }
      } else {
        assert s - {n} == s;
      }
    }
  }

  lemma {:induction false} AllOfThem(n: nat, s: set<int>)
    requires forall x :: 1 <= x <= n ==> x in s
    ensures |s| >= n
  {
    if n > 0 {
      AllOfThem(n - 1, s - {n});
      assert |s - {n}| == |s| - 1;
    }
  }

  ghost predicate AllDigits(u: seq<int>) {
    forall d :: 1 <= d <= 9 ==> d in u
  }

  /** A unit without empty cells has no repeats exactly when it has every digit (by pigeonhole). */
  lemma FullUnitIsPermutation(u: seq<int>)
    requires |u| == 9 && forall k :: 0 <= k < 9 ==> 1 <= u[k] <= 9
    ensures NoRepeats(u) <==> AllDigits(u)
  {
    DigitsSize(u);
    OneToNine(9, Digits(u));
    assert forall d :: d in u <==> d in Digits(u);
    if AllDigits(u) {
      AllOfThem(9, Digits(u));
    }
  }

  lemma FullUnits(g: Grid, i: int)
    requires IsGrid(g) && 0 <= i < 9 && forall r, c :: InRange(r, c) ==> g[r][c] != 0
    ensures forall k :: 0 <= k < 9 ==> 1 <= Row(g, i)[k] <= 9 && 1 <= Column(g, i)[k] <= 9 && 1 <= Block(g, i)[k] <= 9
  {
    hide Block;
    forall k | 0 <= k < 9
      ensures 1 <= Row(g, i)[k] <= 9 && 1 <= Column(g, i)[k] <= 9 && 1 <= Block(g, i)[k] <= 9
    {
      assert InRange(i, k) && InRange(k, i) && InRange(i / 3 * 3 + k / 3, i % 3 * 3 + k % 3);
    }
  }

  /** A grid without empty cells is valid exactly when every row, column and block has all nine digits. */
  lemma FullGridIsSolution(g: Grid)
    requires IsGrid(g) && forall r, c :: InRange(r, c) ==> g[r][c] != 0
    ensures Valid(g) <==> forall i :: 0 <= i < 9 ==> AllDigits(Row(g, i)) && AllDigits(Column(g, i)) && AllDigits(Block(g, i))
  {
    hide Row, Column, Block, Valid, NoRepeats;
    ValidByUnits(g);
    forall i | 0 <= i < 9
      ensures NoRepeats(Row(g, i)) <==> AllDigits(Row(g, i))
      ensures NoRepeats(Column(g, i)) <==> AllDigits(Column(g, i))
      ensures NoRepeats(Block(g, i)) <==> AllDigits(Block(g, i))
    {
      FullUnits(g, i);
      FullUnitIsPermutation(Row(g, i));
      FullUnitIsPermutation(Column(g, i));
      FullUnitIsPermutation(Block(g, i));
    }
  }

  // ----- Changes that keep a grid valid -----

  /** Turn the grid by 90 degrees. */
  function Rotate(g: Grid): (t: Grid)
    requires IsGrid(g)
    ensures IsGrid(t) && forall r, c :: InRange(r, c) ==> t[r][c] == g[8 - c][r]
  {
    seq(9, r requires 0 <= r < 9 => seq(9, c requires 0 <= c < 9 => g[8 - c][r]))
  }

  lemma RotateKeepsValid(g: Grid)
    requires IsGrid(g) && Valid(g)
    ensures Valid(Rotate(g))
  {
    hide Rotate, Clash;
    forall r, c, r', c' | InRange(r, c) && InRange(r', c')
      ensures !Clash(Rotate(g), r, c, r', c')
    {
      if Clash(Rotate(g), r, c, r', c') {
        RotatedClash(g, r, c, r', c');
      }
    }
  }

  lemma RotatedClash(g: Grid, r: int, c: int, r': int, c': int)
    requires IsGrid(g) && InRange(r, c) && InRange(r', c') && Clash(Rotate(g), r, c, r', c')
    ensures InRange(8 - c, r) && InRange(8 - c', r') && Clash(g, 8 - c, r, 8 - c', r')
  {
    hide Rotate;
  }

  /** A rearrangement of rows that leaves every row in its band of three. */
  ghost predicate BandShuffle(f: seq<int>) {
    && |f| == 9
    && (forall r :: 0 <= r < 9 ==> 0 <= f[r] < 9 && f[r] / 3 == r / 3)
    && (forall r, r' :: 0 <= r < r' < 9 ==> f[r] != f[r'])
  }

  /** In no band more than two rows change places. */
  ghost predicate Exchanges(f: seq<int>) {
    BandShuffle(f) && forall r :: 0 <= r < 9 ==> f[f[r]] == r
  }

  ghost predicate ShuffledBy(f: seq<int>, g: Grid, t: Grid) {
    BandShuffle(f) && |g| == |t| == 9 && forall r :: 0 <= r < 9 ==> t[r] == g[f[r]]
  }

  lemma ShuffleKeepsValid(f: seq<int>, g: Grid, t: Grid)
    requires IsGrid(g) && ShuffledBy(f, g, t) && Valid(g)
    ensures IsGrid(t) && Valid(t)
  {
    forall r, c, r', c' | InRange(r, c) && InRange(r', c')
      ensures !Clash(t, r, c, r', c')
    {
      assert t[r] == g[f[r]] && t[r'] == g[f[r']];
      assert !Clash(g, f[r], c, f[r'], c');
    }
  }

  /** t is g with some cells emptied. */
  ghost predicate Emptied(g: Grid, t: Grid) {
    IsGrid(g) && IsGrid(t) && forall r, c :: InRange(r, c) ==> t[r][c] == g[r][c] || t[r][c] == 0
  }

  lemma EmptyingKeepsValid(g: Grid, t: Grid)
    requires Emptied(g, t) && Valid(g)
    ensures Valid(t)
  {
    forall r, c, r', c' | InRange(r, c) && InRange(r', c')
      ensures !Clash(t, r, c, r', c')
    {
      assert !Clash(g, r, c, r', c');
    }
  }

  // ----- Grids as strings -----

  predicate IsDigits(s: string) {
    forall k :: 0 <= k < |s| ==> '0' <= s[k] <= '9'
  }

  function Decode(s: string): (g: Grid)
    requires |s| == 81 && IsDigits(s)
    ensures IsGrid(g)
    ensures forall r, c :: InRange(r, c) ==> g[r][c] == (s[r * 9 + c] - '0') as int
  {
    seq(9, r requires 0 <= r < 9 => seq(9, c requires 0 <= c < 9 => (s[r * 9 + c] - '0') as int))
  }

  function Encode(g: Grid): (s: string)
    requires IsGrid(g)
    ensures |s| == 81 && IsDigits(s)
  {
    seq(81, k requires 0 <= k < 81 => g[k / 9][k % 9] as char + '0')
  }

  /** Writing a grid down and reading it back gives the same grid. */
  lemma DecodeEncode(g: Grid)
    requires IsGrid(g)
    ensures Decode(Encode(g)) == g
  {
    var t := Decode(Encode(g));
    forall r | 0 <= r < 9
      ensures t[r] == g[r]
    {
      forall c | 0 <= c < 9
        ensures t[r][c] == g[r][c]
      {
        assert (r * 9 + c) / 9 == r && (r * 9 + c) % 9 == c;
      }
    }
  }

  lemma EncodeDecode(s: string)
    requires |s| == 81 && IsDigits(s)
    ensures Encode(Decode(s)) == s
  {
    forall k | 0 <= k < 81
      ensures Encode(Decode(s))[k] == s[k]
    {
      assert InRange(k / 9, k % 9) && k / 9 * 9 + k % 9 == k;
    }
  }
}
