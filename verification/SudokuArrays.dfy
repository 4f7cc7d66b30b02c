/** The program's grids: arrays of pointers to rows. */
module SudokuArrays {
  import opened SudokuGrid

  ghost function RowsOf(rows: seq<array<int>>): (g: seq<seq<int>>)
    reads rows
    ensures |g| == |rows| && forall i :: 0 <= i < |rows| ==> g[i] == rows[i][..]
  {
    if rows == [] then [] else [rows[0][..]] + RowsOf(rows[1..])
  }

  ghost function Contents(a: array<array<int>>): (g: seq<seq<int>>)
    reads a, a[..]
    ensures |g| == a.Length && forall i :: 0 <= i < a.Length ==> g[i] == a[i][..]
  {
    RowsOf(a[..])
  }

  /** Nine separate rows of nine digits. */
  ghost predicate WellFormed(a: array<array<int>>)
    reads a, a[..]
  {
    a.Length == 9 && IsGrid(Contents(a)) && forall i, j :: 0 <= i < j < 9 ==> a[i] != a[j]
  }

  method DecodeSudokuString(s: string) returns (a: array<array<int>>)
    requires |s| == 81 && IsDigits(s)
    ensures fresh(a) && fresh(a[..]) && WellFormed(a) && Contents(a) == Decode(s)
  {
    hide Decode, Contents;
    var rows: seq<array<int>> := [];
    for i := 0 to 9
      invariant |rows| == i && fresh(rows)
      invariant forall r, r' :: 0 <= r < r' < i ==> rows[r] != rows[r']
      invariant forall r :: 0 <= r < i ==> rows[r].Length == 9 && rows[r][..] == Decode(s)[r]
    {
      var row := new int[9](_ => 0);
      for j := 0 to 9
        modifies row
        invariant forall k :: 0 <= k < j ==> row[k] == Decode(s)[i][k]
      {
        row[j] := (s[i * 9 + j] - '0') as int;
      }
      assert row[..] == Decode(s)[i];
      rows := rows + [row];
    }
    a := new array<int>[9](i requires 0 <= i < 9 => rows[i]);
    assert a[..] == rows;
    assert Contents(a) == Decode(s);
  }

  /** The grid turned by 90 degrees, in fresh rows. */
  method RotateArray(a: array<array<int>>) returns (b: array<array<int>>)
    requires WellFormed(a)
    ensures fresh(b) && fresh(b[..]) && WellFormed(b) && Contents(b) == Rotate(Contents(a))
  {
    hide Rotate, Contents;
    ghost var g := Contents(a);
    var rows: seq<array<int>> := [];
    for i := 0 to 9
      invariant |rows| == i && fresh(rows) && Contents(a) == g
      invariant forall r, r' :: 0 <= r < r' < i ==> rows[r] != rows[r']
      invariant forall r :: 0 <= r < i ==> rows[r].Length == 9 && rows[r][..] == Rotate(g)[r]
    {
      var row := new int[9](_ => 0);
      for j := 0 to 9
        modifies row
        invariant Contents(a) == g
        invariant forall k :: 0 <= k < j ==> row[k] == Rotate(g)[i][k]
      {
        assert g[8 - j] == a[8 - j][..];
        row[j] := a[9 - 1 - j][i];
      }
      assert row[..] == Rotate(g)[i];
      rows := rows + [row];
    }
    b := new array<int>[9](i requires 0 <= i < 9 => rows[i]);
    assert b[..] == rows;
    assert Contents(b) == Rotate(g);
  }

  function Swapped<T>(s: seq<T>, p: nat, q: nat): (t: seq<T>)
    requires p < |s| && q < |s|
    ensures |t| == |s|
  {
    s[p := s[q]][q := s[p]]
  }

  ghost predicate Rearranged(before: seq<array<int>>, from: seq<int>, after: seq<array<int>>) {
    BandShuffle(from) && |before| == |after| == 9 && forall r :: 0 <= r < 9 ==> after[r] == before[from[r]]
  }

  lemma SwapWithinBand(before: seq<array<int>>, from: seq<int>, after: seq<array<int>>, p: nat, q: nat)
    requires Rearranged(before, from, after) && p < 9 && q < 9 && p / 3 == q / 3
    ensures Rearranged(before, Swapped(from, p, q), Swapped(after, p, q))
  {
  }

  lemma StaysDistinct(before: seq<array<int>>, from: seq<int>, after: seq<array<int>>)
    requires Rearranged(before, from, after) && forall i, j :: 0 <= i < j < 9 ==> before[i] != before[j]
    ensures forall i, j :: 0 <= i < j < 9 ==> after[i] != after[j]
  {
    forall i, j | 0 <= i < j < 9
      ensures after[i] != after[j]
    {
      assert from[i] < from[j] || from[j] < from[i];
    }
  }

  method SwapPointers(a: array<array<int>>, p: nat, q: nat)
    requires p < a.Length && q < a.Length
    modifies a
    ensures a[..] == Swapped(old(a[..]), p, q)
  {
    var tempLine := a[p];
    a[p] := a[q];
    a[q] := tempLine;
  }

  /** At most one exchange in each band above row i, and none from there on. */
  ghost predicate ExchangedUpTo(from: seq<int>, i: nat) {
    Exchanges(from) && forall r :: i <= r < 9 ==> from[r] == r
  }

  lemma ExchangeInBand(from: seq<int>, i: nat, p: nat, q: nat)
    requires ExchangedUpTo(from, i) && i in {0, 3, 6} && i <= p < i + 3 && i <= q < i + 3
    ensures ExchangedUpTo(Swapped(from, p, q), i + 3)
  {
  }

  lemma RearrangedShape(before: seq<array<int>>, from: seq<int>, after: seq<array<int>>)
    requires Rearranged(before, from, after)
    ensures |from| == |before| == |after| == 9
  {
  }

  lemma NothingSwapped(before: seq<array<int>>)
    requires |before| == 9
    ensures var from := seq(9, r => r); Rearranged(before, from, before) && ExchangedUpTo(from, 0)
  {
  }

  lemma AllExchanged(from: seq<int>)
    requires ExchangedUpTo(from, 9)
    ensures Exchanges(from)
  {
  }

  method SwapInBand(a: array<array<int>>, i: nat, ghost before: seq<array<int>>, ghost from: seq<int>)
    returns (ghost from': seq<int>)
    requires a.Length == 9 && i in {0, 3, 6} && Rearranged(before, from, a[..])
    requires ExchangedUpTo(from, i)
    modifies a
    ensures Rearranged(before, from', a[..]) && ExchangedUpTo(from', i + 3)
  {
    hide Rearranged, ExchangedUpTo;
    var cursor1: nat :| cursor1 < 3;
    var cursor2: nat :| cursor2 < 3;
    RearrangedShape(before, from, a[..]);
    from' := Swapped(from, i + cursor1, i + cursor2);
    ExchangeInBand(from, i, i + cursor1, i + cursor2);
    SwapWithinBand(before, from, a[..], i + cursor1, i + cursor2);
    SwapPointers(a, i + cursor1, i + cursor2);
  }

  /** In each band of three rows, exchange two of them at random (perhaps one with itself), by
      exchanging pointers. The witness says where each pointer came from. */
  method SwapBands(a: array<array<int>>) returns (ghost from: seq<int>)
    requires a.Length == 9
    modifies a
    ensures Rearranged(old(a[..]), from, a[..]) && Exchanges(from)
  {
    hide Rearranged, ExchangedUpTo, Exchanges;
    from := seq(9, r => r);
    NothingSwapped(a[..]);
    var i := 0;
    while i < 9
      invariant i in {0, 3, 6, 9}
      invariant Rearranged(old(a[..]), from, a[..]) && ExchangedUpTo(from, i)
    {
      from := SwapInBand(a, i, old(a[..]), from);
      i := i + 3;
    }
    AllExchanged(from);
  }

  /** What that means for the grid: its rows are shuffled within their bands. */
  method SwapRows(a: array<array<int>>) returns (ghost from: seq<int>)
    requires WellFormed(a)
    modifies a
    ensures Rearranged(old(a[..]), from, a[..])
    ensures WellFormed(a) && ShuffledBy(from, old(Contents(a)), Contents(a)) && Exchanges(from)
  {
    hide BandShuffle, Exchanges, Contents, ShuffledBy;
    ghost var before, g := a[..], Contents(a);
    assert forall r :: 0 <= r < 9 ==> before[r] == a[r];
    from := SwapBands(a);
    SwappedRows(a, before, g, from);
  }

  lemma SwappedRows(a: array<array<int>>, before: seq<array<int>>, g: Grid, from: seq<int>)
    requires a.Length == 9 && Rearranged(before, from, a[..]) && IsGrid(g)
    requires forall r :: 0 <= r < 9 ==> before[r][..] == g[r]
    requires forall i, j :: 0 <= i < j < 9 ==> before[i] != before[j]
    ensures WellFormed(a) && ShuffledBy(from, g, Contents(a))
  {
    StaysDistinct(before, from, a[..]);
    forall r | 0 <= r < 9
      ensures Contents(a)[r] == g[from[r]]
    {
      assert a[r] == a[..][r] == before[from[r]];
    }
    assert forall i :: 0 <= i < 9 ==> a[i] == a[..][i];
  }

  method CopyOfRow(a: array<array<int>>, row: nat) returns (temp: array<int>)
    requires WellFormed(a) && row < 9
    ensures fresh(temp) && temp[..] == Row(Contents(a), row)
  {
    temp := new int[9](_ => 0);
    assert Contents(a)[row] == a[row][..];
    for i := 0 to 9
      invariant forall k :: 0 <= k < i ==> temp[k] == Row(Contents(a), row)[k]
      invariant WellFormed(a) && Contents(a)[row] == a[row][..]
    {
      temp[i] := a[row][i];
    }
  }

  method CopyOfColumn(a: array<array<int>>, column: nat) returns (temp: array<int>)
    requires WellFormed(a) && column < 9
    ensures fresh(temp) && temp[..] == Column(Contents(a), column)
  {
    temp := new int[9](_ => 0);
    for i := 0 to 9
      invariant WellFormed(a) && Contents(a) == old(Contents(a))
      invariant forall k :: 0 <= k < i ==> temp[k] == Column(Contents(a), column)[k]
    {
      assert Contents(a)[i] == a[i][..];
      temp[i] := a[i][column];
    }
  }

  method CopyOfBlock(a: array<array<int>>, blocknumber: nat) returns (temp: array<int>)
    requires WellFormed(a) && blocknumber < 9
    ensures fresh(temp) && temp[..] == Block(Contents(a), blocknumber)
  {
    hide Contents, Block;
    temp := new int[9](_ => 0);
    var verticalPos := blocknumber / 3 * 3;
    var horizontalPos := blocknumber % 3 * 3;
    var i := 0;
    for j := verticalPos to verticalPos + 3
      invariant i == (j - verticalPos) * 3
      invariant WellFormed(a) && Contents(a) == old(Contents(a))
      invariant forall k :: 0 <= k < i ==> temp[k] == Block(Contents(a), blocknumber)[k]
    {
      for k := horizontalPos to horizontalPos + 3
        invariant i == (j - verticalPos) * 3 + k - horizontalPos
        invariant WellFormed(a) && Contents(a) == old(Contents(a))
        invariant forall k :: 0 <= k < i ==> temp[k] == Block(Contents(a), blocknumber)[k]
      {
        assert i / 3 == j - verticalPos && i % 3 == k - horizontalPos;
        assert Contents(a)[j] == a[j][..];
        temp[i] := a[j][k];
        i := i + 1;
      }
    }
  }
}
