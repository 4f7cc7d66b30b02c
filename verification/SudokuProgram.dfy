/** The validator's imperative code: the worker structure, the scan each thread runs, and the whole
    test of a string. Flags that are 0 or 1 in the source are booleans here. */
module SudokuProgram {
  import opened SudokuGrid
  import opened SudokuArrays
  import opened SudokuValidator

  class NumberArray {
    const elements: array<Unit>
    var arrayCount: nat
    var isValid: bool
    var isTested: bool

    ghost predicate Ok()
      reads this, elements
    {
      arrayCount <= elements.Length && forall k :: 0 <= k < arrayCount ==> IsUnit(elements[k])
    }

    ghost function Units(): seq<Unit>
      requires Ok()
      reads this, elements
    {
      elements[..arrayCount]
    }

    constructor (capacity: nat)
      ensures Ok() && Units() == [] && isValid && !isTested && elements.Length == capacity && fresh(elements)
    {
      elements := new Unit[capacity](_ => []);
      arrayCount, isValid, isTested := 0, true, false;
    }

    method Add(u: Unit)
      requires Ok() && arrayCount < elements.Length && IsUnit(u)
      modifies this`arrayCount, elements
      ensures Ok() && Units() == old(Units()) + [u]
    {
      elements[arrayCount] := u;
      arrayCount := arrayCount + 1;
    }

    /** What a thread does with its structure. */
    method IsValid()
      requires Ok()
      modifies this`isValid, this`isTested
      ensures isTested && (isValid <==> old(isValid) && AllClear(Units()))
    {
      var i := 0;
      while i < arrayCount
        invariant 0 <= i <= arrayCount
        invariant isValid == old(isValid) || !isValid
        invariant isValid <==> old(isValid) && AllClear(Units()[..i])
        invariant i > 0 ==> isValid
      {
        var u := elements[i];
        assert Units()[..i + 1] == Units()[..i] + [u];
        var repeated := HasRepeat(u);
        if repeated {
          isValid := false;
        }
        assert isValid <==> old(isValid) && AllClear(Units()[..i + 1]);
        if !isValid {
          assert !old(isValid) || !AllClear(Units()[..i + 1]);
          break;
        }
        i := i + 1;
      }
      assert i == arrayCount ==> Units()[..i] == Units();
      isTested := true;
    }
  }

  /** The inner loop: has one of the digits been seen before? */
  method HasRepeat(u: Unit) returns (repeated: bool)
    requires IsUnit(u)
    ensures repeated <==> !NoRepeats(u)
  {
    var numbersFound := new bool[9](_ => false);
    var j := 0;
    while j < 9
      invariant 0 <= j <= 9
      invariant NoRepeats(u[..j])
      invariant forall d :: 0 <= d < 9 ==> (numbersFound[d] <==> d + 1 in u[..j])
    {
      assert u[..j + 1] == u[..j] + [u[j]];
      if u[j] != 0 && numbersFound[u[j] - 1] && u[j] >= 1 && u[j] <= 9 {
        assert numbersFound[u[j] - 1];
        ghost var k :| 0 <= k < j && u[..j][k] == u[j];
        assert u[k] == u[j];
        return true;
      } else {
        if u[j] != 0 {
          assert numbersFound[u[j] - 1] <==> u[j] in u[..j];
          numbersFound[u[j] - 1] := true;
        }
      }
      j := j + 1;
    }
    assert u[..9] == u;
    return false;
  }

  // ----- A team of workers of one kind -----

  /** The workers and their lists are all different objects, within the given footprint. */
  ghost predicate Within(ws: seq<NumberArray>, fp: set<object>) {
    && (forall t :: 0 <= t < |ws| ==> ws[t] in fp && ws[t].elements in fp)
    && (forall i, j :: 0 <= i < j < |ws| ==> ws[i] != ws[j] && ws[i].elements != ws[j].elements)
  }

  /** The first n units have been dealt to the workers, and nobody has started. */
  ghost predicate Deck(ws: seq<NumberArray>, fp: set<object>, units: seq<Unit>, n: nat)
    requires n <= |units|
    reads fp
  {
    && |ws| > 0 && Within(ws, fp)
    && forall t :: 0 <= t < |ws| ==>
         && ws[t].Ok() && ws[t].Units() == Dealt(units, |ws|, t, n)
         && ws[t].elements.Length == 9 / |ws| + 1
         && ws[t].isValid && !ws[t].isTested
  }

  method InitializeTeam(threads: nat, ghost units: seq<Unit>) returns (ws: seq<NumberArray>, ghost fp: set<object>)
    requires threads > 0
    ensures |ws| == threads && fresh(fp) && Deck(ws, fp, units, 0)
  {
    ws, fp := [], {};
    for t := 0 to threads
      invariant |ws| == t && fresh(fp) && Within(ws, fp)
      invariant forall k :: 0 <= k < t ==>
                  && ws[k].Ok() && ws[k].Units() == [] && ws[k].elements.Length == 9 / threads + 1
                  && ws[k].isValid && !ws[k].isTested
    {
      var w := new NumberArray(9 / threads + 1);
      ws, fp := ws + [w], fp + {w, w.elements};
    }
  }

  method InitializeArrays(rowThreads: nat, columnThreads: nat, blockThreads: nat,
                          ghost ru: seq<Unit>, ghost cu: seq<Unit>, ghost bu: seq<Unit>)
    returns (rows: seq<NumberArray>, columns: seq<NumberArray>, blocks: seq<NumberArray>,
             ghost rf: set<object>, ghost cf: set<object>, ghost bf: set<object>)
    requires rowThreads > 0 && columnThreads > 0 && blockThreads > 0
    ensures |rows| == rowThreads && |columns| == columnThreads && |blocks| == blockThreads
    ensures fresh(rf) && fresh(cf) && fresh(bf) && rf !! cf !! bf
    ensures Deck(rows, rf, ru, 0) && Deck(columns, cf, cu, 0) && Deck(blocks, bf, bu, 0)
  {
    rows, rf := InitializeTeam(rowThreads, ru);
    columns, cf := InitializeTeam(columnThreads, cu);
    blocks, bf := InitializeTeam(blockThreads, bu);
  }

  lemma RoomForUnit(units: seq<Unit>, threads: nat, n: nat)
    requires threads > 0 && n < |units| == 9
    ensures |Dealt(units, threads, n % threads, n)| < 9 / threads + 1
    ensures forall t :: 0 <= t < threads ==>
              Dealt(units, threads, t, n + 1) ==
              Dealt(units, threads, t, n) + if t == n % threads then [units[n]] else []
  {
    DealtLength(units, threads, n % threads, n);
    QuotientMonotone(n, 9, threads);
  }

  lemma QuotientMonotone(a: nat, b: nat, d: nat)
    requires d > 0 && a <= b
    ensures a / d <= b / d
  {
    if a < b {
      QuotientMonotone(a, b - 1, d);
      NextQuotient(b - 1, d);
    }
  }

  /** Hand a copied unit to the next worker in turn; there is always room for it. */
  method Give(ws: seq<NumberArray>, ghost fp: set<object>, u: array<int>, i: nat, ghost units: seq<Unit>)
    requires i < |units| == 9 && IsUnit(units[i]) && u[..] == units[i] && Deck(ws, fp, units, i)
    modifies fp
    ensures Deck(ws, fp, units, i + 1)
  {
    RoomForUnit(units, |ws|, i);
    var cursor := i % |ws|;
    ws[cursor].Add(u[..]);
    forall t | 0 <= t < |ws| && t != cursor
      ensures ws[t].Ok() && ws[t].Units() == old(ws[t].Units())
    {
      assert ws[t] != ws[cursor] && ws[t].elements != ws[cursor].elements;
    }
  }

  // ----- The verdict -----

  method Max(a: nat, b: nat) returns (m: nat)
    ensures m == if a >= b then a else b
  {
    if a >= b {
      return a;
    } else {
      return b;
    }
  }

  /** The first i workers have finished, the others have not started. */
  ghost predicate Started(ws: seq<NumberArray>, fp: set<object>, units: seq<Unit>, i: nat)
    reads fp
  {
    && |ws| > 0 && Within(ws, fp)
    && (forall t :: 0 <= t < |ws| ==> ws[t].Ok() && ws[t].Units() == Dealt(units, |ws|, t, |units|))
    && (forall t :: 0 <= t < |ws| ==>
          if t < i then ws[t].isTested && (ws[t].isValid <==> AllClear(ws[t].Units())) else ws[t].isValid)
  }

  /** Run worker i of one team, if the team has one. */
  method RunWorker(ws: seq<NumberArray>, ghost fp: set<object>, i: nat, ghost units: seq<Unit>)
    requires Started(ws, fp, units, i)
    modifies fp
    ensures Started(ws, fp, units, i + 1)
  {
    if i < |ws| {
      ws[i].IsValid();
    }
  }

  lemma TeamIsClear(ws: seq<NumberArray>, fp: set<object>, units: seq<Unit>, i: nat)
    requires Started(ws, fp, units, i) && |ws| <= i
    ensures (forall t :: 0 <= t < |ws| ==> ws[t].isValid) <==> AllClear(units)
  {
    EveryoneClearMeansAllClear(units, |ws|);
    if forall t :: 0 <= t < |ws| ==> ws[t].isValid {
      forall t | 0 <= t < |ws|
        ensures AllClear(Dealt(units, |ws|, t, |units|))
      {
        assert ws[t].isValid;
      }
    }
  }

  lemma DeckIsReady(ws: seq<NumberArray>, fp: set<object>, units: seq<Unit>)
    requires |units| == 9 && Deck(ws, fp, units, 9)
    ensures Started(ws, fp, units, 0)
  {
  }

  /** Run all workers, then look at their flags in turn and stop at the first that is down. */
  method TestNumberArrays(rows: seq<NumberArray>, columns: seq<NumberArray>, blocks: seq<NumberArray>,
                          ghost rf: set<object>, ghost cf: set<object>, ghost bf: set<object>,
                          ghost ru: seq<Unit>, ghost cu: seq<Unit>, ghost bu: seq<Unit>)
    returns (isValid: bool)
    requires |ru| == |cu| == |bu| == 9
    requires Deck(rows, rf, ru, 9) && Deck(columns, cf, cu, 9) && Deck(blocks, bf, bu, 9) && rf !! cf !! bf
    modifies rf, cf, bf
    ensures isValid <==> AllClear(ru) && AllClear(cu) && AllClear(bu)
  {
    hide Started, Deck, AllClear;
    var maxThreads := Max(|rows|, |columns|);
    maxThreads := Max(maxThreads, |blocks|);
    DeckIsReady(rows, rf, ru);
    DeckIsReady(columns, cf, cu);
    DeckIsReady(blocks, bf, bu);
    for i := 0 to maxThreads
      invariant Started(rows, rf, ru, i) && Started(columns, cf, cu, i) && Started(blocks, bf, bu, i)
    {
      RunWorker(rows, rf, i, ru);
      RunWorker(columns, cf, i, cu);
      RunWorker(blocks, bf, i, bu);
    }
    TeamIsClear(rows, rf, ru, maxThreads);
    TeamIsClear(columns, cf, cu, maxThreads);
    TeamIsClear(blocks, bf, bu, maxThreads);
    isValid := CollectVerdict(rows, columns, blocks, maxThreads);
  }

  method CollectVerdict(rows: seq<NumberArray>, columns: seq<NumberArray>, blocks: seq<NumberArray>, maxThreads: nat)
    returns (isValid: bool)
    requires |rows| <= maxThreads && |columns| <= maxThreads && |blocks| <= maxThreads
    ensures isValid <==>
            && (forall t :: 0 <= t < |rows| ==> rows[t].isValid)
            && (forall t :: 0 <= t < |columns| ==> columns[t].isValid)
            && (forall t :: 0 <= t < |blocks| ==> blocks[t].isValid)
  {
    for i := 0 to maxThreads
      invariant forall t :: 0 <= t < i && t < |rows| ==> rows[t].isValid
      invariant forall t :: 0 <= t < i && t < |columns| ==> columns[t].isValid
      invariant forall t :: 0 <= t < i && t < |blocks| ==> blocks[t].isValid
    {
      if i < |rows| {
        if !rows[i].isValid {
          return false;
        }
      }
      if i < |columns| {
        if !columns[i].isValid {
          return false;
        }
      }
      if i < |blocks| {
        if !blocks[i].isValid {
          return false;
        }
      }
    }
    return true;
  }

  ghost predicate Apart(a: array<array<int>>, fp: set<object>)
    reads a
  {
    a !in fp && forall k :: 0 <= k < a.Length ==> a[k] !in fp
  }

  method GiveRow(a: array<array<int>>, ws: seq<NumberArray>, ghost fp: set<object>, i: nat)
    requires i < 9 && WellFormed(a) && Apart(a, fp) && Deck(ws, fp, RowUnits(Contents(a)), i)
    modifies fp
    ensures WellFormed(a) && Contents(a) == old(Contents(a)) && Deck(ws, fp, RowUnits(Contents(a)), i + 1)
  {
    UnitsAreUnits(Contents(a));
    var u := CopyOfRow(a, i);
    Give(ws, fp, u, i, RowUnits(Contents(a)));
  }

  method GiveColumn(a: array<array<int>>, ws: seq<NumberArray>, ghost fp: set<object>, i: nat)
    requires i < 9 && WellFormed(a) && Apart(a, fp) && Deck(ws, fp, ColumnUnits(Contents(a)), i)
    modifies fp
    ensures WellFormed(a) && Contents(a) == old(Contents(a)) && Deck(ws, fp, ColumnUnits(Contents(a)), i + 1)
  {
    UnitsAreUnits(Contents(a));
    var u := CopyOfColumn(a, i);
    Give(ws, fp, u, i, ColumnUnits(Contents(a)));
  }

  method GiveBlock(a: array<array<int>>, ws: seq<NumberArray>, ghost fp: set<object>, i: nat)
    requires i < 9 && WellFormed(a) && Apart(a, fp) && Deck(ws, fp, BlockUnits(Contents(a)), i)
    modifies fp
    ensures WellFormed(a) && Contents(a) == old(Contents(a)) && Deck(ws, fp, BlockUnits(Contents(a)), i + 1)
  {
    UnitsAreUnits(Contents(a));
    var u := CopyOfBlock(a, i);
    Give(ws, fp, u, i, BlockUnits(Contents(a)));
  }

  /** Copy all rows, columns and blocks and deal them round. */
  method DealUnits(a: array<array<int>>, rows: seq<NumberArray>, columns: seq<NumberArray>, blocks: seq<NumberArray>,
                   ghost rf: set<object>, ghost cf: set<object>, ghost bf: set<object>,
                   ghost ru: seq<Unit>, ghost cu: seq<Unit>, ghost bu: seq<Unit>)
    requires WellFormed(a) && Apart(a, rf) && Apart(a, cf) && Apart(a, bf) && rf !! cf !! bf
    requires ru == RowUnits(Contents(a)) && cu == ColumnUnits(Contents(a)) && bu == BlockUnits(Contents(a))
    requires Deck(rows, rf, ru, 0) && Deck(columns, cf, cu, 0) && Deck(blocks, bf, bu, 0)
    modifies rf, cf, bf
    ensures Deck(rows, rf, ru, 9) && Deck(columns, cf, cu, 9) && Deck(blocks, bf, bu, 9)
  {
    hide Deck, Contents, RowUnits, ColumnUnits, BlockUnits;
    ghost var g := Contents(a);
    for i := 0 to 9
      invariant WellFormed(a) && Contents(a) == g
      invariant Deck(rows, rf, ru, i) && Deck(columns, cf, cu, i) && Deck(blocks, bf, bu, i)
    {
      GiveRow(a, rows, rf, i);
      GiveColumn(a, columns, cf, i);
      GiveBlock(a, blocks, bf, i);
    }
  }

  /** Set up the workers, deal the units of the grid to them, and test. */
  method TestGrid(a: array<array<int>>, rowThreads: nat, columnThreads: nat, blockThreads: nat) returns (isValid: bool)
    requires WellFormed(a) && rowThreads > 0 && columnThreads > 0 && blockThreads > 0
    ensures isValid <==> Valid(Contents(a))
  {
    hide Deck, RowUnits, ColumnUnits, BlockUnits, Valid, AllClear, Contents;
    ghost var g := Contents(a);
    ghost var ru, cu, bu := RowUnits(g), ColumnUnits(g), BlockUnits(g);
    ValidMeansAllClear(g);
    var rows, columns, blocks, rf, cf, bf := InitializeArrays(rowThreads, columnThreads, blockThreads, ru, cu, bu);
    DealUnits(a, rows, columns, blocks, rf, cf, bf, ru, cu, bu);
    isValid := TestNumberArrays(rows, columns, blocks, rf, cf, bf, ru, cu, bu);
  }

  /** The whole test: -1 for a string of the wrong length, otherwise 1 or 0. */
  method TestSudokuString(s: string, rowThreads: nat, columnThreads: nat, blockThreads: nat) returns (result: int)
    requires rowThreads > 0 && columnThreads > 0 && blockThreads > 0
    requires IsDigits(s)
    ensures if |s| != 81 then result == -1 else result == if Valid(Decode(s)) then 1 else 0
  {
    if |s| != 81 {
      return -1;
    }
    var a := DecodeSudokuString(s);
    var isValid := TestGrid(a, rowThreads, columnThreads, blockThreads);
    result := if isValid then 1 else 0;
  }
}
