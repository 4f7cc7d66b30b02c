/** Contiguous first-fit search. A cell is 0 when it is free, otherwise it holds its owner's pid. */
module FirstFit {

  ghost predicate FreeWindow(cells: seq<int>, start: int, length: int) {
    0 <= start && start + length <= |cells| && forall i :: start <= i < start + length ==> cells[i] == 0
  }

  /** The least free window; and the search has not met the requesting process before its end. */
  ghost predicate IsFirstFit(cells: seq<int>, length: int, pid: int, start: int) {
    && length >= 1 && FreeWindow(cells, start, length)
    && (forall s :: 0 <= s < start ==> !FreeWindow(cells, s, length))
    && (forall i :: 0 <= i < start + length ==> cells[i] == 0 || cells[i] != pid)
  }

  ghost function Search(cells: seq<int>, length: int, pid: int): (start: int)
    ensures start == -1 || IsFirstFit(cells, length, pid, start)
    ensures start == -1 ==> forall s :: !IsFirstFit(cells, length, pid, s)
  {
    if s :| IsFirstFit(cells, length, pid, s) then s else -1
  }

  /** For a real request by a process that owns nothing yet, the search finds the least start of a
      free window, and fails exactly when there is none. */
  lemma SearchIsExact(cells: seq<int>, length: int, pid: int)
    requires length >= 1 && pid !in cells
    ensures Search(cells, length, pid) == -1 <==> forall s :: !FreeWindow(cells, s, length)
    ensures forall s :: FreeWindow(cells, s, length) ==> 0 <= Search(cells, length, pid) <= s
    ensures Search(cells, length, pid) != -1 ==> FreeWindow(cells, Search(cells, length, pid), length)
  {
    forall s | FreeWindow(cells, s, length)
      ensures 0 <= Search(cells, length, pid) <= s
    {
      LeastWindow(cells, length, pid, s);
    }
  }

  lemma {:induction false} LeastWindow(cells: seq<int>, length: int, pid: int, s: int)
    requires length >= 1 && pid !in cells && FreeWindow(cells, s, length)
    ensures 0 <= Search(cells, length, pid) <= s
    decreases s
  {
    if s' :| 0 <= s' < s && FreeWindow(cells, s', length) {
      LeastWindow(cells, length, pid, s');
    } else {
      assert IsFirstFit(cells, length, pid, s);
      var r := Search(cells, length, pid);
      assert IsFirstFit(cells, length, pid, r);
    }
  }

  /** When the process does own cells already, the search sees nothing from the first of them on. */
  lemma OwnCellEndsSearch(cells: seq<int>, length: int, pid: int, i: nat)
    requires length >= 1 && i < |cells| && cells[i] == pid != 0 && pid !in cells[..i]
    ensures Search(cells, length, pid) == Search(cells[..i], length, pid)
  {
    var front := cells[..i];
    forall s
      ensures IsFirstFit(cells, length, pid, s) <==> IsFirstFit(front, length, pid, s)
    {
      FrontWindows(cells, length, i);
    }
    var r, r' := Search(cells, length, pid), Search(front, length, pid);
    if r != -1 {
      assert IsFirstFit(front, length, pid, r);
    }
    if r' != -1 {
      assert IsFirstFit(cells, length, pid, r');
    }
  }

  lemma FrontWindows(cells: seq<int>, length: int, i: nat)
    requires i <= |cells|
    ensures forall s :: FreeWindow(cells[..i], s, length) <==> FreeWindow(cells, s, length) && s + length <= i
  {
    forall s
      ensures FreeWindow(cells[..i], s, length) <==> FreeWindow(cells, s, length) && s + length <= i
    {
      if FreeWindow(cells[..i], s, length) {
        assert forall k :: s <= k < s + length ==> cells[k] == cells[..i][k];
      }
    }
  }

  lemma BlockedWindow(cells: seq<int>, length: int, start: int, blocker: int)
    requires 0 <= start <= blocker < start + length && blocker < |cells| && cells[blocker] != 0
    ensures !FreeWindow(cells, start, length)
  {
  }

  lemma SearchIs(cells: seq<int>, length: int, pid: int, start: int)
    requires IsFirstFit(cells, length, pid, start)
    ensures Search(cells, length, pid) == start
  {
    var r := Search(cells, length, pid);
    assert IsFirstFit(cells, length, pid, r);
  }

  /** The scan over n cells of an array, from `base` on. */
  method CheckResourcesFreeFirstFit(length: int, pid: int, n: nat, hostResources: array<int>, base: nat) returns (start: int)
    requires base + n <= hostResources.Length
    ensures start == Search(hostResources[base..base + n], length, pid)
  {
    ghost var cells := hostResources[base..base + n];
    var cursor, count := -1, 0;
    var i := 0;
    while i < n
      invariant 0 <= i <= n
      invariant 0 <= count <= i && (if count >= 1 then cursor == i - count else cursor == -1)
      invariant forall k :: i - count <= k < i ==> cells[k] == 0
      invariant i - count > 0 ==> cells[i - count - 1] != 0
      invariant length >= 1 ==> count < length
      invariant forall k :: 0 <= k < i ==> cells[k] == 0 || cells[k] != pid
      invariant length >= 1 ==> forall s :: 0 <= s <= i - length ==> !FreeWindow(cells, s, length)
    {
      assert cells[i] == hostResources[base + i];
      if hostResources[base + i] == 0 {
        if cursor == -1 {
          cursor := i;
        }
        count := count + 1;
        if count == length {
          SearchIs(cells, length, pid, cursor);
          break;
        }
        if 1 <= length <= i + 1 {
          BlockedWindow(cells, length, i + 1 - length, i - count);
        }
      } else if hostResources[base + i] == pid {
        OwnerBlocks(cells, length, pid, i);
        return -1;
      } else {
        if 1 <= length <= i + 1 {
          BlockedWindow(cells, length, i + 1 - length, i);
        }
        cursor := -1;
        count := 0;
      }
      i := i + 1;
    }
    if count == length {
      return cursor;
    } else {
      return -1;
    }
  }

  /** Once the search meets a cell of the process itself, with no window before it, there is no first fit. */
  lemma OwnerBlocks(cells: seq<int>, length: int, pid: int, i: int)
    requires 0 <= i < |cells| && cells[i] == pid != 0
    requires length >= 1 ==> forall s :: 0 <= s <= i - length ==> !FreeWindow(cells, s, length)
    ensures Search(cells, length, pid) == -1
  {
  }
}
