/** The translator's own data structures and code, with `t` TLB slots and `p` frames. Ghost fields
    remember the history that the specification speaks about. */
module VirtualMemory {
  import opened Wrappers
  import opened AgeRing
  import opened PagingSpec
  import opened PagingTheorems

  class TLB {
    const size: nat
    const pageNumbers: array<int>
    const frameNumbers: array<int>
    const ageCounter: array<int>
    var tlbCount: nat
    /** Every update ever made. */
    ghost var log: seq<Entry>

    ghost function Repr(): set<object> {
      {this, pageNumbers, frameNumbers, ageCounter}
    }

    ghost predicate Valid()
      reads Repr()
    {
      && pageNumbers != frameNumbers && pageNumbers != ageCounter && frameNumbers != ageCounter
      && pageNumbers.Length == frameNumbers.Length == ageCounter.Length == size > 0
      && AgesFit(ageCounter[..], tlbCount, |log|)
      && forall i :: 0 <= i < tlbCount ==>
           pageNumbers[i] == Slot(log, size, i).page && frameNumbers[i] == Slot(log, size, i).frame
    }

    /** ClearTLB */
    constructor (size: nat)
      requires size > 0
      ensures Valid() && fresh(Repr()) && this.size == size && log == []
    {
      this.size := size;
      pageNumbers := new int[size](_ => -1);
      frameNumbers := new int[size](_ => -1);
      ageCounter := new int[size](_ => 0);
      tlbCount := 0;
      log := [];
    }

    /** The scan over the slots in use finds the page if and only if it is among the last `size` updates. */
    method CheckTLB(pageNumber: nat) returns (frameNumber: int)
      requires Valid()
      ensures frameNumber == -1 <==> Lookup(Window(size, log), pageNumber).None?
      ensures frameNumber != -1 ==>
                exists e :: e in Window(size, log) && e.page == pageNumber && e.frame == frameNumber
    {
      SlotsHoldLiveUpdates(log, size);
      for i := 0 to tlbCount
        invariant forall k :: 0 <= k < i ==> pageNumbers[k] != pageNumber
      {
        if pageNumbers[i] == pageNumber {
          assert Slot(log, size, i) in Window(size, log);
          return frameNumbers[i];
        }
      }
      assert forall k :: 0 <= k < tlbCount ==> Slot(log, size, k).page != pageNumber;
      return -1;
    }

    /** Record a translation, in the free slot or over the oldest one. */
    method UpdateTLB(pageNumber: nat, frameNumber: nat, ghost e: Entry)
      requires Valid() && e.page == pageNumber && e.frame == frameNumber
      modifies Repr()
      ensures Valid() && log == old(log) + [e]
      ensures pageNumbers[old(|log|) % size] == pageNumber && frameNumbers[old(|log|) % size] == frameNumber
      ensures forall i :: 0 <= i < size && i != old(|log|) % size ==>
                pageNumbers[i] == old(pageNumbers[i]) && frameNumbers[i] == old(frameNumbers[i])
    {
      ghost var n, before := |log|, ageCounter[..];
      assert n < size ==> n % size == n;
      if tlbCount == size {
        var oldestIndex := FindOldest(ageCounter, n);
        pageNumbers[oldestIndex] := pageNumber;
        frameNumbers[oldestIndex] := frameNumber;
        ageCounter[oldestIndex] := 0;
      } else {
        pageNumbers[tlbCount] := pageNumber;
        frameNumbers[tlbCount] := frameNumber;
        tlbCount := tlbCount + 1;
      }
      AgeAll(ageCounter, tlbCount);
      log := log + [e];
      StampAndAge(before, ageCounter[..], old(tlbCount), n);
      forall i | 0 <= i < tlbCount
        ensures pageNumbers[i] == Slot(log, size, i).page && frameNumbers[i] == Slot(log, size, i).frame
      {
        SlotAfterUpdate(old(log), e, size, i);
      }
    }
  }

  class PageTable {
    const size: nat
    const pages: array<seq<int>>
    const pageNumbers: array<int>
    const ageCounter: array<int>
    var pageCount: nat
    /** The page of every fault so far. */
    ghost var faults: seq<nat>

    ghost function Repr(): set<object> {
      {this, pages, pageNumbers, ageCounter}
    }

    ghost predicate Valid()
      reads Repr()
    {
      && pageNumbers != ageCounter
      && pages.Length == pageNumbers.Length == ageCounter.Length == size > 0
      && AgesFit(ageCounter[..], pageCount, |faults|)
      && forall i :: 0 <= i < pageCount ==> pageNumbers[i] == Resident(size, faults, i)
    }

    /** Every frame in use has the bytes of its page. */
    ghost predicate Loaded(store: seq<int>)
      requires Valid() && |store| == 65536
      reads Repr()
    {
      forall i :: 0 <= i < pageCount ==> 0 <= pageNumbers[i] < 256 && pages[i] == ReadPage(store, pageNumbers[i])
    }

    /** ClearPageNumbers */
    constructor (size: nat)
      requires size > 0
      ensures Valid() && fresh(Repr()) && this.size == size && faults == [] && pageCount == 0
    {
      this.size := size;
      pages := new seq<int>[size](_ => []);
      pageNumbers := new int[size](_ => -1);
      ageCounter := new int[size](_ => 0);
      pageCount := 0;
      faults := [];
    }

    method FindPageIndex(pageNumber: nat) returns (index: int)
      requires Valid()
      ensures index == match Find(size, faults, pageNumber) case None => -1 case Some(f) => f
    {
      for i := 0 to pageCount
        invariant forall k :: 0 <= k < i ==> Resident(size, faults, k) != pageNumber
      {
        if pageNumbers[i] == pageNumber {
          return i;
        }
      }
      return -1;
    }

    /** Load a page, into the next free frame or over the oldest one: the k-th fault fills frame k mod size. */
    method UpdatePageTable(page: seq<int>, pageNumber: nat) returns (frameNumber: nat)
      requires Valid()
      modifies Repr()
      ensures Valid() && faults == old(faults) + [pageNumber]
      ensures frameNumber == FrameOfFault(size, |old(faults)|)
      ensures frameNumber < pageCount && pageNumbers[frameNumber] == pageNumber && pages[frameNumber] == page
      ensures old(pageCount) == pageCount == size || old(pageCount) == pageCount - 1 == frameNumber
      ensures forall i :: 0 <= i < size && i != frameNumber ==>
                pageNumbers[i] == old(pageNumbers[i]) && pages[i] == old(pages[i])
    {
      ghost var n, before := |faults|, ageCounter[..];
      assert n < size ==> n % size == n;
      if pageCount == size {
        var oldestIndex := FindOldest(ageCounter, n);
        pages[oldestIndex] := page;
        pageNumbers[oldestIndex] := pageNumber;
        ageCounter[oldestIndex] := 0;
        frameNumber := oldestIndex;
      } else {
        pages[pageCount] := page;
        pageNumbers[pageCount] := pageNumber;
        frameNumber := pageCount;
        pageCount := pageCount + 1;
      }
      AgeAll(ageCounter, pageCount);
      faults := faults + [pageNumber];
      StampAndAge(before, ageCounter[..], old(pageCount), n);
      forall i | 0 <= i < pageCount
        ensures pageNumbers[i] == Resident(size, faults, i)
      {
        FaultFillsNextFrame(size, old(faults), pageNumber, i);
      }
    }
  }

  /** The page's 256 bytes of the backing store. */
  function ReadPage(store: seq<int>, page: int): (bytes: seq<int>)
    requires |store| == 65536 && 0 <= page < 256
    ensures |bytes| == 256 && forall k :: 0 <= k < 256 ==> bytes[k] == store[page * 256 + k]
  {
    store[page * 256..page * 256 + 256]
  }

  class Manager {
    const store: seq<int>
    const tlb: TLB
    const pageTable: PageTable
    var pageFaults: nat
    var tlbHits: nat
    var output: seq<Line>

    ghost predicate Valid()
      reads this, tlb.Repr(), pageTable.Repr()
    {
      && |store| == 65536 && tlb.size > 0 && pageTable.size > 0
      && tlb.Valid() && pageTable.Valid() && tlb.Repr() !! pageTable.Repr()
      && this !in tlb.Repr() && this !in pageTable.Repr()
      && pageFaults == |pageTable.faults|
      && pageTable.Loaded(store)
      && Fits(pageTable.size, View())
    }

    ghost function View(): Machine
      reads this, tlb, pageTable
    {
      Machine(tlb.log, pageTable.faults, tlbHits, output)
    }

    constructor (t: nat, p: nat, store: seq<int>)
      requires t > 0 && p > 0 && |store| == 65536
      ensures Valid() && fresh(tlb.Repr()) && fresh(pageTable.Repr())
      ensures tlb.size == t && pageTable.size == p && this.store == store && View() == IDLE
    {
      this.store := store;
      tlb := new TLB(t);
      pageTable := new PageTable(p);
      pageFaults, tlbHits, output := 0, 0, [];
    }

    ghost function Translated(page: nat): Outcome
      requires Valid() && page < 256
      reads this, tlb.Repr(), pageTable.Repr()
    {
      Translate(tlb.size, pageTable.size, View(), page)
    }

    /** What the search has found is what the translation says: a frame in use, or that there will be a fault. */
    ghost predicate Reached(found: int, pageNumber: nat, o: Outcome)
      requires pageTable.size > 0
      reads pageTable
    {
      if found == -1
      then o.frame == FrameOfFault(pageTable.size, |pageTable.faults|) && o.faults == pageTable.faults + [pageNumber]
      else o.frame == found && o.faults == pageTable.faults && found < pageTable.pageCount
    }

    /** Look the page up in the TLB, then in the page table. */
    method Locate(pageNumber: nat) returns (frameNumber: int)
      requires Valid() && pageNumber < 256
      requires forall e :: e in Window(tlb.size, tlb.log) && e.page == pageNumber ==> e.frame == Translated(pageNumber).frame
      modifies this`tlbHits
      ensures Valid() && tlbHits == old(tlbHits) + if old(Translated(pageNumber)).hit then 1 else 0
      ensures Reached(frameNumber, pageNumber, old(Translated(pageNumber)))
    {
      frameNumber := tlb.CheckTLB(pageNumber);
      if frameNumber == -1 {
        frameNumber := pageTable.FindPageIndex(pageNumber);
      } else {
        tlbHits := tlbHits + 1;
      }
    }

    /** Take the page from its frame, or load it from the backing store when it is in none. */
    method Fetch(pageNumber: nat, found: int, ghost o: Outcome) returns (frameNumber: nat, page: seq<int>)
      requires Valid() && pageNumber < 256
      requires Reached(found, pageNumber, o)
      modifies this`pageFaults, pageTable.Repr()
      ensures Valid() && pageTable.faults == o.faults && frameNumber == o.frame
      ensures o.frame < Occupied(|o.faults|, pageTable.size)
      ensures 0 <= Resident(pageTable.size, o.faults, o.frame) < 256
      ensures page == ReadPage(store, Resident(pageTable.size, o.faults, o.frame))
    {
      if found != -1 {
        frameNumber := found;
        page := pageTable.pages[frameNumber];
      } else {
        frameNumber, page := Load(pageNumber);
      }
    }

    /** A page fault. */
    method Load(pageNumber: nat) returns (frameNumber: nat, page: seq<int>)
      requires Valid() && pageNumber < 256
      modifies this`pageFaults, pageTable.Repr()
      ensures Valid() && pageTable.faults == old(pageTable.faults) + [pageNumber]
      ensures frameNumber == FrameOfFault(pageTable.size, |old(pageTable.faults)|) < pageTable.pageCount
      ensures pageTable.pageNumbers[frameNumber] == pageNumber && page == ReadPage(store, pageNumber)
    {
      page := ReadPage(store, pageNumber);
      frameNumber := pageTable.UpdatePageTable(page, pageNumber);
      pageFaults := pageFaults + 1;
    }

    /** The body of the translation loop. */
    method TranslateOne(address: int)
      requires Valid() && Inv(tlb.size, pageTable.size, View())
      modifies this, tlb.Repr(), pageTable.Repr()
      ensures Valid() && View() == Access(tlb.size, pageTable.size, store, old(View()), address)
    {
      hide Translate, TLB.Valid, PageTable.Valid, PageTable.Loaded, Resident, Inv, Fits, Reached;
      var pageNumber := PageNumber(address);
      var pageOffset := PageOffset(address);
      ghost var o := Translated(pageNumber);
      SlotsAgree(tlb.size, pageTable.size, View(), pageNumber);

      var found := Locate(pageNumber);
      var frameNumber, page := Fetch(pageNumber, found, o);
      label Fetched:
      output := output + [Line(address, frameNumber * 256 + pageOffset, page[pageOffset])];
      assert tlb.Valid() by {
        assert unchanged@Fetched(tlb.Repr());
      }
      tlb.UpdateTLB(pageNumber, frameNumber, Entry(pageNumber, o.frame, o.hit, |o.faults|));
      assert pageTable.Valid() && pageTable.Loaded(store) by {
        assert unchanged@Fetched(pageTable.Repr());
      }
      assert View() == Access(tlb.size, pageTable.size, store, old(View()), address);
    }

    /** The single-threaded translation loop. */
    method TranslateAll(addresses: seq<int>)
      requires Valid() && View() == IDLE
      modifies this, tlb.Repr(), pageTable.Repr()
      ensures Valid() && View() == Exec(tlb.size, pageTable.size, store, addresses)
      ensures pageFaults == |Exec(tlb.size, pageTable.size, store, addresses).faults|
    {
      var cursor := 0;
      while cursor < |addresses|
        invariant 0 <= cursor <= |addresses|
        invariant Valid() && View() == Exec(tlb.size, pageTable.size, store, addresses[..cursor])
      {
        ExecInv(tlb.size, pageTable.size, store, addresses[..cursor]);
        ExecNext(tlb.size, pageTable.size, store, addresses, cursor);
        TranslateOne(addresses[cursor]);
        cursor := cursor + 1;
      }
      assert addresses[..cursor] == addresses;
    }
  }

  lemma ExecNext(t: nat, p: nat, store: seq<int>, addresses: seq<int>, k: nat)
    requires t > 0 && p > 0 && |store| == 65536 && k < |addresses|
    ensures Exec(t, p, store, addresses[..k + 1]) == Access(t, p, store, Exec(t, p, store, addresses[..k]), addresses[k])
  {
    hide Exec, Access;
    ExecAppend(t, p, store, addresses[..k], addresses[k]);
    assert addresses[..k + 1] == addresses[..k] + [addresses[k]];
  }

  /** Whichever slot the scan stops at, it has the frame of the youngest entry. */
  lemma SlotsAgree(t: nat, p: nat, m: Machine, page: nat)
    requires t > 0 && p > 0 && Inv(t, p, m) && page < 256
    ensures forall e :: e in Window(t, m.tlb) && e.page == page ==> e.frame == Translate(t, p, m, page).frame
  {
    var e := Lookup(Window(t, m.tlb), page);
    if e.Some? {
      assert e.value in Window(t, m.tlb);
    }
  }
}
