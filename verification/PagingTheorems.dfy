/** Properties of every run of the translator. */
module PagingTheorems {
  import opened Wrappers
  import opened AgeRing
  import opened PagingSpec
  import opened Counting

  // ----- Replacement is round robin -----

  /** The frame that the q-th page fault (from 0) fills. */
  function FrameOfFault(p: nat, q: nat): (frame: nat)
    requires p > 0
    ensures frame < p
  {
    q % p
  }

  /** A fault replaces the contents of exactly one frame, the next in turn. */
  lemma FaultFillsNextFrame(p: nat, faults: seq<nat>, page: nat, frame: nat)
    requires p > 0 && frame < Occupied(|faults| + 1, p)
    ensures frame == FrameOfFault(p, |faults|) ==> Resident(p, faults + [page], frame) == page
    ensures frame != FrameOfFault(p, |faults|) ==>
              frame < Occupied(|faults|, p) && Resident(p, faults + [page], frame) == Resident(p, faults, frame)
  {
    SlotAfterUpdate(faults, page, p, frame);
  }

  ghost predicate ResidentDistinct(p: nat, faults: seq<nat>) {
    forall f, g :: 0 <= f < g < Occupied(|faults|, p) ==> Resident(p, faults, f) != Resident(p, faults, g)
  }

  // ----- Staleness -----

  /** The latest access to the page that missed the TLB. */
  function LastMiss(tlb: seq<Entry>, page: nat): (k: Option<nat>)
    ensures k.Some? ==> k.value < |tlb| && tlb[k.value].page == page && !tlb[k.value].hit
  {
    if tlb == [] then None
    else if tlb[|tlb| - 1].page == page && !tlb[|tlb| - 1].hit then Some(|tlb| - 1)
    else LastMiss(tlb[..|tlb| - 1], page)
  }

  /** Has one of the faults from, ..., to - 1 refilled the frame? */
  ghost predicate Refilled(p: nat, from: nat, to: nat, frame: nat)
    requires p > 0
  {
    exists q :: from <= q < to && FrameOfFault(p, q) == frame
  }

  ghost predicate MissInv(p: nat, m: Machine, page: nat)
    requires p > 0
  {
    var j := LastMiss(m.tlb, page);
    j.Some? ==>
      var e := m.tlb[j.value];
      && e.filled <= |m.faults| && e.frame < Occupied(|m.faults|, p)
      && (Holds(p, m.faults, e.frame, page) <==> !Refilled(p, e.filled, |m.faults|, e.frame))
  }

  /** Every live TLB entry repeats the frame of the page's last miss. */
  ghost predicate WindowInv(t: nat, m: Machine) {
    forall e :: e in Window(t, m.tlb) ==>
      var j := LastMiss(m.tlb, e.page);
      j.Some? && m.tlb[j.value].frame == e.frame
  }

  ghost predicate Inv(t: nat, p: nat, m: Machine)
    requires p > 0
  {
    && Fits(p, m)
    && ResidentDistinct(p, m.faults)
    && (forall page: nat :: MissInv(p, m, page))
    && WindowInv(t, m)
  }

  lemma WindowAfter(t: nat, tlb: seq<Entry>, e: Entry)
    requires t > 0
    ensures Window(t, tlb + [e]) ==
            (if |tlb| < t then tlb else tlb[|tlb| - t + 1..]) + [e]
    ensures forall x :: x in Window(t, tlb + [e]) ==> x in Window(t, tlb) || x == e
  {
    var w := Window(t, tlb + [e]);
    forall x | x in w
      ensures x in Window(t, tlb) || x == e
    {
      var k :| 0 <= k < |w| && w[k] == x;
      if k < |w| - 1 {
        assert x == Window(t, tlb)[if |tlb| < t then k else k + 1];
      }
    }
  }

  lemma LastMissAfter(tlb: seq<Entry>, e: Entry, page: nat)
    ensures LastMiss(tlb + [e], page) == if e.page == page && !e.hit then Some(|tlb|) else LastMiss(tlb, page)
  {
    assert (tlb + [e])[..|tlb|] == tlb;
  }

  /** A frame found or filled on a TLB miss holds the page asked for. */
  lemma MissUsesOwnPage(t: nat, p: nat, m: Machine, page: nat)
    requires t > 0 && p > 0 && Fits(p, m) && page < 256
    ensures var o := Translate(t, p, m, page); !o.hit ==> Holds(p, o.faults, o.frame, page)
  {
    var o := Translate(t, p, m, page);
    if o.faults != m.faults {
      FaultFillsNextFrame(p, m.faults, page, o.frame);
    }
  }

  lemma FaultKeepsDistinct(p: nat, faults: seq<nat>, page: nat)
    requires p > 0 && ResidentDistinct(p, faults) && Find(p, faults, page).None?
    ensures ResidentDistinct(p, faults + [page])
  {
    var longer := faults + [page];
    forall f, g | 0 <= f < g < Occupied(|longer|, p)
      ensures Resident(p, longer, f) != Resident(p, longer, g)
    {
      FaultFillsNextFrame(p, faults, page, f);
      FaultFillsNextFrame(p, faults, page, g);
    }
  }

  lemma FaultKeepsMissInv(p: nat, m: Machine, page: nat, x: nat)
    requires p > 0 && Fits(p, m) && MissInv(p, m, page) && x != page
    ensures MissInv(p, m.(faults := m.faults + [x]), page)
  {
    var j := LastMiss(m.tlb, page);
    if j.Some? {
      var e := m.tlb[j.value];
      FaultFillsNextFrame(p, m.faults, x, e.frame);
      if FrameOfFault(p, |m.faults|) == e.frame {
        assert Refilled(p, e.filled, |m.faults| + 1, e.frame);
      } else if Refilled(p, e.filled, |m.faults| + 1, e.frame) {
        var q :| e.filled <= q < |m.faults| + 1 && FrameOfFault(p, q) == e.frame;
        assert q < |m.faults|;
      }
    }
  }

  lemma AccessKeepsMissInv(t: nat, p: nat, store: seq<int>, m: Machine, address: int, page: nat)
    requires t > 0 && p > 0 && |store| == 65536 && Inv(t, p, m)
    ensures MissInv(p, Access(t, p, store, m, address), page)
  {
    var x := PageNumber(address);
    var o := Translate(t, p, m, x);
    var r := Access(t, p, store, m, address);
    LastMissAfter(m.tlb, r.tlb[|m.tlb|], page);
    MissUsesOwnPage(t, p, m, x);
    assert MissInv(p, m, page);
    if x == page && !o.hit {
      assert !Refilled(p, |o.faults|, |o.faults|, o.frame);
    } else if o.faults != m.faults {
      FaultKeepsMissInv(p, m, page, x);
    }
  }

  lemma EntryKeepsWindowInv(t: nat, tlb: seq<Entry>, e: Entry)
    requires t > 0
    requires forall x :: x in Window(t, tlb) ==>
               var j := LastMiss(tlb, x.page);
               j.Some? && tlb[j.value].frame == x.frame
    requires e.hit ==> exists x :: x in Window(t, tlb) && x.page == e.page && x.frame == e.frame
    requires !e.hit ==> forall x :: x in Window(t, tlb) ==> x.page != e.page
    ensures forall x :: x in Window(t, tlb + [e]) ==>
              var j := LastMiss(tlb + [e], x.page);
              j.Some? && (tlb + [e])[j.value].frame == x.frame
  {
    WindowAfter(t, tlb, e);
    forall x | x in Window(t, tlb + [e])
      ensures var j := LastMiss(tlb + [e], x.page); j.Some? && (tlb + [e])[j.value].frame == x.frame
    {
      LastMissAfter(tlb, e, x.page);
    }
  }

  lemma AccessKeepsWindowInv(t: nat, p: nat, store: seq<int>, m: Machine, address: int)
    requires t > 0 && p > 0 && |store| == 65536 && Inv(t, p, m)
    ensures WindowInv(t, Access(t, p, store, m, address))
  {
    var page := PageNumber(address);
    var o := Translate(t, p, m, page);
    var w := Window(t, m.tlb);
    assert !o.hit ==> forall x :: x in w ==> x.page != page;
    EntryKeepsWindowInv(t, m.tlb, Entry(page, o.frame, o.hit, |o.faults|));
  }

  lemma AccessKeepsInv(t: nat, p: nat, store: seq<int>, m: Machine, address: int)
    requires t > 0 && p > 0 && |store| == 65536 && Inv(t, p, m)
    ensures Inv(t, p, Access(t, p, store, m, address))
  {
    forall page: nat
      ensures MissInv(p, Access(t, p, store, m, address), page)
    {
      AccessKeepsMissInv(t, p, store, m, address, page);
    }
    AccessKeepsWindowInv(t, p, store, m, address);
    if Find(p, m.faults, PageNumber(address)).None? {
      FaultKeepsDistinct(p, m.faults, PageNumber(address));
    }
  }

  /** In every run resident pages are pairwise distinct, and all live TLB entries of one page agree. */
  lemma {:induction false} ExecInv(t: nat, p: nat, store: seq<int>, addresses: seq<int>)
    requires t > 0 && p > 0 && |store| == 65536
    ensures Inv(t, p, Exec(t, p, store, addresses))
    ensures var w := Window(t, Exec(t, p, store, addresses).tlb);
            forall i, j :: 0 <= i < j < |w| && w[i].page == w[j].page ==> w[i].frame == w[j].frame
  {
    if addresses != [] {
      ExecInv(t, p, store, addresses[..|addresses| - 1]);
      AccessKeepsInv(t, p, store, Exec(t, p, store, addresses[..|addresses| - 1]), addresses[|addresses| - 1]);
    }
    var w := Window(t, Exec(t, p, store, addresses).tlb);
    forall i, j | 0 <= i < j < |w| && w[i].page == w[j].page
      ensures w[i].frame == w[j].frame
    {
      assert w[i] in w && w[j] in w;
    }
  }

  /** When a translation can be trusted. A TLB miss always ends in a frame that holds the page. A
      TLB hit does if and only if no page fault since the page's last TLB miss has refilled the
      frame; evicting a page does not remove it from the TLB. */
  lemma StaleExactly(t: nat, p: nat, store: seq<int>, addresses: seq<int>, page: nat)
    requires t > 0 && p > 0 && |store| == 65536 && page < 256
    ensures var m := Exec(t, p, store, addresses);
            var o := Translate(t, p, m, page);
            if !o.hit then
              Holds(p, o.faults, o.frame, page)
            else
              var j := LastMiss(m.tlb, page);
              j.Some? && (Holds(p, o.faults, o.frame, page) <==> !Refilled(p, m.tlb[j.value].filled, |m.faults|, o.frame))
  {
    var m := Exec(t, p, store, addresses);
    ExecInv(t, p, store, addresses);
    MissUsesOwnPage(t, p, m, page);
    assert MissInv(p, m, page);
  }

  // ----- TLB hits depend on the reference string alone -----

  function Pages(addresses: seq<int>): (pages: seq<nat>)
    ensures |pages| == |addresses|
    ensures forall k :: 0 <= k < |pages| ==> pages[k] == PageNumber(addresses[k])
  {
    seq(|addresses|, k requires 0 <= k < |addresses| => PageNumber(addresses[k]))
  }

  /** Is reference k among the t references before it? */
  ghost predicate SeenRecently(t: nat, pages: seq<nat>, k: nat)
    requires k < |pages|
  {
    pages[k] in pages[k - Occupied(k, t)..k]
  }

  ghost function RecentCount(t: nat, pages: seq<nat>): nat {
    if pages == [] then 0
    else RecentCount(t, pages[..|pages| - 1]) + if SeenRecently(t, pages, |pages| - 1) then 1 else 0
  }

  ghost predicate HitsInv(t: nat, addresses: seq<int>, m: Machine) {
    && |m.tlb| == |addresses| && m.hits == RecentCount(t, Pages(addresses))
    && forall k :: 0 <= k < |addresses| ==>
         m.tlb[k].page == PageNumber(addresses[k]) && (m.tlb[k].hit <==> SeenRecently(t, Pages(addresses), k))
  }

  lemma HitMeansSeenRecently(t: nat, p: nat, m: Machine, pages: seq<nat>, page: nat)
    requires t > 0 && p > 0 && Fits(p, m) && page < 256 && |pages| == |m.tlb|
    requires forall k :: 0 <= k < |pages| ==> m.tlb[k].page == pages[k]
    ensures Translate(t, p, m, page).hit <==> SeenRecently(t, pages + [page], |pages|)
  {
    var n := |pages|;
    var w := Window(t, m.tlb);
    var recent := (pages + [page])[n - Occupied(n, t)..n];
    assert forall k :: 0 <= k < |w| ==> w[k].page == recent[k];
    if page in recent {
      var k :| 0 <= k < |recent| && recent[k] == page;
      assert w[k].page == page;
    }
  }

  lemma SeenStays(t: nat, pages: seq<nat>, page: nat, k: nat)
    requires k < |pages|
    ensures SeenRecently(t, pages + [page], k) <==> SeenRecently(t, pages, k)
  {
    assert (pages + [page])[k - Occupied(k, t)..k] == pages[k - Occupied(k, t)..k];
  }

  lemma RecentCountNext(t: nat, pages: seq<nat>, page: nat)
    ensures RecentCount(t, pages + [page]) ==
            RecentCount(t, pages) + if SeenRecently(t, pages + [page], |pages|) then 1 else 0
  {
    assert (pages + [page])[..|pages|] == pages;
  }

  lemma PagesNext(addresses: seq<int>, address: int)
    ensures Pages(addresses + [address]) == Pages(addresses) + [PageNumber(address)]
  {
  }

  lemma AccessReports(t: nat, p: nat, store: seq<int>, m: Machine, address: int)
    requires t > 0 && p > 0 && |store| == 65536 && Fits(p, m)
    ensures var r, o := Access(t, p, store, m, address), Translate(t, p, m, PageNumber(address));
            && r.tlb == m.tlb + [Entry(PageNumber(address), o.frame, o.hit, |o.faults|)]
            && r.hits == m.hits + if o.hit then 1 else 0
  {
  }

  lemma AccessKeepsHitsInv(t: nat, p: nat, store: seq<int>, addresses: seq<int>, m: Machine, address: int)
    requires t > 0 && p > 0 && |store| == 65536 && Fits(p, m) && HitsInv(t, addresses, m)
    ensures HitsInv(t, addresses + [address], Access(t, p, store, m, address))
  {
    hide Access, Translate, SeenRecently, Pages, RecentCount, Fits;
    var before, page := Pages(addresses), PageNumber(address);
    AccessReports(t, p, store, m, address);
    PagesNext(addresses, address);
    HitMeansSeenRecently(t, p, m, before, page);
    RecentCountNext(t, before, page);
    forall k | 0 <= k < |before|
      ensures SeenRecently(t, before + [page], k) <==> SeenRecently(t, before, k)
    {
      SeenStays(t, before, page, k);
    }
  }

  /** The TLB is a sliding window over the references. Neither the page table's size nor its
      evictions have any influence on the number of TLB hits. */
  lemma {:induction false} HitsAreRecentReferences(t: nat, p: nat, store: seq<int>, addresses: seq<int>)
    requires t > 0 && p > 0 && |store| == 65536
    ensures HitsInv(t, addresses, Exec(t, p, store, addresses))
  {
    if addresses != [] {
      var n := |addresses| - 1;
      HitsAreRecentReferences(t, p, store, addresses[..n]);
      AccessKeepsHitsInv(t, p, store, addresses[..n], Exec(t, p, store, addresses[..n]), addresses[n]);
      assert addresses[..n] + [addresses[n]] == addresses;
    }
  }

  // ----- Runs without eviction -----

  function Elements(s: seq<nat>): set<nat> {
    set x | x in s
  }

  function PageSet(addresses: seq<int>): set<nat> {
    Elements(Pages(addresses))
  }

  ghost predicate Unique(s: seq<nat>) {
    forall i, j :: 0 <= i < j < |s| ==> s[i] != s[j]
  }

  lemma {:induction false} UniqueSize(s: seq<nat>)
    requires Unique(s)
    ensures |Elements(s)| == |s|
  {
    if s != [] {
      var n := |s| - 1;
      UniqueSize(s[..n]);
      assert s == s[..n] + [s[n]];
      assert Elements(s) == Elements(s[..n]) + {s[n]};
    }
  }

  lemma ResidentWhileFilling(p: nat, faults: seq<nat>, frame: nat)
    requires 0 < |faults| <= p && frame < |faults|
    ensures Resident(p, faults, frame) == faults[frame]
  {
    assert |faults| < p ==> |faults| % p == |faults|;
    assert |faults| == p ==> |faults| % p == 0;
  }

  /** What should be printed for an address whose page lies in the frame. */
  function RightLine(store: seq<int>, address: int, frame: nat): Line
    requires |store| == 65536
  {
    Line(address, frame * 256 + PageOffset(address), Byte(store, PageNumber(address), PageOffset(address)))
  }

  /** Every page has had one fault and lies where that fault put it; every line printed is right. */
  ghost predicate Clean(p: nat, store: seq<int>, addresses: seq<int>, m: Machine)
    requires |store| == 65536
  {
    && Unique(m.faults) && Elements(m.faults) == PageSet(addresses)
    && |m.output| == |m.tlb| == |addresses|
    && forall k :: 0 <= k < |addresses| ==>
         && m.tlb[k].frame < |m.faults| && m.faults[m.tlb[k].frame] == m.tlb[k].page == PageNumber(addresses[k])
         && m.output[k] == RightLine(store, addresses[k], m.tlb[k].frame)
  }

  lemma TranslateWhileFilling(t: nat, p: nat, m: Machine, page: nat)
    requires t > 0 && p > 0 && Fits(p, m) && page < 256 && Unique(m.faults)
    requires page !in m.faults ==> |m.faults| < p
    requires |m.faults| <= p
    requires forall k :: 0 <= k < |m.tlb| ==> m.tlb[k].frame < |m.faults| && m.faults[m.tlb[k].frame] == m.tlb[k].page
    ensures var o := Translate(t, p, m, page);
            && o.faults == (if page in m.faults then m.faults else m.faults + [page])
            && o.frame < |o.faults| <= p && o.faults[o.frame] == page
            && Resident(p, o.faults, o.frame) == page
  {
    hide Resident, FindFrom;
    var o := Translate(t, p, m, page);
    forall f | 0 <= f < |m.faults|
      ensures Resident(p, m.faults, f) == m.faults[f]
    {
      ResidentWhileFilling(p, m.faults, f);
    }
    var e, found := Lookup(Window(t, m.tlb), page), Find(p, m.faults, page);
    if e.Some? {
      assert e.value in m.tlb;
    } else if found.None? {
      NotFoundWhileFilling(p, m.faults, page);
    }
    ResidentWhileFilling(p, o.faults, o.frame);
  }

  lemma NotFoundWhileFilling(p: nat, faults: seq<nat>, page: nat)
    requires |faults| <= p && Find(p, faults, page).None?
    requires forall f :: 0 <= f < |faults| ==> Resident(p, faults, f) == faults[f]
    ensures page !in faults && (|faults| < p ==> |faults| % p == |faults|)
  {
    hide Resident, FindFrom;
    forall f | 0 <= f < |faults|
      ensures faults[f] != page
    {
      assert Resident(p, faults, f) == faults[f];
    }
  }

  lemma PageSetAppend(addresses: seq<int>, address: int)
    ensures PageSet(addresses + [address]) == PageSet(addresses) + {PageNumber(address)}
  {
    assert Pages(addresses + [address]) == Pages(addresses) + [PageNumber(address)];
  }

  /** A page that is not resident finds a free frame, as long as the pages used do not outnumber the frames. */
  lemma RoomForNewPage(p: nat, faults: seq<nat>, pages: set<nat>, page: nat)
    requires Unique(faults) && Elements(faults) == pages && |pages + {page}| <= p
    ensures |faults| <= p && (page !in faults ==> |faults| < p)
  {
    UniqueSize(faults);
    SubsetSize(pages, pages + {page});
    if page !in faults {
      assert page !in pages;
    }
  }

  lemma AccessKeepsClean(t: nat, p: nat, store: seq<int>, addresses: seq<int>, m: Machine, address: int)
    requires t > 0 && p > 0 && |store| == 65536 && Fits(p, m) && Clean(p, store, addresses, m)
    requires |PageSet(addresses + [address])| <= p
    ensures Clean(p, store, addresses + [address], Access(t, p, store, m, address))
  {
    var page := PageNumber(address);
    var o := Translate(t, p, m, page);
    PageSetAppend(addresses, address);
    RoomForNewPage(p, m.faults, PageSet(addresses), page);
    CleanFrames(p, store, addresses, m);
    TranslateWhileFilling(t, p, m, page);
    FreshAccess(t, p, store, m, address);
    AppendKeepsClean(p, store, addresses, m, address, o, Access(t, p, store, m, address));
  }

  lemma FreshAccess(t: nat, p: nat, store: seq<int>, m: Machine, address: int)
    requires t > 0 && p > 0 && |store| == 65536 && Fits(p, m)
    requires var o := Translate(t, p, m, PageNumber(address)); Resident(p, o.faults, o.frame) == PageNumber(address)
    ensures var page := PageNumber(address);
            var o, r := Translate(t, p, m, page), Access(t, p, store, m, address);
            && r.faults == o.faults && r.tlb == m.tlb + [Entry(page, o.frame, o.hit, |o.faults|)]
            && r.output == m.output + [RightLine(store, address, o.frame)]
  {
  }

  lemma CleanFrames(p: nat, store: seq<int>, addresses: seq<int>, m: Machine)
    requires |store| == 65536 && Clean(p, store, addresses, m)
    ensures forall k :: 0 <= k < |m.tlb| ==> m.tlb[k].frame < |m.faults| && m.faults[m.tlb[k].frame] == m.tlb[k].page
  {
  }

  lemma AppendKeepsClean(p: nat, store: seq<int>, addresses: seq<int>, m: Machine, address: int, o: Outcome, r: Machine)
    requires |store| == 65536 && Clean(p, store, addresses, m)
    requires PageSet(addresses + [address]) == PageSet(addresses) + {PageNumber(address)}
    requires o.faults == (if PageNumber(address) in m.faults then m.faults else m.faults + [PageNumber(address)])
    requires o.frame < |o.faults| && o.faults[o.frame] == PageNumber(address)
    requires r.faults == o.faults && r.tlb == m.tlb + [Entry(PageNumber(address), o.frame, o.hit, |o.faults|)]
    requires r.output == m.output + [RightLine(store, address, o.frame)]
    ensures Clean(p, store, addresses + [address], r)
  {
    forall k | 0 <= k < |addresses|
      ensures o.faults[m.tlb[k].frame] == m.tlb[k].page
    {
      assert m.faults[m.tlb[k].frame] == m.tlb[k].page == PageNumber(addresses[k]);
    }
    assert Elements(o.faults) == Elements(m.faults) + {PageNumber(address)};
  }

  lemma {:induction false} ExecClean(t: nat, p: nat, store: seq<int>, addresses: seq<int>)
    requires t > 0 && p > 0 && |store| == 65536 && |PageSet(addresses)| <= p
    ensures Clean(p, store, addresses, Exec(t, p, store, addresses))
  {
    if addresses != [] {
      var n := |addresses| - 1;
      assert addresses == addresses[..n] + [addresses[n]];
      PageSetAppend(addresses[..n], addresses[n]);
      SubsetSize(PageSet(addresses[..n]), PageSet(addresses));
      ExecClean(t, p, store, addresses[..n]);
      AccessKeepsClean(t, p, store, addresses[..n], Exec(t, p, store, addresses[..n]), addresses[n]);
    }
  }

  lemma SubsetSize(a: set<nat>, b: set<nat>)
    requires a <= b
    ensures |a| <= |b|
  {
    assert b == a + (b - a);
  }

  lemma AccessPrints(t: nat, p: nat, store: seq<int>, m: Machine, a: int)
    requires t > 0 && p > 0 && |store| == 65536 && Fits(p, m)
    ensures var o, r := Translate(t, p, m, PageNumber(a)), Access(t, p, store, m, a);
            && r.faults == o.faults && |r.output| == |m.output| + 1 && r.output[..|m.output|] == m.output
            && Resident(p, o.faults, o.frame) < 256
            && r.output[|m.output|] == Line(a, o.frame * 256 + a % 256, store[Resident(p, o.faults, o.frame) * 256 + a % 256])
  {
    hide Translate, Resident;
  }

  /** What is printed for the next address, in any run: the physical address in the frame used, and from
      the page that was last loaded into that frame the byte at the offset; the page table's turn goes
      round the frames. When the frame holds the page asked for it is the byte at the virtual address. */
  lemma NextLine(t: nat, p: nat, store: seq<int>, addresses: seq<int>, a: int) returns (line: Line, j: nat)
    requires t > 0 && p > 0 && |store| == 65536
    ensures var m, r := Exec(t, p, store, addresses), Exec(t, p, store, addresses + [a]);
            var o := Translate(t, p, m, PageNumber(a));
            && r.output == m.output + [line] && line.address == a && line.physical == o.frame * 256 + a % 256
            && j < |r.faults| && j % p == o.frame && (forall l: nat :: j < l < |r.faults| ==> l % p != o.frame)
            && r.faults[j] < 256 && line.value == store[r.faults[j] * 256 + a % 256]
            && (Holds(p, o.faults, o.frame, PageNumber(a)) ==> line.value == store[Virtual(a)])
  {
    hide Translate, Access, Exec, Slot, Virtual;
    ExecAppend(t, p, store, addresses, a);
    var m := Exec(t, p, store, addresses);
    var o := Translate(t, p, m, PageNumber(a));
    AccessPrints(t, p, store, m, a);
    j := SlotHoldsItsLastTurn(o.faults, p, o.frame);
    line := Line(a, o.frame * 256 + a % 256, store[Resident(p, o.faults, o.frame) * 256 + a % 256]);
    VirtualIs(a);
  }

  lemma VirtualIs(a: int)
    ensures Virtual(a) == PageNumber(a) * 256 + a % 256
  {
  }

  /** While no more pages have been used than there are frames: one fault per page, every value is
      the byte of the backing store at the virtual address, and two accesses get the same physical
      address exactly when they have the same virtual one. */
  lemma CorrectWithoutEviction(t: nat, p: nat, store: seq<int>, addresses: seq<int>)
    requires t > 0 && p > 0 && |store| == 65536 && |PageSet(addresses)| <= p
    ensures var m := Exec(t, p, store, addresses);
            && |m.faults| == |PageSet(addresses)| && |m.output| == |addresses|
            && (forall k :: 0 <= k < |addresses| ==>
                  m.output[k].address == addresses[k] && m.output[k].value == store[Virtual(addresses[k])])
            && (forall j, k :: 0 <= j < |addresses| && 0 <= k < |addresses| ==>
                  (m.output[j].physical == m.output[k].physical <==> Virtual(addresses[j]) == Virtual(addresses[k])))
  {
    var m := Exec(t, p, store, addresses);
    ExecClean(t, p, store, addresses);
    UniqueSize(m.faults);
    forall k | 0 <= k < |addresses|
      ensures m.output[k] == RightLine(store, addresses[k], m.tlb[k].frame)
      ensures RightLine(store, addresses[k], m.tlb[k].frame).value == store[Virtual(addresses[k])]
    {
      VirtualIs(addresses[k]);
    }
    forall j, k | 0 <= j < |addresses| && 0 <= k < |addresses|
      ensures m.output[j].physical == m.output[k].physical <==> Virtual(addresses[j]) == Virtual(addresses[k])
    {
      SamePhysicalAddress(p, store, addresses, m, j, k);
    }
  }

  lemma SamePhysicalAddress(p: nat, store: seq<int>, addresses: seq<int>, m: Machine, j: nat, k: nat)
    requires |store| == 65536 && Clean(p, store, addresses, m) && j < |addresses| && k < |addresses|
    ensures m.output[j].physical == m.output[k].physical <==> Virtual(addresses[j]) == Virtual(addresses[k])
  {
    hide PageNumber, Virtual;
    var fj, fk := m.tlb[j].frame, m.tlb[k].frame;
    assert m.output[j].physical == fj * 256 + addresses[j] % 256;
    assert m.output[k].physical == fk * 256 + addresses[k] % 256;
    assert m.output[j].physical == m.output[k].physical ==> fj == fk;
    assert m.faults[fj] == m.faults[fk] ==> fj == fk;
    VirtualIs(addresses[j]);
    VirtualIs(addresses[k]);
  }

  // ----- For which sizes translations are always right -----

  /** After every run, a translation of any page ends in a frame that holds it. */
  ghost predicate AlwaysFresh(t: nat, p: nat, store: seq<int>)
    requires t > 0 && p > 0 && |store| == 65536
  {
    forall addresses: seq<int>, page: nat :: page < 256 ==>
      var o := Translate(t, p, Exec(t, p, store, addresses), page);
      Holds(p, o.faults, o.frame, page)
  }

  lemma {:induction false} OneSlotIsFresh(p: nat, store: seq<int>, addresses: seq<int>, page: nat)
    requires p > 0 && |store| == 65536 && page < 256
    ensures var o := Translate(1, p, Exec(1, p, store, addresses), page);
            Holds(p, o.faults, o.frame, page)
  {
    var m := Exec(1, p, store, addresses);
    MissUsesOwnPage(1, p, m, page);
    if addresses != [] {
      var n := |addresses| - 1;
      OneSlotIsFresh(p, store, addresses[..n], page);
      assert Window(1, m.tlb) == [m.tlb[|m.tlb| - 1]];
    }
  }

  lemma ManyFramesAreFresh(t: nat, p: nat, store: seq<int>, addresses: seq<int>, page: nat)
    requires t > 0 && p >= 256 && |store| == 65536 && page < 256
    ensures var o := Translate(t, p, Exec(t, p, store, addresses), page);
            Holds(p, o.faults, o.frame, page)
  {
    var m := Exec(t, p, store, addresses);
    BoundedSize(256, PageSet(addresses));
    ExecClean(t, p, store, addresses);
    BoundedSize(256, PageSet(addresses) + {page});
    RoomForNewPage(p, m.faults, PageSet(addresses), page);
    TranslateWhileFilling(t, p, m, page);
  }

  /** Keep page 0 in the TLB by touching it between the first uses of pages 1, ..., q. */
  function KeepWarm(q: nat): seq<int> {
    if q == 0 then [0] else KeepWarm(q - 1) + [q * 256, 0]
  }

  ghost predicate Warm(p: nat, q: nat, m: Machine) {
    && |m.faults| == q + 1 && (forall i :: 0 <= i <= q ==> m.faults[i] == i)
    && (forall k :: 0 <= k < |m.tlb| ==> m.tlb[k].page <= q)
    && m.tlb != [] && m.tlb[|m.tlb| - 1].page == 0 && m.tlb[|m.tlb| - 1].frame == 0
  }

  lemma NewPageFaults(t: nat, p: nat, q: nat, m: Machine)
    requires t > 0 && 0 < q <= p && q < 256 && Fits(p, m) && Warm(p, q - 1, m)
    ensures Translate(t, p, m, q) == Outcome(q % p, false, m.faults + [q])
  {
    assert Lookup(Window(t, m.tlb), q).None?;
    assert Find(p, m.faults, q).None?;
  }

  lemma LastButOneIsFound(t: nat, tlb: seq<Entry>, e: Entry)
    requires t >= 2 && tlb != [] && tlb[|tlb| - 1].page != e.page
    ensures Lookup(Window(t, tlb + [e]), tlb[|tlb| - 1].page) == Some(tlb[|tlb| - 1])
  {
    var w := Window(t, tlb + [e]);
    assert w[|w| - 1] == e && w[|w| - 2] == tlb[|tlb| - 1];
    var shorter := w[..|w| - 1];
    assert shorter[|shorter| - 1] == w[|w| - 2];
  }

  lemma WarmThenFault(t: nat, p: nat, store: seq<int>, q: nat, m: Machine)
    requires t >= 2 && 0 < q <= p && q < 256 && |store| == 65536 && Fits(p, m) && Warm(p, q - 1, m)
    ensures var r := Access(t, p, store, m, q * 256);
            && r.faults == m.faults + [q] && r.tlb == m.tlb + [Entry(q, q % p, false, q + 1)]
            && Translate(t, p, r, 0) == Outcome(0, true, r.faults)
  {
    assert PageNumber(q * 256) == q;
    NewPageFaults(t, p, q, m);
    LastButOneIsFound(t, m.tlb, Entry(q, q % p, false, q + 1));
  }

  lemma ExecAppend(t: nat, p: nat, store: seq<int>, addresses: seq<int>, address: int)
    requires t > 0 && p > 0 && |store| == 65536
    ensures Exec(t, p, store, addresses + [address]) == Access(t, p, store, Exec(t, p, store, addresses), address)
  {
    assert (addresses + [address])[..|addresses|] == addresses;
  }

  lemma TouchAgainKeepsWarm(t: nat, p: nat, store: seq<int>, q: nat, m: Machine)
    requires t >= 2 && 0 < q < p && q < 256 && |store| == 65536 && Fits(p, m) && Warm(p, q - 1, m)
    ensures Warm(p, q, Access(t, p, store, Access(t, p, store, m, q * 256), 0))
  {
    WarmThenFault(t, p, store, q, m);
    assert PageNumber(0) == 0;
  }

  lemma StartsWarm(t: nat, p: nat, store: seq<int>)
    requires t > 0 && p > 0 && |store| == 65536
    ensures Warm(p, 0, Exec(t, p, store, [0]))
  {
    ExecAppend(t, p, store, [], 0);
    assert Exec(t, p, store, []) == IDLE;
    assert [] + [0] == [0];
    assert Translate(t, p, IDLE, 0) == Outcome(0, false, [0]);
  }

  lemma {:induction false} StaysWarm(t: nat, p: nat, store: seq<int>, q: nat)
    requires t >= 2 && q < p && q < 256 && |store| == 65536
    ensures Warm(p, q, Exec(t, p, store, KeepWarm(q)))
  {
    if q == 0 {
      StartsWarm(t, p, store);
    } else {
      var warm := KeepWarm(q - 1);
      StaysWarm(t, p, store, q - 1);
      TouchAgainKeepsWarm(t, p, store, q, Exec(t, p, store, warm));
      ExecAppendTwo(t, p, store, warm, q * 256, 0);
    }
  }

  lemma ExecAppendTwo(t: nat, p: nat, store: seq<int>, addresses: seq<int>, a: int, b: int)
    requires t > 0 && p > 0 && |store| == 65536
    ensures Exec(t, p, store, addresses + [a, b]) ==
            Access(t, p, store, Access(t, p, store, Exec(t, p, store, addresses), a), b)
  {
    hide Exec, Access;
    ExecAppend(t, p, store, addresses, a);
    ExecAppend(t, p, store, addresses + [a], b);
    assert addresses + [a] + [b] == addresses + [a, b];
  }

  lemma StaleWitness(t: nat, p: nat, store: seq<int>)
    requires t >= 2 && 0 < p < 256 && |store| == 65536
    ensures var o := Translate(t, p, Exec(t, p, store, KeepWarm(p - 1) + [p * 256]), 0);
            o.hit && !Holds(p, o.faults, o.frame, 0)
  {
    var warm := KeepWarm(p - 1);
    StaysWarm(t, p, store, p - 1);
    var m := Exec(t, p, store, warm);
    WarmThenFault(t, p, store, p, m);
    ExecAppend(t, p, store, warm, p * 256);
    FaultFillsNextFrame(p, m.faults, p, 0);
  }

  /** Translations are right in every run exactly when the TLB has a single slot or there is a frame
      for each of the 256 pages. */
  lemma AlwaysFreshExactly(t: nat, p: nat, store: seq<int>)
    requires t > 0 && p > 0 && |store| == 65536
    ensures AlwaysFresh(t, p, store) <==> t == 1 || p >= 256
  {
    hide Exec, Translate, Holds, KeepWarm;
    if t == 1 || p >= 256 {
      forall addresses: seq<int>, page: nat | page < 256
        ensures var o := Translate(t, p, Exec(t, p, store, addresses), page); Holds(p, o.faults, o.frame, page)
      {
        if t == 1 {
          OneSlotIsFresh(p, store, addresses, page);
        } else {
          ManyFramesAreFresh(t, p, store, addresses, page);
        }
      }
    } else {
      StaleWitness(t, p, store);
    }
  }
}
