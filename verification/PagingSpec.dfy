/** What the address translator computes, as a function of the addresses alone. The state keeps the
    whole history of TLB updates and of page faults; the TLB and the page table are the parts of
    these histories that the age counters keep alive. Sizes are parameters: `t` TLB slots, `p`
    frames. */
module PagingSpec {
  import opened Wrappers
  import opened AgeRing

  // ----- Addresses -----

  /** C's integer division truncates towards zero; masking with 0xFF is reduction modulo 256. */
  function TruncatedQuotient(a: int): int {
    if a >= 0 then a / 256 else -((-a) / 256)
  }

  function PageNumber(address: int): (page: nat)
    ensures page < 256
  {
    TruncatedQuotient(address) % 256
  }

  function PageOffset(address: int): (offset: nat)
    ensures offset < 256
  {
    address % 256
  }

  /** The 16-bit address that is translated: the masks drop the rest. */
  function Virtual(address: int): (v: nat)
    ensures v < 65536 && (address >= 0 ==> v == address % 65536)
    ensures address < 0 ==> v == -(-address / 256) % 256 * 256 + address % 256
  {
    SixteenBits(address);
    PageNumber(address) * 256 + PageOffset(address)
  }

  lemma SixteenBits(address: int)
    ensures address >= 0 ==> PageNumber(address) * 256 + PageOffset(address) == address % 65536
  {
    if address >= 0 {
      var q, r := address / 65536, address % 65536;
      assert address / 256 == q * 256 + r / 256 && address % 256 == r % 256;
    }
  }

  /** Page and offset give the address back exactly on the 16-bit range. */
  lemma AddressRoundTrip(address: int)
    ensures PageNumber(address) * 256 + PageOffset(address) == address <==> 0 <= address < 65536
  {
  }

  // ----- State -----

  /** One TLB update, made by every access. `hit` says whether the access was a TLB hit and
      `filled` how many page faults there had been by the end of it. */
  datatype Entry = Entry(page: nat, frame: nat, hit: bool, filled: nat)

  datatype Line = Line(address: int, physical: int, value: int)

  datatype Machine = Machine(tlb: seq<Entry>, faults: seq<nat>, hits: nat, output: seq<Line>)

  const IDLE := Machine([], [], 0, [])

  /** The entries that are still in the TLB: the last t. */
  function Window(t: nat, tlb: seq<Entry>): seq<Entry> {
    Live(tlb, t)
  }

  /** The youngest entry for the page. */
  function Lookup(entries: seq<Entry>, page: nat): (e: Option<Entry>)
    ensures e.Some? ==> e.value in entries && e.value.page == page
    ensures e.None? ==> forall k :: 0 <= k < |entries| ==> entries[k].page != page
  {
    if entries == [] then None
    else if entries[|entries| - 1].page == page then Some(entries[|entries| - 1])
    else Lookup(entries[..|entries| - 1], page)
  }

  /** The page that was last loaded into the frame. */
  function Resident(p: nat, faults: seq<nat>, frame: nat): (page: nat)
    requires frame < Occupied(|faults|, p)
    ensures page in faults
  {
    Slot(faults, p, frame)
  }

  ghost predicate Holds(p: nat, faults: seq<nat>, frame: nat, page: nat) {
    frame < Occupied(|faults|, p) && Resident(p, faults, frame) == page
  }

  /** The first frame from `from` on that holds the page. */
  function FindFrom(p: nat, faults: seq<nat>, page: nat, from: nat): (frame: Option<nat>)
    requires from <= Occupied(|faults|, p)
    ensures frame.Some? ==> from <= frame.value < Occupied(|faults|, p) && Resident(p, faults, frame.value) == page
    ensures frame.Some? ==> forall f :: from <= f < frame.value ==> Resident(p, faults, f) != page
    ensures frame.None? ==> forall f :: from <= f < Occupied(|faults|, p) ==> Resident(p, faults, f) != page
    decreases p - from
  {
    if from == Occupied(|faults|, p) then None
    else if Resident(p, faults, from) == page then Some(from)
    else FindFrom(p, faults, page, from + 1)
  }

  function Find(p: nat, faults: seq<nat>, page: nat): Option<nat> {
    FindFrom(p, faults, page, 0)
  }

  // ----- One access -----

  predicate Fits(p: nat, m: Machine) {
    && (forall k :: 0 <= k < |m.tlb| ==> m.tlb[k].frame < Occupied(|m.faults|, p))
    && (forall q :: 0 <= q < |m.faults| ==> m.faults[q] < 256)
  }

  function Byte(store: seq<int>, page: nat, offset: nat): int
    requires |store| == 65536 && page < 256 && offset < 256
  {
    store[page * 256 + offset]
  }

  lemma HandIsOccupied(updates: nat, size: nat)
    requires size > 0
    ensures updates % size < Occupied(updates + 1, size)
  {
    assert updates < size ==> updates % size == updates;
  }

  /** The translation of a page: TLB first, then page table, then a fault into the next frame. */
  datatype Outcome = Outcome(frame: nat, hit: bool, faults: seq<nat>)

  function Translate(t: nat, p: nat, m: Machine, page: nat): (o: Outcome)
    requires t > 0 && p > 0 && Fits(p, m) && page < 256
    ensures o.frame < Occupied(|o.faults|, p) && Occupied(|m.faults|, p) <= Occupied(|o.faults|, p)
    ensures o.hit ==> o.faults == m.faults
    ensures m.faults <= o.faults
  {
    var e := Lookup(Window(t, m.tlb), page);
    if e.Some? then Outcome(e.value.frame, true, m.faults)
    else
      var f := Find(p, m.faults, page);
      if f.Some? then Outcome(f.value, false, m.faults)
      else
        HandIsOccupied(|m.faults|, p);
        Outcome(|m.faults| % p, false, m.faults + [page])
  }

  function Access(t: nat, p: nat, store: seq<int>, m: Machine, address: int): (r: Machine)
    requires t > 0 && p > 0 && |store| == 65536 && Fits(p, m)
    ensures Fits(p, r)
  {
    var page, offset := PageNumber(address), PageOffset(address);
    var o := Translate(t, p, m, page);
    assert Resident(p, o.faults, o.frame) < 256 by {
      assert forall q :: 0 <= q < |o.faults| ==> o.faults[q] < 256;
    }
    Machine(m.tlb + [Entry(page, o.frame, o.hit, |o.faults|)],
            o.faults,
            if o.hit then m.hits + 1 else m.hits,
            m.output + [Line(address, o.frame * 256 + offset, Byte(store, Resident(p, o.faults, o.frame), offset))])
  }

  function Exec(t: nat, p: nat, store: seq<int>, addresses: seq<int>): (m: Machine)
    requires t > 0 && p > 0 && |store| == 65536
    ensures Fits(p, m)
  {
    if addresses == [] then
      IDLE
    else
      Access(t, p, store, Exec(t, p, store, addresses[..|addresses| - 1]), addresses[|addresses| - 1])
  }
}
