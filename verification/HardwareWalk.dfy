// Ring-3 memory accesses as the processor makes them: a four-level walk that
// needs U at every level (and W for stores), and a TLB that may answer instead.
// Sections 4.5, 4.7 and 4.10 of the Intel SDM, volume 3A.

module HardwareWalk {
  import opened PageTables
  import opened PhysMemory

  datatype Walk = Missing | Forbidden | Reached(frame: nat, writable: bool)

  /** One access right per level: a level that lacks U ends the walk for ring 3. */
  function Step(e: Word, next: Walk): Walk {
    if !Present(e) then Missing
    else if !User(e) then Forbidden
    else match next
      case Reached(f, w) => Reached(f, w && Writable(e))
      case _ => next
  }

  /** The walk from PML4 frame p4. */
  function HwWalk(mem: Ram, p4: nat, va: Word): Walk {
    var e3 := At(mem, p4, Index(va, 3));
    var e2 := At(mem, FrameOf(e3), Index(va, 2));
    var e1 := At(mem, FrameOf(e2), Index(va, 1));
    var e0 := At(mem, FrameOf(e1), Index(va, 0));
    Step(e3, Step(e2, Step(e1, Step(e0, Reached(FrameOf(e0), true)))))
  }

  /** Addresses that walk at all; any other address raises a general-protection fault instead. */
  predicate Canonical(va: Word) { va < 0x8000_0000_0000 || va >= 0xFFFF_8000_0000_0000 }

  /** In a well-formed space the walk is decided by the leaf alone, and leaves ring 3
      nothing outside the private region. */
  lemma WalkIsLeaf(mem: Ram, head: Word, kpd: nat, led: Ledger, r: nat, va: Word)
    requires MemOk(mem, head, kpd, led) && r in led.spaces && Canonical(va)
    ensures InUserRegion(va) ==>
              var w := Leaf(mem, r, Index(va, 1), Index(va, 0));
              HwWalk(mem, r, va) == if Present(w) then Reached(FrameOf(w), Writable(w)) else Missing
    ensures !InUserRegion(va) ==> HwWalk(mem, r, va) in {Missing, Forbidden}
  {
    hide MemOk, FrameOf, Writable, User, Present, KernelSlotOk;
    UpperLevels(mem, head, kpd, led, r);
    LeafFacts(mem, head, kpd, led, r, Index(va, 1), Index(va, 0));
    KernelSlotShut(mem, r, kpd);
    NotPresentZero();
    UserIndexIff(va);
  }

  /** Among canonical addresses, exactly the user region walks through PML4 entry 0 and PDPT entry 1. */
  lemma UserIndexIff(va: Word)
    requires Canonical(va)
    ensures InUserRegion(va) <==> Index(va, 3) == 0 && Index(va, 2) == 1
  {}

  lemma KernelSlotShut(mem: Ram, r: nat, kpd: nat)
    requires KernelSlotOk(At(mem, PdptFrame(mem, r), 0), kpd)
    ensures !User(At(mem, PdptFrame(mem, r), 0))
  {}

  lemma NotPresentZero()
    ensures !Present(0)
  {}

  // ---- The TLB ----------------------------------------------------------------

  datatype TlbEntry = TlbEntry(frame: nat, writable: bool)

  /** Virtual page number of an address, and the leaf it selects. */
  function Vpn(va: Word): nat { va / PAGE_SIZE }
  function LeafOfVpn(mem: Ram, r: nat, v: nat): Word {
    Leaf(mem, r, v / WORDS_PER_PAGE % WORDS_PER_PAGE, v % WORDS_PER_PAGE)
  }

  predicate TlbEntryOk(mem: Ram, r: nat, v: nat, t: TlbEntry) {
    var w := LeafOfVpn(mem, r, v);
    && USER_CODE_VA / PAGE_SIZE <= v < USER_REGION_END / PAGE_SIZE
    && Present(w) && t == TlbEntry(FrameOf(w), Writable(w))
  }

  /** Every cached translation is the one the current tables give. */
  ghost predicate TlbOk(mem: Ram, r: nat, tlb: map<nat, TlbEntry>) {
    forall v | v in tlb :: TlbEntryOk(mem, r, v, tlb[v])
  }

  lemma VpnIndex(va: Word)
    ensures Index(va, 1) == Vpn(va) / WORDS_PER_PAGE % WORDS_PER_PAGE
    ensures Index(va, 0) == Vpn(va) % WORDS_PER_PAGE
    ensures InUserRegion(va) <==> USER_CODE_VA / PAGE_SIZE <= Vpn(va) < USER_REGION_END / PAGE_SIZE
  {}

  datatype Access = Granted(frame: nat) | Fault(err: nat)

  /** Error code of a ring-3 page fault: bit 0 present, bit 1 write, bit 2 user. */
  function ErrorCode(present: bool, write: bool): nat {
    4 + (if write then 2 else 0) + (if present then 1 else 0)
  }

  function Check(walk: Walk, write: bool): Access {
    match walk
    case Missing => Fault(ErrorCode(false, write))
    case Forbidden => Fault(ErrorCode(true, write))
    case Reached(f, w) => if write && !w then Fault(ErrorCode(true, write)) else Granted(f)
  }

  /** What the processor does: a cached translation answers, else the tables are walked. */
  function HwAccess(mem: Ram, p4: nat, tlb: map<nat, TlbEntry>, va: Word, write: bool): Access {
    if Vpn(va) in tlb then Check(Reached(tlb[Vpn(va)].frame, tlb[Vpn(va)].writable), write)
    else Check(HwWalk(mem, p4, va), write)
  }

  /** With a coherent TLB the cache is invisible: every access ends as a walk would. */
  lemma TlbInvisible(mem: Ram, head: Word, kpd: nat, led: Ledger, r: nat, tlb: map<nat, TlbEntry>, va: Word, write: bool)
    requires MemOk(mem, head, kpd, led) && r in led.spaces && Canonical(va) && TlbOk(mem, r, tlb)
    ensures HwAccess(mem, r, tlb, va, write) == Check(HwWalk(mem, r, va), write)
  {
    hide MemOk, HwWalk, Leaf;
    VpnIndex(va);
    WalkIsLeaf(mem, head, kpd, led, r, va);
    if Vpn(va) in tlb {
      assert TlbEntryOk(mem, r, Vpn(va), tlb[Vpn(va)]);
    }
  }

  /** What an access of ring 3 comes to, in the bits of its leaf: a user page is reached, for a store if
      bit 1 is set; otherwise a page fault with bit 0 of its code set if the page is present, bit 1 for a
      store and bit 2 always.  Nothing outside the user region is reached. */
  lemma AccessMeans(mem: Ram, head: Word, kpd: nat, led: Ledger, r: nat, tlb: map<nat, TlbEntry>, va: Word, write: bool)
    requires MemOk(mem, head, kpd, led) && r in led.spaces && Canonical(va) && TlbOk(mem, r, tlb)
    ensures var a := HwAccess(mem, r, tlb, va, write);
      if 0x4000_0000 <= va < 0x8000_0000 then
        var w := Leaf(mem, r, va / 0x20_0000 % 512, va / 0x1000 % 512);
        a == if w % 2 == 0 then Fault(if write then 6 else 4) else if write && w / 2 % 2 == 0 then Fault(7) else Granted(w / 0x1000)
      else a in (if write then {Fault(6), Fault(7)} else {Fault(4), Fault(5)})
  {
    hide MemOk, HwWalk, Leaf, TlbOk;
    TlbInvisible(mem, head, kpd, led, r, tlb, va, write);
    WalkIsLeaf(mem, head, kpd, led, r, va);
  }

  /** Dropping the changed page from the TLB restores coherence (invlpg). */
  lemma TlbAfterSet(mem: Ram, mem': Ram, spaces: set<nat>, r: nat, va: Word, w: Word, tlb: map<nat, TlbEntry>)
    requires r in spaces && InUserRegion(va) && TlbOk(mem, r, tlb)
    requires LeafSet(mem, mem', spaces, r, Index(va, 1), Index(va, 0), w)
    ensures TlbOk(mem', r, tlb - {Vpn(va)})
  {
    hide Leaf, Index;
    VpnIndex(va);
    forall v | v in tlb - {Vpn(va)}
      ensures TlbEntryOk(mem', r, v, tlb[v])
    {
      assert TlbEntryOk(mem, r, v, tlb[v]);
      VpnApart(v, Vpn(va));
    }
  }

  /** Distinct pages of the user region have distinct leaves. */
  lemma VpnApart(u: nat, v: nat)
    requires USER_CODE_VA / PAGE_SIZE <= u < USER_REGION_END / PAGE_SIZE
    requires USER_CODE_VA / PAGE_SIZE <= v < USER_REGION_END / PAGE_SIZE && u != v
    ensures (u / WORDS_PER_PAGE % WORDS_PER_PAGE, u % WORDS_PER_PAGE) != (v / WORDS_PER_PAGE % WORDS_PER_PAGE, v % WORDS_PER_PAGE)
  {}
}
