/** Buffer ownership: the 64-slot buffer table, its pages, the VMAs and dma-bufs that point
    into it (driver/dmabuf_rdma.c, driver/dmabuf_export.c, driver/main.c). */
module Buffers {
  import opened Arithmetic

  const MAX_BUFFERS: nat := 64
  const MAX_BUF_SIZE: nat := 0x4000_0000
  const PAGE_SIZE: nat := 4096

  type Page = nat

  datatype Kind = Coherent | Pages

  datatype Slot = Slot(inUse: bool, id: nat, kind: Kind, size: nat, pages: seq<Page>, mmapCount: int, exported: bool)

  const EMPTY: Slot := Slot(false, 0, Coherent, 0, [], 0, false)

  /** What a VMA or a dma-buf holds: the raw pointer to a slot, and the pages it took from it.
      handle is the buffer it was made for. */
  datatype Ref = Ref(slot: nat, handle: nat, pages: seq<Page>)

  function PagesNeeded(size: nat): nat { (size + PAGE_SIZE - 1) / PAGE_SIZE }

  /** n pages of 4096 bytes hold size bytes, and n - 1 do not. */
  predicate JustHold(n: nat, size: nat) { (n - 1) * 4096 < size <= n * 4096 }

  lemma {:induction false} NeededHold(size: nat)
    ensures JustHold(PagesNeeded(size), size)
    ensures forall n: nat :: JustHold(n, size) ==> n == PagesNeeded(size)
  {
  }

  // -------------------------------------------------------------------- handles

  /** The handle of draw number n: 1, 2, ..., 2^32 - 1, 1, ... */
  function Drawn(n: nat): (h: nat)
    ensures 1 <= h < U32
  {
    1 + n % (U32 - 1)
  }

  /** next_buf_id++ in 32 bits, skipping 0. */
  function Successor(h: nat): nat { if (h + 1) % U32 == 0 then 1 else (h + 1) % U32 }

  lemma {:induction false} NextDraw(n: nat)
    ensures Successor(Drawn(n)) == Drawn(n + 1)
  {
    var m := U32 - 1;
    var q, r := n / m, n % m;
    assert n + 1 == m * q + (r + 1);
    if r + 1 < m {
      assert (n + 1) % m == r + 1;
    } else {
      assert n + 1 == m * (q + 1) + 0;
      assert (n + 1) % m == 0;
    }
  }

  /** Two draws give the same handle exactly when a multiple of 2^32 - 1 lies between them. */
  lemma {:induction false} SameHandleIff(a: nat, b: nat)
    ensures Drawn(a) == Drawn(b) <==> (a - b) % (U32 - 1) == 0
  {
    var m := U32 - 1;
    var p, q := a / m, b / m;
    assert a - b == m * (p - q) + (a % m - b % m);
  }

  lemma {:induction false} DistinctAtFirst(a: nat, b: nat)
    requires a < U32 - 1 && b < U32 - 1 && a != b
    ensures Drawn(a) != Drawn(b)
  {
  }

  // ------------------------------------------------------------------ invariant

  /** Every page of the universe is free or owned by one live slot, which lists it once.
      owner is that slot. */
  ghost predicate Ownership(universe: set<Page>, slots: seq<Slot>, free: set<Page>, owner: map<Page, nat>) {
    && (forall p :: p in universe <==> p in free || p in owner)
    && (forall p :: p in owner ==>
            p !in free && owner[p] < |slots| && slots[owner[p]].inUse && p in slots[owner[p]].pages)
    && (forall i :: 0 <= i < |slots| && slots[i].inUse ==> Owns(owner, i, slots[i].pages))
  }

  function PageSet(pages: seq<Page>): set<Page> { set p | p in pages }

  function OwnedBy(pages: set<Page>, i: nat): map<Page, nat> { map p | p in pages :: i }

  ghost predicate Owns(owner: map<Page, nat>, i: nat, pages: seq<Page>) {
    && (forall k :: 0 <= k < |pages| ==> pages[k] in owner && owner[pages[k]] == i)
    && Distinct(pages)
  }

  predicate Distinct(pages: seq<Page>) { forall j, k :: 0 <= j < k < |pages| ==> pages[j] != pages[k] }

  /** Live slot i got its handle at draw number drawOf[i], each at its own draw. */
  ghost predicate Handles(slots: seq<Slot>, nextId: nat, draws: nat, drawOf: seq<nat>) {
    && nextId == Drawn(draws) && |drawOf| == |slots|
    && (forall i :: 0 <= i < |slots| && slots[i].inUse ==> drawOf[i] < draws && slots[i].id == Drawn(drawOf[i]))
    && (forall i, j :: 0 <= i < j < |slots| && slots[i].inUse && slots[j].inUse ==> drawOf[i] != drawOf[j])
  }

  function Holders(refs: seq<Ref>, slot: nat): nat {
    if refs == [] then 0 else Holders(refs[..|refs| - 1], slot) + if refs[|refs| - 1].slot == slot then 1 else 0
  }

  /** A pointer still denotes the buffer it was made for, and the pages it shows are that
      buffer's. */
  predicate Denotes(slots: seq<Slot>, r: Ref) {
    && r.slot < |slots| && slots[r.slot].inUse && slots[r.slot].id == r.handle
    && r.pages <= slots[r.slot].pages
  }

  ghost predicate References(slots: seq<Slot>, vmas: seq<Ref>, exports: seq<Ref>) {
    && (forall k :: 0 <= k < |vmas| ==> Denotes(slots, vmas[k]))
    && (forall k :: 0 <= k < |exports| ==>
            Denotes(slots, exports[k]) && exports[k].pages == slots[exports[k].slot].pages)
    && MapsCounted(slots, vmas) && ExportsCounted(slots, exports)
  }

  ghost predicate MapsCounted(slots: seq<Slot>, vmas: seq<Ref>) {
    forall i :: 0 <= i < |slots| ==> slots[i].mmapCount == Holders(vmas, i)
  }

  ghost predicate ExportsCounted(slots: seq<Slot>, exports: seq<Ref>) {
    forall i :: 0 <= i < |slots| ==> Holders(exports, i) == if slots[i].exported then 1 else 0
  }

  lemma {:induction false} HoldersAppend(refs: seq<Ref>, r: Ref, slot: nat)
    ensures Holders(refs + [r], slot) == Holders(refs, slot) + if r.slot == slot then 1 else 0
  {
    assert (refs + [r])[..|refs|] == refs;
  }

  function Without(refs: seq<Ref>, k: nat): (s: seq<Ref>)
    requires k < |refs|
  {
    refs[..k] + refs[k + 1..]
  }

  lemma {:induction false} HoldersWithout(refs: seq<Ref>, k: nat, slot: nat)
    requires k < |refs|
    ensures Holders(Without(refs, k), slot) == Holders(refs, slot) - if refs[k].slot == slot then 1 else 0
  {
    var n := |refs| - 1;
    if k == n {
      assert Without(refs, k) == refs[..n];
    } else {
      HoldersWithout(refs[..n], k, slot);
      assert Without(refs, k) == Without(refs[..n], k) + [refs[n]];
      HoldersAppend(Without(refs[..n], k), refs[n], slot);
    }
  }

  lemma {:induction false} HeldSomewhere(refs: seq<Ref>, k: nat)
    requires k < |refs|
    ensures Holders(refs, refs[k].slot) >= 1
  {
    HoldersWithout(refs, k, refs[k].slot);
  }

  // ----------------------------------------------------------- steps on the table

  lemma {:induction false} CreateOwnership(u: set<Page>, slots: seq<Slot>, free: set<Page>, owner: map<Page, nat>,
                                           i: nat, s: Slot)
    requires Ownership(u, slots, free, owner) && i < |slots| && !slots[i].inUse && s.inUse
    requires Distinct(s.pages) && forall k :: 0 <= k < |s.pages| ==> s.pages[k] in free
    ensures var taken := PageSet(s.pages);
      Ownership(u, slots[i := s], free - taken, owner + OwnedBy(taken, i))
  {
  }

  lemma {:induction false} DestroyOwnership(u: set<Page>, slots: seq<Slot>, free: set<Page>, owner: map<Page, nat>,
                                            i: nat)
    requires Ownership(u, slots, free, owner) && i < |slots| && slots[i].inUse
    ensures var given := PageSet(slots[i].pages);
      Ownership(u, slots[i := slots[i].(inUse := false)], free + given, owner - given)
  {
  }

  lemma {:induction false} DestroyReferences(slots: seq<Slot>, vmas: seq<Ref>, exports: seq<Ref>, i: nat)
    requires References(slots, vmas, exports) && i < |slots| && slots[i].mmapCount <= 0 && !slots[i].exported
    ensures References(slots[i := slots[i].(inUse := false)], vmas, exports)
  {
    forall k | 0 <= k < |vmas| ensures vmas[k].slot != i {
      HeldSomewhere(vmas, k);
    }
    forall k | 0 <= k < |exports| ensures exports[k].slot != i {
      HeldSomewhere(exports, k);
    }
  }

  lemma {:induction false} CreateReferences(slots: seq<Slot>, vmas: seq<Ref>, exports: seq<Ref>, i: nat, s: Slot)
    requires References(slots, vmas, exports) && i < |slots| && !slots[i].inUse && s.mmapCount == 0 && !s.exported
    ensures References(slots[i := s], vmas, exports)
  {
    FreeSlotUnheld(slots, vmas, i);
    FreeSlotUnheld(slots, exports, i);
  }

  lemma {:induction false} FreeSlotUnheld(slots: seq<Slot>, refs: seq<Ref>, i: nat)
    requires i < |slots| && !slots[i].inUse && forall k :: 0 <= k < |refs| ==> Denotes(slots, refs[k])
    ensures Holders(refs, i) == 0
    ensures forall k :: 0 <= k < |refs| ==> refs[k].slot != i
  {
    if refs != [] {
      FreeSlotUnheld(slots, refs[..|refs| - 1], i);
      assert Denotes(slots, refs[|refs| - 1]);
    }
  }

  /** A slot that was dead and stays dead owns nothing before or after. */
  lemma {:induction false} DeadOwnership(u: set<Page>, slots: seq<Slot>, free: set<Page>, owner: map<Page, nat>,
                                         i: nat, s: Slot)
    requires Ownership(u, slots, free, owner) && i < |slots| && !slots[i].inUse && !s.inUse
    ensures Ownership(u, slots[i := s], free, owner)
  {
  }

  /** Every create draws a handle, whether or not it succeeds. */
  lemma {:induction false} CreateHandles(slots: seq<Slot>, nextId: nat, draws: nat, drawOf: seq<nat>, i: nat, s: Slot)
    requires Handles(slots, nextId, draws, drawOf) && i < |slots| && (s.inUse ==> s.id == nextId)
    ensures Handles(slots[i := s], Successor(nextId), draws + 1, drawOf[i := draws])
  {
    NextDraw(draws);
  }

  lemma {:induction false} SameHandles(slots: seq<Slot>, nextId: nat, draws: nat, drawOf: seq<nat>, i: nat, s: Slot)
    requires Handles(slots, nextId, draws, drawOf) && i < |slots| && (s.inUse ==> slots[i].inUse && s.id == slots[i].id)
    ensures Handles(slots[i := s], nextId, draws, drawOf)
  {
  }

  lemma {:induction false} SameOwnership(u: set<Page>, slots: seq<Slot>, free: set<Page>, owner: map<Page, nat>,
                                         i: nat, s: Slot)
    requires Ownership(u, slots, free, owner) && i < |slots| && slots[i].inUse && s.inUse && s.pages == slots[i].pages
    ensures Ownership(u, slots[i := s], free, owner)
  {
  }

  /** Same buffer in the slot: pointers to it still denote it. */
  lemma {:induction false} StillDenote(slots: seq<Slot>, refs: seq<Ref>, i: nat, s: Slot)
    requires forall k :: 0 <= k < |refs| ==> Denotes(slots, refs[k])
    requires i < |slots| && s.inUse && s.id == slots[i].id && s.pages == slots[i].pages
    ensures forall k :: 0 <= k < |refs| ==> Denotes(slots[i := s], refs[k])
  {
  }

  /** One more VMA on slot i, or one more dma-buf. */
  lemma {:induction false} MapReferences(slots: seq<Slot>, vmas: seq<Ref>, exports: seq<Ref>, r: Ref)
    requires References(slots, vmas, exports) && Denotes(slots, r)
    ensures References(slots[r.slot := slots[r.slot].(mmapCount := slots[r.slot].mmapCount + 1)], vmas + [r], exports)
  {
    var s := slots[r.slot].(mmapCount := slots[r.slot].mmapCount + 1);
    StillDenote(slots, vmas, r.slot, s);
    StillDenote(slots, exports, r.slot, s);
    assert Denotes(slots[r.slot := s], r);
    MapCounted(slots, vmas, r, s);
  }

  lemma {:induction false} MapCounted(slots: seq<Slot>, vmas: seq<Ref>, r: Ref, s: Slot)
    requires MapsCounted(slots, vmas) && r.slot < |slots| && s.mmapCount == slots[r.slot].mmapCount + 1
    ensures MapsCounted(slots[r.slot := s], vmas + [r])
  {
    forall i | 0 <= i < |slots| ensures slots[r.slot := s][i].mmapCount == Holders(vmas + [r], i) {
      HoldersAppend(vmas, r, i);
    }
  }

  lemma {:induction false} UnmapReferences(slots: seq<Slot>, vmas: seq<Ref>, exports: seq<Ref>, k: nat)
    requires References(slots, vmas, exports) && k < |vmas|
    ensures vmas[k].slot < |slots|
    ensures var i := vmas[k].slot;
      References(slots[i := slots[i].(mmapCount := slots[i].mmapCount - 1)], Without(vmas, k), exports)
  {
    assert Denotes(slots, vmas[k]);
    forall i | 0 <= i < |slots|
      ensures Holders(Without(vmas, k), i) == Holders(vmas, i) - if vmas[k].slot == i then 1 else 0
    {
      HoldersWithout(vmas, k, i);
    }
    forall j | 0 <= j < |Without(vmas, k)| ensures Denotes(slots, Without(vmas, k)[j]) {
      assert Without(vmas, k)[j] == vmas[if j < k then j else j + 1];
    }
  }

  lemma {:induction false} ExportReferences(slots: seq<Slot>, vmas: seq<Ref>, exports: seq<Ref>, r: Ref)
    requires References(slots, vmas, exports) && Denotes(slots, r) && !slots[r.slot].exported
    requires r.pages == slots[r.slot].pages
    ensures References(slots[r.slot := slots[r.slot].(exported := true)], vmas, exports + [r])
  {
    var s := slots[r.slot].(exported := true);
    StillDenote(slots, vmas, r.slot, s);
    StillDenote(slots, exports, r.slot, s);
    assert Denotes(slots[r.slot := s], r);
    ExportCounted(slots, exports, r, s);
  }

  lemma {:induction false} ExportCounted(slots: seq<Slot>, exports: seq<Ref>, r: Ref, s: Slot)
    requires ExportsCounted(slots, exports) && r.slot < |slots| && !slots[r.slot].exported && s.exported
    ensures ExportsCounted(slots[r.slot := s], exports + [r])
  {
    forall i | 0 <= i < |slots| ensures Holders(exports + [r], i) == if slots[r.slot := s][i].exported then 1 else 0 {
      HoldersAppend(exports, r, i);
    }
  }

  lemma {:induction false} ReleaseReferences(slots: seq<Slot>, vmas: seq<Ref>, exports: seq<Ref>, k: nat)
    requires References(slots, vmas, exports) && k < |exports|
    ensures exports[k].slot < |slots|
    ensures var i := exports[k].slot;
      References(slots[i := slots[i].(exported := false)], vmas, Without(exports, k))
  {
    assert Denotes(slots, exports[k]);
    HeldSomewhere(exports, k);
    forall i | 0 <= i < |slots|
      ensures Holders(Without(exports, k), i) == Holders(exports, i) - if exports[k].slot == i then 1 else 0
    {
      HoldersWithout(exports, k, i);
    }
    forall j | 0 <= j < |Without(exports, k)| ensures Without(exports, k)[j] in exports {
      assert Without(exports, k)[j] == exports[if j < k then j else j + 1];
    }
  }

  /** The VMA that maps the first size bytes of slot i. */
  function Shown(s: Slot, i: nat, size: nat): Ref {
    Ref(i, s.id, if PagesNeeded(size) < |s.pages| then s.pages[..PagesNeeded(size)] else s.pages)
  }

  lemma {:induction false} ShownDenotes(slots: seq<Slot>, i: nat, size: nat)
    requires i < |slots| && slots[i].inUse
    ensures Denotes(slots, Shown(slots[i], i, size)) && Shown(slots[i], i, size).slot == i
    ensures Sized(slots[i]) && size <= slots[i].size ==> JustHold(|Shown(slots[i], i, size).pages|, size)
  {
    NeededHold(size);
  }

  /** Everything that holds between two calls. */
  ghost predicate Sound(u: set<Page>, slots: seq<Slot>, free: set<Page>, owner: map<Page, nat>,
                        nextId: nat, draws: nat, drawOf: seq<nat>, vmas: seq<Ref>, exports: seq<Ref>)
  {
    && Ownership(u, slots, free, owner) && Handles(slots, nextId, draws, drawOf) && References(slots, vmas, exports)
    && AllSized(slots)
  }

  /** Every live buffer has as many pages as its size needs, and a size within the limit of 1 GB. */
  ghost predicate AllSized(slots: seq<Slot>) {
    forall i :: 0 <= i < |slots| && slots[i].inUse ==> Sized(slots[i])
  }

  predicate Sized(s: Slot) { 1 <= s.size <= 0x4000_0000 && JustHold(|s.pages|, s.size) }

  /** The free pages and the owners once slot i holds s: only a live slot takes its pages. */
  function LeftBy(free: set<Page>, s: Slot): set<Page> {
    if s.inUse then free - PageSet(s.pages) else free
  }

  function TakenBy(owner: map<Page, nat>, i: nat, s: Slot): map<Page, nat> {
    if s.inUse then owner + OwnedBy(PageSet(s.pages), i) else owner
  }

  /** A dead slot is filled under the next handle. */
  lemma {:induction false} FillSound(u: set<Page>, slots: seq<Slot>, free: set<Page>, owner: map<Page, nat>,
                                     free': set<Page>, owner': map<Page, nat>,
                                     nextId: nat, draws: nat, drawOf: seq<nat>, vmas: seq<Ref>, exports: seq<Ref>,
                                     i: nat, s: Slot)
    requires Sound(u, slots, free, owner, nextId, draws, drawOf, vmas, exports) && i < |slots| && !slots[i].inUse
    requires s.mmapCount == 0 && !s.exported && s.id == nextId && Distinct(s.pages) && (s.inUse ==> Sized(s))
    requires forall k :: 0 <= k < |s.pages| ==> s.pages[k] in free
    requires free' == LeftBy(free, s) && owner' == TakenBy(owner, i, s)
    ensures Sound(u, slots[i := s], free', owner', Successor(nextId), draws + 1, drawOf[i := draws], vmas, exports)
  {
    CreateHandles(slots, nextId, draws, drawOf, i, s);
    CreateReferences(slots, vmas, exports, i, s);
    if s.inUse {
      CreateOwnership(u, slots, free, owner, i, s);
    } else {
      DeadOwnership(u, slots, free, owner, i, s);
    }
  }

  /** The counter or the flag of a live slot changes along with the pointers it counts. */
  lemma {:induction false} RecountSound(u: set<Page>, slots: seq<Slot>, free: set<Page>, owner: map<Page, nat>,
                                        nextId: nat, draws: nat, drawOf: seq<nat>, vmas: seq<Ref>, exports: seq<Ref>,
                                        i: nat, s: Slot, vmas': seq<Ref>, exports': seq<Ref>)
    requires Sound(u, slots, free, owner, nextId, draws, drawOf, vmas, exports) && i < |slots| && slots[i].inUse
    requires s == slots[i].(mmapCount := s.mmapCount, exported := s.exported)
    requires References(slots[i := s], vmas', exports')
    ensures Sound(u, slots[i := s], free, owner, nextId, draws, drawOf, vmas', exports')
  {
    SameOwnership(u, slots, free, owner, i, s);
    SameHandles(slots, nextId, draws, drawOf, i, s);
  }

  lemma {:induction false} DestroySound(u: set<Page>, slots: seq<Slot>, free: set<Page>, owner: map<Page, nat>,
                                        nextId: nat, draws: nat, drawOf: seq<nat>, vmas: seq<Ref>, exports: seq<Ref>,
                                        i: nat)
    requires Sound(u, slots, free, owner, nextId, draws, drawOf, vmas, exports) && i < |slots| && slots[i].inUse
    requires slots[i].mmapCount <= 0 && !slots[i].exported
    ensures Sound(u, slots[i := slots[i].(inUse := false)],
                  free + PageSet(slots[i].pages), owner - PageSet(slots[i].pages),
                  nextId, draws, drawOf, vmas, exports)
  {
    DestroyOwnership(u, slots, free, owner, i);
    DestroyReferences(slots, vmas, exports, i);
    SameHandles(slots, nextId, draws, drawOf, i, slots[i].(inUse := false));
  }

  // ------------------------------------------------- what every state promises

  lemma {:induction false} DistinctSize(pages: seq<Page>)
    requires Distinct(pages)
    ensures |PageSet(pages)| == |pages|
  {
    if pages != [] {
      var n := |pages| - 1;
      DistinctSize(pages[..n]);
      assert PageSet(pages) == PageSet(pages[..n]) + {pages[n]};
      assert pages[n] !in PageSet(pages[..n]);
    }
  }

  /** These pages, each once, are what is missing. */
  ghost predicate Taken(from: set<Page>, left: set<Page>, pages: seq<Page>) {
    && Distinct(pages) && left == from - PageSet(pages)
    && forall k :: 0 <= k < |pages| ==> pages[k] in from
  }

  lemma {:induction false} TakenSize(from: set<Page>, left: set<Page>, pages: seq<Page>)
    requires Taken(from, left, pages)
    ensures |left| == |from| - |pages| && left + PageSet(pages) == from
  {
    DistinctSize(pages);
    assert PageSet(pages) <= from;
    assert |left| == |from| - |PageSet(pages)|;
  }

  lemma {:induction false} TakeOne(from: set<Page>, left: set<Page>, pages: seq<Page>, page: Page)
    requires Taken(from, left, pages) && page in left
    ensures Taken(from, left - {page}, pages + [page])
  {
    assert PageSet(pages + [page]) == PageSet(pages) + {page};
  }

  lemma {:induction false} TakeNone(from: set<Page>)
    ensures Taken(from, from, [])
  {
    assert PageSet([]) == {};
  }

  function TotalPages(slots: seq<Slot>): nat {
    if slots == [] then 0
    else TotalPages(slots[..|slots| - 1]) + if slots[|slots| - 1].inUse then |slots[|slots| - 1].pages| else 0
  }

  ghost function OwnedBelow(owner: map<Page, nat>, n: nat): set<Page> { set p | p in owner && owner[p] < n }

  lemma {:induction false} OwnedCount(u: set<Page>, slots: seq<Slot>, free: set<Page>, owner: map<Page, nat>, n: nat)
    requires Ownership(u, slots, free, owner) && n <= |slots|
    ensures |OwnedBelow(owner, n)| == TotalPages(slots[..n])
  {
    if n == 0 {
      assert OwnedBelow(owner, 0) == {};
    } else {
      OwnedCount(u, slots, free, owner, n - 1);
      assert slots[..n][..n - 1] == slots[..n - 1];
      OwnedNext(u, slots, free, owner, n - 1);
    }
  }

  lemma {:induction false} OwnedNext(u: set<Page>, slots: seq<Slot>, free: set<Page>, owner: map<Page, nat>, i: nat)
    requires Ownership(u, slots, free, owner) && i < |slots|
    ensures |OwnedBelow(owner, i + 1)| == |OwnedBelow(owner, i)| + if slots[i].inUse then |slots[i].pages| else 0
  {
    if slots[i].inUse {
      var mine := PageSet(slots[i].pages);
      DistinctSize(slots[i].pages);
      assert OwnedBelow(owner, i + 1) == OwnedBelow(owner, i) + mine;
      assert OwnedBelow(owner, i) !! mine;
    } else {
      assert OwnedBelow(owner, i + 1) == OwnedBelow(owner, i);
    }
  }

  /** Owned plus free pages is the whole machine: nothing leaks, nothing is freed twice. */
  lemma {:induction false} PagesConserved(u: set<Page>, slots: seq<Slot>, free: set<Page>, owner: map<Page, nat>)
    requires Ownership(u, slots, free, owner)
    ensures |free| + TotalPages(slots) == |u|
  {
    OwnedCount(u, slots, free, owner, |slots|);
    assert slots[..|slots|] == slots;
    assert OwnedBelow(owner, |slots|) == owner.Keys;
    assert u == free + owner.Keys;
    assert free !! owner.Keys;
  }

  /** No two live buffers share a page, and no live page is free. */
  lemma {:induction false} LivePagesDisjoint(u: set<Page>, slots: seq<Slot>, free: set<Page>, owner: map<Page, nat>,
                                             i: nat, j: nat)
    requires Ownership(u, slots, free, owner)
    requires i < |slots| && j < |slots| && slots[i].inUse && slots[j].inUse && i != j
    ensures PageSet(slots[i].pages) !! PageSet(slots[j].pages)
    ensures PageSet(slots[i].pages) !! free
  {
    forall p | p in PageSet(slots[i].pages) ensures p in owner && owner[p] == i {
      var k :| 0 <= k < |slots[i].pages| && slots[i].pages[k] == p;
    }
    forall p | p in PageSet(slots[j].pages) ensures p in owner && owner[p] == j {
      var k :| 0 <= k < |slots[j].pages| && slots[j].pages[k] == p;
    }
  }

  /** Live handles are nonzero, and two of them coincide exactly when their draws are a multiple
      of 2^32 - 1 apart: never within the first 2^32 - 1 draws. */
  lemma {:induction false} LiveHandles(slots: seq<Slot>, nextId: nat, draws: nat, drawOf: seq<nat>, i: nat, j: nat)
    requires Handles(slots, nextId, draws, drawOf)
    requires i < |slots| && j < |slots| && slots[i].inUse && slots[j].inUse && i != j
    ensures slots[i].id != 0
    ensures slots[i].id == slots[j].id <==> (drawOf[i] - drawOf[j]) % (U32 - 1) == 0
    ensures draws < U32 ==> slots[i].id != slots[j].id
  {
    SameHandleIff(drawOf[i], drawOf[j]);
    assert drawOf[i] != drawOf[j];
    if draws < U32 {
      DistinctAtFirst(drawOf[i], drawOf[j]);
    }
  }

  /** So while no more than 2^32 - 1 handles have been drawn, a handle finds its own buffer, and
      a pointer's buffer is the one its handle finds. */
  lemma {:induction false} PointersFindTheirBuffer(u: set<Page>, slots: seq<Slot>, free: set<Page>,
                                                   owner: map<Page, nat>, nextId: nat, draws: nat, drawOf: seq<nat>,
                                                   vmas: seq<Ref>, exports: seq<Ref>, r: Ref, j: nat)
    requires Sound(u, slots, free, owner, nextId, draws, drawOf, vmas, exports) && draws < U32
    requires (r in vmas || r in exports) && j < |slots| && slots[j].inUse && slots[j].id == r.handle
    ensures r.slot == j && r.pages <= slots[j].pages
  {
    assert Denotes(slots, r);
    if r.slot != j {
      LiveHandles(slots, nextId, draws, drawOf, r.slot, j);
    }
  }

  /** The live slots are the same, with the same contents. */
  ghost predicate SameLive(before: seq<Slot>, after: seq<Slot>) {
    && |before| == |after|
    && forall i :: 0 <= i < |after| ==>
         (after[i].inUse <==> before[i].inUse) && (after[i].inUse ==> after[i] == before[i])
  }

  // ----------------------------------------------------------------- the driver

  datatype Status = Ok | Einval | Enomem | Enoent | Ebusy | Eagain

  /** What the allocators do during one create: dma_alloc_coherent or kvcalloc, alloc_pages_node
      at each page, vmap. */
  datatype Supply = Supply(first: bool, pages: seq<bool>, vmap: bool)

  predicate Grants(supply: seq<bool>, n: nat) { n <= |supply| && forall k :: 0 <= k < n ==> supply[k] }

  /** Memory for n pages is given: there are n free ones, and nothing asked for is refused. */
  predicate Supplied(kind: Kind, n: nat, supply: Supply, room: nat) {
    supply.first && n <= room && (kind.Pages? ==> Grants(supply.pages, n) && supply.vmap)
  }

  predicate AnyDead(slots: seq<Slot>) { exists i :: 0 <= i < |slots| && !slots[i].inUse }

  /** The part of struct dmaplane_dev that buf_lock guards, and the pages of the machine.  vmas
      and exports are the pointers held outside the table. */
  class Device {
    const slots: array<Slot>
    var nextBufId: nat
    var free: set<Page>
    var vmas: seq<Ref>
    var exports: seq<Ref>
    ghost const universe: set<Page>
    ghost var owner: map<Page, nat>
    ghost var draws: nat
    ghost var drawOf: seq<nat>
    ghost var table: seq<Slot>

    ghost predicate Valid()
      reads this, slots
    {
      && slots.Length == MAX_BUFFERS && slots[..] == table
      && Sound(universe, table, free, owner, nextBufId, draws, drawOf, vmas, exports)
    }

    constructor (pages: set<Page>)
      ensures Valid() && universe == free == pages && vmas == exports == [] && draws == 0 && fresh(slots)
      ensures slots.Length == 64
      ensures forall i :: 0 <= i < MAX_BUFFERS ==> !slots[i].inUse
    {
      slots := new Slot[MAX_BUFFERS](_ => EMPTY);
      nextBufId, free, vmas, exports := 1, pages, [], [];
      universe, owner, draws, drawOf := pages, map[], 0, seq(MAX_BUFFERS, _ => 0);
      table := seq(MAX_BUFFERS, _ => EMPTY);
    }

    /** The slot a handle finds: the first live one that carries it. */
    ghost predicate Finds(bufId: nat, i: nat)
      requires slots.Length == MAX_BUFFERS
      reads this, slots
    {
      && i < MAX_BUFFERS && slots[i].inUse && slots[i].id == bufId
      && forall j :: 0 <= j < i ==> !(slots[j].inUse && slots[j].id == bufId)
    }

    /** The handle finds slot i, and it holds pages. */
    ghost predicate Exportable(bufId: nat, i: nat)
      requires slots.Length == MAX_BUFFERS
      reads this, slots
    {
      Finds(bufId, i) && slots[i].kind.Pages?
    }

    ghost predicate Live(bufId: nat)
      requires slots.Length == MAX_BUFFERS
      reads this, slots
    {
      exists i :: 0 <= i < MAX_BUFFERS && slots[i].inUse && slots[i].id == bufId
    }

    /** dmabuf_rdma_find_buffer; MAX_BUFFERS is NULL. */
    method FindBuffer(bufId: nat) returns (i: nat)
      requires slots.Length == MAX_BUFFERS
      ensures i == MAX_BUFFERS <==> !Live(bufId)
      ensures i != MAX_BUFFERS ==> Finds(bufId, i)
    {
      i := 0;
      while i < MAX_BUFFERS
        invariant i <= MAX_BUFFERS && forall j :: 0 <= j < i ==> !(slots[j].inUse && slots[j].id == bufId)
      {
        if slots[i].inUse && slots[i].id == bufId {
          return;
        }
        i := i + 1;
      }
    }

    method FreeSlot() returns (i: nat)
      requires slots.Length == MAX_BUFFERS
      ensures i <= MAX_BUFFERS && (i < MAX_BUFFERS ==> !slots[i].inUse)
      ensures forall j :: 0 <= j < i ==> slots[j].inUse
    {
      i := 0;
      while i < MAX_BUFFERS
        invariant i <= MAX_BUFFERS && forall j :: 0 <= j < i ==> slots[j].inUse
      {
        if !slots[i].inUse {
          return;
        }
        i := i + 1;
      }
    }

    method SetSlot(i: nat, s: Slot)
      requires i < slots.Length && slots[..] == table
      modifies slots, this`table
      ensures table == old(table)[i := s] && slots[..] == table
    {
      slots[i] := s;
      table := table[i := s];
    }

    /** Give pages back, last one first. */
    method FreePages(pages: seq<Page>)
      modifies this`free
      ensures free == old(free) + PageSet(pages)
    {
      var i := |pages|;
      while i > 0
        invariant 0 <= i <= |pages| && free == old(free) + PageSet(pages[i..])
      {
        i := i - 1;
        assert pages[i..] == [pages[i]] + pages[i + 1..];
        free := free + {pages[i]};
      }
      assert pages[0..] == pages;
    }

    /** Take n pages, whichever the allocator gives, or none at all. */
    method AllocPages(n: nat, supply: seq<bool>) returns (ok: bool, pages: seq<Page>)
      modifies this`free
      ensures ok <==> n <= |old(free)| && Grants(supply, n)
      ensures ok ==> |pages| == n && Distinct(pages) && free == old(free) - PageSet(pages)
      ensures ok ==> forall k :: 0 <= k < n ==> pages[k] in old(free)
      ensures !ok ==> pages == [] && free == old(free)
    {
      pages := [];
      TakeNone(free);
      while |pages| < n
        invariant |pages| <= n && Taken(old(free), free, pages) && Grants(supply, |pages|)
      {
        if free == {} || |pages| >= |supply| || !supply[|pages|] {
          TakenSize(old(free), free, pages);
          FreePages(pages);
          return false, [];
        }
        var page :| page in free;
        TakeOne(old(free), free, pages, page);
        free, pages := free - {page}, pages + [page];
      }
      TakenSize(old(free), free, pages);
      ok := true;
    }

    /** Memory for a buffer of n pages, or none. */
    method Allocate(kind: Kind, n: nat, supply: Supply) returns (ok: bool, pages: seq<Page>)
      modifies this`free
      ensures ok <==> Supplied(kind, n, supply, |old(free)|)
      ensures ok ==> |pages| == n && Distinct(pages) && free == old(free) - PageSet(pages)
      ensures ok ==> forall k :: 0 <= k < n ==> pages[k] in old(free)
      ensures !ok ==> free == old(free)
    {
      if !supply.first {
        return false, [];
      }
      match kind {
        case Coherent =>
          ok, pages := AllocPages(n, seq(n, _ => true));
        case Pages =>
          ok, pages := AllocPages(n, supply.pages);
          if ok && !supply.vmap {
            FreePages(pages);
            ok := false;
          }
      }
    }

    /** dmabuf_rdma_create_buffer: a handle is drawn as soon as there is a dead slot. */
    method Create(kind: Kind, size: nat, nodeOk: bool, supply: Supply)
      returns (status: Status, bufId: nat, ghost slot: nat)
      requires Valid()
      modifies this, slots
      ensures Valid() && vmas == old(vmas) && exports == old(exports)
      ensures status.Einval? <==> size == 0 || size > 0x4000_0000 || !nodeOk
      ensures status.Ok? || status.Enomem? || status.Einval?
      ensures status.Ok? <==>
        && 1 <= size <= 0x4000_0000 && nodeOk && old(AnyDead(slots[..]))
        && supply.first && (size + 4095) / 4096 <= |old(free)|
        && (kind.Pages? ==> supply.vmap && Grants(supply.pages, (size + 4095) / 4096))
      ensures draws == old(draws) + if !status.Einval? && old(AnyDead(slots[..])) then 1 else 0
      ensures !status.Ok? ==> free == old(free) && SameLive(old(slots[..]), slots[..])
      ensures status.Ok? ==>
        && slot < MAX_BUFFERS && !old(slots[slot].inUse) && (forall j :: 0 <= j < slot ==> old(slots[j].inUse))
        && bufId == Drawn(old(draws))
        && slots[slot] == Slot(true, bufId, kind, size, slots[slot].pages, 0, false)
        && slots[..] == old(slots[..])[slot := slots[slot]] && JustHold(|slots[slot].pages|, size)
        && free == old(free) - PageSet(slots[slot].pages)
    {
      slot, bufId := 0, 0;
      if size == 0 || size > MAX_BUF_SIZE || !nodeOk {
        return Einval, 0, 0;
      }
      var i := FreeSlot();
      ghost var was := slots[..];
      assert AnyDead(was) <==> i < MAX_BUFFERS;
      if i == MAX_BUFFERS {
        return Enomem, 0, 0;
      }
      ghost var wasFree := free;
      slot, bufId := i, nextBufId;
      var ok, pages := Allocate(kind, PagesNeeded(size), supply);
      NeededHold(size);
      var s := if ok then Slot(true, bufId, kind, size, pages, 0, false)
        else Slot(false, bufId, kind, size, [], 0, false);
      Fill(i, s, wasFree);
      status := if ok then Ok else Enomem;
    }

    /** Write a dead slot under the next handle; live, it takes over pages already allocated. */
    method Fill(i: nat, s: Slot, ghost wasFree: set<Page>)
      requires slots.Length == MAX_BUFFERS && i < MAX_BUFFERS && !slots[i].inUse
      requires slots[..] == table && Sound(universe, table, wasFree, owner, nextBufId, draws, drawOf, vmas, exports)
      requires s.mmapCount == 0 && !s.exported && s.id == nextBufId && Distinct(s.pages) && (s.inUse ==> Sized(s))
      requires forall k :: 0 <= k < |s.pages| ==> s.pages[k] in wasFree
      requires free == LeftBy(wasFree, s)
      modifies slots, this`table, this`nextBufId, this`owner, this`draws, this`drawOf
      ensures Valid() && slots[..] == old(slots[..])[i := s] && draws == old(draws) + 1
    {
      ghost var was := table;
      ghost var owner' := TakenBy(owner, i, s);
      FillSound(universe, was, wasFree, owner, free, owner', nextBufId, draws, drawOf, vmas, exports, i, s);
      ghost var id, n, drawn := Successor(nextBufId), draws + 1, drawOf[i := draws];
      SetSlot(i, s);
      nextBufId, owner, draws, drawOf := Successor(nextBufId), owner', n, drawn;
      assert table == was[i := s] && nextBufId == id;
    }

    /** dmabuf_rdma_destroy_buffer. */
    method Destroy(bufId: nat) returns (status: Status, ghost slot: nat)
      requires Valid()
      modifies slots, this`table, this`free, this`owner
      ensures Valid()
      ensures status.Enoent? <==> !old(Live(bufId))
      ensures status.Ok? || status.Enoent? || status.Ebusy?
      ensures !status.Enoent? ==> old(Finds(bufId, slot))
      ensures status.Ebusy? <==> old(Live(bufId)) && (Holders(vmas, slot) > 0 || Holders(exports, slot) > 0)
      ensures !status.Ok? ==> free == old(free) && slots[..] == old(slots[..])
      ensures status.Ok? ==>
        && slots[..] == old(slots[..])[slot := old(slots[slot]).(inUse := false)]
        && free == old(free) + PageSet(old(slots[slot].pages))
    {
      var i := FindBuffer(bufId);
      slot := i;
      if i == MAX_BUFFERS {
        return Enoent, i;
      }
      if slots[i].mmapCount > 0 {
        return Ebusy, i;
      }
      if slots[i].exported {
        return Ebusy, i;
      }
      ghost var was := table;
      DestroySound(universe, was, free, owner, nextBufId, draws, drawOf, vmas, exports, i);
      FreePages(slots[i].pages);
      SetSlot(i, slots[i].(inUse := false));
      owner := owner - PageSet(was[i].pages);
      status := Ok;
    }

    /** dmaplane_mmap: the pages shown are those that cover size bytes; insertFails says that
        mapping one of them fails. */
    method Mmap(bufId: nat, size: nat, insertFails: bool) returns (status: Status, ghost slot: nat)
      requires Valid()
      modifies slots, this`table, this`vmas, this`exports
      ensures Valid() && exports == old(exports)
      ensures status.Einval? <==> !old(Live(bufId)) || (old(Finds(bufId, slot)) && size > old(slots[slot]).size)
      ensures !status.Einval? ==>
        old(Finds(bufId, slot)) && (status.Eagain? <==> insertFails) && (status.Ok? <==> !insertFails)
      ensures !status.Ok? ==> vmas == old(vmas) && slots[..] == old(slots[..])
      ensures status.Ok? ==> |vmas| > 0 && JustHold(|vmas[|vmas| - 1].pages|, size)
      ensures status.Ok? ==>
        && vmas == old(vmas) + [Shown(old(slots[slot]), slot, size)]
        && slots[..] == old(slots[..])[slot := old(slots[slot]).(mmapCount := old(slots[slot]).mmapCount + 1)]
    {
      var i := FindBuffer(bufId);
      slot := i;
      if i == MAX_BUFFERS {
        return Einval, i;
      }
      if size > slots[i].size {
        return Einval, i;
      }
      if insertFails {
        return Eagain, i;
      }
      ShownDenotes(slots[..], i, size);
      assert Sized(table[i]);
      AddVma(Shown(slots[i], i, size));
      status := Ok;
    }

    /** Change the counter or the flag of a live slot, and the pointers it counts. */
    method Recount(i: nat, s: Slot, newVmas: seq<Ref>, newExports: seq<Ref>)
      requires Valid() && i < MAX_BUFFERS && table[i].inUse
      requires s == table[i].(mmapCount := s.mmapCount, exported := s.exported)
      requires References(table[i := s], newVmas, newExports)
      modifies slots, this`table, this`vmas, this`exports
      ensures Valid() && table == old(table)[i := s] && vmas == newVmas && exports == newExports
    {
      RecountSound(universe, table, free, owner, nextBufId, draws, drawOf, vmas, exports, i, s, newVmas, newExports);
      SetSlot(i, s);
      vmas, exports := newVmas, newExports;
    }

    /** atomic_inc(&buf->mmap_count), with the VMA that accounts for it. */
    method AddVma(r: Ref)
      requires Valid() && Denotes(slots[..], r)
      modifies slots, this`table, this`vmas, this`exports
      ensures Valid() && vmas == old(vmas) + [r] && exports == old(exports)
      ensures slots[..] == old(slots[..])[r.slot := old(slots[r.slot]).(mmapCount := old(slots[r.slot].mmapCount) + 1)]
    {
      ghost var was := table;
      var i := r.slot;
      MapReferences(was, vmas, exports, r);
      Recount(i, slots[i].(mmapCount := slots[i].mmapCount + 1), vmas + [r], exports);
    }

    /** dmaplane_vma_open: a second VMA with the same private pointer. */
    method VmaOpen(k: nat)
      requires Valid() && k < |vmas|
      modifies slots, this`table, this`vmas, this`exports
      ensures Valid() && vmas == old(vmas) + [old(vmas[k])] && exports == old(exports)
    {
      assert Denotes(slots[..], vmas[k]);
      AddVma(vmas[k]);
    }

    /** dmaplane_vma_close, through the raw pointer. */
    method VmaClose(k: nat)
      requires Valid() && k < |vmas|
      modifies slots, this`table, this`vmas, this`exports
      ensures Valid() && vmas == Without(old(vmas), k) && exports == old(exports)
      ensures old(Denotes(slots[..], vmas[k])) && slots[..] ==
        var i := old(vmas[k]).slot;
        old(slots[..])[i := old(slots[..])[i].(mmapCount := old(slots[..])[i].mmapCount - 1)]
    {
      UnmapReferences(table, vmas, exports, k);
      assert Denotes(table, vmas[k]);
      var i := vmas[k].slot;
      Recount(i, slots[i].(mmapCount := slots[i].mmapCount - 1), Without(vmas, k), exports);
    }

    /** dmaplane_dmabuf_export, up to a file descriptor that is granted. */
    method Export(bufId: nat, ctxOk: bool, exportOk: bool) returns (status: Status, ghost slot: nat)
      requires Valid()
      modifies slots, this`table, this`vmas, this`exports
      ensures Valid() && vmas == old(vmas)
      ensures status.Einval? <==> !old(Exportable(bufId, slot))
      ensures old(Live(bufId)) ==> old(Finds(bufId, slot))
      ensures status.Ebusy? <==> old(Exportable(bufId, slot)) && Holders(old(exports), slot) == 1
      ensures status.Enomem? <==>
        old(Exportable(bufId, slot)) && Holders(old(exports), slot) == 0 && !(ctxOk && exportOk)
      ensures status.Ok? <==> old(Exportable(bufId, slot)) && Holders(old(exports), slot) == 0 && ctxOk && exportOk
      ensures !status.Ok? ==> exports == old(exports) && slots[..] == old(slots[..])
      ensures status.Ok? ==>
        && old(Finds(bufId, slot)) && Holders(old(exports), slot) == 0
        && exports == old(exports) + [Ref(slot, bufId, old(slots[slot]).pages)]
        && slots[..] == old(slots[..])[slot := old(slots[slot]).(exported := true)]
    {
      var i := FindBuffer(bufId);
      slot := i;
      if i == MAX_BUFFERS {
        return Einval, i;
      }
      if slots[i].kind.Coherent? {
        return Einval, i;
      }
      if slots[i].exported {
        return Ebusy, i;
      }
      if !ctxOk || !exportOk {
        return Enomem, i;
      }
      var r := Ref(i, bufId, slots[i].pages);
      ExportReferences(table, vmas, exports, r);
      Recount(i, slots[i].(exported := true), vmas, exports + [r]);
      status := Ok;
    }

    /** dmaplane_dmabuf_release, through the raw pointer: the last reference is gone. */
    method Release(k: nat)
      requires Valid() && k < |exports|
      modifies slots, this`table, this`vmas, this`exports
      ensures Valid() && exports == Without(old(exports), k) && vmas == old(vmas)
      ensures old(Denotes(slots[..], exports[k])) && slots[..] ==
        var i := old(exports[k]).slot; old(slots[..])[i := old(slots[..])[i].(exported := false)]
    {
      ReleaseReferences(table, vmas, exports, k);
      assert Denotes(table, exports[k]);
      var i := exports[k].slot;
      Recount(i, slots[i].(exported := false), vmas, Without(exports, k));
    }
  }

  // ----------------------------------------------------------------- every run

  datatype Call =
    | CallCreate(kind: Kind, size: nat, nodeOk: bool, supply: Supply)
    | CallDestroy(bufId: nat)
    | CallMmap(bufId: nat, size: nat, insertFails: bool)
    | CallOpen(k: nat)
    | CallClose(k: nat)
    | CallExport(bufId: nat, ctxOk: bool, exportOk: bool)
    | CallRelease(k: nat)

  /** Any sequence of calls on a fresh device: no page is lost, and every pointer still shows
      pages of the live buffer it was made for. */
  method Run(pages: set<Page>, calls: seq<Call>) returns (d: Device)
    ensures d.Valid() && d.universe == pages
    ensures |d.free| + TotalPages(d.slots[..]) == |pages|
    ensures forall k :: 0 <= k < |d.vmas| ==> Denotes(d.slots[..], d.vmas[k])
    ensures forall k :: 0 <= k < |d.exports| ==> Denotes(d.slots[..], d.exports[k])
  {
    d := new Device(pages);
    for i := 0 to |calls|
      invariant d.Valid() && fresh(d) && fresh(d.slots) && d.universe == pages
    {
      match calls[i] {
        case CallCreate(kind, size, nodeOk, supply) =>
          var status, bufId, slot := d.Create(kind, size, nodeOk, supply);
        case CallDestroy(bufId) =>
          var status, slot := d.Destroy(bufId);
        case CallMmap(bufId, size, insertFails) =>
          var status, slot := d.Mmap(bufId, size, insertFails);
        case CallOpen(k) =>
          if k < |d.vmas| {
            d.VmaOpen(k);
          }
        case CallClose(k) =>
          if k < |d.vmas| {
            d.VmaClose(k);
          }
        case CallExport(bufId, ctxOk, exportOk) =>
          var status, slot := d.Export(bufId, ctxOk, exportOk);
        case CallRelease(k) =>
          if k < |d.exports| {
            d.Release(k);
          }
      }
    }
    PagesConserved(pages, d.slots[..], d.free, d.owner);
  }
}
