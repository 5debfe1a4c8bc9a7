/** The memory side of the MMU: page table, frame allocator, replacement order and TLB. */
module MmuMemory {
  import Arithmetic
  import opened LruOrder

  datatype Settings = Settings(
    pageSize: nat,
    frames: nat,
    tlbSize: nat,
    walkLatency: nat,
    faultLatency: nat,
    evictionLatency: nat,
    batchOverhead: nat,
    faultBufferSize: nat)
  {
    predicate Valid() {
      pageSize > 0 && frames > 0 && tlbSize > 0
    }
  }

  type Config = s: Settings | s.Valid() witness Settings(1, 1, 1, 0, 0, 0, 0, 0)

  function PageOf(c: Config, addr: nat): nat {
    addr / c.pageSize
  }

  function OffsetOf(c: Config, addr: nat): nat {
    addr % c.pageSize
  }

  function Physical(c: Config, frame: nat, addr: nat): nat {
    frame * c.pageSize + OffsetOf(c, addr)
  }

  /** `next` is the frame the allocator tries first. `owner` is history: the page in each frame. */
  datatype Memory = Memory(
    table: map<nat, nat>,
    free: seq<bool>,
    remaining: int,
    next: nat,
    lru: Order,
    tlb: Order,
    owner: map<nat, nat>)

  function CountFree(free: seq<bool>): nat {
    if free == [] then 0 else (if free[0] then 1 else 0) + CountFree(free[1..])
  }

  /** The page table and its inverse agree. */
  ghost predicate Mapped(table: map<nat, nat>, owner: map<nat, nat>) {
    && (forall p :: p in table ==> table[p] in owner && owner[table[p]] == p)
    && (forall f :: f in owner ==> owner[f] in table && table[owner[f]] == f)
  }

  ghost predicate Frames(c: Config, free: seq<bool>, remaining: int, owner: map<nat, nat>) {
    && |free| == c.frames && remaining == CountFree(free)
    && (forall f: nat :: f in owner <==> f < c.frames && !free[f])
  }

  /** The replacement order lists exactly the mapped pages. */
  ghost predicate Ranked(c: Config, table: map<nat, nat>, lru: Order, remaining: int) {
    && Distinct(lru) && |lru| + remaining == c.frames
    && (forall p :: p in table <==> Has(lru, p))
  }

  /** Every TLB entry is an entry of the page table. */
  ghost predicate Cached(c: Config, table: map<nat, nat>, tlb: Order) {
    && Distinct(tlb) && |tlb| <= c.tlbSize
    && (forall k :: 0 <= k < |tlb| ==> tlb[k].page in table && table[tlb[k].page] == tlb[k].frame)
  }

  /** All tables agree. */
  ghost predicate Agree(c: Config, m: Memory) {
    && m.next < c.frames == |m.free|
    && Mapped(m.table, m.owner) && Frames(c, m.free, m.remaining, m.owner)
    && Ranked(c, m.table, m.lru, m.remaining) && Cached(c, m.table, m.tlb)
  }

  // ----- the frame allocator -----

  function NextFrame(n: nat, f: nat): nat
    requires f < n
  {
    if f + 1 == n then 0 else f + 1
  }

  /** `g` is met when one walks upwards from `f`, wrapping round, before `start`. */
  predicate Met(f: nat, start: nat, g: nat) {
    if f <= start then f <= g < start else g >= f || g < start
  }

  /** Walk round from `f` to a free frame, giving up at `start`. */
  function Search(free: seq<bool>, start: nat, f: nat): (r: nat)
    requires start < |free| && f < |free|
    ensures r < |free|
    ensures free[r] || (r == start && forall g :: 0 <= g < |free| && Met(f, start, g) ==> !free[g])
    decreases if f <= start then start - f else start - f + |free|
  {
    if f == start || free[f] then f else Search(free, start, NextFrame(|free|, f))
  }

  function FreeFrame(free: seq<bool>, start: nat): (r: nat)
    requires start < |free|
    ensures r < |free|
    ensures free[r] || forall g :: 0 <= g < |free| ==> !free[g]
  {
    if free[start] then start
    else
      var f := NextFrame(|free|, start);
      assert forall g :: 0 <= g < |free| && g != start ==> Met(f, start, g);
      Search(free, start, f)
  }

  lemma {:induction false} CountZero(free: seq<bool>)
    requires forall k :: 0 <= k < |free| ==> !free[k]
    ensures CountFree(free) == 0
  {
    if free != [] { CountZero(free[1..]); }
  }

  lemma {:induction false} CountUpdate(free: seq<bool>, k: nat, b: bool)
    requires k < |free|
    ensures CountFree(free[k := b]) == CountFree(free) - (if free[k] then 1 else 0) + (if b then 1 else 0)
  {
    if k > 0 {
      CountUpdate(free[1..], k - 1, b);
      assert free[k := b][1..] == free[1..][k - 1 := b];
    } else {
      assert free[0 := b][1..] == free[1..];
    }
  }

  /** The circular search always ends on a free frame when the counter says there is one. */
  lemma SearchSucceeds(c: Config, m: Memory)
    requires Agree(c, m) && m.remaining > 0
    ensures m.free[FreeFrame(m.free, m.next)] && FreeFrame(m.free, m.next) !in m.owner
  {
    if !m.free[FreeFrame(m.free, m.next)] {
      CountZero(m.free);
    }
  }

  // ----- operations -----

  /** A walk finds the page: the TLB learns it and both orders are updated. */
  function WalkHit(c: Config, m: Memory, page: nat): Memory
    requires page in m.table
  {
    var tlb := if Has(m.tlb, page) then m.tlb else Push(m.tlb, c.tlbSize, Item(page, m.table[page]));
    m.(tlb := Touch(tlb, page), lru := Touch(m.lru, page))
  }

  /** The least recently used page is mapped to a frame. */
  predicate Evictable(m: Memory) {
    && m.lru != [] && m.lru[|m.lru| - 1].page in m.table
    && m.table[m.lru[|m.lru| - 1].page] < |m.free|
  }

  /** The least recently used page loses its frame. */
  function Evict(m: Memory): Memory
    requires Evictable(m)
  {
    var victim := m.lru[|m.lru| - 1].page;
    var frame := m.table[victim];
    m.(table := m.table - {victim}, tlb := Drop(m.tlb, victim), lru := DropLast(m.lru),
       free := m.free[frame := true], remaining := m.remaining + 1, next := frame, owner := m.owner - {frame})
  }

  /** A page gets the free frame that the search finds. */
  function Allocate(c: Config, m: Memory, page: nat): Memory
    requires m.next < |m.free|
  {
    var frame := FreeFrame(m.free, m.next);
    m.(table := m.table[page := frame], lru := Push(m.lru, c.frames, Item(page, 0)),
       free := m.free[frame := false], remaining := m.remaining - 1, next := frame, owner := m.owner[frame := page])
  }

  lemma LastFound(s: Order)
    requires Distinct(s) && s != []
    ensures Has(s, s[|s| - 1].page)
    ensures forall p :: Has(DropLast(s), p) <==> Has(s, p) && p != s[|s| - 1].page
  {
    forall p ensures Has(DropLast(s), p) <==> Has(s, p) && p != s[|s| - 1].page {
      FindCut(s, |s| - 1, p);
      assert s[..|s| - 1] + s[|s|..] == DropLast(s);
    }
  }

  lemma TouchKeeps(s: Order, page: nat)
    requires Distinct(s)
    ensures Distinct(Touch(s, page)) && |Touch(s, page)| == |s|
    ensures forall k :: 0 <= k < |Touch(s, page)| ==> Touch(s, page)[k] in s
    ensures forall p :: Has(Touch(s, page), p) <==> Has(s, p)
  {
    if Has(s, page) {
      var k := Find(s, page);
      var cut := s[..k] + s[k + 1..];
      FindCut(s, k, page);
      forall p ensures Has([s[k]] + cut, p) <==> Has(s, p) {
        FindCut(s, k, p);
        FindPush(cut, s[k], p);
      }
      FindPush(cut, s[k], page);
    }
  }

  lemma TouchCached(c: Config, table: map<nat, nat>, tlb: Order, page: nat)
    requires Cached(c, table, tlb) && Has(tlb, page)
    ensures Cached(c, table, Touch(tlb, page))
    ensures Has(Touch(tlb, page), page) && Touch(tlb, page)[Find(Touch(tlb, page), page)].frame == table[page]
  {
    TouchKeeps(tlb, page);
  }

  lemma TouchRanked(c: Config, table: map<nat, nat>, lru: Order, remaining: int, page: nat)
    requires Ranked(c, table, lru, remaining)
    ensures Ranked(c, table, Touch(lru, page), remaining)
  {
    TouchKeeps(lru, page);
  }

  lemma PushCached(c: Config, table: map<nat, nat>, tlb: Order, page: nat)
    requires Cached(c, table, tlb) && page in table && !Has(tlb, page)
    ensures Cached(c, table, Push(tlb, c.tlbSize, Item(page, table[page])))
    ensures Has(Push(tlb, c.tlbSize, Item(page, table[page])), page)
  {
    var rest := if |tlb| < c.tlbSize || tlb == [] then tlb else DropLast(tlb);
    if rest != tlb { LastFound(tlb); }
    FindPush(rest, Item(page, table[page]), page);
  }

  lemma PushFound(s: Order, capacity: nat, x: Item)
    ensures Has(Push(s, capacity, x), x.page)
  {
  }

  /** The assertion in the replacement unit's `update`: a mapped page is ranked. */
  lemma RankedPage(c: Config, m: Memory, page: nat)
    requires Agree(c, m) && page in m.table
    ensures Has(m.lru, page)
  {
  }

  /** After a walk that found the page, the TLB holds the page table's frame for it. */
  lemma WalkHitKeeps(c: Config, m: Memory, page: nat)
    requires Agree(c, m) && page in m.table
    ensures Agree(c, WalkHit(c, m, page))
    ensures var tlb := WalkHit(c, m, page).tlb; Has(tlb, page) && tlb[Find(tlb, page)].frame == m.table[page]
  {
    hide Mapped, Frames, Cached, Ranked;
    TouchRanked(c, m.table, m.lru, m.remaining, page);
    if Has(m.tlb, page) {
      TouchCached(c, m.table, m.tlb, page);
    } else {
      PushCached(c, m.table, m.tlb, page);
      TouchCached(c, m.table, Push(m.tlb, c.tlbSize, Item(page, m.table[page])), page);
    }
  }

  /** The assertion before an eviction: the victim is mapped, to a frame in use. */
  lemma VictimMapped(c: Config, m: Memory)
    requires Agree(c, m) && m.remaining == 0
    ensures Evictable(m) && !m.free[m.table[m.lru[|m.lru| - 1].page]]
  {
    LastFound(m.lru);
  }

  lemma DropCached(c: Config, table: map<nat, nat>, tlb: Order, page: nat)
    requires Cached(c, table, tlb)
    ensures Cached(c, table - {page}, Drop(tlb, page))
  {
    if Has(tlb, page) { FindCut(tlb, Find(tlb, page), page); }
  }

  lemma EvictMapped(table: map<nat, nat>, owner: map<nat, nat>, page: nat)
    requires Mapped(table, owner) && page in table
    ensures Mapped(table - {page}, owner - {table[page]})
  {
  }

  lemma EvictFrames(c: Config, free: seq<bool>, remaining: int, owner: map<nat, nat>, f: nat)
    requires Frames(c, free, remaining, owner) && f < |free| && !free[f]
    ensures Frames(c, free[f := true], remaining + 1, owner - {f})
  {
    CountUpdate(free, f, true);
  }

  lemma EvictRanked(c: Config, table: map<nat, nat>, lru: Order, remaining: int)
    requires Ranked(c, table, lru, remaining) && lru != []
    ensures Ranked(c, table - {lru[|lru| - 1].page}, DropLast(lru), remaining + 1)
  {
    LastFound(lru);
  }

  lemma EvictKeeps(c: Config, m: Memory)
    requires Agree(c, m) && m.remaining == 0
    ensures Evictable(m)
    ensures Agree(c, Evict(m)) && Evict(m).remaining == 1
    ensures Evict(m).table.Keys <= m.table.Keys
  {
    hide Mapped, Cached, Frames, Ranked;
    VictimMapped(c, m);
    var victim := m.lru[|m.lru| - 1].page;
    EvictRanked(c, m.table, m.lru, m.remaining);
    EvictMapped(m.table, m.owner, victim);
    EvictFrames(c, m.free, m.remaining, m.owner, m.table[victim]);
    DropCached(c, m.table, m.tlb, victim);
  }

  lemma AllocateMapped(table: map<nat, nat>, owner: map<nat, nat>, page: nat, f: nat)
    requires Mapped(table, owner) && page !in table && f !in owner
    ensures Mapped(table[page := f], owner[f := page])
  {
  }

  lemma AllocateFrames(c: Config, free: seq<bool>, remaining: int, owner: map<nat, nat>, f: nat, page: nat)
    requires Frames(c, free, remaining, owner) && f < |free| && free[f]
    ensures Frames(c, free[f := false], remaining - 1, owner[f := page])
  {
    CountUpdate(free, f, false);
  }

  lemma AllocateRanked(c: Config, table: map<nat, nat>, lru: Order, remaining: int, page: nat, f: nat)
    requires Ranked(c, table, lru, remaining) && page !in table && remaining > 0
    ensures |lru| < c.frames && !Has(lru, page)
    ensures Ranked(c, table[page := f], Push(lru, c.frames, Item(page, 0)), remaining - 1)
  {
    var pushed := Push(lru, c.frames, Item(page, 0));
    FindPush(lru, Item(page, 0), page);
    forall p ensures p in table[page := f] <==> Has(pushed, p) { FindPush(lru, Item(page, 0), p); }
  }

  lemma AllocateCached(c: Config, table: map<nat, nat>, tlb: Order, page: nat, f: nat)
    requires Cached(c, table, tlb) && page !in table
    ensures Cached(c, table[page := f], tlb)
  {
  }

  /** A page fault is resolved: the frame found is free, the replacement unit has a free entry
      for the page, so no other page is overwritten, and all tables agree again. */
  lemma AllocateKeeps(c: Config, m: Memory, page: nat)
    requires Agree(c, m) && m.remaining > 0 && page !in m.table
    ensures m.free[FreeFrame(m.free, m.next)] && |m.lru| < c.frames && !Has(m.lru, page)
    ensures Agree(c, Allocate(c, m, page))
    ensures Allocate(c, m, page).remaining == m.remaining - 1
  {
    hide Mapped, Frames, Ranked, Cached;
    SearchSucceeds(c, m);
    var f := FreeFrame(m.free, m.next);
    AllocateMapped(m.table, m.owner, page, f);
    AllocateFrames(c, m.free, m.remaining, m.owner, f, page);
    AllocateRanked(c, m.table, m.lru, m.remaining, page, f);
    AllocateCached(c, m.table, m.tlb, page, f);
  }

  // ----- translation -----

  /** A TLB hit and a walk of the page table give the same frame. */
  lemma HitAgreesWithWalk(c: Config, m: Memory, page: nat)
    requires Agree(c, m) && Has(m.tlb, page)
    ensures page in m.table && m.tlb[Find(m.tlb, page)].frame == m.table[page]
  {
  }

  /** The page offset survives translation, and the frame can be read off the address. */
  lemma PhysicalParts(c: Config, frame: nat, addr: nat)
    ensures PageOf(c, Physical(c, frame, addr)) == frame && OffsetOf(c, Physical(c, frame, addr)) == OffsetOf(c, addr)
  {
    Arithmetic.DivModOf(frame, c.pageSize, addr % c.pageSize);
  }

  /** Under one page table, different virtual addresses get different physical ones. */
  lemma TranslationInjective(c: Config, m: Memory, a: nat, b: nat)
    requires Agree(c, m) && PageOf(c, a) in m.table && PageOf(c, b) in m.table
    requires Physical(c, m.table[PageOf(c, a)], a) == Physical(c, m.table[PageOf(c, b)], b)
    ensures a == b
  {
    hide PageOf, OffsetOf, Physical;
    PhysicalParts(c, m.table[PageOf(c, a)], a);
    PhysicalParts(c, m.table[PageOf(c, b)], b);
    assert PageOf(c, a) == m.owner[m.table[PageOf(c, a)]] == PageOf(c, b);
    SameAddress(c, a, b);
  }

  lemma SameAddress(c: Config, a: nat, b: nat)
    requires PageOf(c, a) == PageOf(c, b) && OffsetOf(c, a) == OffsetOf(c, b)
    ensures a == b
  {
    assert a == PageOf(c, a) * c.pageSize + OffsetOf(c, a);
    assert b == PageOf(c, b) * c.pageSize + OffsetOf(c, b);
  }
}
