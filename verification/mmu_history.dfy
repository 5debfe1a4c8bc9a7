/** The orders of replacement unit and TLB over whole runs are the orders of last use, where the
    uses are read off the events and states of the run and not off the orders themselves. */
module MmuHistory {
  import opened Lists
  import opened Options
  import opened LruOrder
  import opened LruHistory
  import opened MmuMemory
  import opened MmuQueues
  import opened MmuMachine
  import opened MmuEffects

  /** When a page was last used, counting uses from 1; 0 if never. */
  function Last(uses: seq<nat>, page: nat): (t: nat)
    ensures t <= |uses|
  {
    if uses == [] then 0
    else if uses[|uses| - 1] == page then |uses|
    else Last(uses[..|uses| - 1], page)
  }

  /** The list is in the order of last use, the most recently used page first. */
  ghost predicate ByUse(s: Order, uses: seq<nat>) {
    Descending(s, p => Last(uses, p))
  }

  lemma LastNext(uses: seq<nat>, page: nat, p: nat)
    ensures Last(uses + [page], p) == if p == page then |uses| + 1 else Last(uses, p)
  {
    assert (uses + [page])[..|uses|] == uses;
  }

  lemma TouchByUse(s: Order, uses: seq<nat>, page: nat)
    requires Has(s, page) && ByUse(s, uses)
    ensures ByUse(Touch(s, page), uses + [page])
  {
    hide Descending, Touch, Last;
    forall p: nat ensures Last(uses + [page], p) == if p == page then |uses| + 1 else Last(uses, p) { LastNext(uses, page, p); }
    UseKeepsOrder(s, 0, Updated(page), p => Last(uses, p), p => Last(uses + [page], p), |uses| + 1);
  }

  lemma PushByUse(s: Order, capacity: nat, x: Item, uses: seq<nat>)
    requires !Has(s, x.page) && ByUse(s, uses)
    ensures ByUse(Push(s, capacity, x), uses + [x.page])
  {
    hide Last;
    forall p: nat ensures Last(uses + [x.page], p) == if p == x.page then |uses| + 1 else Last(uses, p) { LastNext(uses, x.page, p); }
    var rest := if |s| < capacity || s == [] then s else DropLast(s);
    assert forall j :: 0 <= j < |s| ==> s[j].page != x.page;
  }

  lemma CutByUse(s: Order, uses: seq<nat>, k: nat)
    requires ByUse(s, uses) && k < |s|
    ensures ByUse(s[..k] + s[k + 1..], uses)
  {
    DescendingCut(s, p => Last(uses, p), k);
  }

  lemma DropByUse(s: Order, uses: seq<nat>, page: nat)
    requires ByUse(s, uses)
    ensures ByUse(Drop(s, page), uses)
  {
    hide ByUse;
    if Has(s, page) { CutByUse(s, uses, Find(s, page)); }
  }

  lemma DropLastByUse(s: Order, uses: seq<nat>)
    requires ByUse(s, uses) && s != []
    ensures ByUse(DropLast(s), uses)
  {
    hide ByUse;
    CutByUse(s, uses, |s| - 1);
    assert s[..|s| - 1] + s[|s|..] == DropLast(s);
  }

  /** Both orders of the memory, after the uses of pages and of TLB entries. */
  ghost predicate Sorted(m: Memory, pages: seq<nat>, entries: seq<nat>) {
    ByUse(m.lru, pages) && ByUse(m.tlb, entries)
  }

  /** A walk that finds the page uses the page and its TLB entry. */
  lemma WalkHitSorted(c: Config, m: Memory, page: nat, pages: seq<nat>, entries: seq<nat>)
    requires Agree(c, m) && page in m.table && Sorted(m, pages, entries)
    ensures Sorted(WalkHit(c, m, page), pages + [page], entries + [page])
  {
    hide Mapped, Frames, Cached, ByUse, Touch, Has;
    RankedPage(c, m, page);
    TouchByUse(m.lru, pages, page);
    if Has(m.tlb, page) {
      TouchByUse(m.tlb, entries, page);
    } else {
      var x := Item(page, m.table[page]);
      PushByUse(m.tlb, c.tlbSize, x, entries);
      FrontTouched(Push(m.tlb, c.tlbSize, x), page);
    }
  }

  /** Using the first entry changes nothing. */
  lemma FrontTouched(s: Order, page: nat)
    requires s != [] && s[0].page == page
    ensures Touch(s, page) == s
  {
    assert Find(s, page) == 0;
    assert s[..0] + s[1..] == s[1..];
    assert [s[0]] + s[1..] == s;
  }

  // ----- the uses of a run -----

  /** The pages of a list of walks that are found mapped, in order. */
  function PageUses(table: map<nat, nat>, l: seq<Uop>): seq<nat> {
    if l == [] then []
    else PageUses(table, l[..|l| - 1]) + if l[|l| - 1].page in table then [l[|l| - 1].page] else []
  }

  /** The uses by walks that were postponed. */
  function PostponedUses(s: Mmu): seq<nat> {
    if s.q.faultBuffer == {} then PageUses(s.mem.table, s.q.faultRetry) else []
  }

  /** The uses by the walks that are due, earliest first. */
  ghost function DueUses(c: Config, s: Mmu, held: Uop -> bool): seq<nat>
    requires Inv(c, s)
    decreases |s.q.due|
  {
    hide Inv, WalkPage;
    if s.q.walkDue.Keys == {} || Least(s.q.walkDue.Keys) > s.cycle then []
    else
      var t := Least(s.q.walkDue.Keys);
      TakePageOk(c, s, t);
      PageUses(s.mem.table, s.q.walkUops[s.q.walkDue[t][0]]) + DueUses(c, WalkPage(c, s, t, held), held)
  }

  /** The TLB entries that retries use, from position `k` of the queue on. */
  function RetryUses(c: Config, s: Mmu, k: nat, latency: Uop -> int): seq<nat>
    requires Inv(c, s) && k <= |s.q.retry|
    decreases |s.q.retry| - k
  {
    hide Inv, RetryOne;
    if k == |s.q.retry| then []
    else
      var u, t := s.q.retry[k], RetryOne(c, s, k, latency);
      (if u !in s.paddr && Has(s.mem.tlb, u.page) then [u.page] else []) +
      RetryUses(c, t, if |t.q.retry| == |s.q.retry| then k + 1 else k, latency)
  }

  /** What one event uses: pages by walks that find them mapped and by being mapped, TLB entries by
      walks and by hits. */
  datatype Uses = Uses(pages: seq<nat>, entries: seq<nat>)

  /** The transfer of the first page in process is complete. */
  predicate TransferDue(s: Mmu) {
    && s.batch && s.started && s.transferStart.Some? && s.nextEvent.Some? && s.q.processing != []
    && s.cycle >= s.transferStart.value && s.cycle >= s.nextEvent.value
  }

  ghost function EventUses(c: Config, s: Mmu, e: Event): Uses
    requires Inv(c, s)
  {
    hide Inv, Cycle, RetryFrom, RetryFaults, DueUses, RetryUses;
    match e
    case Access(u) => Uses([], if u !in s.paddr && Has(s.mem.tlb, u.page) then [u.page] else [])
    case Faults => Uses(if TransferDue(s) then [s.q.processing[0]] else [], [])
    case Tick(locked, latency, held) =>
      if locked then Uses([], [])
      else
        var s1 := RetryFrom(c, s, 0, latency);
        var walks := PostponedUses(s1) + DueUses(c, RetryFaults(c, s1, held), held);
        Uses(walks, RetryUses(c, s, 0, latency) + walks)
  }

  /** All uses before state `k` of a run. */
  ghost function UsesOf(c: Config, run: seq<Mmu>, events: seq<Event>, k: nat): Uses
    requires IsRun(c, run, events) && k < |run|
  {
    hide IsRun, Inv, EventUses;
    if k == 0 then Uses([], [])
    else
      assert |run| == |events| + 1 by { RunLength(c, run, events); }
      AlwaysInv(c, run, events, k - 1);
      var before, now := UsesOf(c, run, events, k - 1), EventUses(c, run[k - 1], events[k - 1]);
      Uses(before.pages + now.pages, before.entries + now.entries)
  }

  lemma RunLength(c: Config, run: seq<Mmu>, events: seq<Event>)
    requires IsRun(c, run, events)
    ensures |run| == |events| + 1
  {
  }

  // ----- every operation keeps the orders -----

  lemma WalkSorted(c: Config, s: Mmu, u: Uop, held: Uop -> bool, pages: seq<nat>, entries: seq<nat>)
    requires Inv(c, s) && u !in s.q.where && UopOk(c, u) && Sorted(s.mem, pages, entries)
    ensures var more := if u.page in s.mem.table then [u.page] else [];
            Sorted(Walk(c, s, u, held).mem, pages + more, entries + more)
  {
    hide Sorted, Physical, WalkHit, UopOk, Agree, Tidy, BatchOk, UopsOk;
    if u.page in s.mem.table {
      WalkHitSorted(c, s.mem, u.page, pages, entries);
    } else {
      assert pages + [] == pages && entries + [] == entries;
    }
  }

  lemma {:induction false} WalkAllSorted(c: Config, s: Mmu, l: seq<Uop>, held: Uop -> bool, pages: seq<nat>, entries: seq<nat>)
    requires Inv(c, s) && NoDup(l) && forall u :: u in l ==> u !in s.q.where && UopOk(c, u)
    requires Sorted(s.mem, pages, entries)
    ensures var more := PageUses(s.mem.table, l);
            Sorted(WalkAll(c, s, l, held).mem, pages + more, entries + more)
  {
    hide Inv, UopOk, Walk, Sorted;
    if l == [] {
      assert pages + [] == pages && entries + [] == entries;
    } else {
      var rest, u := l[..|l| - 1], l[|l| - 1];
      assert Elems(l) == Elems(rest) + {u};
      WalkAllSorted(c, s, rest, held, pages, entries);
      var more, mid := PageUses(s.mem.table, rest), WalkAll(c, s, rest, held);
      WalkSorted(c, mid, u, held, pages + more, entries + more);
      var x := if u.page in s.mem.table then [u.page] else [];
      assert pages + more + x == pages + (more + x) && entries + more + x == entries + (more + x);
    }
  }

  lemma PostponedSorted(c: Config, s: Mmu, held: Uop -> bool, pages: seq<nat>, entries: seq<nat>)
    requires Inv(c, s) && Sorted(s.mem, pages, entries)
    ensures Sorted(RetryFaults(c, s, held).mem, pages + PostponedUses(s), entries + PostponedUses(s))
  {
    hide Inv, UopOk, WalkAll, Sorted;
    if s.q.faultBuffer != {} || s.q.faultRetry == [] {
      assert pages + [] == pages && entries + [] == entries;
    } else {
      TakeFaultRetryOk(c, s);
      WalkAllSorted(c, s.(q := TakeFaultRetry(s.q)), s.q.faultRetry, held, pages, entries);
    }
  }

  lemma WalkPageSorted(c: Config, s: Mmu, t: nat, held: Uop -> bool, pages: seq<nat>, entries: seq<nat>)
    requires Inv(c, s) && t in s.q.walkDue && Sorted(s.mem, pages, entries)
    ensures s.q.walkDue[t] != [] && s.q.walkDue[t][0] in s.q.walkUops
    ensures var more := PageUses(s.mem.table, s.q.walkUops[s.q.walkDue[t][0]]);
            Sorted(WalkPage(c, s, t, held).mem, pages + more, entries + more)
  {
    hide Inv, UopOk, WalkAll, Sorted, TakePage, PageUses;
    TakePageOk(c, s, t);
    WalkAllSorted(c, s.(q := TakePage(s.q, t)), s.q.walkUops[s.q.walkDue[t][0]], held, pages, entries);
  }

  lemma {:induction false} DueSorted(c: Config, s: Mmu, held: Uop -> bool, pages: seq<nat>, entries: seq<nat>)
    requires Inv(c, s) && Sorted(s.mem, pages, entries)
    ensures Sorted(WalkDue(c, s, held).mem, pages + DueUses(c, s, held), entries + DueUses(c, s, held))
    decreases |s.q.due|
  {
    hide Inv, WalkPage, Sorted, PageUses;
    if s.q.walkDue.Keys == {} || Least(s.q.walkDue.Keys) > s.cycle {
      assert pages + [] == pages && entries + [] == entries;
    } else {
      var t := Least(s.q.walkDue.Keys);
      WalkPageSorted(c, s, t, held, pages, entries);
      var x, mid := PageUses(s.mem.table, s.q.walkUops[s.q.walkDue[t][0]]), WalkPage(c, s, t, held);
      DueSorted(c, mid, held, pages + x, entries + x);
      var y := DueUses(c, mid, held);
      assert pages + x + y == pages + (x + y) && entries + x + y == entries + (x + y);
    }
  }

  lemma RetryOneSorted(c: Config, s: Mmu, k: nat, latency: Uop -> int, pages: seq<nat>, entries: seq<nat>)
    requires Inv(c, s) && k < |s.q.retry| && Sorted(s.mem, pages, entries)
    ensures var u := s.q.retry[k];
            Sorted(RetryOne(c, s, k, latency).mem, pages, entries + if u !in s.paddr && Has(s.mem.tlb, u.page) then [u.page] else [])
  {
    hide Inv, ByUse, Physical, Touch, Has;
    var u := s.q.retry[k];
    if u !in s.paddr && Has(s.mem.tlb, u.page) {
      TouchByUse(s.mem.tlb, entries, u.page);
    } else {
      assert entries + [] == entries;
    }
  }

  lemma {:induction false} RetrySorted(c: Config, s: Mmu, k: nat, latency: Uop -> int, pages: seq<nat>, entries: seq<nat>)
    requires Inv(c, s) && k <= |s.q.retry| && Sorted(s.mem, pages, entries)
    ensures Sorted(RetryFrom(c, s, k, latency).mem, pages, entries + RetryUses(c, s, k, latency))
    decreases |s.q.retry| - k
  {
    hide Inv, Sorted, RetryOne, Has;
    if k == |s.q.retry| {
      assert entries + [] == entries;
    } else {
      var u, t := s.q.retry[k], RetryOne(c, s, k, latency);
      var x := if u !in s.paddr && Has(s.mem.tlb, u.page) then [u.page] else [];
      var next := if |t.q.retry| == |s.q.retry| then k + 1 else k;
      RetryOneSorted(c, s, k, latency, pages, entries);
      RetrySorted(c, t, next, latency, pages, entries + x);
      assert entries + x + RetryUses(c, t, next, latency) == entries + (x + RetryUses(c, t, next, latency));
    }
  }

  lemma CycleSorted(c: Config, s: Mmu, latency: Uop -> int, held: Uop -> bool, pages: seq<nat>, entries: seq<nat>)
    requires Inv(c, s) && Sorted(s.mem, pages, entries)
    ensures var uses := EventUses(c, s, Tick(false, latency, held));
            Sorted(Cycle(c, s, false, latency, held).mem, pages + uses.pages, entries + uses.entries)
  {
    hide Inv, Sorted, RetryFrom, RetryFaults, WalkDue, RetryUses, PostponedUses, DueUses;
    var s1 := RetryFrom(c, s, 0, latency);
    var s2 := RetryFaults(c, s1, held);
    var hits, late, due := RetryUses(c, s, 0, latency), PostponedUses(s1), DueUses(c, s2, held);
    RetrySorted(c, s, 0, latency, pages, entries);
    PostponedSorted(c, s1, held, pages, entries + hits);
    DueSorted(c, s2, held, pages + late, entries + hits + late);
    assert pages + late + due == pages + (late + due);
    assert entries + hits + late + due == entries + (hits + (late + due));
  }

  lemma EvictSorted(m: Memory, pages: seq<nat>, entries: seq<nat>)
    requires Evictable(m) && Sorted(m, pages, entries)
    ensures Sorted(Evict(m), pages, entries)
  {
    hide ByUse;
    DropLastByUse(m.lru, pages);
    DropByUse(m.tlb, entries, m.lru[|m.lru| - 1].page);
  }

  lemma PrepareSorted(c: Config, s: Mmu, pages: seq<nat>, entries: seq<nat>)
    requires (s.mem.remaining <= 0 ==> Evictable(s.mem)) && Sorted(s.mem, pages, entries)
    ensures Sorted(Prepare(c, s).mem, pages, entries)
  {
    hide Sorted, Evict, Evictable;
    if s.mem.remaining <= 0 { EvictSorted(s.mem, pages, entries); }
  }

  lemma TransferSorted(c: Config, s: Mmu, pages: seq<nat>, entries: seq<nat>)
    requires Inv(c, s) && s.batch && s.started && Sorted(s.mem, pages, entries)
    ensures s.mem.next < |s.mem.free| && s.q.processing != [] && s.q.processing[0] in s.q.processingUops
    ensures Sorted(Transfer(c, s).mem, pages + [s.q.processing[0]], entries)
  {
    hide Inv, ByUse, Resolve, FreeFrame;
    AllocationOk(c, s);
    TransferStart(c, s);
    PushByUse(s.mem.lru, c.frames, Item(s.q.processing[0], 0), pages);
  }

  lemma DoBatchSorted(c: Config, s: Mmu, pages: seq<nat>, entries: seq<nat>)
    requires Inv(c, s) && s.batch && Sorted(s.mem, pages, entries)
    ensures Sorted(DoBatch(c, s).1.mem, pages + EventUses(c, s, Faults).pages, entries)
  {
    BatchFacts(c, s);
    hide Inv, Transfer, Prepare, Evictable, Sorted;
    assert pages + [] == pages;
    if s.cycle < s.transferStart.value {
    } else if !s.started {
      PrepareKeeps(c, s);
      PrepareSorted(c, s, pages, entries);
    } else if s.cycle >= s.nextEvent.value {
      NextTransferKeeps(c, s);
      TransferSorted(c, s, pages, entries);
      var t := Transfer(c, s);
      if t.q.processing != [] { PrepareSorted(c, t, pages + [s.q.processing[0]], entries); }
    }
  }

  lemma FaultsSorted(c: Config, s: Mmu, pages: seq<nat>, entries: seq<nat>)
    requires Inv(c, s) && Sorted(s.mem, pages, entries)
    ensures Sorted(HandleFaults(c, s).mem, pages + EventUses(c, s, Faults).pages, entries)
  {
    hide Inv, DoBatch, Sorted;
    if s.batch {
      DoBatchSorted(c, s, pages, entries);
    } else {
      assert pages + [] == pages;
    }
  }

  lemma StepSorted(c: Config, s: Mmu, e: Event, pages: seq<nat>, entries: seq<nat>)
    requires Inv(c, s) && EventOk(c, s, e) && Sorted(s.mem, pages, entries)
    ensures var uses := EventUses(c, s, e);
            Sorted(Apply(c, s, e).mem, pages + uses.pages, entries + uses.entries)
  {
    hide Inv, Sorted, HandleFaults, Cycle, Translate;
    assert pages + [] == pages && entries + [] == entries;
    match e
    case Access(u) => AccessSorted(c, s, u, pages, entries);
    case Faults => FaultsSorted(c, s, pages, entries);
    case Tick(locked, latency, held) =>
      if locked {
        assert Cycle(c, s, true, latency, held).mem == s.mem by { LockedCycle(c, s, latency, held); }
      } else {
        CycleSorted(c, s, latency, held, pages, entries);
      }
  }

  lemma LockedCycle(c: Config, s: Mmu, latency: Uop -> int, held: Uop -> bool)
    requires Inv(c, s)
    ensures Cycle(c, s, true, latency, held) == s.(cycle := s.cycle + 1)
  {
  }

  lemma AccessSorted(c: Config, s: Mmu, u: Uop, pages: seq<nat>, entries: seq<nat>)
    requires Inv(c, s) && u !in s.q.where && UopOk(c, u) && Sorted(s.mem, pages, entries)
    ensures Sorted(Translate(c, s, u).1.mem, pages, entries + if u !in s.paddr && Has(s.mem.tlb, u.page) then [u.page] else [])
  {
    hide Inv, ByUse, Physical, Touch, Has;
    if u !in s.paddr && Has(s.mem.tlb, u.page) {
      TouchByUse(s.mem.tlb, entries, u.page);
    } else {
      assert entries + [] == entries;
    }
  }

  // ----- over runs -----

  /** In every reachable state the replacement unit lists the mapped pages in the order of their last
      use, and the TLB its entries, the most recently used one first. */
  lemma {:induction false} OrdersByUse(c: Config, run: seq<Mmu>, events: seq<Event>, k: nat)
    requires IsRun(c, run, events) && k < |run|
    ensures var uses := UsesOf(c, run, events, k);
            ByUse(run[k].mem.lru, uses.pages) && ByUse(run[k].mem.tlb, uses.entries)
  {
    hide IsRun, Inv, EventUses, Apply, EventOk, ByUse, UsesOf;
    if k == 0 {
      StartSorted(c, run, events);
    } else {
      OrdersByUse(c, run, events, k - 1);
      RunLength(c, run, events);
      RunStep(c, run, events, k - 1);
      UsesNext(c, run, events, k - 1);
      var before := UsesOf(c, run, events, k - 1);
      StepSorted(c, run[k - 1], events[k - 1], before.pages, before.entries);
    }
  }

  lemma UsesNext(c: Config, run: seq<Mmu>, events: seq<Event>, k: nat)
    requires IsRun(c, run, events) && |run| == |events| + 1 && k < |events| && Inv(c, run[k])
    ensures var before, now := UsesOf(c, run, events, k), EventUses(c, run[k], events[k]);
            UsesOf(c, run, events, k + 1) == Uses(before.pages + now.pages, before.entries + now.entries)
  {
    hide IsRun, Inv, EventUses;
  }

  lemma StartSorted(c: Config, run: seq<Mmu>, events: seq<Event>)
    requires IsRun(c, run, events)
    ensures |run| > 0 && UsesOf(c, run, events, 0) == Uses([], []) && Sorted(run[0].mem, [], [])
  {
  }

  lemma RunStep(c: Config, run: seq<Mmu>, events: seq<Event>, k: nat)
    requires IsRun(c, run, events) && k < |events|
    ensures |run| == |events| + 1 && Inv(c, run[k]) && EventOk(c, run[k], events[k]) && run[k + 1] == Apply(c, run[k], events[k])
  {
    AlwaysInv(c, run, events, k);
    assert Steps(c, run[k], events[k], run[k + 1]);
  }

  /** Only handling faults takes a page away: the last one of the order. */
  lemma TakenIsLast(c: Config, s: Mmu, e: Event, page: nat)
    requires Inv(c, s) && EventOk(c, s, e) && page in s.mem.table && page !in Apply(c, s, e).mem.table
    ensures e.Faults? && s.mem.lru != [] && s.mem.lru[|s.mem.lru| - 1].page == page
  {
    hide Inv, HandleFaults, Cycle;
    match e
    case Access(u) =>
    case Faults => FaultsTake(c, s, page);
    case Tick(locked, latency, held) => CycleTable(c, s, locked, latency, held);
  }

  lemma PrepareTakes(c: Config, s: Mmu, page: nat)
    requires (s.mem.remaining <= 0 ==> Evictable(s.mem)) && page in s.mem.table && page !in Prepare(c, s).mem.table
    ensures s.mem.lru != [] && s.mem.lru[|s.mem.lru| - 1].page == page
  {
  }

  lemma FaultsTake(c: Config, s: Mmu, page: nat)
    requires Inv(c, s) && page in s.mem.table && page !in HandleFaults(c, s).mem.table
    ensures s.mem.lru != [] && s.mem.lru[|s.mem.lru| - 1].page == page
  {
    hide Inv, Transfer, Prepare, Evictable;
    assert s.batch;
    BatchFacts(c, s);
    if !s.started {
      PrepareKeeps(c, s);
      PrepareTakes(c, s, page);
    } else {
      NextTransferKeeps(c, s);
      var t := Transfer(c, s);
      TransferRanks(c, s);
      if t.q.processing != [] { PrepareTakes(c, t, page); }
    }
  }

  lemma TransferRanks(c: Config, s: Mmu)
    requires Inv(c, s) && s.batch && s.started
    ensures s.mem.next < |s.mem.free| && s.q.processing != [] && s.q.processing[0] in s.q.processingUops
    ensures var t := Transfer(c, s);
            && s.q.processing[0] !in s.mem.table && t.mem.table.Keys == s.mem.table.Keys + {s.q.processing[0]}
            && t.mem.lru == [Item(s.q.processing[0], 0)] + s.mem.lru
  {
    AllocationOk(c, s);
    TransferStart(c, s);
    assert s.q.processing[0] in s.q.processing;
    hide Agree, Tidy, Resolve, FreeFrame, UopsOk;
  }

  /** A page that loses its frame is the one whose last use, of all the mapped pages, is longest ago. */
  lemma VictimLeastUsed(c: Config, run: seq<Mmu>, events: seq<Event>, k: nat, victim: nat, other: nat)
    requires IsRun(c, run, events) && |run| == |events| + 1 && k < |events|
    requires victim in run[k].mem.table && victim !in run[k + 1].mem.table
    requires other in run[k].mem.table && other != victim
    ensures var uses := UsesOf(c, run, events, k).pages; Last(uses, victim) < Last(uses, other)
  {
    hide IsRun, Inv, Apply, EventOk, UsesOf;
    OrdersByUse(c, run, events, k);
    RunStep(c, run, events, k);
    RankedIn(c, run[k], other);
    TakenIsLast(c, run[k], events[k], victim);
  }
}
