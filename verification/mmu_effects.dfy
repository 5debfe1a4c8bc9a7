/** What becomes of a waiting uop in a cycle of the MMU: retries, walks that are due and walks that
    were postponed. */
module MmuEffects {
  import opened Lists
  import opened Options
  import opened LruOrder
  import opened MmuMemory
  import opened MmuQueues
  import opened MmuMachine

  /** The walk of `u` is over: if its page is mapped it is translated and may retry its access, and
      if not its fault is on record, or was postponed. */
  ghost predicate Walked(table: map<nat, nat>, r: Mmu, u: Uop) {
    && u in r.q.where
    && if u.page in table then r.q.where[u] == Retrying && u in r.paddr
       else r.q.where[u] == Faulted || r.q.where[u] == FaultRetrying
  }

  /** The uop waits where it waited before. */
  ghost predicate Stays(s: Mmu, r: Mmu, u: Uop) {
    u in s.q.where && u in r.q.where && r.q.where[u] == s.q.where[u]
  }

  /** One walk. A mapped page is used in TLB and replacement order and its uop joins the retry queue;
      the fault of an unmapped one is recorded, unless the uop's parent is new, the page has no fault
      on record and the fault buffer is full. */
  lemma WalkLaw(c: Config, s: Mmu, u: Uop, held: Uop -> bool)
    requires Inv(c, s) && u !in s.q.where && UopOk(c, u)
    ensures var r := Walk(c, s, u, held);
            if u.page in s.mem.table then
              && r.q.retry == s.q.retry + [u] && r.q == s.q.(retry := r.q.retry, where := r.q.where)
              && r.mem.tlb != [] && r.mem.tlb[0] == Item(u.page, s.mem.table[u.page])
              && MovedFirst(s.mem.lru, r.mem.lru, u.page) && r.mem == s.mem.(tlb := r.mem.tlb, lru := r.mem.lru)
            else if held(u) && u.page !in s.q.faultBuffer && |s.q.faultBuffer| >= c.faultBufferSize then
              && r.q.faultRetry == s.q.faultRetry + [u] && r == s.(q := s.q.(faultRetry := r.q.faultRetry, where := r.q.where))
            else
              && r.q.faultBuffer == s.q.faultBuffer + {u.page} && InPage(r.q.faultUops, u)
              && r == s.(q := s.q.(faultBuffer := r.q.faultBuffer, faultUops := r.q.faultUops, where := r.q.where))
  {
    hide Inv, UopOk, Physical, WalkHit, MovedFirst, WalkMapped, WalkFault, WalkFrame, InPage;
    if u.page in s.mem.table {
      WalkMappedLaw(c, s, u);
    } else {
      WalkFaultLaw(c, s, u);
    }
  }

  lemma WalkFaultLaw(c: Config, s: Mmu, u: Uop)
    requires Inv(c, s) && u !in s.q.where && UopOk(c, u) && u.page !in s.mem.table
    ensures var r := WalkFault(c, s, u);
            && r.q.faultBuffer == s.q.faultBuffer + {u.page} && InPage(r.q.faultUops, u)
            && r == s.(q := s.q.(faultBuffer := r.q.faultBuffer, faultUops := r.q.faultUops, where := r.q.where))
  {
    hide Inv, UopOk, WalkFrame;
  }

  lemma WalkMappedLaw(c: Config, s: Mmu, u: Uop)
    requires Inv(c, s) && u.page in s.mem.table
    ensures var r := WalkMapped(c, s, u);
            && r.q.retry == s.q.retry + [u] && r.q == s.q.(retry := r.q.retry, where := r.q.where)
            && r.mem.tlb != [] && r.mem.tlb[0] == Item(u.page, s.mem.table[u.page])
            && MovedFirst(s.mem.lru, r.mem.lru, u.page) && r.mem == s.mem.(tlb := r.mem.tlb, lru := r.mem.lru)
  {
    HitFirst(c, s, u.page);
    RankedIn(c, s, u.page);
    TouchFirst(s.mem.lru, u.page);
    hide Inv, Physical, Touch, Push, Has, MovedFirst;
  }

  lemma HitFirst(c: Config, s: Mmu, page: nat)
    requires Inv(c, s) && page in s.mem.table
    ensures var tlb := WalkHit(c, s.mem, page).tlb; tlb != [] && tlb[0] == Item(page, s.mem.table[page])
  {
    hide Tidy, Mapped, Frames, Ranked;
    if Has(s.mem.tlb, page) {
      HitAgreesWithWalk(c, s.mem, page);
    } else {
      assert Push(s.mem.tlb, c.tlbSize, Item(page, s.mem.table[page]))[0].page == page;
    }
  }

  lemma WalkSpot(c: Config, s: Mmu, u: Uop, held: Uop -> bool, x: Uop)
    requires Inv(c, s) && u !in s.q.where && UopOk(c, u)
    ensures Walked(s.mem.table, Walk(c, s, u, held), u)
    ensures x in s.q.where ==> Stays(s, Walk(c, s, u, held), x)
  {
    hide Inv, Physical, WalkHit, Enqueue;
  }

  lemma {:induction false} WalkAllSpot(c: Config, s: Mmu, l: seq<Uop>, held: Uop -> bool, x: Uop)
    requires Inv(c, s) && NoDup(l) && forall u :: u in l ==> u !in s.q.where && UopOk(c, u)
    ensures x in l ==> Walked(s.mem.table, WalkAll(c, s, l, held), x)
    ensures x in s.q.where ==> Stays(s, WalkAll(c, s, l, held), x)
  {
    hide Inv, UopOk, Walk;
    if l != [] {
      var rest, u := l[..|l| - 1], l[|l| - 1];
      assert Elems(l) == Elems(rest) + {u};
      WalkAllSpot(c, s, rest, held, x);
      WalkSpot(c, WalkAll(c, s, rest, held), u, held, x);
    }
  }

  /** Postponed walks are done again exactly when the fault buffer is empty. */
  lemma RetryFaultsSpot(c: Config, s: Mmu, held: Uop -> bool, x: Uop)
    requires Inv(c, s) && x in s.q.where
    ensures var r := RetryFaults(c, s, held);
            if s.q.faultBuffer == {} && s.q.where[x] == FaultRetrying then Walked(s.mem.table, r, x) else Stays(s, r, x)
  {
    hide Inv, UopOk, WalkAll;
    SpotOf(c, s, x);
    if s.q.faultBuffer == {} && s.q.faultRetry != [] {
      TakeFaultRetryOk(c, s);
      WalkAllSpot(c, s.(q := TakeFaultRetry(s.q)), s.q.faultRetry, held, x);
    }
  }

  /** Where a uop waits it is listed, and it is listed nowhere else. */
  lemma SpotOf(c: Config, s: Mmu, x: Uop)
    requires Inv(c, s) && x in s.q.where
    ensures x in s.q.faultRetry <==> s.q.where[x] == FaultRetrying
    ensures x in s.q.retry <==> s.q.where[x] == Retrying
    ensures InPage(s.q.walkUops, x) <==> s.q.where[x] == Walking
    ensures s.q.where[x] == Walking ==> x.page in s.q.due && s.q.due[x.page] in s.q.walkDue && x.page in s.q.walkDue[s.q.due[x.page]]
  {
    hide Agree, PageOf, OffsetOf;
    assert Waits(s.q, x, s.q.where[x]);
    if InPage(s.q.walkUops, x) { assert PageList(s.q.where, s.q.walkUops[x.page], Walking, x.page); }
  }

  /** Who walks for the first page that is due at `t`. */
  lemma WalkersOf(c: Config, s: Mmu, t: nat, x: Uop)
    requires Inv(c, s) && t in s.q.walkDue && x in s.q.where
    ensures s.q.walkDue[t] != [] && s.q.walkDue[t][0] in s.q.walkUops && s.q.walkDue[t][0] in s.q.due && s.q.due[s.q.walkDue[t][0]] == t
    ensures x in s.q.walkUops[s.q.walkDue[t][0]] <==> s.q.where[x] == Walking && x.page == s.q.walkDue[t][0]
  {
    hide Agree, PageOf, OffsetOf;
    assert DueOk(s.q.due, s.q.walkDue[t], t);
    var p := s.q.walkDue[t][0];
    assert PageList(s.q.where, s.q.walkUops[p], Walking, p);
    assert Waits(s.q, x, s.q.where[x]);
  }

  lemma WalkPageSpot(c: Config, s: Mmu, t: nat, held: Uop -> bool, x: Uop)
    requires Inv(c, s) && t in s.q.walkDue && x in s.q.where
    ensures s.q.walkDue[t] != []
    ensures var r, p := WalkPage(c, s, t, held), s.q.walkDue[t][0];
            && r.mem.table == s.mem.table && r.q.due == s.q.due - {p} && p in s.q.due && s.q.due[p] == t
            && if s.q.where[x] == Walking && x.page == p then Walked(s.mem.table, r, x) else Stays(s, r, x)
  {
    hide Inv, UopOk, WalkAll, Tidy;
    WalkersOf(c, s, t, x);
    TakePageOk(c, s, t);
    var l := s.q.walkUops[s.q.walkDue[t][0]];
    WalkAllSpot(c, s.(q := TakePage(s.q, t)), l, held, x);
  }

  /** The walks that are due: a uop whose walk has ended by now is through with it, and no other uop
      moves. */
  lemma {:induction false} WalkDueSpot(c: Config, s: Mmu, held: Uop -> bool, x: Uop)
    requires Inv(c, s) && x in s.q.where
    ensures var r := WalkDue(c, s, held);
            && r.mem.table == s.mem.table
            && if s.q.where[x] == Walking && x.page in s.q.due && s.q.due[x.page] <= s.cycle then Walked(s.mem.table, r, x)
               else Stays(s, r, x) && (s.q.where[x] == Walking && x.page in s.q.due ==> x.page in r.q.due && r.q.due[x.page] == s.q.due[x.page])
    decreases |s.q.due|
  {
    hide Inv, WalkPage;
    SpotOf(c, s, x);
    if s.q.walkDue.Keys != {} && Least(s.q.walkDue.Keys) <= s.cycle {
      var t := Least(s.q.walkDue.Keys);
      WalkPageSpot(c, s, t, held, x);
      WalkDueSpot(c, WalkPage(c, s, t, held), held, x);
    }
  }

  // ----- retries -----

  /** What an access of the cache made of uop `x`, which waited to retry it: if it has an address, or
      the TLB gives it one, it leaves with a result and stays without; else it waits for a walk. */
  ghost predicate Retried(c: Config, s: Mmu, r: Mmu, x: Uop, latency: Uop -> int) {
    if x in s.paddr || Has(s.mem.tlb, x.page) then
      x in r.paddr && if latency(x) != 0 then x !in r.q.where else x in r.q.where && r.q.where[x] == Retrying
    else
      && x in r.q.where && r.q.where[x] == Walking
      && x.page in r.q.due && r.q.due[x.page] == if x.page in s.q.due then s.q.due[x.page] else s.cycle + c.walkLatency
  }

  /** What a retry leaves alone: the pages of TLB and page table, the faults, and walks under way. */
  ghost predicate RetryRest(c: Config, s: Mmu, r: Mmu) {
    && (forall p :: Has(r.mem.tlb, p) <==> Has(s.mem.tlb, p)) && r.mem.table == s.mem.table
    && r.q.faultBuffer == s.q.faultBuffer && r.q.faultRetry == s.q.faultRetry
    && r.cycle == s.cycle
    && (forall p :: p in s.q.due ==> p in r.q.due && r.q.due[p] == s.q.due[p])
    && (forall p :: p in r.q.due && p !in s.q.due ==> r.q.due[p] == s.cycle + c.walkLatency)
  }

  /** One retry concerns one uop. */
  lemma RetryOneSpot(c: Config, s: Mmu, k: nat, latency: Uop -> int, x: Uop)
    requires Inv(c, s) && k < |s.q.retry|
    ensures var r := RetryOne(c, s, k, latency);
            && RetryRest(c, s, r)
            && (x == s.q.retry[k] ==> Retried(c, s, r, x, latency))
            && (x != s.q.retry[k] ==> (x in r.q.where <==> x in s.q.where) && (x in s.q.where ==> Stays(s, r, x)) && (x in r.paddr <==> x in s.paddr))
  {
    hide Inv, UopOk, RetryHit, RetryDone, RetryMiss, Has;
    var u := s.q.retry[k];
    if u in s.paddr || Has(s.mem.tlb, u.page) {
      var t := RetryHit(c, s, u);
      RetryHitSpot(c, s, u);
      LeaveRetryOk(c, s, k);
      SpotOf(c, s, u);
      if latency(u) != 0 { RetryDoneSpot(c, t, k); }
    } else {
      RetryMissKeeps(c, s, k);
      RetryMissSpot(c, s, k, latency);
    }
  }

  lemma RetryHitSpot(c: Config, s: Mmu, u: Uop)
    requires Inv(c, s) && (u in s.paddr || Has(s.mem.tlb, u.page))
    ensures var r := RetryHit(c, s, u);
            RetryRest(c, s, r) && r.q == s.q && r.paddr.Keys == s.paddr.Keys + {u}
  {
    hide Inv, Touch, Physical;
    TouchSame(c, s, u.page);
    hide Has;
  }

  lemma RetryDoneSpot(c: Config, s: Mmu, k: nat)
    requires Inv(c, s) && k < |s.q.retry|
    ensures var r := RetryDone(c, s, k);
            && r == s.(q := r.q) && r.q == s.q.(retry := r.q.retry, where := r.q.where) && s.q.retry[k] !in r.q.where
            && forall x :: x != s.q.retry[k] ==> (x in r.q.where <==> x in s.q.where) && (x in s.q.where ==> Stays(s, r, x))
  {
    hide Inv;
  }

  lemma RetryMissSpot(c: Config, s: Mmu, k: nat, latency: Uop -> int)
    requires Inv(c, s) && k < |s.q.retry| && s.q.retry[k] !in s.paddr && !Has(s.mem.tlb, s.q.retry[k].page)
    ensures var r := RetryMiss(c, s, k);
            && RetryRest(c, s, r) && r.paddr == s.paddr && Retried(c, s, r, s.q.retry[k], latency)
            && forall x :: x != s.q.retry[k] ==> (x in r.q.where <==> x in s.q.where) && (x in s.q.where ==> Stays(s, r, x))
  {
    hide Inv, Has;
    SameWalks(c, s);
  }

  lemma SameWalks(c: Config, s: Mmu)
    requires Inv(c, s)
    ensures s.q.due.Keys == s.q.walkUops.Keys
  {
  }

  lemma TouchSame(c: Config, s: Mmu, page: nat)
    requires Inv(c, s)
    ensures forall p :: Has(Touch(s.mem.tlb, page), p) <==> Has(s.mem.tlb, p)
  {
    hide Tidy, Mapped, Frames, Ranked, PageOf, OffsetOf;
    TouchKeeps(s.mem.tlb, page);
  }

  /** The whole retry queue: every uop in it has its access, once, and no other uop moves. */
  lemma {:induction false} RetryFromSpot(c: Config, s: Mmu, k: nat, latency: Uop -> int, x: Uop)
    requires Inv(c, s) && k <= |s.q.retry|
    ensures var r := RetryFrom(c, s, k, latency);
            && RetryRest(c, s, r)
            && (x in s.q.retry[k..] ==> Retried(c, s, r, x, latency))
            && (x in s.q.where && x !in s.q.retry[k..] ==> Stays(s, r, x))
            && (x !in s.q.retry[k..] ==> (x in r.paddr <==> x in s.paddr) && (x in r.q.where <==> x in s.q.where))
    decreases |s.q.retry| - k
  {
    hide Inv, RetryOne, Has, RetryRest, Retried, Stays;
    if k < |s.q.retry| {
      var u, t := s.q.retry[k], RetryOne(c, s, k, latency);
      var next := if |t.q.retry| == |s.q.retry| then k + 1 else k;
      RetryOneSpot(c, s, k, latency, x);
      assert s.q.retry[k..] == [u] + s.q.retry[k + 1..];
      assert t.q.retry[next..] == s.q.retry[k + 1..];
      assert u !in s.q.retry[k + 1..] by { RetryOnce(c, s, k); }
      RetryFromSpot(c, t, next, latency, x);
      RetryOn(c, s, t, RetryFrom(c, t, next, latency), latency, x, x == u, x in s.q.retry[k + 1..]);
    } else {
      RetryNone(c, s, x);
    }
  }

  lemma RetryOnce(c: Config, s: Mmu, k: nat)
    requires Inv(c, s) && k < |s.q.retry|
    ensures s.q.retry[k] !in s.q.retry[k + 1..]
  {
    hide Agree;
  }

  lemma RetryNone(c: Config, s: Mmu, x: Uop)
    ensures RetryRest(c, s, s) && (x in s.q.where ==> Stays(s, s, x))
  {
  }

  lemma RetryOn(c: Config, s: Mmu, t: Mmu, r: Mmu, latency: Uop -> int, x: Uop, first: bool, later: bool)
    requires RetryRest(c, s, t) && RetryRest(c, t, r) && !(first && later)
    requires first ==> Retried(c, s, t, x, latency)
    requires !first ==> (x in t.q.where <==> x in s.q.where) && (x in s.q.where ==> Stays(s, t, x)) && (x in t.paddr <==> x in s.paddr)
    requires later ==> Retried(c, t, r, x, latency)
    requires !later ==> (x in t.q.where ==> Stays(t, r, x)) && (x in r.paddr <==> x in t.paddr) && (x in r.q.where <==> x in t.q.where)
    ensures RetryRest(c, s, r)
    ensures first || later ==> Retried(c, s, r, x, latency)
    ensures !first && !later ==> (x in r.paddr <==> x in s.paddr) && (x in r.q.where <==> x in s.q.where) && (x in s.q.where ==> Stays(s, r, x))
  {
    hide Has;
  }

  // ----- a whole cycle -----

  lemma {:induction false} WalkDueTable(c: Config, s: Mmu, held: Uop -> bool)
    requires Inv(c, s)
    ensures WalkDue(c, s, held).mem.table == s.mem.table
    decreases |s.q.due|
  {
    hide Inv, WalkAll, TakePage, UopOk;
    if s.q.walkDue.Keys != {} && Least(s.q.walkDue.Keys) <= s.cycle {
      var t := Least(s.q.walkDue.Keys);
      TakePageOk(c, s, t);
      WalkDueTable(c, WalkPage(c, s, t, held), held);
    }
  }

  /** A cycle maps no page and takes none away. */
  lemma CycleTable(c: Config, s: Mmu, locked: bool, latency: Uop -> int, held: Uop -> bool)
    requires Inv(c, s)
    ensures Cycle(c, s, locked, latency, held).mem.table == s.mem.table
  {
    hide Inv, RetryFrom, RetryFaults, WalkDue, Has;
    if !locked {
      var s1 := RetryFrom(c, s, 0, latency);
      RetryFromSpot(c, s, 0, latency, Uop(0, 0, 0));
      WalkDueTable(c, RetryFaults(c, s1, held), held);
    }
  }

  /** What one unlocked cycle makes of a waiting uop. A walk that is due ends, a walk that was
      postponed is done again if the fault buffer is empty, an access is retried, and in the other
      cases the uop waits on. */
  lemma CycleSpot(c: Config, s: Mmu, latency: Uop -> int, held: Uop -> bool, x: Uop)
    requires Inv(c, s) && x in s.q.where
    ensures var r := Cycle(c, s, false, latency, held);
            match s.q.where[x]
            case Walking =>
              x.page in s.q.due &&
              if s.q.due[x.page] <= s.cycle then Walked(s.mem.table, r, x)
              else Stays(s, r, x) && x.page in r.q.due && r.q.due[x.page] == s.q.due[x.page]
            case FaultRetrying => if s.q.faultBuffer == {} then Walked(s.mem.table, r, x) else Stays(s, r, x)
            case Retrying =>
              if x in s.paddr || Has(s.mem.tlb, x.page) then
                x in r.paddr && if latency(x) != 0 then x !in r.q.where else x in r.q.where && r.q.where[x] == Retrying
              else
                var due := if x.page in s.q.due then s.q.due[x.page] else s.cycle + c.walkLatency;
                if due <= s.cycle then Walked(s.mem.table, r, x) else x in r.q.where && r.q.where[x] == Walking && x.page in r.q.due && r.q.due[x.page] == due
            case _ => Stays(s, r, x)
  {
    hide Inv, RetryFrom, RetryFaults, WalkDue, Has;
    var s1 := RetryFrom(c, s, 0, latency);
    var s2 := RetryFaults(c, s1, held);
    assert s.q.retry[0..] == s.q.retry;
    SpotOf(c, s, x);
    RetryFromSpot(c, s, 0, latency, x);
    if x in s1.q.where {
      RetryFaultsSpot(c, s1, held, x);
      WalkDueSpot(c, s2, held, x);
    } else {
      assert x !in Cycle(c, s, false, latency, held).q.where;
    }
  }
}
