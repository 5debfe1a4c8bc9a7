/** The MMU as a machine: translation, page-table walks, retries and batched page faults. */
module MmuMachine {
  import opened Lists
  import opened Options
  import opened LruOrder
  import opened MmuMemory
  import opened MmuQueues

  /** `paddr` holds the physical addresses of the uops that were translated. */
  datatype Mmu = Mmu(
    mem: Memory,
    q: Queues,
    cycle: nat,
    batch: bool,
    started: bool,
    transferStart: Option<nat>,
    nextEvent: Option<nat>,
    paddr: map<Uop, nat>)

  predicate UopOk(c: Config, u: Uop) {
    u.page == PageOf(c, u.vaddr)
  }

  /** Faulted pages are unmapped, and a batch that started has a free frame to use. */
  ghost predicate BatchOk(s: Mmu) {
    && (forall p :: p in s.q.faultBuffer ==> p !in s.mem.table)
    && (forall p :: p in s.q.processing ==> p !in s.mem.table)
    && (s.batch <==> s.q.processing != [])
    && (s.batch ==> s.transferStart.Some?)
    && (s.batch && s.started ==> s.nextEvent.Some? && s.mem.remaining > 0)
  }

  ghost predicate UopsOk(c: Config, s: Mmu) {
    && (forall u :: u in s.q.where ==> UopOk(c, u))
    && (forall u :: u in s.paddr ==> OffsetOf(c, s.paddr[u]) == OffsetOf(c, u.vaddr))
  }

  ghost predicate Inv(c: Config, s: Mmu) {
    Agree(c, s.mem) && Tidy(s.q) && BatchOk(s) && UopsOk(c, s)
  }

  function Init(c: Config, cycle: nat): Mmu {
    Mmu(Memory(map[], seq(c.frames, _ => true), c.frames, 0, [], [], map[]), EMPTY, cycle, false, false, None, None, map[])
  }

  lemma {:induction false} AllFree(n: nat)
    ensures CountFree(seq(n, _ => true)) == n
  {
    if n > 0 {
      AllFree(n - 1);
      assert seq(n, _ => true)[1..] == seq(n - 1, _ => true);
    }
  }

  lemma InitKeeps(c: Config, cycle: nat)
    ensures Inv(c, Init(c, cycle))
  {
    AllFree(c.frames);
  }

  // ----- translation -----

  /** The entry of the page has moved to the front, and the others keep their order. */
  ghost predicate MovedFirst(tlb: Order, after: Order, page: nat) {
    exists k: nat :: MovedFrom(tlb, after, page, k)
  }

  ghost predicate MovedFrom(tlb: Order, after: Order, page: nat, k: nat) {
    k < |tlb| && tlb[k].page == page && after == [tlb[k]] + (tlb[..k] + tlb[k + 1..])
  }

  /** A TLB hit uses the entry of the page and translates the uop; nothing else changes. */
  ghost predicate UsedTlb(s: Mmu, r: Mmu, u: Uop) {
    && MovedFirst(s.mem.tlb, r.mem.tlb, u.page)
    && r == s.(mem := s.mem.(tlb := r.mem.tlb), paddr := r.paddr)
    && u in r.paddr && r.paddr == s.paddr[u := r.paddr[u]]
  }

  /** The uop is the last one that waits for the walk of its page. A walk that was under way goes
      on as it was; otherwise one starts that ends after the walk latency. */
  ghost predicate JoinedWalk(c: Config, s: Mmu, r: Mmu, u: Uop) {
    var before := if u.page in s.q.walkUops then s.q.walkUops[u.page] else [];
    && r.q.walkUops == s.q.walkUops[u.page := before + [u]]
    && r.q == s.q.(walkUops := r.q.walkUops, where := r.q.where, walkDue := r.q.walkDue, due := r.q.due)
    && if before != [] then r.q.walkDue == s.q.walkDue
       else
         var ready := s.cycle + c.walkLatency;
         r.q.walkDue == s.q.walkDue[ready := (if ready in s.q.walkDue then s.q.walkDue[ready] else []) + [u.page]]
  }

  lemma MissJoins(c: Config, s: Mmu, u: Uop)
    requires Inv(c, s)
    ensures JoinedWalk(c, s, s.(q := Enqueue(s.q, u, s.cycle + c.walkLatency)), u)
  {
    if u.page in s.q.walkUops { assert PageList(s.q.where, s.q.walkUops[u.page], Walking, u.page); }
  }

  lemma TouchFirst(tlb: Order, page: nat)
    requires Has(tlb, page)
    ensures MovedFirst(tlb, Touch(tlb, page), page)
  {
    assert MovedFrom(tlb, Touch(tlb, page), page, Find(tlb, page));
  }

  /** A TLB hit translates the uop and makes the entry the most recently used one. */
  function HitTlb(c: Config, s: Mmu, u: Uop): (r: Mmu)
    requires Inv(c, s) && Has(s.mem.tlb, u.page)
    ensures Inv(c, r) && r.q == s.q && r.mem.table == s.mem.table
    ensures u in r.paddr && u.page in s.mem.table && r.paddr[u] == Physical(c, s.mem.table[u.page], u.vaddr)
    ensures UsedTlb(s, r, u)
  {
    hide Inv, Physical, MovedFirst, Touch;
    var frame := s.mem.tlb[Find(s.mem.tlb, u.page)].frame;
    HitKeeps(c, s, u);
    TouchFirst(s.mem.tlb, u.page);
    s.(mem := s.mem.(tlb := Touch(s.mem.tlb, u.page)), paddr := s.paddr[u := Physical(c, frame, u.vaddr)])
  }

  lemma HitKeeps(c: Config, s: Mmu, u: Uop)
    requires Inv(c, s) && Has(s.mem.tlb, u.page)
    ensures u.page in s.mem.table && s.mem.tlb[Find(s.mem.tlb, u.page)].frame == s.mem.table[u.page]
    ensures Inv(c, s.(mem := s.mem.(tlb := Touch(s.mem.tlb, u.page)),
                      paddr := s.paddr[u := Physical(c, s.mem.table[u.page], u.vaddr)]))
  {
    hide Tidy, Mapped, Frames, Ranked, Cached, Physical, OffsetOf, PageOf;
    HitAgreesWithWalk(c, s.mem, u.page);
    TouchCached(c, s.mem.table, s.mem.tlb, u.page);
    PhysicalParts(c, s.mem.table[u.page], u.vaddr);
  }

  /** A TLB miss puts the uop into the walk queue. */
  function MissTlb(c: Config, s: Mmu, u: Uop): (r: Mmu)
    requires Inv(c, s) && u !in s.q.where && UopOk(c, u)
    ensures Inv(c, r) && r.q.where.Keys == s.q.where.Keys + {u} && r.paddr == s.paddr
    ensures JoinedWalk(c, s, r, u) && r == s.(q := r.q)
  {
    hide Inv, JoinedWalk;
    MissKeeps(c, s, u);
    MissJoins(c, s, u);
    s.(q := Enqueue(s.q, u, s.cycle + c.walkLatency))
  }

  lemma MissKeeps(c: Config, s: Mmu, u: Uop)
    requires Inv(c, s) && u !in s.q.where && UopOk(c, u)
    ensures Inv(c, s.(q := Enqueue(s.q, u, s.cycle + c.walkLatency)))
  {
    hide Tidy, Agree, OffsetOf, PageOf;
    EnqueueKeeps(s.q, u, s.cycle + c.walkLatency);
  }

  /** `translate`: the result says whether the uop has a physical address now. */
  function Translate(c: Config, s: Mmu, u: Uop): (r: (bool, Mmu))
    requires Inv(c, s) && u !in s.q.where && UopOk(c, u)
    ensures Inv(c, r.1)
    ensures r.0 <==> u in r.1.paddr
    ensures r.1.q.where.Keys == if r.0 then s.q.where.Keys else s.q.where.Keys + {u}
    ensures r.0 && u !in s.paddr ==>
              u.page in s.mem.table && r.1.paddr[u] == Physical(c, s.mem.table[u.page], u.vaddr)
    ensures r.0 <==> u in s.paddr || Has(s.mem.tlb, u.page)
    ensures u in s.paddr ==> r.1 == s
    ensures r.0 && u !in s.paddr ==> UsedTlb(s, r.1, u)
    ensures !r.0 ==> JoinedWalk(c, s, r.1, u) && r.1 == s.(q := r.1.q)
  {
    hide Inv, Physical, HitTlb, MissTlb, MovedFirst, JoinedWalk, Has;
    if u in s.paddr then (true, s)
    else if Has(s.mem.tlb, u.page) then (true, HitTlb(c, s, u))
    else (false, MissTlb(c, s, u))
  }

  // ----- page-table walks -----

  /** Whether a faulting uop has to come back later: its parent is not yet among the faulting
      ones (`held`), its page has no fault pending and the fault buffer is full. */
  predicate Postponed(c: Config, s: Mmu, u: Uop, held: Uop -> bool) {
    held(u) && u.page !in s.q.faultBuffer && c.faultBufferSize <= |s.q.faultBuffer|
  }

  /** What a walk leaves alone. */
  ghost predicate WalkFrame(s: Mmu, r: Mmu, l: set<Uop>) {
    && r.q.where.Keys == s.q.where.Keys + l
    && r.q.due == s.q.due && r.q.walkDue == s.q.walkDue && r.q.walkUops == s.q.walkUops
    && r.cycle == s.cycle && r.mem.table == s.mem.table && s.paddr.Keys <= r.paddr.Keys
  }

  /** The page is mapped: the uop is translated and may retry its access. */
  function WalkMapped(c: Config, s: Mmu, u: Uop): Mmu
    requires u.page in s.mem.table
  {
    s.(mem := WalkHit(c, s.mem, u.page), q := ToRetry(s.q, u),
       paddr := s.paddr[u := Physical(c, s.mem.table[u.page], u.vaddr)])
  }

  lemma WalkMappedKeeps(c: Config, s: Mmu, u: Uop)
    requires Inv(c, s) && u !in s.q.where && UopOk(c, u) && u.page in s.mem.table
    ensures Inv(c, WalkMapped(c, s, u)) && WalkFrame(s, WalkMapped(c, s, u), {u})
    ensures var r := WalkMapped(c, s, u);
            u in r.paddr && r.paddr[u] == Physical(c, s.mem.table[u.page], u.vaddr)
  {
    hide Tidy, OffsetOf, PageOf, Physical, Mapped, Frames, Ranked, Cached;
    ToRetryKeeps(s.q, u);
    WalkHitKeeps(c, s.mem, u.page);
    PhysicalParts(c, s.mem.table[u.page], u.vaddr);
  }

  function WalkPostponed(c: Config, s: Mmu, u: Uop): (r: Mmu)
    requires Inv(c, s) && u !in s.q.where && UopOk(c, u)
    ensures Inv(c, r) && WalkFrame(s, r, {u})
  {
    hide Inv;
    WalkPostponedKeeps(c, s, u);
    s.(q := ToFaultRetry(s.q, u))
  }

  lemma WalkPostponedKeeps(c: Config, s: Mmu, u: Uop)
    requires Inv(c, s) && u !in s.q.where && UopOk(c, u)
    ensures Inv(c, s.(q := ToFaultRetry(s.q, u)))
  {
    hide Tidy, OffsetOf, PageOf, Agree;
    ToFaultRetryKeeps(s.q, u);
  }

  /** The page is unmapped: the fault is recorded. */
  function WalkFault(c: Config, s: Mmu, u: Uop): (r: Mmu)
    requires Inv(c, s) && u !in s.q.where && UopOk(c, u) && u.page !in s.mem.table
    ensures Inv(c, r) && WalkFrame(s, r, {u})
  {
    hide Inv;
    WalkFaultKeeps(c, s, u);
    s.(q := ToFault(s.q, u))
  }

  lemma WalkFaultKeeps(c: Config, s: Mmu, u: Uop)
    requires Inv(c, s) && u !in s.q.where && UopOk(c, u) && u.page !in s.mem.table
    ensures Inv(c, s.(q := ToFault(s.q, u)))
  {
    hide Tidy, OffsetOf, PageOf, Agree;
    ToFaultKeeps(s.q, u);
  }

  /** One walk: a mapped page translates the uop, an unmapped one is a page fault. */
  function Walk(c: Config, s: Mmu, u: Uop, held: Uop -> bool): (r: Mmu)
    requires Inv(c, s) && u !in s.q.where && UopOk(c, u)
    ensures Inv(c, r) && WalkFrame(s, r, {u})
    ensures u.page in s.mem.table ==> u in r.paddr && r.paddr[u] == Physical(c, s.mem.table[u.page], u.vaddr)
  {
    hide Inv, Physical, WalkFrame, UopOk, WalkMapped;
    if u.page in s.mem.table then WalkMappedKeeps(c, s, u); WalkMapped(c, s, u)
    else if Postponed(c, s, u, held) then WalkPostponed(c, s, u)
    else WalkFault(c, s, u)
  }

  /** Walks for uops that were taken out of their queue, in order. */
  function WalkAll(c: Config, s: Mmu, l: seq<Uop>, held: Uop -> bool): (r: Mmu)
    requires Inv(c, s) && NoDup(l) && forall u :: u in l ==> u !in s.q.where && UopOk(c, u)
    ensures Inv(c, r) && WalkFrame(s, r, Elems(l))
  {
    hide Inv, UopOk, Walk;
    if l == [] then s
    else
      assert Elems(l) == Elems(l[..|l| - 1]) + {l[|l| - 1]};
      Walk(c, WalkAll(c, s, l[..|l| - 1], held), l[|l| - 1], held)
  }

  /** The first `k` uops of a list may be walked. */
  ghost predicate Walkable(c: Config, s: Mmu, l: seq<Uop>, k: nat) {
    && k <= |l| && Inv(c, s) && NoDup(l) && NoDup(l[..k])
    && (forall u :: u in l ==> u !in s.q.where && UopOk(c, u))
    && (forall u :: u in l[..k] ==> u !in s.q.where && UopOk(c, u))
  }

  lemma WalkAllStart(c: Config, s: Mmu, l: seq<Uop>, held: Uop -> bool)
    requires Inv(c, s) && NoDup(l) && forall u :: u in l ==> u !in s.q.where && UopOk(c, u)
    ensures Walkable(c, s, l, 0) && WalkAll(c, s, l[..0], held) == s
  {
    hide Inv, UopOk;
  }

  lemma WalkAllStep(c: Config, s: Mmu, l: seq<Uop>, k: nat, held: Uop -> bool)
    requires Walkable(c, s, l, k) && k < |l|
    ensures l[k] !in WalkAll(c, s, l[..k], held).q.where && UopOk(c, l[k]) && Walkable(c, s, l, k + 1)
    ensures WalkAll(c, s, l[..k + 1], held) == Walk(c, WalkAll(c, s, l[..k], held), l[k], held)
  {
    hide Inv, UopOk, Walk, WalkAll, WalkFrame, Walkable, NoDup;
    WalkablePrefix(c, s, l, k);
    WalkableStep(c, s, l, k);
    WalkablePrefix(c, s, l, k + 1);
    assert l[..k + 1] == l[..k] + [l[k]];
    WalkAllLast(c, s, l[..k], l[k], held);
  }

  lemma WalkablePrefix(c: Config, s: Mmu, l: seq<Uop>, k: nat)
    requires Walkable(c, s, l, k)
    ensures Inv(c, s) && NoDup(l[..k]) && forall u :: u in l[..k] ==> u !in s.q.where && UopOk(c, u)
  {
    hide Inv, UopOk;
  }

  lemma WalkableStep(c: Config, s: Mmu, l: seq<Uop>, k: nat)
    requires Walkable(c, s, l, k) && k < |l|
    ensures Walkable(c, s, l, k + 1) && l[k] !in l[..k] && l[k] !in s.q.where && UopOk(c, l[k])
  {
    hide Inv, UopOk;
    assert l[k] in l;
  }

  lemma WalkAllLast(c: Config, s: Mmu, l: seq<Uop>, u: Uop, held: Uop -> bool)
    requires Inv(c, s) && NoDup(l) && (forall x :: x in l ==> x !in s.q.where && UopOk(c, x))
    requires NoDup(l + [u]) && (forall x :: x in l + [u] ==> x !in s.q.where && UopOk(c, x))
    requires u !in l && u !in s.q.where && UopOk(c, u)
    ensures u !in WalkAll(c, s, l, held).q.where
    ensures WalkAll(c, s, l + [u], held) == Walk(c, WalkAll(c, s, l, held), u, held)
  {
    hide Inv, UopOk, Walk;
    assert (l + [u])[..|l|] == l;
  }

  lemma RankedIn(c: Config, s: Mmu, page: nat)
    requires Inv(c, s) && page in s.mem.table
    ensures Has(s.mem.lru, page)
  {
    hide Tidy, PageOf, OffsetOf;
    RankedPage(c, s.mem, page);
  }

  /** The uops that were postponed walk again once the fault buffer has drained. */
  function RetryFaults(c: Config, s: Mmu, held: Uop -> bool): (r: Mmu)
    requires Inv(c, s)
    ensures Inv(c, r) && WalkFrame(s, r, {})
  {
    hide Inv, UopOk, WalkAll;
    if s.q.faultBuffer != {} || s.q.faultRetry == [] then s
    else
      TakeFaultRetryOk(c, s);
      WalkAll(c, s.(q := TakeFaultRetry(s.q)), s.q.faultRetry, held)
  }

  lemma TakeFaultRetryOk(c: Config, s: Mmu)
    requires Inv(c, s)
    ensures Inv(c, s.(q := TakeFaultRetry(s.q))) && NoDup(s.q.faultRetry)
    ensures forall u :: u in s.q.faultRetry ==> u in s.q.where && u !in TakeFaultRetry(s.q).where && UopOk(c, u)
  {
    hide Tidy, Agree, PageOf, OffsetOf;
    TakeFaultRetryKeeps(s.q);
  }

  // ----- walks that are due -----

  lemma {:induction false} LeastExists(s: set<nat>, t: nat)
    requires t in s
    ensures exists l :: l in s && forall x :: x in s ==> l <= x
  {
    if x :| x in s && x < t {
      LeastExists(s, x);
    }
  }

  ghost function Least(s: set<nat>): (t: nat)
    requires s != {}
    ensures t in s && forall x :: x in s ==> t <= x
  {
    var any :| any in s;
    LeastExists(s, any);
    var t :| t in s && forall x :: x in s ==> t <= x;
    t
  }

  /** The first page due at the earliest cycle is walked for all its uops. */
  ghost function WalkPage(c: Config, s: Mmu, t: nat, held: Uop -> bool): (r: Mmu)
    requires Inv(c, s) && t in s.q.walkDue
    ensures Inv(c, r)
    ensures r.q.where.Keys == s.q.where.Keys && r.cycle == s.cycle && s.paddr.Keys <= r.paddr.Keys
    ensures |r.q.due| < |s.q.due|
  {
    hide Inv, UopOk, WalkAll;
    TakePageOk(c, s, t);
    WalkAll(c, s.(q := TakePage(s.q, t)), s.q.walkUops[s.q.walkDue[t][0]], held)
  }

  lemma TakePageOk(c: Config, s: Mmu, t: nat)
    requires Inv(c, s) && t in s.q.walkDue
    ensures s.q.walkDue[t] != [] && s.q.walkDue[t][0] in s.q.walkUops
    ensures Inv(c, s.(q := TakePage(s.q, t))) && |TakePage(s.q, t).due| < |s.q.due|
    ensures var l := s.q.walkUops[s.q.walkDue[t][0]];
            NoDup(l) && forall u :: u in l ==> u in s.q.where && u !in TakePage(s.q, t).where && UopOk(c, u)
  {
    hide Tidy, Agree, PageOf, OffsetOf;
    TakePageKeeps(s.q, t);
    DueShrinks(s.q, t);
  }

  lemma DueShrinks(q: Queues, t: nat)
    requires Tidy(q) && t in q.walkDue
    ensures q.walkDue[t] != [] && q.walkDue[t][0] in q.walkUops && |TakePage(q, t).due| < |q.due|
  {
    assert DueOk(q.due, q.walkDue[t], t);
    var p := q.walkDue[t][0];
    assert (q.due - {p}).Keys == q.due.Keys - {p};
  }

  /** All walks that are due, earliest first. */
  ghost function WalkDue(c: Config, s: Mmu, held: Uop -> bool): (r: Mmu)
    requires Inv(c, s)
    ensures Inv(c, r) && r.q.where.Keys == s.q.where.Keys && r.cycle == s.cycle && s.paddr.Keys <= r.paddr.Keys
    ensures forall t :: t in r.q.walkDue ==> t > r.cycle
    decreases |s.q.due|
  {
    hide Inv, WalkPage;
    if s.q.walkDue.Keys == {} || Least(s.q.walkDue.Keys) > s.cycle then s
    else WalkDue(c, WalkPage(c, s, Least(s.q.walkDue.Keys), held), held)
  }

  // ----- retries -----

  /** The uop may leave the MMU: it is translated and its access had a result. */
  predicate Leaves(s: Mmu, u: Uop, latency: Uop -> int) {
    (u in s.paddr || Has(s.mem.tlb, u.page)) && latency(u) != 0
  }

  /** What one access of the `k`-th retrying uop changes. */
  ghost predicate RetryFrame(s: Mmu, r: Mmu, k: nat, gone: set<Uop>)
    requires k < |s.q.retry|
  {
    && r.cycle == s.cycle && s.paddr.Keys <= r.paddr.Keys && r.q.where.Keys == s.q.where.Keys - gone
    && (r.q.retry == s.q.retry || r.q.retry == s.q.retry[..k] + s.q.retry[k + 1..])
  }

  /** The uop is translated, at the latest by this access. */
  function RetryHit(c: Config, s: Mmu, u: Uop): (r: Mmu)
    requires Inv(c, s) && (u in s.paddr || Has(s.mem.tlb, u.page))
    ensures Inv(c, r) && u in r.paddr && r.q == s.q && r.cycle == s.cycle && s.paddr.Keys <= r.paddr.Keys
  {
    hide Inv, Physical;
    if u in s.paddr then s else HitTlb(c, s, u)
  }

  /** The access succeeded and the uop leaves the MMU. */
  function RetryDone(c: Config, s: Mmu, k: nat): (r: Mmu)
    requires Inv(c, s) && k < |s.q.retry|
    ensures Inv(c, r) && RetryFrame(s, r, k, {s.q.retry[k]}) && r.paddr == s.paddr
  {
    hide Inv, UopOk;
    LeaveRetryOk(c, s, k);
    s.(q := LeaveRetry(s.q, k))
  }

  /** The uop, still untranslated, goes back to the walk queue. */
  function RetryMiss(c: Config, s: Mmu, k: nat): Mmu
    requires k < |s.q.retry|
  {
    s.(q := Enqueue(LeaveRetry(s.q, k), s.q.retry[k], s.cycle + c.walkLatency))
  }

  lemma RetryMissKeeps(c: Config, s: Mmu, k: nat)
    requires Inv(c, s) && k < |s.q.retry|
    ensures Inv(c, RetryMiss(c, s, k)) && RetryFrame(s, RetryMiss(c, s, k), k, {})
  {
    hide Inv, UopOk;
    LeaveRetryOk(c, s, k);
    MissKeeps(c, s.(q := LeaveRetry(s.q, k)), s.q.retry[k]);
  }

  /** One access of the `k`-th retrying uop, which is translated first if need be. It leaves the
      queue if the access has a result, or for the walk queue if the TLB misses. */
  function RetryOne(c: Config, s: Mmu, k: nat, latency: Uop -> int): (r: Mmu)
    requires Inv(c, s) && k < |s.q.retry|
    ensures Inv(c, r) && RetryFrame(s, r, k, if Leaves(s, s.q.retry[k], latency) then {s.q.retry[k]} else {})
    ensures Leaves(s, s.q.retry[k], latency) ==> s.q.retry[k] in r.paddr
  {
    hide Inv, RetryHit, RetryDone, RetryMiss;
    var u := s.q.retry[k];
    if u in s.paddr || Has(s.mem.tlb, u.page) then
      var t := RetryHit(c, s, u);
      if latency(u) == 0 then t else RetryDone(c, t, k)
    else RetryMissKeeps(c, s, k); RetryMiss(c, s, k)
  }

  lemma LeaveRetryOk(c: Config, s: Mmu, k: nat)
    requires Inv(c, s) && k < |s.q.retry|
    ensures Inv(c, s.(q := LeaveRetry(s.q, k)))
    ensures s.q.retry[k] in s.q.where && s.q.retry[k] !in LeaveRetry(s.q, k).where && UopOk(c, s.q.retry[k])
  {
    hide Tidy, Agree, PageOf, OffsetOf;
    LeaveRetryKeeps(s.q, k);
  }

  /** The retry queue is gone through once, from position `k` on. */
  function RetryFrom(c: Config, s: Mmu, k: nat, latency: Uop -> int): (r: Mmu)
    requires Inv(c, s) && k <= |s.q.retry|
    ensures Inv(c, r) && r.cycle == s.cycle && s.paddr.Keys <= r.paddr.Keys
    ensures r.q.where.Keys <= s.q.where.Keys
    ensures forall u :: u in s.q.where && u !in r.q.where ==> u in r.paddr && latency(u) != 0
    decreases |s.q.retry| - k
  {
    hide Inv, RetryOne;
    if k == |s.q.retry| then s
    else
      var t := RetryOne(c, s, k, latency);
      RetryFrom(c, t, if |t.q.retry| == |s.q.retry| then k + 1 else k, latency)
  }

  /** `run_a_cycle`. */
  ghost function Cycle(c: Config, s: Mmu, locked: bool, latency: Uop -> int, held: Uop -> bool): (r: Mmu)
    requires Inv(c, s)
    ensures Inv(c, r) && r.cycle == s.cycle + 1
    ensures r.q.where.Keys <= s.q.where.Keys
    ensures forall u :: u in s.q.where && u !in r.q.where ==> !locked && u in r.paddr && latency(u) != 0
  {
    hide Inv, RetryFrom, RetryFaults, WalkDue;
    if locked then TickKeeps(c, s); s.(cycle := s.cycle + 1)
    else
      var s1 := RetryFrom(c, s, 0, latency);
      var s2 := RetryFaults(c, s1, held);
      var s3 := WalkDue(c, s2, held);
      TickKeeps(c, s3);
      s3.(cycle := s3.cycle + 1)
  }

  lemma TickKeeps(c: Config, s: Mmu)
    requires Inv(c, s)
    ensures Inv(c, s.(cycle := s.cycle + 1))
  {
    hide Tidy, Agree, PageOf, OffsetOf;
  }

  // ----- batched page faults -----

  /** A frame is made available for the next transfer, by an eviction if all are in use. */
  function Prepare(c: Config, s: Mmu): Mmu
    requires s.mem.remaining <= 0 ==> Evictable(s.mem)
  {
    if s.mem.remaining > 0 then s.(nextEvent := Some(s.cycle + c.faultLatency), started := true)
    else s.(nextEvent := Some(s.cycle + c.evictionLatency + c.faultLatency), started := true, mem := Evict(s.mem))
  }

  lemma PrepareKeeps(c: Config, s: Mmu)
    requires Inv(c, s)
    ensures s.mem.remaining <= 0 ==> Evictable(s.mem)
    ensures Inv(c, Prepare(c, s)) && Prepare(c, s).q == s.q && Prepare(c, s).mem.remaining > 0
  {
    hide Tidy, Mapped, Ranked, Cached, PageOf, OffsetOf;
    if s.mem.remaining <= 0 { EvictKeeps(c, s.mem); }
  }

  /** The first page in process gets its frame, and its uops may retry. */
  function Transfer(c: Config, s: Mmu): Mmu
    requires s.mem.next < |s.mem.free| && s.q.processing != [] && s.q.processing[0] in s.q.processingUops
  {
    s.(mem := Allocate(c, s.mem, s.q.processing[0]), q := Resolve(s.q))
  }

  /** All of the invariant but the part about the batch in process, which is set anew next. */
  lemma TransferKeeps(c: Config, s: Mmu)
    requires Inv(c, s) && s.batch && s.started
    ensures s.mem.next < |s.mem.free| && s.q.processing != [] && s.q.processing[0] in s.q.processingUops
    ensures var r := Transfer(c, s);
            && Inv(c, r.(batch := r.q.processing != [], started := false))
            && r.q.where.Keys == s.q.where.Keys && s.q.processing[0] in r.mem.table
  {
    hide Tidy, Mapped, Ranked, Cached, Frames, PageOf, OffsetOf, Resolve;
    assert s.q.processing[0] in s.q.processing;
    AllocateKeeps(c, s.mem, s.q.processing[0]);
    ResolveKeeps(s.q);
    ResolveFacts(s.q);
  }

  lemma TransferStart(c: Config, s: Mmu)
    requires Inv(c, s) && s.batch && s.started
    ensures s.mem.next < |s.mem.free| && s.q.processing != [] && s.q.processing[0] in s.q.processingUops
  {
    hide Transfer;
    TransferKeeps(c, s);
  }

  /** The assertions before an allocation hold: a frame is free, the search finds it, and the
      replacement unit does not know the page and has room for it. */
  lemma AllocationOk(c: Config, s: Mmu)
    requires Inv(c, s) && s.batch && s.started
    ensures s.mem.remaining > 0 && s.mem.next < |s.mem.free| && s.q.processing != []
    ensures s.mem.free[FreeFrame(s.mem.free, s.mem.next)]
    ensures !Has(s.mem.lru, s.q.processing[0]) && |s.mem.lru| < c.frames
  {
    hide Tidy, Mapped, Ranked, Cached, Frames, PageOf, OffsetOf;
    assert s.q.processing[0] in s.q.processing;
    AllocateKeeps(c, s.mem, s.q.processing[0]);
  }

  lemma ResolveFacts(q: Queues)
    requires Tidy(q) && q.processing != [] && q.processing[0] in q.processingUops
    ensures var r, p := Resolve(q), q.processing[0];
            && r.faultBuffer == q.faultBuffer - {p} && r.processing == q.processing[1..]
            && p !in r.processing && forall x :: x in r.processing ==> x in q.processing
  {
  }

  /** The batch is over. */
  function Finish(s: Mmu): Mmu {
    s.(batch := false, started := false, transferStart := None, nextEvent := None)
  }

  /** A transfer is complete: the next page is prepared, or the batch ends. */
  function NextTransfer(c: Config, s: Mmu): (r: (bool, Mmu))
    requires Inv(c, s) && s.batch && s.started && s.transferStart.Some?
  {
    NextTransferKeeps(c, s);
    var t := Transfer(c, s);
    if t.q.processing != [] then (false, Prepare(c, t)) else (true, Finish(t))
  }

  lemma NextTransferKeeps(c: Config, s: Mmu)
    requires Inv(c, s) && s.batch && s.started && s.transferStart.Some?
    ensures s.mem.next < |s.mem.free| && s.q.processing != [] && s.q.processing[0] in s.q.processingUops
    ensures var t := Transfer(c, s);
            && t.q.where.Keys == s.q.where.Keys && t.paddr == s.paddr && t.batch
            && (t.q.processing == [] ==> Inv(c, Finish(t)))
            && (t.q.processing != [] ==>
                 && (t.mem.remaining <= 0 ==> Evictable(t.mem))
                 && Inv(c, Prepare(c, t)) && Prepare(c, t).batch
                 && Prepare(c, t).q == t.q && Prepare(c, t).paddr == t.paddr)
  {
    hide Inv, Transfer, Prepare, Evictable;
    TransferKeeps(c, s);
    TransferFrame(c, s);
    AfterTransfer(c, Transfer(c, s));
  }

  /** `do_batch_processing`: the result says whether the batch ended. */
  function DoBatch(c: Config, s: Mmu): (r: (bool, Mmu))
    requires Inv(c, s) && s.batch
    ensures Inv(c, r.1) && r.1.q.where.Keys == s.q.where.Keys && r.1.paddr == s.paddr
    ensures r.0 <==> !r.1.batch
  {
    BatchFacts(c, s);
    hide Inv, Transfer, Prepare, Evictable;
    if s.cycle < s.transferStart.value then (false, s)
    else if !s.started then PrepareKeeps(c, s); PrepareFrame(c, s); (false, Prepare(c, s))
    else if s.cycle < s.nextEvent.value then (false, s)
    else NextTransferKeeps(c, s); NextTransfer(c, s)
  }

  lemma BatchFacts(c: Config, s: Mmu)
    requires Inv(c, s) && s.batch
    ensures s.transferStart.Some? && (s.started ==> s.nextEvent.Some?)
  {
  }

  lemma PrepareFrame(c: Config, s: Mmu)
    requires Inv(c, s)
    ensures s.mem.remaining <= 0 ==> Evictable(s.mem)
    ensures Prepare(c, s).q == s.q && Prepare(c, s).paddr == s.paddr && Prepare(c, s).batch == s.batch
  {
    hide Inv;
    PrepareKeeps(c, s);
  }

  lemma TransferFrame(c: Config, s: Mmu)
    requires s.mem.next < |s.mem.free| && s.q.processing != [] && s.q.processing[0] in s.q.processingUops
    ensures Transfer(c, s).paddr == s.paddr && Transfer(c, s).batch == s.batch && Transfer(c, s).transferStart == s.transferStart
  {
  }

  /** What follows a transfer restores the whole invariant. */
  lemma AfterTransfer(c: Config, t: Mmu)
    requires t.batch && t.transferStart.Some?
    requires Inv(c, t.(batch := t.q.processing != [], started := false))
    ensures t.q.processing == [] ==> Inv(c, Finish(t))
    ensures t.q.processing != [] ==>
              && (t.mem.remaining <= 0 ==> Evictable(t.mem))
              && Inv(c, Prepare(c, t)) && Prepare(c, t).batch
              && Prepare(c, t).q == t.q && Prepare(c, t).paddr == t.paddr
  {
    hide Inv;
    var t' := t.(batch := t.q.processing != [], started := false);
    if t.q.processing == [] {
      FinishKeeps(c, t);
    } else {
      PrepareKeeps(c, t');
      PrepareFrame(c, t');
      assert Prepare(c, t) == Prepare(c, t');
    }
  }

  lemma FinishKeeps(c: Config, t: Mmu)
    requires t.q.processing == [] && Inv(c, t.(batch := false, started := false))
    ensures Inv(c, Finish(t))
  {
    hide Tidy, Agree, PageOf, OffsetOf;
  }

  // ----- starting a batch -----

  /** The pages of a set in ascending order. */
  ghost function Ascending(s: set<nat>): seq<nat> {
    if s == {} then []
    else
      var t := Least(s);
      [t] + Ascending(s - {t})
  }

  lemma {:induction false} AscendingOrder(s: set<nat>)
    ensures NoDup(Ascending(s)) && (forall p :: p in Ascending(s) <==> p in s)
    ensures forall j, k :: 0 <= j < k < |Ascending(s)| ==> Ascending(s)[j] < Ascending(s)[k]
  {
    if s != {} {
      var t := Least(s);
      var rest := Ascending(s - {t});
      AscendingOrder(s - {t});
      assert Ascending(s) == [t] + rest;
      forall j, k | 0 <= j < k < |Ascending(s)| ensures Ascending(s)[j] < Ascending(s)[k] {
        assert rest[k - 1] in rest;
        if j > 0 { assert rest[j - 1] < rest[k - 1]; }
      }
    }
  }

  lemma AscendingStep(s: set<nat>)
    ensures Ascending(s) == if s == {} then [] else [Least(s)] + Ascending(s - {Least(s)})
  {
  }

  /** `begin_batch_processing`: the faulted pages become the batch, in ascending order. */
  ghost function BeginBatch(c: Config, s: Mmu): (r: Mmu)
    requires Inv(c, s) && !s.batch && s.q.faultBuffer != {}
    ensures Inv(c, r) && r.q.where.Keys == s.q.where.Keys && r.batch && r.paddr == s.paddr
  {
    hide Inv;
    BeginKeeps(c, s);
    s.(q := StartBatch(s.q, Ascending(s.q.faultBuffer)), batch := true, started := false,
       transferStart := Some(s.cycle + c.batchOverhead), nextEvent := None)
  }

  lemma BeginKeeps(c: Config, s: Mmu)
    requires Inv(c, s) && !s.batch && s.q.faultBuffer != {}
    ensures Inv(c, s.(q := StartBatch(s.q, Ascending(s.q.faultBuffer)), batch := true, started := false,
                      transferStart := Some(s.cycle + c.batchOverhead), nextEvent := None))
  {
    hide Tidy, Agree, PageOf, OffsetOf, Ascending;
    AscendingOrder(s.q.faultBuffer);
    StartBatchKeeps(s.q, Ascending(s.q.faultBuffer));
    var p :| p in s.q.faultBuffer;
    assert p in Ascending(s.q.faultBuffer);
  }

  /** `handle_page_faults`. */
  ghost function HandleFaults(c: Config, s: Mmu): (r: Mmu)
    requires Inv(c, s)
    ensures Inv(c, r) && r.q.where.Keys == s.q.where.Keys && r.paddr == s.paddr
  {
    hide Inv, DoBatch, BeginBatch;
    var (ended, t) := if s.batch then DoBatch(c, s) else (true, s);
    if !ended || t.q.faultBuffer == {} then t else BeginBatch(c, t)
  }

  // ----- runs -----

  datatype Event =
    | Access(uop: Uop)
    | Faults
    | Tick(locked: bool, latency: Uop -> int, held: Uop -> bool)

  /** A core hands a uop to the MMU only while it does not wait there. */
  ghost predicate EventOk(c: Config, s: Mmu, e: Event) {
    e.Access? ==> UopOk(c, e.uop) && e.uop !in s.q.where
  }

  ghost function Apply(c: Config, s: Mmu, e: Event): (r: Mmu)
    requires Inv(c, s) && EventOk(c, s, e)
    ensures Inv(c, r)
  {
    hide Inv, Translate, HandleFaults, Cycle;
    match e
    case Access(u) => Translate(c, s, u).1
    case Faults => HandleFaults(c, s)
    case Tick(locked, latency, held) => Cycle(c, s, locked, latency, held)
  }

  /** The states of a run that starts at any cycle. */
  ghost predicate IsRun(c: Config, run: seq<Mmu>, events: seq<Event>) {
    && |run| == |events| + 1
    && (exists cycle: nat :: run[0] == Init(c, cycle))
    && forall k :: 0 <= k < |events| ==> Steps(c, run[k], events[k], run[k + 1])
  }

  /** `Apply` is defined on states that satisfy the invariant; all states of a run do. */
  ghost predicate Steps(c: Config, s: Mmu, e: Event, r: Mmu) {
    Inv(c, s) ==> EventOk(c, s, e) && r == Apply(c, s, e)
  }

  /** In every state of every run the tables agree and every waiting uop is in one place. */
  lemma {:induction false} AlwaysInv(c: Config, run: seq<Mmu>, events: seq<Event>, k: nat)
    requires IsRun(c, run, events) && k < |run|
    ensures Inv(c, run[k])
  {
    if k == 0 {
      var cycle: nat :| run[0] == Init(c, cycle);
      InitKeeps(c, cycle);
    } else {
      AlwaysInv(c, run, events, k - 1);
      assert Steps(c, run[k - 1], events[k - 1], run[k]);
    }
  }

  /** A waiting uop stays in the MMU until it is translated and its access has a result. */
  lemma NoUopLost(c: Config, run: seq<Mmu>, events: seq<Event>, k: nat, u: Uop)
    requires IsRun(c, run, events) && k < |events| && u in run[k].q.where
    ensures u in run[k + 1].q.where || (events[k].Tick? && !events[k].locked && events[k].latency(u) != 0 && u in run[k + 1].paddr)
  {
    AlwaysInv(c, run, events, k);
    assert Steps(c, run[k], events[k], run[k + 1]);
  }

  /** What the agreement of the tables means in every reachable state: the page table is
      injective, the frames in use are exactly the mapped ones, the counter is right, the
      replacement unit ranks exactly the mapped pages and the TLB is part of the page table. */
  lemma TablesAgree(c: Config, run: seq<Mmu>, events: seq<Event>, k: nat, p: nat, p': nat, f: nat)
    requires IsRun(c, run, events) && k < |run|
    ensures var m := run[k].mem;
            && (p in m.table && p' in m.table && m.table[p] == m.table[p'] ==> p == p')
            && |m.free| == c.frames && m.remaining == CountFree(m.free) && |m.lru| + m.remaining == c.frames
            && (f < c.frames && !m.free[f] ==> exists x :: x in m.table && m.table[x] == f)
            && (p in m.table ==> m.table[p] < c.frames && !m.free[m.table[p]])
            && (p in m.table <==> Has(m.lru, p))
            && (Has(m.tlb, p) ==> p in m.table && m.tlb[Find(m.tlb, p)].frame == m.table[p])
  {
    AlwaysInv(c, run, events, k);
    var m := run[k].mem;
    hide IsRun, Tidy, PageOf, OffsetOf;
    if f < c.frames && !m.free[f] {
      assert f in m.owner && m.owner[f] in m.table;
    }
  }

  /** In every reachable state the fault buffer is the set of pages with faulted uops; the pages in
      process are distinct, unmapped and those with uops in process; and a page is under walk exactly
      if it is listed under one ready cycle, once. */
  lemma QueuesAgree(c: Config, run: seq<Mmu>, events: seq<Event>, k: nat, p: nat, t: nat, t': nat)
    requires IsRun(c, run, events) && k < |run|
    ensures var q := run[k].q;
            && q.faultBuffer == q.faultUops.Keys
            && NoDup(q.processing) && (p in q.processing <==> p in q.processingUops)
            && (p in q.processing ==> p !in run[k].mem.table)
            && (p in q.walkUops <==> exists x :: x in q.walkDue && p in q.walkDue[x])
            && (t in q.walkDue ==> NoDup(q.walkDue[t]))
            && (t in q.walkDue && t' in q.walkDue && p in q.walkDue[t] && p in q.walkDue[t'] ==> t == t')
  {
    AlwaysInv(c, run, events, k);
    hide IsRun, Agree, Placed, PageOf, OffsetOf;
    var q := run[k].q;
    if p in q.walkUops {
      assert p in q.due;
    }
    forall x | x in q.walkDue && p in q.walkDue[x] ensures p in q.due && q.due[p] == x {
      assert DueOk(q.due, q.walkDue[x], x);
    }
  }

  /** A waiting uop is in exactly one of the five places, and nobody else is in any. */
  lemma ExactlyOnePlace(c: Config, run: seq<Mmu>, events: seq<Event>, k: nat, u: Uop)
    requires IsRun(c, run, events) && k < |run|
    ensures var q := run[k].q;
            var places := [InPage(q.walkUops, u), InPage(q.faultUops, u), InPage(q.processingUops, u), u in q.retry, u in q.faultRetry];
            && (u in q.where <==> exists j :: 0 <= j < 5 && places[j])
            && (forall i, j :: 0 <= i < j < 5 ==> !(places[i] && places[j]))
  {
    AlwaysInv(c, run, events, k);
    hide IsRun, Agree, PageOf, OffsetOf;
    PlacesExclusive(run[k].q, u);
  }

  lemma PlacesExclusive(q: Queues, u: Uop)
    requires Tidy(q)
    ensures var places := [InPage(q.walkUops, u), InPage(q.faultUops, u), InPage(q.processingUops, u), u in q.retry, u in q.faultRetry];
            && (u in q.where <==> exists j :: 0 <= j < 5 && places[j])
            && (forall i, j :: 0 <= i < j < 5 ==> !(places[i] && places[j]))
  {
    var places := [InPage(q.walkUops, u), InPage(q.faultUops, u), InPage(q.processingUops, u), u in q.retry, u in q.faultRetry];
    if u in q.where {
      Apart(q, u, q.where[u]);
      assert Waits(q, u, q.where[u]);
      var j := match q.where[u] case Walking => 0 case Faulted => 1 case Processing => 2 case Retrying => 3 case FaultRetrying => 4;
      assert places[j];
    } else {
      assert u.page in q.walkUops ==> PageList(q.where, q.walkUops[u.page], Walking, u.page);
      assert u.page in q.faultUops ==> PageList(q.where, q.faultUops[u.page], Faulted, u.page);
      assert u.page in q.processingUops ==> PageList(q.where, q.processingUops[u.page], Processing, u.page);
    }
  }
}
