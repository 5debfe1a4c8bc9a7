/** Batched page faults take effect, and in bounded time: when a batch starts, when each of its pages
    is mapped, and how long a page of the batch can wait. */
module MmuFaults {
  import opened Arithmetic
  import opened Lists
  import opened Options
  import opened LruOrder
  import opened MmuMemory
  import opened MmuQueues
  import opened MmuMachine
  import opened MmuEffects
  import opened MmuHistory

  /** The time a transfer that is prepared now will take. */
  function TransferTime(c: Config, s: Mmu): nat {
    c.faultLatency + if s.mem.remaining > 0 then 0 else c.evictionLatency
  }

  /** A batch of all the faulted pages has begun. */
  ghost predicate Begun(c: Config, s: Mmu, r: Mmu) {
    && r.batch && !r.started && r.transferStart == Some(s.cycle + c.batchOverhead)
    && (forall p :: p in r.q.processing <==> p in s.q.faultBuffer) && NoDup(r.q.processing) && r.q.faultBuffer == {}
    && (forall j, k :: 0 <= j < k < |r.q.processing| ==> r.q.processing[j] < r.q.processing[k])
    && (forall u :: u in s.q.where ==> u in r.q.where && r.q.where[u] == if s.q.where[u] == Faulted then Processing else s.q.where[u])
    && r.mem == s.mem && r.cycle == s.cycle && r.q.retry == s.q.retry
  }

  /** The next transfer has begun: if no frame was free, the last page of the order has lost its own. */
  ghost predicate Prepared(c: Config, s: Mmu, r: Mmu) {
    && r == s.(started := true, nextEvent := Some(s.cycle + TransferTime(c, s)), mem := r.mem)
    && (s.mem.remaining > 0 ==> r.mem == s.mem)
    && (s.mem.remaining <= 0 ==>
          && s.mem.lru != [] && r.mem.lru == s.mem.lru[..|s.mem.lru| - 1]
          && r.mem.table == s.mem.table - {s.mem.lru[|s.mem.lru| - 1].page} && r.mem.remaining == s.mem.remaining + 1)
  }

  /** The first page of the batch is mapped to a frame that was free, and everybody who waited for
      it may retry. */
  ghost predicate FirstMapped(s: Mmu, t: Mmu)
    requires s.q.processing != []
  {
    var p := s.q.processing[0];
    && p in t.mem.table && t.mem.table == s.mem.table[p := t.mem.table[p]]
    && t.mem.table[p] < |s.mem.free| && s.mem.free[t.mem.table[p]] && t.mem.remaining == s.mem.remaining - 1
    && t.q.processing == s.q.processing[1..] && t.q.faultBuffer == s.q.faultBuffer - {p}
    && t == s.(mem := t.mem, q := t.q)
    && forall u :: u in s.q.where && u.page == p && (s.q.where[u] == Processing || s.q.where[u] == Faulted) ==>
         u in t.q.where && t.q.where[u] == Retrying && u in t.q.retry
  }

  lemma BeginBegins(c: Config, s: Mmu)
    requires Inv(c, s) && !s.batch && s.q.faultBuffer != {}
    ensures Begun(c, s, BeginBatch(c, s))
  {
    hide Inv, Ascending;
    AscendingOrder(s.q.faultBuffer);
  }

  lemma PrepareLaw(c: Config, s: Mmu)
    requires Inv(c, s)
    ensures s.mem.remaining <= 0 ==> Evictable(s.mem)
    ensures Prepared(c, s, Prepare(c, s))
  {
    hide Inv, Evict, Evictable;
    PrepareKeeps(c, s);
    if s.mem.remaining <= 0 { EvictLaw(s.mem); }
  }

  lemma EvictLaw(m: Memory)
    requires Evictable(m)
    ensures var r := Evict(m);
            && m.lru != [] && r.lru == m.lru[..|m.lru| - 1]
            && r.table == m.table - {m.lru[|m.lru| - 1].page} && r.remaining == m.remaining + 1
  {
  }

  lemma PrepareLawAfter(c: Config, t: Mmu)
    requires t.batch && t.q.processing != [] && Inv(c, t.(started := false))
    ensures t.mem.remaining <= 0 ==> Evictable(t.mem)
    ensures Prepared(c, t, Prepare(c, t))
  {
    hide Inv, Drop;
    PrepareLaw(c, t.(started := false));
    assert Prepare(c, t) == Prepare(c, t.(started := false));
  }

  lemma TransferLaw(c: Config, s: Mmu)
    requires Inv(c, s) && s.batch && s.started
    ensures s.mem.next < |s.mem.free| && s.q.processing != [] && s.q.processing[0] in s.q.processingUops
    ensures FirstMapped(s, Transfer(c, s))
  {
    AllocationOk(c, s);
    TransferStart(c, s);
    hide Agree, FreeFrame, UopsOk;
    forall u | u in s.q.where && u.page == s.q.processing[0] && (s.q.where[u] == Processing || s.q.where[u] == Faulted)
      ensures u in Transfer(c, s).q.where && Transfer(c, s).q.where[u] == Retrying && u in Transfer(c, s).q.retry
    {
      assert Waits(s.q, u, s.q.where[u]);
      assert u in Resolved(s.q);
    }
  }

  /** `handle_page_faults`. Without a batch one begins if pages have faulted; a batch makes its first
      transfer ready once its overhead is over; and when a transfer is complete its page is mapped and
      the next transfer is made ready, or the next batch begins if pages have faulted meanwhile. */
  lemma FaultsLaw(c: Config, s: Mmu)
    requires Inv(c, s)
    ensures var r := HandleFaults(c, s);
            if !s.batch then
              if s.q.faultBuffer == {} then r == s else Begun(c, s, r)
            else
              && s.transferStart.Some? && (s.started ==> s.nextEvent.Some?) && s.q.processing != []
              && if s.cycle < s.transferStart.value then r == s
                 else if !s.started then Prepared(c, s, r)
                 else if s.cycle < s.nextEvent.value then r == s
                 else exists t :: FirstMapped(s, t) && Continued(c, t, r)
  {
    if s.batch { BatchFacts(c, s); }
    assert s.batch ==> s.q.processing != [];
    if !s.batch {
      hide Inv;
      if s.q.faultBuffer != {} { BeginBegins(c, s); }
    } else {
      hide Inv, Begun, Prepared, FirstMapped, Continued;
      if s.cycle >= s.transferStart.value && !s.started {
        PrepareLaw(c, s);
      } else if TransferDue(s) {
        TransferLaw(c, s);
        TransferContinues(c, s);
      }
    }
  }

  /** What follows when page `processing[0]` has been mapped. */
  ghost predicate Continued(c: Config, t: Mmu, r: Mmu) {
    if t.q.processing != [] then Prepared(c, t, r)
    else if t.q.faultBuffer != {} then Begun(c, t, r)
    else r == t.(batch := false, started := false, transferStart := None, nextEvent := None)
  }

  lemma TransferContinues(c: Config, s: Mmu)
    requires Inv(c, s) && TransferDue(s)
    ensures s.mem.next < |s.mem.free| && s.q.processing != [] && s.q.processing[0] in s.q.processingUops
    ensures Continued(c, Transfer(c, s), HandleFaults(c, s))
  {
    hide Inv, Transfer, Prepare, Prepared, BeginBatch, Begun;
    NextTransferKeeps(c, s);
    TransferKeeps(c, s);
    var t := Transfer(c, s);
    if t.q.processing != [] {
      PrepareLawAfter(c, t);
    } else if t.q.faultBuffer != {} {
      BeginBegins(c, Finish(t));
      assert HandleFaults(c, s) == BeginBatch(c, Finish(t));
      BegunSame(c, t, BeginBatch(c, Finish(t)));
    }
  }

  lemma BegunSame(c: Config, t: Mmu, r: Mmu)
    requires Begun(c, Finish(t), r)
    ensures Begun(c, t, r)
  {
  }

  // ----- how long a page can wait -----

  /** The longest time from one transfer to the next. */
  function Longest(c: Config): (l: nat)
    ensures l > 0
  {
    if c.faultLatency + c.evictionLatency == 0 then 1 else c.faultLatency + c.evictionLatency
  }

  function Until(cycle: nat, t: Option<nat>): nat {
    if t.Some? && t.value > cycle then t.value - cycle else 0
  }

  /** A batch makes its first transfer ready only after its overhead. */
  predicate Late(s: Mmu) {
    s.batch && s.started ==> s.transferStart.Some? && s.cycle >= s.transferStart.value
  }

  /** `page` is the `i`-th page that the batch has yet to map. */
  predicate Pending(s: Mmu, page: nat, i: nat) {
    s.batch && i < |s.q.processing| && s.q.processing[i] == page
  }

  /** A bound on the rounds, of handling faults and a cycle each, until the `i`-th page is mapped. */
  function Rest(c: Config, s: Mmu, i: nat): nat {
    if s.started then Until(s.cycle, s.nextEvent) + i * Longest(c)
    else Until(s.cycle, s.transferStart) + (i + 1) * Longest(c)
  }

  /** The page is mapped, and everybody who waited for it may retry. */
  ghost predicate Resolves(s: Mmu, r: Mmu, page: nat) {
    && page in s.q.processing
    && forall u :: u in s.q.where && u.page == page && (s.q.where[u] == Processing || s.q.where[u] == Faulted) ==>
         u in r.q.where && r.q.where[u] == Retrying
  }

  /** Handling faults resolves the page or brings it nearer: once the cycle is over the bound is lower. */
  lemma RoundNearer(c: Config, s: Mmu, page: nat, i: nat) returns (j: nat)
    requires Inv(c, s) && Late(s) && Pending(s, page, i)
    ensures var r := HandleFaults(c, s);
            Resolves(s, r, page) ||
            (Pending(r, page, j) && Rest(c, r, j) <= Rest(c, s, i) && Rest(c, r.(cycle := r.cycle + 1), j) < Rest(c, s, i))
  {
    hide Inv, HandleFaults, Begun, Prepared, FirstMapped, Continued, Resolves, Rest;
    FaultsLaw(c, s);
    var r := HandleFaults(c, s);
    j := i;
    if TransferDue(s) {
      var t :| FirstMapped(s, t) && Continued(c, t, r);
      if i == 0 {
        ResolvesNow(c, s, t, r);
      } else {
        j := i - 1;
        TransferNearer(c, s, t, r, page, i);
      }
    } else if s.cycle >= s.transferStart.value && !s.started {
      FirstNearer(c, s, r, page, i);
    } else {
      WaitNearer(c, s, i);
    }
  }

  lemma WaitNearer(c: Config, s: Mmu, i: nat)
    requires s.transferStart.Some? && (s.started ==> s.nextEvent.Some?)
    requires s.cycle < s.transferStart.value || (s.started && s.cycle < s.nextEvent.value)
    requires s.started ==> s.cycle >= s.transferStart.value
    ensures Rest(c, s.(cycle := s.cycle + 1), i) < Rest(c, s, i)
  {
    hide Longest;
  }

  lemma FirstNearer(c: Config, s: Mmu, r: Mmu, page: nat, i: nat)
    requires Pending(s, page, i) && Prepared(c, s, r) && !s.started
    ensures Pending(r, page, i) && Rest(c, r, i) <= Rest(c, s, i) && Rest(c, r.(cycle := r.cycle + 1), i) < Rest(c, s, i)
  {
    LaterTransfer(c, i);
    assert TransferTime(c, s) <= Longest(c);
    hide Longest, TransferTime;
  }

  lemma TransferNearer(c: Config, s: Mmu, t: Mmu, r: Mmu, page: nat, i: nat)
    requires Pending(s, page, i) && i > 0 && FirstMapped(s, t) && Continued(c, t, r) && TransferDue(s)
    ensures Pending(r, page, i - 1) && Rest(c, r, i - 1) <= Rest(c, s, i) && Rest(c, r.(cycle := r.cycle + 1), i - 1) < Rest(c, s, i)
  {
    LaterTransfer(c, i);
    assert t.q.processing[i - 1] == page;
    assert TransferTime(c, t) <= Longest(c);
    hide Longest, TransferTime;
  }

  lemma LaterTransfer(c: Config, i: nat)
    ensures (i + 1) * Longest(c) == i * Longest(c) + Longest(c)
    ensures i > 0 ==> i * Longest(c) == (i - 1) * Longest(c) + Longest(c)
    ensures i * Longest(c) >= 0
  {
  }

  lemma ResolvesNow(c: Config, s: Mmu, t: Mmu, r: Mmu)
    requires s.q.processing != [] && FirstMapped(s, t) && Continued(c, t, r)
    ensures Resolves(s, r, s.q.processing[0])
  {
  }

  // ----- what other events leave alone -----

  /** The batch is as it was. */
  predicate SameBatch(s: Mmu, r: Mmu) {
    && r.batch == s.batch && r.started == s.started && r.transferStart == s.transferStart && r.nextEvent == s.nextEvent
    && r.q.processing == s.q.processing
  }

  lemma WalkBatch(c: Config, s: Mmu, u: Uop, held: Uop -> bool)
    requires Inv(c, s) && u !in s.q.where && UopOk(c, u)
    ensures SameBatch(s, Walk(c, s, u, held))
  {
    hide Inv, Physical, WalkHit;
  }

  lemma {:induction false} WalkAllBatch(c: Config, s: Mmu, l: seq<Uop>, held: Uop -> bool)
    requires Inv(c, s) && NoDup(l) && forall u :: u in l ==> u !in s.q.where && UopOk(c, u)
    ensures SameBatch(s, WalkAll(c, s, l, held))
  {
    hide Inv, UopOk, Walk;
    if l != [] {
      var rest, u := l[..|l| - 1], l[|l| - 1];
      assert Elems(l) == Elems(rest) + {u};
      WalkAllBatch(c, s, rest, held);
      WalkBatch(c, WalkAll(c, s, rest, held), u, held);
    }
  }

  lemma {:induction false} WalkDueBatch(c: Config, s: Mmu, held: Uop -> bool)
    requires Inv(c, s)
    ensures SameBatch(s, WalkDue(c, s, held))
    decreases |s.q.due|
  {
    hide Inv, WalkAll, UopOk;
    if s.q.walkDue.Keys != {} && Least(s.q.walkDue.Keys) <= s.cycle {
      var t := Least(s.q.walkDue.Keys);
      TakePageOk(c, s, t);
      WalkAllBatch(c, s.(q := TakePage(s.q, t)), s.q.walkUops[s.q.walkDue[t][0]], held);
      WalkDueBatch(c, WalkPage(c, s, t, held), held);
    }
  }

  lemma RetryFaultsBatch(c: Config, s: Mmu, held: Uop -> bool)
    requires Inv(c, s)
    ensures SameBatch(s, RetryFaults(c, s, held))
  {
    hide Inv, UopOk, WalkAll;
    if s.q.faultBuffer == {} && s.q.faultRetry != [] {
      TakeFaultRetryOk(c, s);
      WalkAllBatch(c, s.(q := TakeFaultRetry(s.q)), s.q.faultRetry, held);
    }
  }

  lemma RetryOneBatch(c: Config, s: Mmu, k: nat, latency: Uop -> int)
    requires Inv(c, s) && k < |s.q.retry|
    ensures SameBatch(s, RetryOne(c, s, k, latency))
  {
    hide Inv, Touch, Physical, Has;
  }

  lemma {:induction false} RetryBatch(c: Config, s: Mmu, k: nat, latency: Uop -> int)
    requires Inv(c, s) && k <= |s.q.retry|
    ensures SameBatch(s, RetryFrom(c, s, k, latency))
    decreases |s.q.retry| - k
  {
    hide Inv, RetryOne;
    if k < |s.q.retry| {
      var t := RetryOne(c, s, k, latency);
      RetryOneBatch(c, s, k, latency);
      RetryBatch(c, t, if |t.q.retry| == |s.q.retry| then k + 1 else k, latency);
    }
  }

  /** Accesses and cycles do not touch the batch. */
  lemma OtherEvents(c: Config, s: Mmu, e: Event)
    requires Inv(c, s) && EventOk(c, s, e) && !e.Faults?
    ensures var r := Apply(c, s, e); SameBatch(s, r) && r.cycle == s.cycle + if e.Tick? then 1 else 0
  {
    hide Inv, RetryFrom, RetryFaults, WalkDue, Enqueue, Touch, Physical, Has;
    match e
    case Access(u) =>
    case Tick(locked, latency, held) =>
      if !locked {
        var s1 := RetryFrom(c, s, 0, latency);
        var s2 := RetryFaults(c, s1, held);
        RetryBatch(c, s, 0, latency);
        RetryFaultsBatch(c, s1, held);
        WalkDueBatch(c, s2, held);
      }
    case Faults =>
  }

  lemma StepLate(c: Config, s: Mmu, e: Event)
    requires Inv(c, s) && EventOk(c, s, e) && Late(s)
    ensures Late(Apply(c, s, e))
  {
    if e.Faults? {
      FaultsLaw(c, s);
      hide Inv, HandleFaults, Begun, FirstMapped;
      if TransferDue(s) {
        var t :| FirstMapped(s, t) && Continued(c, t, HandleFaults(c, s));
        LateNext(c, s, t, HandleFaults(c, s));
      } else if !s.batch && s.q.faultBuffer != {} {
        assert !HandleFaults(c, s).started by { assert Begun(c, s, HandleFaults(c, s)); LateBegun(c, s, HandleFaults(c, s)); }
      }
    } else {
      hide Inv, Apply;
      OtherEvents(c, s, e);
    }
  }

  lemma LateBegun(c: Config, s: Mmu, r: Mmu)
    requires Begun(c, s, r)
    ensures !r.started
  {
  }

  lemma LateNext(c: Config, s: Mmu, t: Mmu, r: Mmu)
    requires s.q.processing != [] && FirstMapped(s, t) && Continued(c, t, r) && Late(s) && s.batch && s.started
    ensures Late(r)
  {
  }

  lemma FirstLate(c: Config, run: seq<Mmu>, events: seq<Event>)
    requires IsRun(c, run, events)
    ensures |run| > 0 && Late(run[0])
  {
  }

  lemma {:induction false} AlwaysLate(c: Config, run: seq<Mmu>, events: seq<Event>, k: nat)
    requires IsRun(c, run, events) && k < |run|
    ensures Late(run[k])
  {
    hide IsRun, Inv, Apply, EventOk;
    if k == 0 {
      FirstLate(c, run, events);
    } else {
      AlwaysLate(c, run, events, k - 1);
      RunLength(c, run, events);
      RunStep(c, run, events, k - 1);
      StepLate(c, run[k - 1], events[k - 1]);
    }
  }

  // ----- over runs -----

  /** How often, from event `k` up to event `n` of a run, faults are handled and a cycle follows. */
  function Rounds(events: seq<Event>, k: nat, n: nat): nat
    requires k <= n <= |events|
  {
    if n == k then 0
    else if n >= k + 2 && events[n - 2].Faults? && events[n - 1].Tick? then Rounds(events, k, n - 2) + 1
    else Rounds(events, k, n - 1)
  }

  /** One event brings no page of the batch further away. */
  lemma StepNearer(c: Config, s: Mmu, e: Event, page: nat, i: nat) returns (j: nat)
    requires Inv(c, s) && Late(s) && Pending(s, page, i) && EventOk(c, s, e)
    ensures var r := Apply(c, s, e);
            (e.Faults? && Resolves(s, r, page)) || (Pending(r, page, j) && Rest(c, r, j) <= Rest(c, s, i))
    ensures e.Faults? && !Resolves(s, Apply(c, s, e), page) ==>
              var r := Apply(c, s, e); Pending(r, page, j) && Rest(c, r.(cycle := r.cycle + 1), j) < Rest(c, s, i)
  {
    if e.Faults? {
      hide Inv, HandleFaults, Resolves;
      j := RoundNearer(c, s, page, i);
    } else {
      hide Inv, Apply, Longest;
      j := i;
      OtherEvents(c, s, e);
    }
  }

  /** The same for the cycle that follows. */
  lemma TickNearer(c: Config, s: Mmu, e: Event, page: nat, i: nat)
    requires Inv(c, s) && Pending(s, page, i) && EventOk(c, s, e) && e.Tick?
    ensures var r := Apply(c, s, e); Pending(r, page, i) && Rest(c, r, i) == Rest(c, s.(cycle := s.cycle + 1), i)
  {
    hide Inv, Apply, Longest;
    OtherEvents(c, s, e);
  }

  /** Some event from `k` on, before `n`, handles faults and resolves the page. */
  ghost predicate ResolvedIn(run: seq<Mmu>, events: seq<Event>, page: nat, k: nat, n: nat) {
    exists m :: k <= m < n && m + 1 < |run| && m < |events| && events[m].Faults? && Resolves(run[m], run[m + 1], page)
  }

  lemma {:induction false} NearerInRun(c: Config, run: seq<Mmu>, events: seq<Event>, k: nat, n: nat, page: nat, i: nat) returns (j: nat)
    requires IsRun(c, run, events) && |run| == |events| + 1 && k <= n <= |events| && Pending(run[k], page, i)
    ensures ResolvedIn(run, events, page, k, n) ||
            (Pending(run[n], page, j) && Rest(c, run[n], j) + Rounds(events, k, n) <= Rest(c, run[k], i))
    decreases n
  {
    hide IsRun, Inv, Apply, EventOk, Resolves, Rest, Pending, Late;
    j := i;
    if n > k {
      RunStep(c, run, events, n - 1);
      AlwaysLate(c, run, events, n - 1);
      if n >= k + 2 && events[n - 2].Faults? && events[n - 1].Tick? {
        j := NearerInRun(c, run, events, k, n - 2, page, i);
        if !ResolvedIn(run, events, page, k, n) {
          RunStep(c, run, events, n - 2);
          AlwaysLate(c, run, events, n - 2);
          j := StepNearer(c, run[n - 2], events[n - 2], page, j);
          TickNearer(c, run[n - 1], events[n - 1], page, j);
        }
      } else {
        j := NearerInRun(c, run, events, k, n - 1, page, i);
        if !ResolvedIn(run, events, page, k, n) {
          j := StepNearer(c, run[n - 1], events[n - 1], page, j);
        }
      }
    }
  }

  /** Every page of a batch is mapped in bounded time, whatever else happens: if it is the `i`-th, counting
      from 0, after at most the rest of the overhead and `i + 1` longest transfers, counted in rounds of
      handling faults and a cycle. Then everybody who waited for it may retry. */
  lemma FaultResolved(c: Config, run: seq<Mmu>, events: seq<Event>, k: nat, n: nat, page: nat, i: nat)
    requires IsRun(c, run, events) && |run| == |events| + 1 && k <= n <= |events| && Pending(run[k], page, i)
    requires Rounds(events, k, n) > Rest(c, run[k], i)
    ensures ResolvedIn(run, events, page, k, n)
  {
    hide IsRun, Inv, Rest, Pending, ResolvedIn;
    var j := NearerInRun(c, run, events, k, n, page, i);
  }

  /** A page that has just become the `i`-th of a new batch is mapped within the batch overhead and
      `i + 1` longest transfers. */
  lemma BatchBound(c: Config, s: Mmu, page: nat)
    requires Inv(c, s) && !s.batch && page in s.q.faultBuffer
    ensures var r := HandleFaults(c, s);
            exists i: nat :: Pending(r, page, i) && Rest(c, r, i) == c.batchOverhead + (i + 1) * Longest(c)
  {
    FaultsLaw(c, s);
    hide Inv, HandleFaults, Longest;
    var r := HandleFaults(c, s);
    assert page in r.q.processing;
    var i :| 0 <= i < |r.q.processing| && r.q.processing[i] == page;
    assert Pending(r, page, i);
  }
}
