/** The MMU as the simulator runs it: methods that update its tables, queues and linked lists
    step by step. Each is proved to do what the machine in MmuMachine does. */
module MmuUnit {
  import opened Lists
  import opened Options
  import opened LruOrder
  import LruTable
  import opened MmuMemory
  import opened MmuQueues
  import opened MmuMachine

  class Unit {
    const c: Config
    var table: map<nat, nat>
    var free: seq<bool>
    var remaining: int
    var next: nat
    const repl: LruTable.Table
    const tlb: LruTable.Table
    var walkDue: map<nat, seq<nat>>
    var walkUops: map<nat, seq<Uop>>
    var retry: seq<Uop>
    var faultRetry: seq<Uop>
    var faultBuffer: set<nat>
    var faultUops: map<nat, seq<Uop>>
    var processing: seq<nat>
    var processingUops: map<nat, seq<Uop>>
    var cycle: nat
    var batch: bool
    var started: bool
    var transferStart: Option<nat>
    var nextEvent: Option<nat>
    var paddr: map<Uop, nat>
    ghost var owner: map<nat, nat>
    ghost var where: map<Uop, Spot>
    ghost var due: map<nat, nat>

    ghost predicate Sound()
      reads repl, repl.pool, tlb, tlb.pool
    {
      && repl != tlb && repl.pool !! tlb.pool && repl.capacity == c.frames && tlb.capacity == c.tlbSize
      && repl.Valid() && tlb.Valid()
    }

    ghost function Mem(): Memory
      requires Sound()
      reads this`table, this`free, this`remaining, this`next, this`owner, repl, repl.pool, tlb, tlb.pool
    {
      Memory(table, free, remaining, next, repl.Contents(), tlb.Contents(), owner)
    }

    ghost function Waiting(): Queues
      reads this`walkDue, this`walkUops, this`retry, this`faultRetry, this`faultBuffer, this`faultUops
      reads this`processing, this`processingUops, this`where, this`due
    {
      Queues(walkDue, walkUops, retry, faultRetry, faultBuffer, faultUops, processing, processingUops, where, due)
    }

    lemma Parts()
      requires Sound()
      ensures Waiting().faultBuffer == faultBuffer && Waiting().processing == processing
      ensures Waiting().processingUops == processingUops && Mem().remaining == remaining
      ensures Mem().next == next && Mem().free == free && Waiting().retry == retry
    {
    }

    ghost function State(): Mmu
      requires Sound()
      reads this, repl, repl.pool, tlb, tlb.pool
    {
      Mmu(Mem(), Waiting(), cycle, batch, started, transferStart, nextEvent, paddr)
    }

    ghost predicate Valid()
      reads this, repl, repl.pool, tlb, tlb.pool
    {
      Sound() && Inv(c, State())
    }

    constructor (config: Config, start: nat)
      ensures c == config && Valid() && State() == Init(config, start)
    {
      c := config;
      table, free, remaining, next := map[], seq(config.frames, _ => true), config.frames, 0;
      repl := new LruTable.Table(config.frames);
      tlb := new LruTable.Table(config.tlbSize);
      walkDue, walkUops, retry, faultRetry := map[], map[], [], [];
      faultBuffer, faultUops, processing, processingUops := {}, map[], [], map[];
      cycle, batch, started, transferStart, nextEvent, paddr := start, false, false, None, None, map[];
      owner, where, due := map[], map[], map[];
      new;
      InitKeeps(c, start);
      hide Inv;
    }

    /** `translate`: a TLB hit gives the address at once, a miss puts the uop into the walk queue. */
    method TranslateUop(u: Uop) returns (done: bool)
      requires Valid() && u !in where && UopOk(c, u)
      modifies this, repl, repl.pool, tlb, tlb.pool
      ensures Valid() && (done, State()) == Translate(c, old(State()), u)
    {
      hide Inv, UopOk, Physical, HitTlb, MissTlb, LruTable.Table.Valid, LruTable.Table.Contents;
      if u in paddr {
        return true;
      }
      var hit := tlb.Lookup(u.page);
      if hit {
        UseTlb(u);
        return true;
      }
      AwaitWalk(u);
      return false;
    }

    method AwaitWalk(u: Uop)
      requires Valid() && u !in where && UopOk(c, u)
      modifies this
      ensures Valid() && State() == MissTlb(c, old(State()), u)
    {
      hide Inv, UopOk, LruTable.Table.Valid, LruTable.Table.Contents;
      MissKeeps(c, State(), u);
      JoinWalk(u);
    }

    /** The uop is translated with the TLB entry of its page. */
    method UseTlb(u: Uop)
      requires Valid() && Has(tlb.Contents(), u.page)
      modifies this`paddr, tlb, tlb.pool
      ensures Valid() && State() == HitTlb(c, old(State()), u)
    {
      hide Inv, Physical, LruTable.Table.Valid, LruTable.Table.Contents;
      ghost var before := State();
      HitKeeps(c, State(), u);
      var frame := tlb.Translate(u.page);
      paddr := paddr[u := Physical(c, frame, u.vaddr)];
      assert State().mem == before.mem.(tlb := Touch(before.mem.tlb, u.page));
    }

    method JoinWalk(u: Uop)
      modifies this`walkUops, this`walkDue, this`where, this`due
      ensures Waiting() == Enqueue(old(Waiting()), u, cycle + c.walkLatency)
    {
      if u.page in walkUops {
        walkUops := walkUops[u.page := walkUops[u.page] + [u]];
      } else {
        var ready := cycle + c.walkLatency;
        var pages := if ready in walkDue then walkDue[ready] else [];
        walkDue := walkDue[ready := pages + [u.page]];
        walkUops := walkUops[u.page := [] + [u]];
        due := due[u.page := ready];
      }
      where := where[u := Walking];
    }

    /** `do_page_table_walks` for one uop that was taken out of its queue. */
    method WalkUop(u: Uop, held: Uop -> bool)
      requires Valid() && u !in where && UopOk(c, u)
      modifies this, repl, repl.pool, tlb, tlb.pool
      ensures Valid() && State() == Walk(c, old(State()), u, held)
    {
      hide Inv, UopOk, Physical, WalkMapped, WalkPostponed, WalkFault, WalkFrame, LruTable.Table.Valid, LruTable.Table.Contents;
      if u.page in table {
        WalkMappedKeeps(c, State(), u);
        Found(u);
      } else if held(u) && u.page !in faultBuffer && c.faultBufferSize <= |faultBuffer| {
        Postpone(u);
      } else {
        RecordFault(u);
      }
    }

    /** The page is mapped: TLB and replacement unit are updated and the uop may retry. */
    method Found(u: Uop)
      requires Valid() && u.page in table
      modifies this`paddr, this`retry, this`where, repl, repl.pool, tlb, tlb.pool
      ensures Sound() && State() == WalkMapped(c, old(State()), u)
    {
      hide Inv, Physical, WalkHit, LruTable.Table.Valid, LruTable.Table.Contents;
      TouchPage(u.page);
      paddr := paddr[u := Physical(c, table[u.page], u.vaddr)];
      retry := retry + [u];
      where := where[u := Retrying];
    }

    method TouchPage(page: nat)
      requires Valid() && page in table
      modifies repl, repl.pool, tlb, tlb.pool
      ensures Sound() && Mem() == WalkHit(c, old(Mem()), page)
    {
      hide Inv, Has, Touch, Push, Find, LruTable.Table.Valid, LruTable.Table.Contents;
      RankedIn(c, State(), page);
      LearnPage(page, table[page]);
      repl.Update(page);
    }

    method LearnPage(page: nat, frame: nat)
      requires tlb.Valid() && tlb.capacity > 0
      modifies tlb, tlb.pool
      ensures tlb.Valid()
      ensures var was := old(tlb.Contents());
              tlb.Contents() == Touch(if Has(was, page) then was else Push(was, tlb.capacity, Item(page, frame)), page)
    {
      hide LruTable.Table.Valid, LruTable.Table.Contents;
      var known := tlb.Lookup(page);
      if !known {
        PushFound(tlb.Contents(), tlb.capacity, Item(page, frame));
        tlb.Insert(page, frame);
      }
      tlb.Update(page);
    }

    method Postpone(u: Uop)
      requires Valid() && u !in where && UopOk(c, u)
      modifies this`faultRetry, this`where
      ensures Valid() && State() == WalkPostponed(c, old(State()), u)
    {
      hide Inv, UopOk, LruTable.Table.Valid, LruTable.Table.Contents;
      WalkPostponedKeeps(c, State(), u);
      faultRetry := faultRetry + [u];
      where := where[u := FaultRetrying];
    }

    method RecordFault(u: Uop)
      requires Valid() && u !in where && UopOk(c, u) && u.page !in table
      modifies this`faultBuffer, this`faultUops, this`where
      ensures Valid() && State() == WalkFault(c, old(State()), u)
    {
      hide Inv, UopOk, LruTable.Table.Valid, LruTable.Table.Contents;
      WalkFaultKeeps(c, State(), u);
      JoinFault(u);
    }

    method JoinFault(u: Uop)
      modifies this`faultBuffer, this`faultUops, this`where
      ensures Waiting() == ToFault(old(Waiting()), u)
    {
      faultBuffer := faultBuffer + {u.page};
      var uops := if u.page in faultUops then faultUops[u.page] else [];
      faultUops := faultUops[u.page := uops + [u]];
      where := where[u := Faulted];
    }

    /** Walks for a list of uops that were taken out of their queue. */
    method WalkList(l: seq<Uop>, held: Uop -> bool)
      requires Valid() && NoDup(l) && forall u :: u in l ==> u !in where && UopOk(c, u)
      modifies this, repl, repl.pool, tlb, tlb.pool
      ensures Valid() && State() == WalkAll(c, old(State()), l, held)
    {
      hide Inv, UopOk, Walk, WalkAll, WalkFrame, NoDup, LruTable.Table.Valid, LruTable.Table.Contents;
      ghost var before := State();
      WalkAllStart(c, before, l, held);
      for k := 0 to |l|
        invariant Valid() && Walkable(c, before, l, k) && State() == WalkAll(c, before, l[..k], held)
      {
        WalkAllStep(c, before, l, k, held);
        WalkUop(l[k], held);
      }
      assert l[..|l|] == l;
    }

    /** The postponed uops walk again once the fault buffer has drained. */
    method RetryPostponed(held: Uop -> bool)
      requires Valid()
      modifies this, repl, repl.pool, tlb, tlb.pool
      ensures Valid() && State() == RetryFaults(c, old(State()), held)
    {
      hide Inv, UopOk, WalkAll, LruTable.Table.Valid, LruTable.Table.Contents;
      if faultBuffer == {} && faultRetry != [] {
        TakeFaultRetryOk(c, State());
        var l := faultRetry;
        faultRetry := [];
        where := where - Elems(l);
        WalkList(l, held);
      }
    }

    /** The walks that are due, earliest first, page by page. */
    method DoDueWalks(held: Uop -> bool)
      requires Valid()
      modifies this, repl, repl.pool, tlb, tlb.pool
      ensures Valid() && State() == WalkDue(c, old(State()), held)
    {
      hide Inv, WalkPage, LruTable.Table.Valid, LruTable.Table.Contents;
      while walkDue.Keys != {}
        invariant Valid() && WalkDue(c, State(), held) == WalkDue(c, old(State()), held)
        decreases |due|
      {
        var t := Smallest(walkDue.Keys);
        if t > cycle {
          break;
        }
        WalkFirstPage(t, held);
      }
    }

    method WalkFirstPage(t: nat, held: Uop -> bool)
      requires Valid() && t in walkDue
      modifies this, repl, repl.pool, tlb, tlb.pool
      ensures Valid() && State() == WalkPage(c, old(State()), t, held)
      ensures |due| < |old(due)|
    {
      hide Inv, UopOk, WalkAll, LruTable.Table.Valid, LruTable.Table.Contents;
      hide TakePage;
      TakePageOk(c, State(), t);
      var uops := TakeWalkers(t);
      WalkList(uops, held);
    }

    /** The first page due at `t` leaves the walk queue, and its uops are to be walked. */
    method TakeWalkers(t: nat) returns (uops: seq<Uop>)
      requires t in walkDue && walkDue[t] != [] && walkDue[t][0] in walkUops
      modifies this`walkUops, this`walkDue, this`where, this`due
      ensures Waiting() == TakePage(old(Waiting()), t) && uops == old(walkUops[walkDue[t][0]])
    {
      var pages := walkDue[t];
      uops := walkUops[pages[0]];
      walkUops := walkUops - {pages[0]};
      walkDue := if |pages| == 1 then walkDue - {t} else walkDue[t := pages[1..]];
      where, due := where - Elems(uops), due - {pages[0]};
    }

    /** Every uop of the retry queue accesses the cache again. */
    method RetryAccesses(latency: Uop -> int)
      requires Valid()
      modifies this, repl, repl.pool, tlb, tlb.pool
      ensures Valid() && State() == RetryFrom(c, old(State()), 0, latency)
    {
      hide Inv, RetryOne, Mem, Waiting, Sound, LruTable.Table.Valid, LruTable.Table.Contents;
      Parts();
      var k := 0;
      while k < |retry|
        invariant Valid() && k <= |retry| == |State().q.retry| && RetryFrom(c, State(), k, latency) == RetryFrom(c, old(State()), 0, latency)
        decreases |retry| - k
      {
        var removed := RetryAccess(k, latency);
        Parts();
        if !removed {
          k := k + 1;
        }
      }
    }

    method RetryAccess(k: nat, latency: Uop -> int) returns (removed: bool)
      requires Valid() && k < |retry|
      modifies this, repl, repl.pool, tlb, tlb.pool
      ensures Valid() && State() == RetryOne(c, old(State()), k, latency)
      ensures |retry| == if removed then old(|retry|) - 1 else old(|retry|)
    {
      hide Inv, UopOk, Physical, HitTlb, RetryMiss, RetryDone, LruTable.Table.Valid, LruTable.Table.Contents;
      var u := retry[k];
      var translated := u in paddr;
      if !translated {
        translated := tlb.Lookup(u.page);
        if translated {
          UseTlb(u);
        }
      }
      if !translated {
        RetryMissKeeps(c, State(), k);
        BackToWalk(k);
        removed := true;
      } else {
        removed := latency(u) != 0;
        if removed {
          LeaveQueue(k);
        }
      }
    }

    method LeaveQueue(k: nat)
      requires Valid() && k < |retry|
      modifies this`retry, this`where
      ensures Valid() && State() == RetryDone(c, old(State()), k) && |retry| == old(|retry|) - 1
    {
      hide Inv, UopOk, LruTable.Table.Valid, LruTable.Table.Contents;
      LeaveRetryOk(c, State(), k);
      DropRetry(k);
    }

    method DropRetry(k: nat)
      requires k < |retry|
      modifies this`retry, this`where
      ensures Waiting() == LeaveRetry(old(Waiting()), k)
    {
      where := where - {retry[k]};
      retry := retry[..k] + retry[k + 1..];
    }

    method BackToWalk(k: nat)
      requires Sound() && k < |retry|
      modifies this
      ensures Sound() && State() == RetryMiss(c, old(State()), k) && |retry| == old(|retry|) - 1
    {
      hide LruTable.Table.Valid, LruTable.Table.Contents, Enqueue;
      var u := retry[k];
      DropRetry(k);
      ghost var left := retry;
      JoinWalk(u);
      assert retry == left;
    }

    /** `run_a_cycle`. */
    method RunACycle(locked: bool, latency: Uop -> int, held: Uop -> bool)
      requires Valid()
      modifies this, repl, repl.pool, tlb, tlb.pool
      ensures Valid() && State() == Cycle(c, old(State()), locked, latency, held)
    {
      hide Inv, RetryFrom, RetryFaults, WalkDue, LruTable.Table.Valid, LruTable.Table.Contents;
      if !locked {
        RetryAccesses(latency);
        RetryPostponed(held);
        DoDueWalks(held);
      }
      TickKeeps(c, State());
      cycle := cycle + 1;
    }

    /** `handle_page_faults`: go on with the batch in process, then start one if faults are pending. */
    method HandlePageFaults()
      requires Valid()
      modifies this, repl, repl.pool, tlb, tlb.pool
      ensures Valid() && State() == HandleFaults(c, old(State()))
    {
      hide Inv, DoBatch, BeginBatch, LruTable.Table.Valid, LruTable.Table.Contents;
      if batch {
        var ended := DoBatchProcessing();
        if !ended {
          return;
        }
      }
      if faultBuffer == {} {
        return;
      }
      BeginBatchProcessing();
    }

    method DoBatchProcessing() returns (ended: bool)
      requires Valid() && batch
      modifies this, repl, repl.pool, tlb, tlb.pool
      ensures Valid() && (ended, State()) == DoBatch(c, old(State()))
    {
      BatchFacts(c, State());
      hide Inv, Transfer, Prepare, Evictable, NextTransfer, Mem, Waiting, Sound, LruTable.Table.Valid, LruTable.Table.Contents;
      if cycle < transferStart.value {
        return false;
      }
      if !started {
        PrepareKeeps(c, State());
        PrepareTransfer();
        return false;
      }
      if cycle < nextEvent.value {
        return false;
      }
      ended := CompleteTransfer();
    }

    /** The page whose transfer is complete is mapped; the next one is prepared or the batch ends. */
    method CompleteTransfer() returns (ended: bool)
      requires Valid() && batch && started && transferStart.Some?
      modifies this, repl, repl.pool, tlb, tlb.pool
      ensures Valid() && (ended, State()) == NextTransfer(c, old(State()))
    {
      hide Inv, Transfer, Prepare, Evictable, Mem, Waiting, Sound, LruTable.Table.Valid, LruTable.Table.Contents;
      NextTransferKeeps(c, State());
      AllocatePage();
      Parts();
      if processing != [] {
        PrepareTransfer();
        return false;
      }
      SetTimers(false, false, None, None);
      return true;
    }

    /** The next transfer is timed, after an eviction if no frame is free. */
    method PrepareTransfer()
      requires Sound()
      requires remaining <= 0 ==> Evictable(Mem())
      modifies this, repl, repl.pool, tlb, tlb.pool
      ensures Sound() && State() == Prepare(c, old(State()))
    {
      hide Evict, Evictable, Mem, Waiting, Sound, LruTable.Table.Valid, LruTable.Table.Contents;
      Parts();
      if remaining > 0 {
        SetTimers(batch, true, transferStart, Some(cycle + c.faultLatency));
      } else {
        EvictPage();
        SetTimers(batch, true, transferStart, Some(cycle + c.evictionLatency + c.faultLatency));
      }
    }

    /** The least recently used page loses its frame and its TLB entry. */
    method EvictPage()
      requires Sound() && Evictable(Mem())
      modifies this`table, this`free, this`remaining, this`next, this`owner, repl, repl.pool, tlb, tlb.pool
      ensures Sound() && Mem() == Evict(old(Mem()))
    {
      hide Drop, DropLast, LruTable.Table.Valid, LruTable.Table.Contents;
      var victim := repl.GetVictim();
      assert victim in table;
      var frame := table[victim];
      table := table - {victim};
      tlb.Invalidate(victim);
      free := free[frame := true];
      remaining := remaining + 1;
      next := frame;
      owner := owner - {frame};
    }

    /** The circular search for a free frame. */
    method FindFreeFrame()
      requires next < |free|
      modifies this`next
      ensures next == FreeFrame(free, old(next))
    {
      if !free[next] {
        var start := next;
        next := if next + 1 == |free| then 0 else next + 1;
        while next != start && !free[next]
          invariant next < |free| && Search(free, start, next) == FreeFrame(free, start)
          decreases if next <= start then start - next else start - next + |free|
        {
          next := if next + 1 == |free| then 0 else next + 1;
        }
      }
    }

    /** The first page in process is mapped to a free frame and its uops may retry. */
    method AllocatePage()
      requires Valid() && batch && started
      modifies this, repl, repl.pool
      ensures Sound() && old(processing != [] && processing[0] in processingUops && next < |free|)
      ensures State() == Transfer(c, old(State()))
    {
      hide Inv, Allocate, Resolve, FreeFrame, Mem, Waiting, LruTable.Table.Valid, LruTable.Table.Contents;
      Parts();
      TransferStart(c, State());
      AllocationOk(c, State());
      var page := processing[0];
      assert remaining > 0;
      MapPage(page);
      WakeWaiters();
    }

    method MapPage(page: nat)
      requires Sound() && next < |free| && free[FreeFrame(free, next)] && !Has(Mem().lru, page) && |Mem().lru| < c.frames
      modifies this`table, this`free, this`remaining, this`next, this`owner, repl, repl.pool
      ensures Sound() && Mem() == Allocate(c, old(Mem()), page)
    {
      hide LruTable.Table.Valid, LruTable.Table.Contents;
      FindFreeFrame();
      assert free[next];
      table := table[page := next];
      repl.Insert(page, 0);
      free := free[next := false];
      remaining := remaining - 1;
      owner := owner[next := page];
    }

    /** The uops that waited for the first page in process go to the retry queue. */
    method WakeWaiters()
      requires processing != [] && processing[0] in processingUops
      modifies this`processing, this`processingUops, this`faultBuffer, this`faultUops, this`retry, this`where
      ensures Waiting() == Resolve(old(Waiting()))
    {
      hide Relocated;
      ghost var resolved := Resolved(Waiting());
      var page := processing[0];
      processing := processing[1..];
      var first := processingUops[page];
      var second := if page in faultUops then faultUops[page] else [];
      retry := retry + first + second;
      processingUops := processingUops - {page};
      faultUops := faultUops - {page};
      faultBuffer := faultBuffer - {page};
      where := Relocated(where, resolved, Retrying);
      assert old(retry) + first + second == old(retry) + resolved;
    }

    /** The faulted pages become the batch to process, in ascending order. */
    method BeginBatchProcessing()
      requires Valid() && !batch && faultBuffer != {}
      modifies this
      ensures Valid() && State() == BeginBatch(c, old(State()))
    {
      hide Inv, Ascending, StartBatch, Mem, Waiting, Sound, LruTable.Table.Valid, LruTable.Table.Contents;
      Parts();
      BeginKeeps(c, State());
      var order := SortPages(faultBuffer);
      StartProcessing(order);
      SetTimers(true, false, Some(cycle + c.batchOverhead), None);
    }

    method SetTimers(inBatch: bool, begun: bool, start: Option<nat>, event: Option<nat>)
      requires Sound()
      modifies this`batch, this`started, this`transferStart, this`nextEvent
      ensures Sound()
      ensures State() == old(State()).(batch := inBatch, started := begun, transferStart := start, nextEvent := event)
    {
      hide Mem, Waiting, Sound;
      batch, started, transferStart, nextEvent := inBatch, begun, start, event;
    }

    method StartProcessing(order: seq<nat>)
      modifies this`processing, this`processingUops, this`faultBuffer, this`faultUops, this`where
      ensures Waiting() == StartBatch(old(Waiting()), order)
    {
      processing := order;
      processingUops := faultUops;
      faultBuffer, faultUops := {}, map[];
      where := Moved(where, Faulted, Processing);
    }

    method SortPages(pages: set<nat>) returns (order: seq<nat>)
      ensures order == Ascending(pages)
    {
      hide Ascending, Least;
      order := [];
      var rest := pages;
      while rest != {}
        invariant order + Ascending(rest) == Ascending(pages)
        decreases rest
      {
        var p := Smallest(rest);
        AscendingStep(rest);
        assert order + ([p] + Ascending(rest - {p})) == (order + [p]) + Ascending(rest - {p});
        order := order + [p];
        rest := rest - {p};
      }
      AscendingStep(rest);
    }

    method Smallest(keys: set<nat>) returns (t: nat)
      requires keys != {}
      ensures t in keys && t == Least(keys)
    {
      ghost var any :| any in keys;
      LeastExists(keys, any);
      t :| t in keys && forall x :: x in keys ==> t <= x;
    }
  }
}
