/** What a cycle of the controller does to each bank: who gets the data bus, when a request may
    leave, and that no bank is left idle, stalled or finished when it need not be. */
module DramEffects {
  import opened Lists
  import opened Arithmetic
  import opened Options
  import opened DramBank
  import opened DramPolicy
  import opened DramControl
  import opened DramTheorems

  // ----- the data bus -----

  /** A transfer that starts at `cycle` takes the bus until `r.ready`: its bytes are what was left of
      this cycle and what the bus carries from here to there, but for what is left then. */
  ghost predicate Carries(width: nat, bus: Bus, r: Bus, size: nat, cycle: nat) {
    && bus.ready <= cycle <= r.ready && 0 < bus.avail <= width && 0 < r.avail <= width
    && size == bus.avail + width * (r.ready - cycle) - r.avail
  }

  lemma AcquireExact(width: nat, bus: Bus, size: nat, cycle: nat)
    requires width > 0 && BusOk(width, bus) && bus.ready <= cycle
    ensures Carries(width, bus, Acquire(width, bus, size, cycle), size, cycle)
  {
    if size >= bus.avail {
      var over := size - bus.avail;
      assert over == width * (over / width) + over % width;
      assert width * (over / width + 1) == width * (over / width) + width;
    }
  }

  /** In the data stage the bank stays as it is, or it had its data at hand and got the bus. */
  ghost predicate GotBus(c: Config, b: Bank, r: Bank, cycle: nat) {
    && Wants(b, ForBus(cycle)) && r.dataReady.Some?
    && (exists bus, after :: Carries(c.busWidth, bus, after, b.current.value.req.size, cycle) && r.dataReady.value == after.ready)
    && r == b.(current := Some(b.current.value.(phase := DataWait)), dataReady := r.dataReady, dataAvail := None)
  }

  ghost predicate BusOrSame(c: Config, b: Bank, r: Bank, cycle: nat) {
    r == b || GotBus(c, b, r, cycle)
  }

  ghost predicate EachBusOrSame(c: Config, banks: seq<Bank>, r: seq<Bank>, cycle: nat) {
    |r| == |banks| && forall j :: 0 <= j < |banks| ==> BusOrSame(c, banks[j], r[j], cycle)
  }

  lemma BusTwice(c: Config, a: seq<Bank>, b: seq<Bank>, d: seq<Bank>, cycle: nat)
    requires EachBusOrSame(c, a, b, cycle) && EachBusOrSame(c, b, d, cycle)
    ensures EachBusOrSame(c, a, d, cycle)
  {
    forall j | 0 <= j < |a| ensures BusOrSame(c, a[j], d[j], cycle) {
      assert BusOrSame(c, a[j], b[j], cycle) && BusOrSame(c, b[j], d[j], cycle);
    }
  }

  lemma OneBus(c: Config, banks: seq<Bank>, k: nat, bus: Bus, cycle: nat)
    requires k < |banks| && Wants(banks[k], ForBus(cycle)) && BusOk(c.busWidth, bus) && bus.ready <= cycle
    ensures var after := Acquire(c.busWidth, bus, banks[k].current.value.req.size, cycle);
            EachBusOrSame(c, banks, banks[k := Grant(banks[k], after.ready)], cycle)
  {
    AcquireExact(c.busWidth, bus, banks[k].current.value.req.size, cycle);
    hide Acquire, Carries;
  }

  /** While the bus is available and a bank of the channel has its data at hand, one gets it. */
  lemma {:induction false} GrantAllLaw(c: Config, banks: seq<Bank>, bus: Bus, lo: nat, hi: nat, cycle: nat)
    requires lo <= hi <= |banks| && BusOk(c.busWidth, bus)
    ensures var (b, u) := GrantAll(c, banks, bus, lo, hi, cycle);
            && EachBusOrSame(c, banks, b, cycle)
            && (forall j :: 0 <= j < |banks| && !(lo <= j < hi) ==> b[j] == banks[j])
            && (u.ready > cycle || forall j :: lo <= j < hi ==> !Wants(b[j], ForBus(cycle)))
    decreases Loaded(banks, lo, hi)
  {
    hide EachBusOrSame, Acquire;
    SelfBus(c, banks, cycle);
    if bus.ready <= cycle {
      var k := Oldest(banks, lo, hi, ForBus(cycle));
      if k.Some? {
        var size := banks[k.value].current.value.req.size;
        var after := Acquire(c.busWidth, bus, size, cycle);
        var granted := banks[k.value := Grant(banks[k.value], after.ready)];
        AcquireKeeps(c.busWidth, bus, size, cycle);
        OneBus(c, banks, k.value, bus, cycle);
        assert k.value in Loaded(banks, lo, hi) && k.value !in Loaded(granted, lo, hi);
        hide Wants, BusOk;
        GrantAllLaw(c, granted, after, lo, hi, cycle);
        BusTwice(c, banks, granted, GrantAll(c, granted, after, lo, hi, cycle).0, cycle);
      }
    }
  }

  /** Of the banks `lo..hi` that wanted the bus none got it before an older one. */
  ghost predicate OldestFirst(banks: seq<Bank>, r: seq<Bank>, lo: nat, hi: nat, cycle: nat)
    requires hi <= |banks| == |r|
  {
    forall j, k :: lo <= j < hi && lo <= k < hi && r[j] != banks[j] && r[k] == banks[k] && Wants(banks[k], ForBus(cycle)) ==>
      Sooner(banks, j, k)
  }

  lemma {:induction false} GrantOrder(c: Config, banks: seq<Bank>, bus: Bus, lo: nat, hi: nat, cycle: nat)
    requires lo <= hi <= |banks| && BusOk(c.busWidth, bus)
    ensures OldestFirst(banks, GrantAll(c, banks, bus, lo, hi, cycle).0, lo, hi, cycle)
    decreases Loaded(banks, lo, hi)
  {
    hide EachBusOrSame, Acquire, OldestFirst, Sooner;
    if bus.ready > cycle {
      NobodyFirst(banks, lo, hi, cycle);
    } else {
      var k := Oldest(banks, lo, hi, ForBus(cycle));
      if k.None? {
        NobodyFirst(banks, lo, hi, cycle);
      } else {
        var size := banks[k.value].current.value.req.size;
        var after := Acquire(c.busWidth, bus, size, cycle);
        var granted := banks[k.value := Grant(banks[k.value], after.ready)];
        AcquireKeeps(c.busWidth, bus, size, cycle);
        assert k.value in Loaded(banks, lo, hi) && k.value !in Loaded(granted, lo, hi);
        hide BusOk;
        GrantOrder(c, granted, after, lo, hi, cycle);
        GrantAllLaw(c, granted, after, lo, hi, cycle);
        FirstBefore(c, banks, granted, GrantAll(c, granted, after, lo, hi, cycle).0, lo, hi, cycle, k.value, after.ready);
      }
    }
  }

  lemma NobodyFirst(banks: seq<Bank>, lo: nat, hi: nat, cycle: nat)
    requires hi <= |banks|
    ensures OldestFirst(banks, banks, lo, hi, cycle)
  {
  }

  lemma FirstBefore(c: Config, banks: seq<Bank>, granted: seq<Bank>, r: seq<Bank>, lo: nat, hi: nat, cycle: nat, first: nat, ready: nat)
    requires lo <= first < hi <= |banks| && Wants(banks[first], ForBus(cycle)) && granted == banks[first := Grant(banks[first], ready)]
    requires forall j :: lo <= j < hi && j != first && Wants(banks[j], ForBus(cycle)) ==> Sooner(banks, first, j)
    requires EachBusOrSame(c, granted, r, cycle) && OldestFirst(granted, r, lo, hi, cycle)
    ensures OldestFirst(banks, r, lo, hi, cycle)
  {
    assert BusOrSame(c, granted[first], r[first], cycle);
    assert r[first] == granted[first] != banks[first];
    hide Wants, BusOrSame;
    forall j, k | lo <= j < hi && lo <= k < hi && r[j] != banks[j] && r[k] == banks[k] && Wants(banks[k], ForBus(cycle))
      ensures Sooner(banks, j, k)
    {
      if j != first {
        assert granted[j] == banks[j] && granted[k] == banks[k];
        assert Sooner(granted, j, k);
      }
    }
  }

  lemma SelfBus(c: Config, banks: seq<Bank>, cycle: nat)
    ensures EachBusOrSame(c, banks, banks, cycle)
  {
  }

  /** The whole data stage: every channel's bus is busy afterwards, or no bank of it has data. */
  lemma {:induction false} DataStageLaw(c: Config, banks: seq<Bank>, buses: seq<Bus>, cycle: nat, ch: nat, j: nat)
    requires |banks| == BankCount(c) && |buses| == c.channels && ch <= c.channels && BusesOk(c, buses) && j < |banks|
    ensures var (b, u) := DataStage(c, banks, buses, cycle, ch);
            && BusOrSame(c, banks[j], b[j], cycle)
            && ChannelOf(c, j) < c.channels
            && (ChannelOf(c, j) < ch ==> b[j] == banks[j] && u[ChannelOf(c, j)] == buses[ChannelOf(c, j)])
            && (ChannelOf(c, j) >= ch ==> u[ChannelOf(c, j)].ready > cycle || !Wants(b[j], ForBus(cycle)))
    decreases c.channels - ch
  {
    hide BusOrSame, BusOk, GrantAll, First, ChannelOf, Wants;
    OwnChannel(c, j);
    InChannel(c, j, ch);
    if ch == c.channels {
      BusSame(c, banks[j], cycle);
    } else {
      ChannelBounds(c, ch);
      var lo := First(c, ch);
      GrantAllLaw(c, banks, buses[ch], lo, lo + c.perChannel, cycle);
      BusKept(c, banks, buses[ch], lo, lo + c.perChannel, cycle);
      var (b, u) := GrantAll(c, banks, buses[ch], lo, lo + c.perChannel, cycle);
      DataStageLaw(c, b, buses[ch := u], cycle, ch + 1, j);
      assert ChannelOf(c, j) == ch || b[j] == banks[j];
    }
  }

  lemma BusSame(c: Config, b: Bank, cycle: nat)
    ensures BusOrSame(c, b, b, cycle)
  {
  }

  lemma {:induction false} BusKept(c: Config, banks: seq<Bank>, bus: Bus, lo: nat, hi: nat, cycle: nat)
    requires lo <= hi <= |banks| && BusOk(c.busWidth, bus)
    ensures BusOk(c.busWidth, GrantAll(c, banks, bus, lo, hi, cycle).1)
    decreases Loaded(banks, lo, hi)
  {
    hide BusOk, Acquire;
    if bus.ready <= cycle {
      var k := Oldest(banks, lo, hi, ForBus(cycle));
      if k.Some? {
        var size := banks[k.value].current.value.req.size;
        var after := Acquire(c.busWidth, bus, size, cycle);
        AcquireKeeps(c.busWidth, bus, size, cycle);
        var granted := banks[k.value := Grant(banks[k.value], after.ready)];
        assert k.value in Loaded(banks, lo, hi) && k.value !in Loaded(granted, lo, hi);
        BusKept(c, granted, after, lo, hi, cycle);
      }
    }
  }

  // ----- completion -----

  /** The banks after commands and data of a cycle. */
  function OnBus(c: Config, s: Ctrl): (r: seq<Bank>)
    requires |s.banks| == BankCount(c) && |s.buses| == c.channels
    ensures |r| == |s.banks|
  {
    DataStage(c, CmdStage(c, s.banks, s.cycle), s.buses, s.cycle, 0).0
  }

  /** The data of the current request has been sent by `cycle`. */
  predicate DataSent(b: Bank, cycle: nat) {
    In(b, DataWait) && b.dataReady.Some? && b.dataReady.value <= cycle
  }

  /** Request `r` completes with the current one of the bank. */
  predicate Together(c: Config, b: Bank, r: Request)
    requires b.current.Some?
  {
    r == b.current.value.req || (c.merge && r.addr == b.current.value.req.addr && r in RequestsOf(b.buffer))
  }

  /** The bank after a completion: nothing is current, and the requests that completed are gone. */
  ghost predicate Emptied(c: Config, b: Bank, r: Bank)
    requires b.current.Some?
  {
    && r.current.None? && r.dataReady.None? && r.row == b.row
    && (forall e :: e in r.buffer <==> e in b.buffer && !(c.merge && e.req.addr == b.current.value.req.addr))
    && Pending(b) == Pending(r) + multiset(Completed(c, b))
  }

  lemma CompleteEmpties(c: Config, b: Bank)
    requires b.current.Some?
    ensures Emptied(c, b, Complete(c, b)) && Complete(c, b).dataReady.None?
  {
    hide Pending, Picked, Rest;
    PickedMembers(b.buffer, SameAddr(b.current.value.req.addr));
    CompletePending(c, b);
  }

  /** Bank by bank, exactly the banks whose data has been sent complete. */
  lemma {:induction false} CompleteEach(c: Config, s: Ctrl, k: nat, j: nat)
    requires k <= |s.banks| && j < |s.banks|
    requires forall i :: 0 <= i < |s.banks| && s.banks[i].dataReady.Some? ==> In(s.banks[i], DataWait)
    ensures var r := CompleteStage(c, s, k).banks[j];
            if j >= k && DataSent(s.banks[j], s.cycle) then Emptied(c, s.banks[j], r) else r == s.banks[j]
    decreases |s.banks| - k
  {
    hide Complete, Completed, Returned, Freed, Delay, Emptied, Emit;
    if k < |s.banks| {
      if DataSent(s.banks[k], s.cycle) {
        CompleteEmpties(c, s.banks[k]);
        EmitBanks(c, s, Completed(c, s.banks[k]));
        CompleteEach(c, CompleteOne(c, s, k), k + 1, j);
      } else {
        CompleteEach(c, s, k + 1, j);
      }
    }
  }

  lemma EmitBanks(c: Config, s: Ctrl, l: seq<Request>)
    ensures Emit(c, s, l).cycle == s.cycle
  {
  }

  lemma CompletedTogether(c: Config, b: Bank, r: Request)
    requires b.current.Some?
    ensures r in Completed(c, b) <==> Together(c, b, r)
  {
    PickedMembers(b.buffer, SameAddr(b.current.value.req.addr));
    var l, m := b.buffer, Merged(c, b);
    if r in RequestsOf(m) {
      var i :| 0 <= i < |m| && m[i].req == r;
      assert m[i] in m && m[i] in l;
      var i' :| 0 <= i' < |l| && l[i'] == m[i];
      assert RequestsOf(l)[i'] == r;
    }
    if c.merge && r.addr == b.current.value.req.addr && r in RequestsOf(l) {
      var i :| 0 <= i < |l| && l[i].req == r;
      assert l[i] in l && l[i] in m;
      var i' :| 0 <= i' < |m| && m[i'] == l[i];
      assert RequestsOf(m)[i'] == r;
    }
  }

  // ----- a cycle of one bank -----

  /** The bank after acceptance of a request: its service is as before, prefetches may be gone, and
      the request may have joined. */
  ghost predicate Entered(b: Bank, r: Bank, incoming: Option<Request>) {
    && r.current == b.current && r.dataReady == b.dataReady && r.dataAvail == b.dataAvail
    && r.bankReady == b.bankReady && r.row == b.row && r.log == b.log && r.initial == b.initial
    && (forall e :: e in b.buffer && e.req.kind != Prefetch ==> e in r.buffer)
    && (forall e :: e in r.buffer ==> e in b.buffer || incoming == Some(e.req))
    && (incoming.None? ==> r == b)
  }

  lemma FlushEnters(b: Bank, r: Request)
    ensures Entered(b, Flush(b), Some(r))
  {
    PickedMembers(b.buffer, IsPrefetch);
    hide Picked, Rest, SlotsOf;
  }

  lemma InsertEnters(b: Bank, r: Request, cycle: nat)
    requires b.free != []
    ensures Entered(b, Insert(b, r, cycle), Some(r))
  {
  }

  lemma EntersTwice(a: Bank, b: Bank, d: Bank, incoming: Option<Request>)
    requires Entered(a, b, incoming) && Entered(b, d, incoming)
    ensures Entered(a, d, incoming)
  {
  }

  lemma AcceptEach(s: Ctrl, r: Request, j: nat)
    requires r.bank < |s.banks| && j < |s.banks|
    ensures |Accept(s, r).1.banks| == |s.banks|
    ensures Entered(s.banks[j], Accept(s, r).1.banks[j], if j == r.bank then Some(r) else None)
  {
    hide Flush, Insert, Picked, RequestBag, Entered;
    var b := s.banks[r.bank];
    EnteredNone(s.banks[j]);
    FlushEnters(b, r);
    var f := if b.free == [] then Flush(b) else b;
    EnteredSame(b, r);
    if f.free != [] {
      InsertEnters(f, r, s.cycle);
      EntersTwice(b, f, Insert(f, r, s.cycle), Some(r));
    }
  }

  lemma EnteredSame(b: Bank, r: Request)
    ensures Entered(b, b, Some(r))
  {
  }

  /** Entry `e` is the one that the policy puts before `x`, or as good: the oldest in the buffer without the
      row policy; with it, no prefetch if `x` is a demand, a hit if `x` is one of the same class, and no younger
      than `x` if both are alike in that. */
  predicate PutFirst(c: Config, row: nat, buffer: seq<Entry>, e: Entry, x: Entry)
    requires buffer != []
  {
    if !c.rowsFirst then e == buffer[0]
    else
      && (e.req.kind == Prefetch ==> x.req.kind == Prefetch)
      && ((e.req.kind == Prefetch <==> x.req.kind == Prefetch) ==>
            (Hit(row, x) ==> Hit(row, e)) && ((Hit(row, x) <==> Hit(row, e)) ==> e.stamp <= x.stamp))
  }

  /** The bank selects the entry of its buffer that the policy puts first. */
  ghost predicate Selects(c: Config, b: Bank, r: Bank, cycle: nat) {
    && In(r, Cmd) && r.stamp == cycle && r.initial == b.row && r.log == []
    && r.dataReady == b.dataReady && r.dataAvail == b.dataAvail && r.row == b.row
    && exists e :: e in b.buffer && r.current.value == e.(phase := Cmd) && forall x :: x in b.buffer ==> PutFirst(c, b.row, b.buffer, e, x)
  }

  /** Who is selected or resumed. */
  ghost predicate Renewed(c: Config, b: Bank, r: Bank, cycle: nat) {
    if b.current.None? && b.buffer != [] then Selects(c, b, r, cycle)
    else if In(b, CmdWait) && b.bankReady.Some? && b.bankReady.value <= cycle then
      && In(r, Cmd) && r.stamp == cycle && r.current.value.req == b.current.value.req && r.buffer == b.buffer && r.log == b.log
      && r.dataReady == b.dataReady && r.dataAvail == b.dataAvail && r.row == b.row && r.initial == b.initial
    else r == b
  }

  lemma FirstSelected(c: Config, b: Bank)
    requires b.buffer != []
    ensures var l := Schedule(c, b.row, b.buffer);
            l != [] && l[0] in b.buffer && forall x :: x in b.buffer ==> PutFirst(c, b.row, b.buffer, l[0], x)
  {
    hide Schedule;
    SchedulePermutes(c, b.row, b.buffer);
    var l := Schedule(c, b.row, b.buffer);
    assert l[0] in l;
    forall x | x in b.buffer ensures PutFirst(c, b.row, b.buffer, l[0], x) {
      if c.rowsFirst { PicksBest(c, b.row, b.buffer, x); } else { Unsorted(c, b.row, b.buffer); }
    }
  }

  lemma Unsorted(c: Config, row: nat, buffer: seq<Entry>)
    requires !c.rowsFirst
    ensures Schedule(c, row, buffer) == buffer
  {
  }

  lemma NewRenews(c: Config, b: Bank, cycle: nat)
    ensures Renewed(c, b, NewBank(c, b, cycle), cycle)
  {
    hide Schedule, PutFirst;
    if b.current.None? && b.buffer != [] { FirstSelected(c, b); }
  }

  /** What bank `j` goes through in an unlocked cycle: commands and data, completion if its data has
      been sent, selection or the next command, and acceptance. */
  ghost predicate GoesThrough(c: Config, b: Bank, g: Bank, u: Bank, v: Bank, t: Bank, cycle: nat, incoming: Option<Request>) {
    && (if DataSent(g, cycle) then Emptied(c, g, u) else u == g)
    && Renewed(c, u, v, cycle) && Entered(v, t, incoming)
    && Pending(g) == Pending(b) && Pending(v) == Pending(u)
  }

  /** The request in the network's queue, if it is for bank `j`. */
  function IncomingFor(i: Input, j: nat): Option<Request> {
    if i.incoming.Some? && i.incoming.value.bank == j then i.incoming else None
  }

  lemma SamePending(c: Config, b: Bank, r: Bank, cycle: nat)
    requires BusOrSame(c, b, r, cycle)
    ensures Pending(r) == Pending(b)
  {
    if r != b { SameBags(b, r); }
  }

  lemma CmdPending(c: Config, banks: seq<Bank>, cycle: nat, k: nat)
    requires |banks| == BankCount(c) && k < |banks|
    ensures Pending(CmdBank(c, banks, cycle, k)) == Pending(banks[k])
  {
    hide Pending, Slots, Chosen;
    if Chosen(c, banks, k) == Some(k) { SameBags(banks[k], Issue(c, banks[k], cycle)); }
  }

  /** The state after completion. */
  function Done(c: Config, s: Ctrl, i: Input): (r: Ctrl)
    requires |s.banks| == BankCount(c) && |s.buses| == c.channels
    ensures |r.banks| == |s.banks|
  {
    var l := Leave(c, s, i);
    var (granted, buses) := DataStage(c, CmdStage(c, l.banks, l.cycle), l.buses, l.cycle, 0);
    CompleteStage(c, l.(banks := granted, buses := buses), 0)
  }

  lemma LeaveBuses(c: Config, s: Ctrl, i: Input)
    ensures var l := Leave(c, s, i);
            l.banks == s.banks && l.buses == s.buses && l.cycle == s.cycle && l.accepted == s.accepted
  {
  }

  lemma CycleEach(c: Config, s: Ctrl, i: Input, j: nat)
    requires Inv(c, s) && InputOk(c, s, i) && !i.locked && j < |s.banks|
    ensures |s.banks| == BankCount(c) && |s.buses| == c.channels && |Cycle(c, s, i).banks| == |s.banks|
    ensures GoesThrough(c, s.banks[j], OnBus(c, s)[j], Done(c, s, i).banks[j], NewStage(c, Done(c, s, i).banks, s.cycle)[j],
                        Cycle(c, s, i).banks[j], s.cycle, IncomingFor(i, j))
    ensures Done(c, s, i).cycle == s.cycle && BankOk(c, OnBus(c, s)[j], s.cycle)
  {
    hide Held, Pending, BankOk, Leave, CmdStage, DataStage, CompleteStage, NewStage, Accept, BankCount, Emptied, Renewed, Entered;
    HeldSize(c, s, s.cycle);
    var l := Leave(c, s, i);
    LeaveKeeps(c, s, i, s.cycle);
    LeaveBuses(c, s, i);
    var issued := CmdStage(c, s.banks, s.cycle);
    var (granted, buses) := DataStage(c, issued, s.buses, s.cycle, 0);
    var mid := l.(banks := granted, buses := buses);
    BankBefore(c, s, j);
    MidHeld(c, s, l);
    HeldWaits(c, mid, s.cycle);
    CompleteEach(c, mid, 0, j);
    CompleteStageKeeps(c, mid, 0, s.cycle);
    var u := CompleteStage(c, mid, 0);
    NewRenews(c, u.banks[j], s.cycle);
    HeldBank(c, u, j, s.cycle);
    NewBankKeeps(c, u.banks[j], s.cycle);
    assert NewStage(c, u.banks, s.cycle)[j] == NewBank(c, u.banks[j], s.cycle);
    var v := u.(banks := NewStage(c, u.banks, s.cycle));
    if i.incoming.Some? {
      AcceptEach(v, i.incoming.value, j);
    } else {
      EnteredNone(v.banks[j]);
    }
  }

  lemma EnteredNone(b: Bank)
    ensures Entered(b, b, None)
  {
  }

  lemma HeldBank(c: Config, s: Ctrl, j: nat, limit: nat)
    requires Held(c, s, limit) && j < |s.banks|
    ensures BankOk(c, s.banks[j], limit)
  {
  }

  lemma HeldWaits(c: Config, s: Ctrl, limit: nat)
    requires Held(c, s, limit)
    ensures forall k :: 0 <= k < |s.banks| && s.banks[k].dataReady.Some? ==> In(s.banks[k], DataWait)
  {
    hide BusesOk, Conserved, InOrder, Slots;
    forall k | 0 <= k < |s.banks| && s.banks[k].dataReady.Some? ensures In(s.banks[k], DataWait) {
      assert BankOk(c, s.banks[k], limit);
    }
  }

  lemma MidHeld(c: Config, s: Ctrl, l: Ctrl)
    requires Held(c, l, s.cycle) && l.banks == s.banks && l.buses == s.buses && l.cycle == s.cycle
    ensures |s.banks| == BankCount(c) && |s.buses| == c.channels
    ensures var (granted, buses) := DataStage(c, CmdStage(c, s.banks, s.cycle), s.buses, s.cycle, 0);
            Held(c, l.(banks := granted, buses := buses), s.cycle)
  {
    hide AllOk, BusesOk, Conserved, InOrder, AllPending, CmdStage, DataStage, BankCount;
    CmdStageKeeps(c, s.banks, s.cycle, s.cycle);
    DataStageKeeps(c, CmdStage(c, s.banks, s.cycle), s.buses, s.cycle, 0, s.cycle);
    var (granted, buses) := DataStage(c, CmdStage(c, s.banks, s.cycle), s.buses, s.cycle, 0);
    Rearranged(l, granted, buses);
  }

  lemma BankBefore(c: Config, s: Ctrl, j: nat)
    requires Inv(c, s) && j < |s.banks|
    ensures |s.banks| == BankCount(c) && |s.buses| == c.channels
    ensures Pending(OnBus(c, s)[j]) == Pending(s.banks[j]) && BankOk(c, OnBus(c, s)[j], s.cycle)
    ensures BusOrSame(c, CmdStage(c, s.banks, s.cycle)[j], OnBus(c, s)[j], s.cycle)
  {
    hide Pending, BankOk, Conserved, InOrder, CmdBank, DataStage, AllPending, BusOk, BusOrSame, BankCount, ChannelOf, Wants;
    var issued := CmdStage(c, s.banks, s.cycle);
    assert issued[j] == CmdBank(c, s.banks, s.cycle, j);
    CmdPending(c, s.banks, s.cycle, j);
    CmdStageKeeps(c, s.banks, s.cycle, s.cycle);
    DataStageKeeps(c, issued, s.buses, s.cycle, 0, s.cycle);
    DataStageLaw(c, issued, s.buses, s.cycle, 0, j);
    SamePending(c, issued[j], OnBus(c, s)[j], s.cycle);
  }
}
