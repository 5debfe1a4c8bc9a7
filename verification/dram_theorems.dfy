/** Runs of the DRAM controller: what holds in every state, and how long a bank waits for a
    command. */
module DramTheorems {
  import opened Lists
  import opened Options
  import opened DramBank
  import opened DramPolicy
  import opened DramControl

  // ----- cycles keep the invariant -----

  lemma Rearranged(s: Ctrl, banks: seq<Bank>, buses: seq<Bus>)
    requires Conserved(s) && AllPending(banks) == AllPending(s.banks)
    ensures Conserved(s.(banks := banks, buses := buses))
  {
    hide AllPending, RequestsIn;
  }

  lemma SchedulesKeeps(c: Config, s: Ctrl)
    requires Held(c, s, s.cycle)
    ensures Held(c, Schedules(c, s), s.cycle + 1) && Schedules(c, s).cycle == s.cycle
  {
    hide AllOk, BusesOk, Conserved, InOrder, AllPending, CmdStage, DataStage, CompleteStage, NewStage, BankCount;
    var issued := CmdStage(c, s.banks, s.cycle);
    CmdStageKeeps(c, s.banks, s.cycle, s.cycle);
    DataStageKeeps(c, issued, s.buses, s.cycle, 0, s.cycle);
    var (granted, buses) := DataStage(c, issued, s.buses, s.cycle, 0);
    Rearranged(s, granted, buses);
    var t := s.(banks := granted, buses := buses);
    CompleteStageKeeps(c, t, 0, s.cycle);
    var u := CompleteStage(c, t, 0);
    NewStageKeeps(c, u.banks, s.cycle);
    Rearranged(u, NewStage(c, u.banks, s.cycle), u.buses);
  }

  lemma LeaveKeeps(c: Config, s: Ctrl, i: Input, limit: nat)
    requires Held(c, s, limit)
    ensures Held(c, Leave(c, s, i), limit) && Leave(c, s, i).banks == s.banks && Leave(c, s, i).cycle == s.cycle
    ensures Leave(c, s, i).accepted == s.accepted
  {
    hide Held;
    SendKeeps(c, s, i.accepts, limit);
    if c.delay > 0 { ReleaseKeeps(c, Send(c, s, i.accepts), limit); }
  }

  /** The request in the network's queue is new, for an existing bank and row. */
  ghost predicate InputOk(c: Config, s: Ctrl, i: Input) {
    i.incoming.Some? ==>
      i.incoming.value.bank < BankCount(c) && i.incoming.value.row < CLOSED && i.incoming.value !in s.accepted
  }

  lemma HeldSize(c: Config, s: Ctrl, limit: nat)
    requires Held(c, s, limit)
    ensures |s.banks| == BankCount(c) && |s.buses| == c.channels
  {
  }

  lemma TickKeeps(c: Config, s: Ctrl)
    requires Held(c, s, s.cycle + 1)
    ensures Inv(c, s.(cycle := s.cycle + 1))
  {
    hide AllOk, BusesOk, AllPending;
  }

  lemma LaterLimits(c: Config, s: Ctrl)
    requires Held(c, s, s.cycle)
    ensures Held(c, s, s.cycle + 1)
  {
    hide BankOk, BusesOk, Conserved, InOrder;
    forall k | 0 <= k < |s.banks| ensures BankOk(c, s.banks[k], s.cycle + 1) {
      LaterLimit(c, s.banks[k], s.cycle, s.cycle + 1);
    }
  }

  lemma EnterKeeps(c: Config, s: Ctrl, i: Input, limit: nat)
    requires Held(c, s, limit) && InputOk(c, s, i)
    ensures |s.banks| == BankCount(c) && Held(c, Enter(s, i), limit) && Enter(s, i).cycle == s.cycle
  {
    hide Held, Accept, BankCount;
    HeldSize(c, s, limit);
    if i.incoming.Some? { AcceptKeeps(c, s, i.incoming.value, limit); }
  }

  lemma CycleKeeps(c: Config, s: Ctrl, i: Input)
    requires Inv(c, s) && InputOk(c, s, i)
    ensures |s.banks| == BankCount(c) && |s.buses| == c.channels && Inv(c, Cycle(c, s, i))
  {
    hide Held, Leave, Schedules, Enter, BankCount;
    HeldSize(c, s, s.cycle);
    if i.locked {
      LaterLimits(c, s);
      TickKeeps(c, s);
    } else {
      LeaveKeeps(c, s, i, s.cycle);
      var l := Leave(c, s, i);
      HeldSize(c, l, s.cycle);
      SchedulesKeeps(c, l);
      SchedulesAccept(c, l);
      EnterKeeps(c, Schedules(c, l), i, s.cycle + 1);
      TickKeeps(c, Enter(Schedules(c, l), i));
    }
  }

  lemma {:induction false} CompleteAccept(c: Config, s: Ctrl, k: nat)
    requires k <= |s.banks|
    ensures CompleteStage(c, s, k).accepted == s.accepted
    decreases |s.banks| - k
  {
    hide Completed, Complete;
    if k < |s.banks| {
      CompleteAccept(c, if Arrived(s.banks[k], s.cycle) then CompleteOne(c, s, k) else s, k + 1);
    }
  }

  lemma SchedulesAccept(c: Config, s: Ctrl)
    requires |s.banks| == BankCount(c) && |s.buses| == c.channels
    ensures Schedules(c, s).accepted == s.accepted
  {
    hide CmdStage, DataStage, CompleteStage, NewStage;
    var (granted, buses) := DataStage(c, CmdStage(c, s.banks, s.cycle), s.buses, s.cycle, 0);
    CompleteAccept(c, s.(banks := granted, buses := buses), 0);
  }

  // ----- runs -----

  function Range(n: nat): seq<nat> {
    seq(n, i => i)
  }

  function EmptyBank(c: Config): Bank {
    Bank(Range(c.bufferSize), [], None, CLOSED, None, None, None, 0, CLOSED, [])
  }

  function Init(c: Config): Ctrl {
    Ctrl(seq(BankCount(c), _ => EmptyBank(c)), seq(c.channels, _ => Bus(c.busWidth, 0, 0)), 0, 0, [], [], multiset{}, multiset{})
  }

  lemma {:induction false} RangeSlots(n: nat)
    ensures multiset(Range(n)) == AllSlots(n)
  {
    if n > 0 {
      RangeSlots(n - 1);
      assert Range(n) == Range(n - 1) + [n - 1];
    }
  }

  lemma {:induction false} NoPending(banks: seq<Bank>)
    requires forall k :: 0 <= k < |banks| ==> Pending(banks[k]) == multiset{}
    ensures AllPending(banks) == multiset{}
  {
    if banks != [] { NoPending(banks[..|banks| - 1]); }
  }

  lemma EmptyBankOk(c: Config)
    ensures BankOk(c, EmptyBank(c), 0) && Pending(EmptyBank(c)) == multiset{}
  {
    RangeSlots(c.bufferSize);
    hide Range, AllSlots;
    assert SlotsOf([]) == [] && RequestsOf([]) == [];
  }

  lemma FreshBus(width: nat)
    requires width > 0
    ensures BusOk(width, Bus(width, 0, 0))
  {
  }

  lemma InitKeeps(c: Config)
    ensures Inv(c, Init(c))
  {
    hide BankOk, Pending, EmptyBank, BusOk;
    EmptyBankOk(c);
    NoPending(Init(c).banks);
    FreshBus(c.busWidth);
    assert RequestsIn([]) == [];
  }

  ghost predicate Steps(c: Config, s: Ctrl, i: Input, t: Ctrl) {
    InputOk(c, s, i) && |s.banks| == BankCount(c) && |s.buses| == c.channels && t == Cycle(c, s, i)
  }

  ghost predicate IsRun(c: Config, run: seq<Ctrl>, inputs: seq<Input>) {
    && |run| == |inputs| + 1 && run[0] == Init(c)
    && forall k :: 0 <= k < |inputs| ==> Steps(c, run[k], inputs[k], run[k + 1])
  }

  lemma {:induction false} AlwaysInv(c: Config, run: seq<Ctrl>, inputs: seq<Input>, k: nat)
    requires IsRun(c, run, inputs) && k < |run|
    ensures Inv(c, run[k])
  {
    hide Inv, Init, InputOk;
    if k == 0 {
      InitKeeps(c);
    } else {
      AlwaysInv(c, run, inputs, k - 1);
      assert Steps(c, run[k - 1], inputs[k - 1], run[k]);
      CycleKeeps(c, run[k - 1], inputs[k - 1]);
    }
  }

  /** Every accepted request is in exactly one place: it counts once in the banks, the delay list,
      the output list and the finished requests together; and the counter of pending requests is
      the number of those in the banks. */
  lemma RequestConservation(c: Config, run: seq<Ctrl>, inputs: seq<Input>, k: nat, r: Request)
    requires IsRun(c, run, inputs) && k < |run|
    ensures var s := run[k];
            && AllPending(s.banks)[r] + multiset(RequestsIn(s.delayed))[r] + multiset(s.output)[r] + s.finished[r]
               == (if r in s.accepted then 1 else 0)
            && s.total == |AllPending(s.banks)|
  {
    AlwaysInv(c, run, inputs, k);
    hide IsRun, AllOk, AllPending, BusesOk, InOrder, RequestsIn;
  }

  /** In every state every slot of every bank is free, buffered or in service, and in one place. */
  lemma SlotConservation(c: Config, run: seq<Ctrl>, inputs: seq<Input>, k: nat, bank: nat, slot: nat)
    requires IsRun(c, run, inputs) && k < |run| && bank < |run[k].banks|
    ensures var b := run[k].banks[bank];
            && multiset(b.free)[slot] + SlotBag(b.buffer)[slot] + SlotBag(CurrentOf(b))[slot]
               == (if slot < c.bufferSize then 1 else 0)
            && |b.free| + |b.buffer| + |CurrentOf(b)| == c.bufferSize
  {
    AlwaysInv(c, run, inputs, k);
    hide IsRun, BankOk, Conserved, InOrder, SlotBag;
    SlotsPartition(c, run[k].banks[bank], run[k].cycle, slot);
  }

  /** At every moment the commands issued for the current request are the first ones of the plan that
      the row register at its selection calls for, each after the latency of the one before; and
      data is under way exactly in the data-wait phase. */
  lemma CommandsFollowPlan(c: Config, run: seq<Ctrl>, inputs: seq<Input>, k: nat, bank: nat)
    requires IsRun(c, run, inputs) && k < |run| && bank < |run[k].banks|
    ensures var b := run[k].banks[bank];
            && (b.dataReady.Some? <==> In(b, DataWait))
            && (b.current.Some? ==>
                 var plan := Plan(b.initial, b.current.value.req.row);
                 && |b.log| <= |plan| && (forall j :: 0 <= j < |b.log| ==> b.log[j].cmd == plan[j])
                 && (forall i, j :: 0 <= i && j == i + 1 < |b.log| ==> b.log[j].time >= b.log[i].time + Latency(c, b.log[i].cmd))
                 && (In(b, Data) || In(b, DataWait) <==> |b.log| == |plan|))
  {
    AlwaysInv(c, run, inputs, k);
    hide IsRun, Conserved, InOrder, Settled, Slots;
    assert BankOk(c, run[k].banks[bank], run[k].cycle);
  }

  /** A request whose data has arrived saw exactly the commands that the row register at its
      selection calls for, each after the latency of the one before, and its row is open. */
  lemma RowBufferProtocol(c: Config, run: seq<Ctrl>, inputs: seq<Input>, k: nat, bank: nat)
    requires IsRun(c, run, inputs) && k < |run| && bank < |run[k].banks| && run[k].banks[bank].dataReady.Some?
    ensures var b := run[k].banks[bank];
            && In(b, DataWait) && |b.log| == |Plan(b.initial, b.current.value.req.row)|
            && (forall j :: 0 <= j < |b.log| ==> b.log[j].cmd == Plan(b.initial, b.current.value.req.row)[j])
            && (forall i, j :: 0 <= i && j == i + 1 < |b.log| ==> b.log[j].time >= b.log[i].time + Latency(c, b.log[i].cmd))
            && b.row == b.current.value.req.row && b.dataReady.value >= Settled(c, b.log)
  {
    AlwaysInv(c, run, inputs, k);
    hide IsRun, BankOk, Conserved, InOrder, Settled;
    ServedByPlan(c, run[k].banks[bank], run[k].cycle);
  }

  /** The bytes granted on a channel never exceed what the bus carries until it is ready again. */
  lemma BandwidthBound(c: Config, run: seq<Ctrl>, inputs: seq<Input>, k: nat, ch: nat)
    requires IsRun(c, run, inputs) && k < |run| && ch < |run[k].buses|
    ensures var bus := run[k].buses[ch];
            0 < bus.avail <= c.busWidth && bus.granted <= c.busWidth * bus.ready + c.busWidth - bus.avail
  {
    AlwaysInv(c, run, inputs, k);
    hide IsRun, AllOk, Conserved, InOrder;
    assert BusOk(c.busWidth, run[k].buses[ch]);
  }

  // ----- waiting for a command -----

  /** The banks of the channel that get their command before bank `k`. */
  function Ahead(c: Config, banks: seq<Bank>, k: nat): set<nat>
    requires |banks| == BankCount(c) && k < |banks|
  {
    OwnChannel(c, k);
    var lo := First(c, ChannelOf(c, k));
    set j | lo <= j < lo + c.perChannel && IsAhead(banks, j, k)
  }

  predicate IsAhead(banks: seq<Bank>, j: nat, k: nat)
    requires j < |banks| && k < |banks|
  {
    In(banks[j], Cmd) && Sooner(banks, j, k)
  }

  /** Nothing but a command ends the wait of a bank, and whoever starts to wait is touched now. */
  ghost predicate Calm(b: Bank, b': Bank, cycle: nat) {
    && (In(b, Cmd) ==> In(b', Cmd) && b'.stamp == b.stamp && b'.current == b.current && b'.log == b.log)
    && (In(b', Cmd) && !In(b, Cmd) ==> b'.stamp >= cycle)
  }

  ghost predicate AllCalm(banks: seq<Bank>, banks': seq<Bank>, cycle: nat) {
    |banks'| == |banks| && forall k :: 0 <= k < |banks| ==> Calm(banks[k], banks'[k], cycle)
  }

  lemma CalmTwice(a: seq<Bank>, b: seq<Bank>, d: seq<Bank>, cycle: nat)
    requires AllCalm(a, b, cycle) && AllCalm(b, d, cycle)
    ensures AllCalm(a, d, cycle)
  {
    forall k | 0 <= k < |a| ensures Calm(a[k], d[k], cycle) {
      assert Calm(a[k], b[k], cycle) && Calm(b[k], d[k], cycle);
    }
  }

  lemma GrantCalm(banks: seq<Bank>, k: nat, ready: nat, cycle: nat)
    requires k < |banks| && In(banks[k], Data)
    ensures AllCalm(banks, banks[k := Grant(banks[k], ready)], cycle)
  {
  }

  lemma {:induction false} GrantAllCalm(c: Config, banks: seq<Bank>, bus: Bus, lo: nat, hi: nat, cycle: nat)
    requires lo <= hi <= |banks|
    ensures AllCalm(banks, GrantAll(c, banks, bus, lo, hi, cycle).0, cycle)
    decreases Loaded(banks, lo, hi)
  {
    if bus.ready <= cycle {
      var k := Oldest(banks, lo, hi, ForBus(cycle));
      if k.Some? {
        var after := Acquire(c.busWidth, bus, banks[k.value].current.value.req.size, cycle);
        var granted := banks[k.value := Grant(banks[k.value], after.ready)];
        assert k.value in Loaded(banks, lo, hi) && k.value !in Loaded(granted, lo, hi);
        hide AllCalm, Acquire;
        GrantCalm(banks, k.value, after.ready, cycle);
        GrantAllCalm(c, granted, after, lo, hi, cycle);
        CalmTwice(banks, granted, GrantAll(c, granted, after, lo, hi, cycle).0, cycle);
      } else {
        SelfCalm(banks, cycle);
      }
    } else {
      SelfCalm(banks, cycle);
    }
  }

  lemma SelfCalm(banks: seq<Bank>, cycle: nat)
    ensures AllCalm(banks, banks, cycle)
  {
  }

  lemma {:induction false} DataStageCalm(c: Config, banks: seq<Bank>, buses: seq<Bus>, cycle: nat, ch: nat)
    requires |banks| == BankCount(c) && |buses| == c.channels && ch <= c.channels
    ensures AllCalm(banks, DataStage(c, banks, buses, cycle, ch).0, cycle)
    decreases c.channels - ch
  {
    hide AllCalm, GrantAll, First;
    if ch == c.channels {
      SelfCalm(banks, cycle);
    } else {
      ChannelBounds(c, ch);
      var lo := First(c, ch);
      GrantAllCalm(c, banks, buses[ch], lo, lo + c.perChannel, cycle);
      var (b, u) := GrantAll(c, banks, buses[ch], lo, lo + c.perChannel, cycle);
      DataStageCalm(c, b, buses[ch := u], cycle, ch + 1);
      CalmTwice(banks, b, DataStage(c, b, buses[ch := u], cycle, ch + 1).0, cycle);
    }
  }

  lemma CompleteCalm(c: Config, s: Ctrl, k: nat, limit: nat)
    requires Held(c, s, limit) && k < |s.banks| && Arrived(s.banks[k], s.cycle)
    ensures AllCalm(s.banks, CompleteOne(c, s, k).banks, s.cycle)
  {
    hide BankOk, BusesOk, Conserved, InOrder, Completed, Merged;
    ArrivedWaits(c, s.banks[k], limit);
  }

  lemma {:induction false} CompleteStageCalm(c: Config, s: Ctrl, k: nat, limit: nat)
    requires Held(c, s, limit) && k <= |s.banks|
    ensures AllCalm(s.banks, CompleteStage(c, s, k).banks, s.cycle)
    decreases |s.banks| - k
  {
    hide Held, AllCalm, Complete, Completed, Returned, Freed, Delay;
    if k == |s.banks| {
      SelfCalm(s.banks, s.cycle);
    } else if Arrived(s.banks[k], s.cycle) {
      CompleteCalm(c, s, k, limit);
      CompleteOneKeeps(c, s, k, limit);
      CompleteStageCalm(c, CompleteOne(c, s, k), k + 1, limit);
      CalmTwice(s.banks, CompleteOne(c, s, k).banks, CompleteStage(c, CompleteOne(c, s, k), k + 1).banks, s.cycle);
    } else {
      CompleteStageCalm(c, s, k + 1, limit);
    }
  }

  lemma NewStageCalm(c: Config, banks: seq<Bank>, cycle: nat)
    ensures AllCalm(banks, NewStage(c, banks, cycle), cycle)
  {
    hide Schedule;
    var r := NewStage(c, banks, cycle);
    forall k | 0 <= k < |banks| ensures Calm(banks[k], r[k], cycle) {
      assert r[k] == NewBank(c, banks[k], cycle);
    }
  }

  lemma AcceptCalm(s: Ctrl, r: Request)
    requires r.bank < |s.banks|
    ensures AllCalm(s.banks, Accept(s, r).1.banks, s.cycle)
  {
    hide Picked, Rest, RequestBag;
  }

  /** After its commands are issued, a cycle disturbs no waiting bank. */
  lemma CycleCalm(c: Config, s: Ctrl, i: Input)
    requires Inv(c, s) && InputOk(c, s, i) && |s.banks| == BankCount(c) && |s.buses| == c.channels && !i.locked
    ensures AllCalm(CmdStage(c, s.banks, s.cycle), Cycle(c, s, i).banks, s.cycle)
  {
    hide AllOk, BusesOk, Conserved, InOrder, AllPending, AllCalm, CmdStage, DataStage, CompleteStage, NewStage, Accept, Leave;
    LeaveKeeps(c, s, i, s.cycle);
    var l := Leave(c, s, i);
    var issued := CmdStage(c, s.banks, s.cycle);
    CmdStageKeeps(c, s.banks, s.cycle, s.cycle);
    DataStageKeeps(c, issued, l.buses, s.cycle, 0, s.cycle);
    var (granted, buses) := DataStage(c, issued, l.buses, s.cycle, 0);
    Rearranged(l, granted, buses);
    var t := l.(banks := granted, buses := buses);
    var u := CompleteStage(c, t, 0);
    DataStageCalm(c, issued, l.buses, s.cycle, 0);
    CompleteStageCalm(c, t, 0, s.cycle);
    CompleteStageKeeps(c, t, 0, s.cycle);
    NewStageCalm(c, u.banks, s.cycle);
    CalmTwice(issued, granted, u.banks, s.cycle);
    CalmTwice(issued, u.banks, NewStage(c, u.banks, s.cycle), s.cycle);
    var v := u.(banks := NewStage(c, u.banks, s.cycle));
    if i.incoming.Some? {
      AcceptCalm(v, i.incoming.value);
      CalmTwice(issued, v.banks, Accept(v, i.incoming.value).1.banks, s.cycle);
    }
  }

  lemma CalmAhead(c: Config, banks: seq<Bank>, banks': seq<Bank>, cycle: nat, k: nat)
    requires AllCalm(banks, banks', cycle) && |banks| == BankCount(c) && k < |banks|
    requires In(banks[k], Cmd) && banks[k].stamp < cycle
    ensures Ahead(c, banks', k) == Ahead(c, banks, k)
  {
    hide First, ChannelOf;
    OwnChannel(c, k);
    assert Calm(banks[k], banks'[k], cycle);
    var lo := First(c, ChannelOf(c, k));
    forall j: nat | lo <= j < lo + c.perChannel
      ensures IsAhead(banks', j, k) <==> IsAhead(banks, j, k)
    {
      assert Calm(banks[j], banks'[j], cycle);
    }
  }

  /** A bank that waits and is not served has one bank fewer ahead of it after the commands. */
  lemma CmdShrinks(c: Config, banks: seq<Bank>, cycle: nat, k: nat)
    requires |banks| == BankCount(c) && k < |banks| && In(banks[k], Cmd) && Chosen(c, banks, k) != Some(k)
    ensures var j := Chosen(c, banks, k);
            && j.Some? && j.value in Ahead(c, banks, k)
            && Ahead(c, CmdStage(c, banks, cycle), k) == Ahead(c, banks, k) - {j.value}
    ensures CmdStage(c, banks, cycle)[k] == banks[k]
  {
    hide First, ChannelOf, Issue, CmdStage;
    OwnChannel(c, k);
    var lo := First(c, ChannelOf(c, k));
    var best := Chosen(c, banks, k);
    assert Wants(banks[k], ForCommand);
    assert best.Some? && Sooner(banks, best.value, k);
    forall j: nat | lo <= j < lo + c.perChannel
      ensures IsAhead(CmdStage(c, banks, cycle), j, k) <==> IsAhead(banks, j, k) && j != best.value
    {
      CmdAhead(c, banks, cycle, j, k);
    }
    CmdAhead(c, banks, cycle, k, k);
  }

  lemma CmdAhead(c: Config, banks: seq<Bank>, cycle: nat, j: nat, k: nat)
    requires |banks| == BankCount(c) && k < |banks| && Chosen(c, banks, k).Some? && Chosen(c, banks, k) != Some(k)
    requires First(c, ChannelOf(c, k)) <= j < First(c, ChannelOf(c, k)) + c.perChannel
    ensures j < |banks| && CmdStage(c, banks, cycle)[k] == banks[k]
    ensures IsAhead(CmdStage(c, banks, cycle), j, k) <==> IsAhead(banks, j, k) && j != Chosen(c, banks, k).value
  {
    SameChoice(c, banks, j, k);
    hide First, ChannelOf, Chosen;
    var r := CmdStage(c, banks, cycle);
    assert r[j] == CmdBank(c, banks, cycle, j) && r[k] == CmdBank(c, banks, cycle, k);
  }

  lemma SameChoice(c: Config, banks: seq<Bank>, j: nat, k: nat)
    requires |banks| == BankCount(c) && k < |banks|
    requires First(c, ChannelOf(c, k)) <= j < First(c, ChannelOf(c, k)) + c.perChannel
    ensures j < |banks| && Chosen(c, banks, j) == Chosen(c, banks, k)
  {
    OwnChannel(c, k);
    InChannel(c, j, ChannelOf(c, k));
  }

  /** The bank gets its command in this cycle. */
  ghost predicate Served(c: Config, s: Ctrl, i: Input, k: nat) {
    && |s.banks| == BankCount(c) && k < |s.banks| && !i.locked
    && Chosen(c, s.banks, k) == Some(k) && CmdStage(c, s.banks, s.cycle)[k] == Issue(c, s.banks[k], s.cycle)
  }

  /** It gets it for the given entry. */
  ghost predicate ServedAt(c: Config, run: seq<Ctrl>, inputs: seq<Input>, m: nat, k: nat, e: Option<Entry>) {
    && m < |run| && m < |inputs| && Served(c, run[m], inputs[m], k)
    && k < |run[m].banks| && run[m].banks[k].current == e
  }

  lemma AheadBound(c: Config, banks: seq<Bank>, k: nat)
    requires |banks| == BankCount(c) && k < |banks|
    ensures |Ahead(c, banks, k)| < c.perChannel
  {
    hide First, ChannelOf;
    OwnChannel(c, k);
    var lo := First(c, ChannelOf(c, k));
    var channel := Span(lo, c.perChannel);
    assert k in channel && k !in Ahead(c, banks, k);
    SubsetSize(Ahead(c, banks, k), channel - {k});
  }

  lemma {:induction false} SubsetSize(a: set<nat>, b: set<nat>)
    requires a <= b
    ensures |a| <= |b|
  {
    if a != {} {
      var x :| x in a;
      SubsetSize(a - {x}, b - {x});
    }
  }

  /** One cycle of a waiting bank: it is served, or it waits on, with one bank fewer ahead unless
      the cycle was locked. */
  lemma WaitStep(c: Config, s: Ctrl, i: Input, k: nat)
    requires Inv(c, s) && InputOk(c, s, i) && |s.banks| == BankCount(c) && |s.buses| == c.channels
    requires k < |s.banks| && In(s.banks[k], Cmd)
    ensures var t := Cycle(c, s, i);
            || Served(c, s, i, k)
            || (&& |t.banks| == |s.banks| && In(t.banks[k], Cmd)
                && t.banks[k].stamp == s.banks[k].stamp && t.banks[k].current == s.banks[k].current
                && |Ahead(c, t.banks, k)| == |Ahead(c, s.banks, k)| - (if i.locked then 0 else 1))
  {
    WaitStamp(c, s, k);
    hide Inv, InputOk, Ahead, AllCalm, Calm, CmdStage, Chosen, Issue;
    if !i.locked {
      var issued := CmdStage(c, s.banks, s.cycle);
      if Chosen(c, s.banks, k) == Some(k) {
        assert issued[k] == CmdBank(c, s.banks, s.cycle, k);
      } else {
        hide Cycle;
        CmdShrinks(c, s.banks, s.cycle, k);
        CycleCalm(c, s, i);
        CalmAhead(c, issued, Cycle(c, s, i).banks, s.cycle, k);
        CalmAt(issued, Cycle(c, s, i).banks, s.cycle, k);
      }
    }
  }

  lemma CalmAt(banks: seq<Bank>, banks': seq<Bank>, cycle: nat, k: nat)
    requires AllCalm(banks, banks', cycle) && k < |banks|
    ensures |banks'| == |banks| && Calm(banks[k], banks'[k], cycle)
    ensures In(banks[k], Cmd) ==> In(banks'[k], Cmd) && banks'[k].stamp == banks[k].stamp && banks'[k].current == banks[k].current
  {
  }

  lemma WaitStamp(c: Config, s: Ctrl, k: nat)
    requires Inv(c, s) && k < |s.banks| && In(s.banks[k], Cmd)
    ensures s.banks[k].stamp < s.cycle
  {
    assert BankOk(c, s.banks[k], s.cycle);
  }

  function Unlocked(inputs: seq<Input>): nat {
    if inputs == [] then 0 else (if inputs[0].locked then 0 else 1) + Unlocked(inputs[1..])
  }

  lemma StepOf(c: Config, run: seq<Ctrl>, inputs: seq<Input>, i: nat)
    requires IsRun(c, run, inputs) && i < |inputs|
    ensures |run| == |inputs| + 1 && Steps(c, run[i], inputs[i], run[i + 1])
  {
  }

  /** A bank that waits for its command at step `i` is served as soon as as many unlocked cycles have
      passed as there are banks ahead of it, and one more. Until then it waits for the same
      request. */
  lemma {:induction false} ServedInTurn(c: Config, run: seq<Ctrl>, inputs: seq<Input>, i: nat, n: nat, k: nat)
    requires IsRun(c, run, inputs) && i + n <= |inputs| && |run| == |inputs| + 1
    requires |run[i].banks| == BankCount(c) && k < |run[i].banks|
    requires In(run[i].banks[k], Cmd) && Unlocked(inputs[i..i + n]) > |Ahead(c, run[i].banks, k)|
    ensures exists m :: i <= m < i + n && ServedAt(c, run, inputs, m, k, run[i].banks[k].current)
    decreases n
  {
    hide IsRun, Inv, Ahead, Served, Cycle, InputOk, In, BankCount;
    AlwaysInv(c, run, inputs, i);
    StepOf(c, run, inputs, i);
    WaitStep(c, run[i], inputs[i], k);
    if !Served(c, run[i], inputs[i], k) {
      assert inputs[i..i + n][1..] == inputs[i + 1..i + 1 + (n - 1)];
      ServedInTurn(c, run, inputs, i + 1, n - 1, k);
    } else {
      assert ServedAt(c, run, inputs, i, k, run[i].banks[k].current);
    }
  }

  /** A bank waits for a command for at most as many unlocked cycles as its channel has banks. */
  lemma BoundedWait(c: Config, run: seq<Ctrl>, inputs: seq<Input>, i: nat, n: nat, k: nat)
    requires IsRun(c, run, inputs) && i + n <= |inputs| && k < |run[i].banks|
    requires In(run[i].banks[k], Cmd) && Unlocked(inputs[i..i + n]) >= c.perChannel
    ensures exists m :: i <= m < i + n && ServedAt(c, run, inputs, m, k, run[i].banks[k].current)
  {
    AlwaysInv(c, run, inputs, i);
    HeldSize(c, run[i], run[i].cycle);
    hide Held, IsRun, Ahead, Served, Unlocked;
    AheadBound(c, run[i].banks, k);
    ServedInTurn(c, run, inputs, i, n, k);
  }
}
