/** The DRAM controller: banks grouped into channels, oldest-first arbitration for commands and
    for the data bus, and the lists through which completed requests leave. */
module DramControl {
  import opened Lists
  import opened Arithmetic
  import opened Options
  import opened DramBank
  import opened DramPolicy

  datatype Delayed = Delayed(req: Request, ready: nat)

  /** `accepted` and `finished` are history: the requests taken in, and those sent back, freed or
      flushed. */
  datatype Ctrl = Ctrl(
    banks: seq<Bank>,
    buses: seq<Bus>,
    cycle: nat,
    total: int,
    delayed: seq<Delayed>,
    output: seq<Request>,
    accepted: multiset<Request>,
    finished: multiset<Request>)

  // ----- banks and channels -----

  /** The first bank of a channel. */
  function First(c: Config, ch: nat): nat {
    ch * c.perChannel
  }

  function BankCount(c: Config): nat {
    First(c, c.channels)
  }

  function ChannelOf(c: Config, k: nat): nat {
    k / c.perChannel
  }

  lemma ChannelBounds(c: Config, ch: nat)
    requires ch < c.channels
    ensures First(c, ch + 1) == First(c, ch) + c.perChannel <= BankCount(c)
  {
    assert First(c, ch + 1) == First(c, ch) + c.perChannel;
    ScaleLess(ch + 1, c.channels, c.perChannel);
  }

  lemma InChannel(c: Config, k: nat, ch: nat)
    ensures ChannelOf(c, k) == ch <==> First(c, ch) <= k < First(c, ch) + c.perChannel
  {
    var q, w := k / c.perChannel, c.perChannel;
    assert k == w * q + k % w;
    ScaleLess(q, ch, w);
    ScaleLess(ch, q, w);
  }

  lemma OwnChannel(c: Config, k: nat)
    requires k < BankCount(c)
    ensures ChannelOf(c, k) < c.channels
    ensures First(c, ChannelOf(c, k)) <= k < First(c, ChannelOf(c, k)) + c.perChannel <= BankCount(c)
  {
    var ch := ChannelOf(c, k);
    InChannel(c, k, ch);
    if ch >= c.channels {
      ScaleLess(c.channels, ch, c.perChannel);
    } else {
      ChannelBounds(c, ch);
    }
  }

  // ----- arbitration -----

  datatype Want = ForCommand | ForBus(now: nat)

  /** The bank waits for a command, or for the data bus with its data at hand. */
  predicate Wants(b: Bank, w: Want) {
    match w
    case ForCommand => In(b, Cmd)
    case ForBus(now) => In(b, Data) && b.dataAvail.Some? && b.dataAvail.value <= now
  }

  /** Bank `j` comes before bank `k`: touched earlier, or at the same time with a lower number. */
  predicate Sooner(banks: seq<Bank>, j: nat, k: nat)
    requires j < |banks| && k < |banks|
  {
    banks[j].stamp < banks[k].stamp || (banks[j].stamp == banks[k].stamp && j < k)
  }

  /** The bank in `lo..hi` that comes before all others that want the same. */
  function Oldest(banks: seq<Bank>, lo: nat, hi: nat, w: Want): (r: Option<nat>)
    requires lo <= hi <= |banks|
    ensures r.Some? ==> lo <= r.value < hi && Wants(banks[r.value], w)
    ensures r.Some? ==> forall j :: lo <= j < hi && j != r.value && Wants(banks[j], w) ==> Sooner(banks, r.value, j)
    ensures r.None? ==> forall j :: lo <= j < hi ==> !Wants(banks[j], w)
    decreases hi
  {
    if lo == hi then None
    else
      var r := Oldest(banks, lo, hi - 1, w);
      if Wants(banks[hi - 1], w) && (r.None? || banks[hi - 1].stamp < banks[r.value].stamp) then Some(hi - 1) else r
  }

  function Chosen(c: Config, banks: seq<Bank>, k: nat): (r: Option<nat>)
    requires |banks| == BankCount(c) && k < |banks|
    ensures r == Some(k) ==> In(banks[k], Cmd)
  {
    OwnChannel(c, k);
    var lo := First(c, ChannelOf(c, k));
    Oldest(banks, lo, lo + c.perChannel, ForCommand)
  }

  // ----- the stages of a cycle -----

  function CmdBank(c: Config, banks: seq<Bank>, cycle: nat, k: nat): Bank
    requires |banks| == BankCount(c) && k < |banks|
  {
    if Chosen(c, banks, k) == Some(k) then Issue(c, banks[k], cycle) else banks[k]
  }

  /** `channel_schedule_cmd`: in every channel the oldest waiting bank gets its command. */
  function CmdStage(c: Config, banks: seq<Bank>, cycle: nat): (r: seq<Bank>)
    requires |banks| == BankCount(c)
    ensures |r| == |banks| && forall k :: 0 <= k < |r| ==> r[k] == CmdBank(c, banks, cycle, k)
  {
    seq(|banks|, k requires 0 <= k < |banks| => CmdBank(c, banks, cycle, k))
  }

  /** The banks of a range that have sent their column command and not their data. */
  function Loaded(banks: seq<Bank>, lo: nat, hi: nat): set<nat>
    requires lo <= hi <= |banks|
  {
    set j | lo <= j < hi && In(banks[j], Data)
  }

  /** While the bus is available, the oldest bank with data gets it. */
  function GrantAll(c: Config, banks: seq<Bank>, bus: Bus, lo: nat, hi: nat, cycle: nat): (r: (seq<Bank>, Bus))
    requires lo <= hi <= |banks|
    ensures |r.0| == |banks|
    decreases Loaded(banks, lo, hi)
  {
    if bus.ready > cycle then (banks, bus)
    else
      var k := Oldest(banks, lo, hi, ForBus(cycle));
      if k.None? then (banks, bus)
      else
        var after := Acquire(c.busWidth, bus, banks[k.value].current.value.req.size, cycle);
        var granted := banks[k.value := Grant(banks[k.value], after.ready)];
        assert k.value in Loaded(banks, lo, hi) && k.value !in Loaded(granted, lo, hi);
        GrantAll(c, granted, after, lo, hi, cycle)
  }

  /** `channel_schedule_data` from channel `ch` on. */
  function DataStage(c: Config, banks: seq<Bank>, buses: seq<Bus>, cycle: nat, ch: nat): (r: (seq<Bank>, seq<Bus>))
    requires |banks| == BankCount(c) && |buses| == c.channels && ch <= c.channels
    ensures |r.0| == |banks| && |r.1| == |buses|
    decreases c.channels - ch
  {
    if ch == c.channels then (banks, buses)
    else
      ChannelBounds(c, ch);
      var (b, u) := GrantAll(c, banks, buses[ch], First(c, ch), First(c, ch) + c.perChannel, cycle);
      DataStage(c, b, buses[ch := u], cycle, ch + 1)
  }

  /** The requests that go back to the network; write-backs are freed. */
  function Returned(l: seq<Request>): seq<Request> {
    if l == [] then []
    else (if l[0].kind == WriteBack then [] else [l[0]]) + Returned(l[1..])
  }

  function Freed(l: seq<Request>): seq<Request> {
    if l == [] then []
    else (if l[0].kind == WriteBack then [l[0]] else []) + Freed(l[1..])
  }

  function Delay(l: seq<Request>, ready: nat): seq<Delayed> {
    seq(|l|, i requires 0 <= i < |l| => Delayed(l[i], ready))
  }

  function RequestsIn(l: seq<Delayed>): seq<Request> {
    seq(|l|, i requires 0 <= i < |l| => l[i].req)
  }

  predicate Arrived(b: Bank, cycle: nat) {
    b.current.Some? && b.dataReady.Some? && b.dataReady.value <= cycle
  }

  /** Completed requests leave: write-backs are freed, others go to the output list, by way of the
      delay list if there is an additional latency. */
  function Emit(c: Config, s: Ctrl, l: seq<Request>): Ctrl {
    s.(delayed := if c.delay > 0 then s.delayed + Delay(Returned(l), s.cycle + c.delay) else s.delayed,
       output := if c.delay > 0 then s.output else s.output + Returned(l),
       finished := s.finished + multiset(Freed(l)))
  }

  /** The current request of bank `k` completes. */
  function CompleteOne(c: Config, s: Ctrl, k: nat): Ctrl
    requires k < |s.banks| && s.banks[k].current.Some?
  {
    var done := Completed(c, s.banks[k]);
    Emit(c, s, done).(banks := s.banks[k := Complete(c, s.banks[k])], total := s.total - |done|)
  }

  /** `bank_schedule_complete` from bank `k` on. */
  function CompleteStage(c: Config, s: Ctrl, k: nat): (r: Ctrl)
    requires k <= |s.banks|
    ensures |r.banks| == |s.banks|
    decreases |s.banks| - k
  {
    if k == |s.banks| then s
    else CompleteStage(c, if Arrived(s.banks[k], s.cycle) then CompleteOne(c, s, k) else s, k + 1)
  }

  function NewBank(c: Config, b: Bank, cycle: nat): Bank {
    if b.current.None? then
      if b.buffer == [] then b
      else SchedulePermutes(c, b.row, b.buffer); Select(b, Schedule(c, b.row, b.buffer), cycle)
    else if In(b, CmdWait) && b.bankReady.Some? && b.bankReady.value <= cycle then Resume(b, cycle)
    else b
  }

  /** `bank_schedule_new`: idle banks select a request, and banks whose command is done may get
      the next one. */
  function NewStage(c: Config, banks: seq<Bank>, cycle: nat): (r: seq<Bank>)
    ensures |r| == |banks| && forall k :: 0 <= k < |r| ==> r[k] == NewBank(c, banks[k], cycle)
  {
    seq(|banks|, k requires 0 <= k < |banks| => NewBank(c, banks[k], cycle))
  }

  function FlushBank(s: Ctrl, k: nat): Ctrl
    requires k < |s.banks|
  {
    var gone := Picked(s.banks[k].buffer, IsPrefetch);
    s.(banks := s.banks[k := Flush(s.banks[k])], total := s.total - |gone|, finished := s.finished + RequestBag(gone))
  }

  /** `insert_new_req`: a full buffer is flushed of prefetches first; if it is full even then, the
      request is refused. */
  function Accept(s: Ctrl, r: Request): (bool, Ctrl)
    requires r.bank < |s.banks|
  {
    var t := if s.banks[r.bank].free == [] then FlushBank(s, r.bank) else s;
    if t.banks[r.bank].free == [] then (false, t)
    else (true, t.(banks := t.banks[r.bank := Insert(t.banks[r.bank], r, t.cycle)], total := t.total + 1,
                   accepted := t.accepted + multiset{r}))
  }

  // ----- sending completed requests -----

  /** The requests that one pass over the list sends: it skips those of a class not allowed and
      stops when the network refuses one. */
  function Sends(l: seq<Request>, allowed: set<bool>, accepts: Request -> bool): seq<Request> {
    if l == [] then []
    else if l[0].gpu !in allowed then Sends(l[1..], allowed, accepts)
    else if !accepts(l[0]) then []
    else [l[0]] + Sends(l[1..], allowed, accepts)
  }

  /** The classes of which that pass offers a request. */
  function Offers(l: seq<Request>, allowed: set<bool>, accepts: Request -> bool): set<bool> {
    if l == [] then {}
    else if l[0].gpu !in allowed then Offers(l[1..], allowed, accepts)
    else if !accepts(l[0]) then {l[0].gpu}
    else {l[0].gpu} + Offers(l[1..], allowed, accepts)
  }

  /** With partitioned virtual channels a second pass serves the class that the first did not. */
  function Sent(c: Config, l: seq<Request>, accepts: Request -> bool): seq<Request> {
    var both := {false, true};
    var first := Sends(l, both, accepts);
    if c.partitioned then first + Sends(l, both - Offers(l, both, accepts), accepts) else first
  }

  function Send(c: Config, s: Ctrl, accepts: Request -> bool): Ctrl {
    var sent := Sent(c, s.output, accepts);
    s.(output := Without(s.output, Elems(sent)), finished := s.finished + multiset(sent))
  }

  /** How many delayed requests are ready, up to the first that is not. */
  function Due(l: seq<Delayed>, cycle: nat): (n: nat)
    ensures n <= |l| && (forall i :: 0 <= i < n ==> l[i].ready <= cycle) && (n < |l| ==> l[n].ready > cycle)
  {
    if l == [] || l[0].ready > cycle then 0 else 1 + Due(l[1..], cycle)
  }

  /** `delay_packet`. */
  function Release(s: Ctrl): Ctrl {
    var n := Due(s.delayed, s.cycle);
    s.(delayed := s.delayed[n..], output := s.output + RequestsIn(s.delayed[..n]))
  }

  // ----- a cycle -----

  /** What the outside contributes to a cycle: the PLL lock, which requests the network takes, and
      the request at the head of the network's queue. */
  datatype Input = Input(locked: bool, accepts: Request -> bool, incoming: Option<Request>)

  function Leave(c: Config, s: Ctrl, i: Input): Ctrl {
    var t := Send(c, s, i.accepts);
    if c.delay > 0 then Release(t) else t
  }

  function Schedules(c: Config, s: Ctrl): (r: Ctrl)
    requires |s.banks| == BankCount(c) && |s.buses| == c.channels
    ensures |r.banks| == |s.banks|
  {
    var issued := CmdStage(c, s.banks, s.cycle);
    var (granted, buses) := DataStage(c, issued, s.buses, s.cycle, 0);
    var t := CompleteStage(c, s.(banks := granted, buses := buses), 0);
    t.(banks := NewStage(c, t.banks, s.cycle))
  }

  /** `receive`: the request at the head of the network's queue is taken in if there is room. */
  function Enter(s: Ctrl, i: Input): Ctrl
    requires i.incoming.Some? ==> i.incoming.value.bank < |s.banks|
  {
    if i.incoming.Some? then Accept(s, i.incoming.value).1 else s
  }

  /** `run_a_cycle`. */
  function Cycle(c: Config, s: Ctrl, i: Input): Ctrl
    requires |s.banks| == BankCount(c) && |s.buses| == c.channels
    requires i.incoming.Some? ==> i.incoming.value.bank < |s.banks|
  {
    if i.locked then s.(cycle := s.cycle + 1)
    else
      var t := Enter(Schedules(c, Leave(c, s, i)), i);
      t.(cycle := t.cycle + 1)
  }

  // ----- the invariant -----

  function AllPending(banks: seq<Bank>): multiset<Request> {
    if banks == [] then multiset{} else AllPending(banks[..|banks| - 1]) + Pending(banks[|banks| - 1])
  }

  ghost predicate AllOk(c: Config, banks: seq<Bank>, limit: nat) {
    forall k :: 0 <= k < |banks| ==> BankOk(c, banks[k], limit)
  }

  ghost predicate BusesOk(c: Config, buses: seq<Bus>) {
    forall k :: 0 <= k < |buses| ==> BusOk(c.busWidth, buses[k])
  }

  function InLists(s: Ctrl): multiset<Request> {
    multiset(RequestsIn(s.delayed)) + multiset(s.output)
  }

  /** Every accepted request is in a bank, delayed, in the output list or finished. */
  ghost predicate Conserved(s: Ctrl) {
    && s.accepted == AllPending(s.banks) + InLists(s) + s.finished
    && s.total == |AllPending(s.banks)|
    && forall r :: s.accepted[r] <= 1
  }

  ghost predicate InOrder(l: seq<Delayed>, latest: nat) {
    && (forall j, k :: 0 <= j < k < |l| ==> l[j].ready <= l[k].ready)
    && (forall k :: 0 <= k < |l| ==> l[k].ready <= latest)
  }

  ghost predicate Held(c: Config, s: Ctrl, limit: nat) {
    && |s.banks| == BankCount(c) && |s.buses| == c.channels
    && AllOk(c, s.banks, limit) && BusesOk(c, s.buses) && Conserved(s) && InOrder(s.delayed, s.cycle + c.delay)
  }

  /** What holds between cycles. */
  ghost predicate Inv(c: Config, s: Ctrl) {
    Held(c, s, s.cycle)
  }

  // ----- sums over banks -----

  lemma AddBoth(a: multiset<Request>, p: multiset<Request>, b: multiset<Request>, q: multiset<Request>, x: multiset<Request>)
    requires a + p == b + q
    ensures (a + x) + p == (b + x) + q
  {
    forall r ensures ((a + x) + p)[r] == ((b + x) + q)[r] {
      assert (a + p)[r] == (b + q)[r];
    }
  }

  /** If one bank's requests shrink by `gone`, so do all. */
  lemma Shrinks(before: multiset<Request>, was: multiset<Request>, after: multiset<Request>, now: multiset<Request>, gone: multiset<Request>)
    requires after + was == before + now && was == now + gone
    ensures before == after + gone && |before| == |after| + |gone|
  {
    forall r ensures before[r] == (after + gone)[r] {
      assert (after + was)[r] == (before + now)[r];
    }
  }

  /** What leaves the banks is returned or freed: the sum over all places stays the same. */
  lemma Balances(all: multiset<Request>, pending: multiset<Request>, lists: multiset<Request>, finished: multiset<Request>,
                 left: multiset<Request>, back: multiset<Request>, freed: multiset<Request>)
    requires all == pending + lists + finished && pending == left + (back + freed)
    ensures all == left + (lists + back) + (finished + freed)
  {
  }

  lemma {:induction false} PendingUpdate(banks: seq<Bank>, k: nat, b: Bank)
    requires k < |banks|
    ensures AllPending(banks[k := b]) + Pending(banks[k]) == AllPending(banks) + Pending(b)
  {
    hide Pending;
    var n := |banks| - 1;
    if k == n {
      assert banks[k := b][..n] == banks[..n];
    } else {
      PendingUpdate(banks[..n], k, b);
      assert banks[k := b][..n] == banks[..n][k := b];
      AddBoth(AllPending(banks[..n][k := b]), Pending(banks[k]), AllPending(banks[..n]), Pending(b), Pending(banks[n]));
    }
  }

  lemma {:induction false} PendingSame(banks: seq<Bank>, banks': seq<Bank>)
    requires |banks| == |banks'| && forall k :: 0 <= k < |banks| ==> Pending(banks'[k]) == Pending(banks[k])
    ensures AllPending(banks') == AllPending(banks)
  {
    hide Pending;
    if banks != [] {
      PendingSame(banks[..|banks| - 1], banks'[..|banks| - 1]);
    }
  }

  // ----- commands and data -----

  lemma CmdBankKeeps(c: Config, banks: seq<Bank>, cycle: nat, k: nat, limit: nat)
    requires |banks| == BankCount(c) && k < |banks| && BankOk(c, banks[k], limit) && limit <= cycle + 1
    ensures BankOk(c, CmdBank(c, banks, cycle, k), limit) && Pending(CmdBank(c, banks, cycle, k)) == Pending(banks[k])
  {
    hide BankOk, Pending, Issue;
    if Chosen(c, banks, k) == Some(k) { IssueKeeps(c, banks[k], cycle, limit); }
  }

  lemma CmdStageKeeps(c: Config, banks: seq<Bank>, cycle: nat, limit: nat)
    requires |banks| == BankCount(c) && AllOk(c, banks, limit) && limit <= cycle + 1
    ensures AllOk(c, CmdStage(c, banks, cycle), limit) && AllPending(CmdStage(c, banks, cycle)) == AllPending(banks)
  {
    hide BankOk, Pending, CmdBank;
    var r := CmdStage(c, banks, cycle);
    forall k | 0 <= k < |banks| ensures BankOk(c, r[k], limit) && Pending(r[k]) == Pending(banks[k]) {
      CmdBankKeeps(c, banks, cycle, k, limit);
    }
    PendingSame(banks, r);
  }

  lemma OneGrantKeeps(c: Config, banks: seq<Bank>, k: nat, ready: nat, cycle: nat, limit: nat)
    requires AllOk(c, banks, limit) && k < |banks| && Wants(banks[k], ForBus(cycle)) && ready >= cycle
    ensures AllOk(c, banks[k := Grant(banks[k], ready)], limit)
    ensures AllPending(banks[k := Grant(banks[k], ready)]) == AllPending(banks)
  {
    hide BankOk, Pending, AllPending;
    GrantKeeps(c, banks[k], ready, limit);
    PendingSame(banks, banks[k := Grant(banks[k], ready)]);
  }

  lemma {:induction false} GrantAllKeeps(c: Config, banks: seq<Bank>, bus: Bus, lo: nat, hi: nat, cycle: nat, limit: nat)
    requires lo <= hi <= |banks| && AllOk(c, banks, limit) && BusOk(c.busWidth, bus)
    ensures var (b, u) := GrantAll(c, banks, bus, lo, hi, cycle);
            AllOk(c, b, limit) && AllPending(b) == AllPending(banks) && BusOk(c.busWidth, u)
    decreases Loaded(banks, lo, hi)
  {
    hide AllOk, AllPending, BusOk, Acquire;
    if bus.ready <= cycle {
      var k := Oldest(banks, lo, hi, ForBus(cycle));
      if k.Some? {
        var size := banks[k.value].current.value.req.size;
        var after := Acquire(c.busWidth, bus, size, cycle);
        AcquireKeeps(c.busWidth, bus, size, cycle);
        OneGrantKeeps(c, banks, k.value, after.ready, cycle, limit);
        var granted := banks[k.value := Grant(banks[k.value], after.ready)];
        assert k.value in Loaded(banks, lo, hi) && k.value !in Loaded(granted, lo, hi);
        GrantAllKeeps(c, granted, after, lo, hi, cycle, limit);
      }
    }
  }

  lemma {:induction false} DataStageKeeps(c: Config, banks: seq<Bank>, buses: seq<Bus>, cycle: nat, ch: nat, limit: nat)
    requires |banks| == BankCount(c) && |buses| == c.channels && ch <= c.channels
    requires AllOk(c, banks, limit) && BusesOk(c, buses)
    ensures var (b, u) := DataStage(c, banks, buses, cycle, ch);
            AllOk(c, b, limit) && AllPending(b) == AllPending(banks) && BusesOk(c, u)
    decreases c.channels - ch
  {
    hide AllOk, AllPending, BusOk, GrantAll, First;
    if ch < c.channels {
      ChannelBounds(c, ch);
      GrantAllKeeps(c, banks, buses[ch], First(c, ch), First(c, ch) + c.perChannel, cycle, limit);
      var (b, u) := GrantAll(c, banks, buses[ch], First(c, ch), First(c, ch) + c.perChannel, cycle);
      DataStageKeeps(c, b, buses[ch := u], cycle, ch + 1, limit);
    }
  }

  // ----- completion -----

  lemma {:induction false} ReturnedOrFreed(l: seq<Request>)
    ensures multiset(l) == multiset(Returned(l)) + multiset(Freed(l))
  {
    if l != [] {
      ReturnedOrFreed(l[1..]);
      assert l == [l[0]] + l[1..];
    }
  }

  lemma DelayRequests(l: seq<Delayed>, done: seq<Request>, ready: nat)
    ensures multiset(RequestsIn(l + Delay(done, ready))) == multiset(RequestsIn(l)) + multiset(done)
  {
    assert RequestsIn(l + Delay(done, ready)) == RequestsIn(l) + done;
  }

  /** Completed requests leave the banks and go to the lists or are freed; none is lost. */
  lemma CompleteConserves(c: Config, s: Ctrl, k: nat)
    requires k < |s.banks| && s.banks[k].current.Some? && Conserved(s)
    requires Pending(s.banks[k]) == Pending(Complete(c, s.banks[k])) + multiset(Completed(c, s.banks[k]))
    ensures Conserved(CompleteOne(c, s, k))
  {
    hide Pending, Complete, Completed, AllPending, RequestsIn, Delay, Returned, Freed;
    var done := Completed(c, s.banks[k]);
    var was, now := AllPending(s.banks), AllPending(CompleteOne(c, s, k).banks);
    PendingUpdate(s.banks, k, Complete(c, s.banks[k]));
    Shrinks(was, Pending(s.banks[k]), now, Pending(Complete(c, s.banks[k])), multiset(done));
    assert |multiset(done)| == |done|;
    ReturnedOrFreed(done);
    DelayRequests(s.delayed, Returned(done), s.cycle + c.delay);
    Balances(s.accepted, was, InLists(s), s.finished, now, multiset(Returned(done)), multiset(Freed(done)));
    assert InLists(CompleteOne(c, s, k)) == InLists(s) + multiset(Returned(done));
  }

  lemma CompleteOrder(c: Config, s: Ctrl, k: nat)
    requires k < |s.banks| && s.banks[k].current.Some? && InOrder(s.delayed, s.cycle + c.delay)
    ensures InOrder(CompleteOne(c, s, k).delayed, s.cycle + c.delay)
  {
    hide Completed, Complete, Returned, Freed;
  }

  lemma CompleteOneKeeps(c: Config, s: Ctrl, k: nat, limit: nat)
    requires Held(c, s, limit) && k < |s.banks| && Arrived(s.banks[k], s.cycle)
    ensures In(s.banks[k], DataWait) && Held(c, CompleteOne(c, s, k), limit)
  {
    hide BankOk, Pending, Conserved, Complete, Completed, InOrder, BusesOk, Returned, Freed, Delay, BankCount;
    ArrivedWaits(c, s.banks[k], limit);
    CompleteKeeps(c, s.banks[k], limit);
    CompleteConserves(c, s, k);
    CompleteOrder(c, s, k);
  }

  /** The assertion at the start of a completion. */
  lemma ArrivedWaits(c: Config, b: Bank, limit: nat)
    requires BankOk(c, b, limit) && b.dataReady.Some?
    ensures In(b, DataWait)
  {
  }

  lemma {:induction false} CompleteStageKeeps(c: Config, s: Ctrl, k: nat, limit: nat)
    requires Held(c, s, limit) && k <= |s.banks|
    ensures Held(c, CompleteStage(c, s, k), limit) && CompleteStage(c, s, k).cycle == s.cycle
    decreases |s.banks| - k
  {
    hide Held, Complete, Completed, Returned, Freed, Delay;
    if k < |s.banks| {
      if Arrived(s.banks[k], s.cycle) {
        CompleteOneKeeps(c, s, k, limit);
        CompleteStageKeeps(c, CompleteOne(c, s, k), k + 1, limit);
      } else {
        CompleteStageKeeps(c, s, k + 1, limit);
      }
    }
  }

  // ----- selection -----

  lemma NewBankKeeps(c: Config, b: Bank, cycle: nat)
    requires BankOk(c, b, cycle)
    ensures BankOk(c, NewBank(c, b, cycle), cycle + 1) && Pending(NewBank(c, b, cycle)) == Pending(b)
  {
    hide BankOk, Pending, Select, Resume, Schedule, SlotBag, RequestBag;
    if b.current.None? && b.buffer != [] {
      SchedulePermutes(c, b.row, b.buffer);
      SelectKeeps(c, b, Schedule(c, b.row, b.buffer), cycle, cycle);
    } else if In(b, CmdWait) && b.bankReady.Some? && b.bankReady.value <= cycle {
      ResumeKeeps(c, b, cycle, cycle);
    } else {
      LaterLimit(c, b, cycle, cycle + 1);
    }
  }

  lemma NewStageKeeps(c: Config, banks: seq<Bank>, cycle: nat)
    requires AllOk(c, banks, cycle)
    ensures AllOk(c, NewStage(c, banks, cycle), cycle + 1) && AllPending(NewStage(c, banks, cycle)) == AllPending(banks)
  {
    hide BankOk, Pending, NewBank, AllPending;
    var r := NewStage(c, banks, cycle);
    forall k | 0 <= k < |banks| ensures BankOk(c, r[k], cycle + 1) && Pending(r[k]) == Pending(banks[k]) {
      NewBankKeeps(c, banks[k], cycle);
    }
    PendingSame(banks, r);
  }

  // ----- acceptance -----

  lemma FlushConserves(s: Ctrl, k: nat)
    requires k < |s.banks| && Conserved(s)
    requires Pending(s.banks[k]) == Pending(Flush(s.banks[k])) + RequestBag(Picked(s.banks[k].buffer, IsPrefetch))
    ensures Conserved(FlushBank(s, k))
  {
    var gone := Picked(s.banks[k].buffer, IsPrefetch);
    assert |RequestBag(gone)| == |gone|;
    hide Pending, Flush, AllPending, InLists, RequestsIn, RequestBag, Picked;
    var was, now := AllPending(s.banks), AllPending(FlushBank(s, k).banks);
    PendingUpdate(s.banks, k, Flush(s.banks[k]));
    Shrinks(was, Pending(s.banks[k]), now, Pending(Flush(s.banks[k])), RequestBag(gone));
    Drops(s.accepted, was, InLists(s), s.finished, now, RequestBag(gone));
    SameLists(s, FlushBank(s, k));
  }

  lemma Drops(all: multiset<Request>, pending: multiset<Request>, lists: multiset<Request>, finished: multiset<Request>,
              left: multiset<Request>, gone: multiset<Request>)
    requires all == pending + lists + finished && pending == left + gone
    ensures all == left + lists + (finished + gone)
  {
  }

  lemma SameLists(s: Ctrl, t: Ctrl)
    requires s.delayed == t.delayed && s.output == t.output
    ensures InLists(s) == InLists(t)
  {
  }

  lemma InsertConserves(s: Ctrl, r: Request, b: Bank)
    requires r.bank < |s.banks| && Conserved(s) && r !in s.accepted
    requires Pending(b) == Pending(s.banks[r.bank]) + multiset{r}
    ensures Conserved(s.(banks := s.banks[r.bank := b], total := s.total + 1, accepted := s.accepted + multiset{r}))
  {
    hide Pending, AllPending, RequestsIn;
    PendingUpdate(s.banks, r.bank, b);
    Shrinks(AllPending(s.banks[r.bank := b]), Pending(b), AllPending(s.banks), Pending(s.banks[r.bank]), multiset{r});
  }

  lemma AcceptKeeps(c: Config, s: Ctrl, r: Request, limit: nat)
    requires Held(c, s, limit) && r.bank < |s.banks| && r.row < CLOSED && r !in s.accepted
    ensures Held(c, Accept(s, r).1, limit) && Accept(s, r).1.cycle == s.cycle
  {
    hide BankOk, Conserved, Flush, Insert, Pending, RequestBag, Picked;
    var t := if s.banks[r.bank].free == [] then FlushBank(s, r.bank) else s;
    if s.banks[r.bank].free == [] {
      FlushKeeps(c, s.banks[r.bank], limit);
      FlushConserves(s, r.bank);
    }
    if t.banks[r.bank].free != [] {
      InsertKeeps(c, t.banks[r.bank], r, t.cycle, limit);
      InsertConserves(t, r, Insert(t.banks[r.bank], r, t.cycle));
    }
  }

  // ----- departure -----

  lemma {:induction false} SendsPart(l: seq<Request>, allowed: set<bool>, accepts: Request -> bool)
    requires NoDup(l)
    ensures var s := Sends(l, allowed, accepts);
            && NoDup(s)
            && forall r :: r in s ==> r in l && r.gpu in allowed && r.gpu in Offers(l, allowed, accepts) && accepts(r)
  {
    if l != [] { SendsPart(l[1..], allowed, accepts); }
  }

  /** No request is sent twice, and only waiting requests that the network takes are sent. */
  lemma SentOnce(c: Config, l: seq<Request>, accepts: Request -> bool)
    requires NoDup(l)
    ensures NoDup(Sent(c, l, accepts)) && forall r :: r in Sent(c, l, accepts) ==> r in l && accepts(r)
  {
    hide Sends, Offers;
    var both := {false, true};
    var offered := Offers(l, both, accepts);
    SendsPart(l, both, accepts);
    SendsPart(l, both - offered, accepts);
    var first, second := Sends(l, both, accepts), Sends(l, both - offered, accepts);
    forall j, k | 0 <= j < k < |first + second| ensures (first + second)[j] != (first + second)[k] {
      if j < |first| <= k {
        assert first[j] in first && second[k - |first|] in second;
      } else if j >= |first| {
        assert second[j - |first|] != second[k - |first|];
      }
    }
  }

  lemma {:induction false} WithoutSplits(l: seq<Request>, gone: seq<Request>)
    requires NoDup(l) && NoDup(gone) && forall r :: r in gone ==> r in l
    ensures multiset(l) == multiset(Without(l, Elems(gone))) + multiset(gone)
  {
    forall r ensures multiset(l)[r] == (multiset(Without(l, Elems(gone))) + multiset(gone))[r] {
      OnceCount(l, r);
      OnceCount(gone, r);
      WithoutCount(l, Elems(gone), r);
    }
  }

  lemma {:induction false} OnceCount(l: seq<Request>, r: Request)
    requires NoDup(l)
    ensures multiset(l)[r] == if r in l then 1 else 0
  {
    if l != [] {
      OnceCount(l[1..], r);
      assert l == [l[0]] + l[1..];
    }
  }

  lemma {:induction false} WithoutCount(l: seq<Request>, gone: set<Request>, r: Request)
    ensures multiset(Without(l, gone))[r] == if r in gone then 0 else multiset(l)[r]
  {
    if l != [] {
      WithoutCount(l[1..], gone, r);
      assert l == [l[0]] + l[1..];
    }
  }

  lemma {:induction false} CountedOnce(l: seq<Request>)
    requires forall r :: multiset(l)[r] <= 1
    ensures NoDup(l)
  {
    forall j, k | 0 <= j < k < |l| ensures l[j] != l[k] {
      if l[j] == l[k] {
        RepeatCounts(l, j, k);
      }
    }
  }

  lemma RepeatCounts(l: seq<Request>, j: nat, k: nat)
    requires j < k < |l| && l[j] == l[k]
    ensures multiset(l)[l[j]] >= 2
  {
    var a, b := l[..k], l[k..];
    assert l == a + b && a[j] == l[j] && b[0] == l[k];
    assert multiset(l) == multiset(a) + multiset(b);
    assert l[j] in multiset(a) && l[j] in multiset(b);
  }

  lemma SendKeeps(c: Config, s: Ctrl, accepts: Request -> bool, limit: nat)
    requires Held(c, s, limit)
    ensures Held(c, Send(c, s, accepts), limit)
  {
    hide AllOk, BusesOk, InOrder, AllPending, RequestsIn, Without, Sent;
    assert forall r :: multiset(s.output)[r] <= s.accepted[r];
    CountedOnce(s.output);
    SentOnce(c, s.output, accepts);
    WithoutSplits(s.output, Sent(c, s.output, accepts));
  }

  lemma ReleaseKeeps(c: Config, s: Ctrl, limit: nat)
    requires Held(c, s, limit)
    ensures Held(c, Release(s), limit)
    ensures forall d :: d in Release(s).delayed ==> d.ready > s.cycle
  {
    hide AllOk, BusesOk, AllPending;
    ReleaseLists(s);
    hide InLists, RequestsIn;
  }

  lemma ReleaseLists(s: Ctrl)
    ensures InLists(Release(s)) == InLists(s)
  {
    var n := Due(s.delayed, s.cycle);
    var a, b := s.delayed[..n], s.delayed[n..];
    assert RequestsIn(s.delayed) == RequestsIn(a) + RequestsIn(b);
    hide RequestsIn;
  }
}
