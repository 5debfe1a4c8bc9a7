/** One DRAM bank: its request buffer, its row buffer and the request it serves; and the data bus
    that the banks of a channel share. */
module DramBank {
  import Arithmetic
  import opened Options

  /** The row register of a bank without an open row. */
  const CLOSED: nat := 0xFFFF_FFFF_FFFF_FFFF

  datatype Settings = Settings(
    channels: nat,
    perChannel: nat,
    bufferSize: nat,
    busWidth: nat,
    activate: nat,
    column: nat,
    precharge: nat,
    delay: nat,
    merge: bool,
    rowsFirst: bool,
    partitioned: bool)
  {
    predicate Valid() {
      channels > 0 && perChannel > 0 && busWidth > 0
    }
  }

  type Config = s: Settings | s.Valid() witness Settings(1, 1, 0, 1, 0, 0, 0, 0, false, false, false)

  datatype Kind = Demand | Prefetch | WriteBack

  datatype Request = Request(id: nat, addr: nat, bank: nat, row: nat, kind: Kind, size: nat, gpu: bool)

  datatype Phase = Idle | Cmd | CmdWait | Data | DataWait

  /** An entry of the request buffer. Its identity is its slot. */
  datatype Entry = Entry(slot: nat, req: Request, stamp: nat, phase: Phase)

  datatype Command = Activate | Column | Precharge

  datatype Issued = Issued(cmd: Command, time: nat)

  /** `initial` and `log` are history: the row register when the current request was selected, and
      the commands issued for it. */
  datatype Bank = Bank(
    free: seq<nat>,
    buffer: seq<Entry>,
    current: Option<Entry>,
    row: nat,
    bankReady: Option<nat>,
    dataReady: Option<nat>,
    dataAvail: Option<nat>,
    stamp: nat,
    initial: nat,
    log: seq<Issued>)

  predicate In(b: Bank, p: Phase) {
    b.current.Some? && b.current.value.phase == p
  }

  // ----- slots and requests of a bank -----

  function SlotsOf(l: seq<Entry>): (r: seq<nat>)
    ensures |r| == |l|
  {
    seq(|l|, i requires 0 <= i < |l| => l[i].slot)
  }

  function RequestsOf(l: seq<Entry>): (r: seq<Request>)
    ensures |r| == |l|
  {
    seq(|l|, i requires 0 <= i < |l| => l[i].req)
  }

  function SlotBag(l: seq<Entry>): multiset<nat> {
    multiset(SlotsOf(l))
  }

  function RequestBag(l: seq<Entry>): multiset<Request> {
    multiset(RequestsOf(l))
  }

  function CurrentOf(b: Bank): seq<Entry> {
    if b.current.Some? then [b.current.value] else []
  }

  /** All slots of the bank: free, buffered or in service. */
  function Slots(b: Bank): multiset<nat> {
    multiset(b.free) + SlotBag(b.buffer) + SlotBag(CurrentOf(b))
  }

  /** The requests that the bank has not completed. */
  function Pending(b: Bank): multiset<Request> {
    RequestBag(b.buffer) + RequestBag(CurrentOf(b))
  }

  function AllSlots(n: nat): multiset<nat> {
    if n == 0 then multiset{} else AllSlots(n - 1) + multiset{n - 1}
  }

  lemma {:induction false} AllSlotsCount(n: nat, k: nat)
    ensures AllSlots(n)[k] == (if k < n then 1 else 0) && |AllSlots(n)| == n
  {
    if n > 0 { AllSlotsCount(n - 1, k); }
  }

  lemma SplitBags(l: seq<Entry>, m: seq<Entry>, all: seq<Entry>)
    requires all == l + m
    ensures SlotBag(all) == SlotBag(l) + SlotBag(m)
    ensures RequestBag(all) == RequestBag(l) + RequestBag(m)
  {
    assert SlotsOf(all) == SlotsOf(l) + SlotsOf(m);
    assert RequestsOf(all) == RequestsOf(l) + RequestsOf(m);
  }

  lemma SingleBags(e: Entry)
    ensures SlotBag([e]) == multiset{e.slot} && RequestBag([e]) == multiset{e.req}
    ensures SlotBag([]) == multiset{} && RequestBag([]) == multiset{}
  {
    assert SlotsOf([e]) == [e.slot] && RequestsOf([e]) == [e.req];
  }

  lemma FreeBag(free: seq<nat>, l: seq<Entry>)
    ensures multiset(free + SlotsOf(l)) == multiset(free) + SlotBag(l)
  {
  }

  // ----- sorting entries out of a buffer -----

  datatype Test = IsPrefetch | SameAddr(addr: nat)

  predicate Meets(e: Entry, t: Test) {
    match t
    case IsPrefetch => e.req.kind == Prefetch
    case SameAddr(addr) => e.req.addr == addr
  }

  function Picked(l: seq<Entry>, t: Test): seq<Entry> {
    if l == [] then []
    else (if Meets(l[0], t) then [l[0]] else []) + Picked(l[1..], t)
  }

  function Rest(l: seq<Entry>, t: Test): seq<Entry> {
    if l == [] then []
    else (if Meets(l[0], t) then [] else [l[0]]) + Rest(l[1..], t)
  }

  lemma {:induction false} PickedMembers(l: seq<Entry>, t: Test)
    ensures forall e :: e in Picked(l, t) <==> e in l && Meets(e, t)
    ensures forall e :: e in Rest(l, t) <==> e in l && !Meets(e, t)
  {
    hide Meets;
    if l != [] { PickedMembers(l[1..], t); }
  }

  lemma {:induction false} PickedSplits(l: seq<Entry>, t: Test)
    ensures SlotBag(l) == SlotBag(Picked(l, t)) + SlotBag(Rest(l, t))
    ensures RequestBag(l) == RequestBag(Picked(l, t)) + RequestBag(Rest(l, t))
  {
    hide SlotBag, RequestBag, Meets;
    if l != [] {
      var x, tail := [l[0]], l[1..];
      PickedSplits(tail, t);
      SplitBags(x, tail, l);
      if Meets(l[0], t) {
        SplitBags(x, Picked(tail, t), Picked(l, t));
        assert Rest(l, t) == Rest(tail, t);
      } else {
        SplitBags(x, Rest(tail, t), Rest(l, t));
        assert Picked(l, t) == Picked(tail, t);
      }
    } else {
      SplitBags([], [], []);
    }
  }

  // ----- moves -----

  /** `flush_prefetch`: all buffered prefetches are dropped. */
  function Flush(b: Bank): Bank {
    b.(buffer := Rest(b.buffer, IsPrefetch), free := b.free + SlotsOf(Picked(b.buffer, IsPrefetch)))
  }

  /** `insert_req_in_drb`. */
  function Insert(b: Bank, r: Request, cycle: nat): Bank
    requires b.free != []
  {
    b.(free := b.free[1..], buffer := b.buffer + [Entry(b.free[0], r, cycle, Idle)])
  }

  /** The entries that complete together with the current one. */
  function Merged(c: Config, b: Bank): seq<Entry>
    requires b.current.Some?
  {
    if c.merge then Picked(b.buffer, SameAddr(b.current.value.req.addr)) else []
  }

  /** The requests that complete with the current one, in the order in which they leave. */
  function Completed(c: Config, b: Bank): seq<Request>
    requires b.current.Some?
  {
    RequestsOf(Merged(c, b)) + [b.current.value.req]
  }

  /** The current request is done, and with it the merged ones. */
  function Complete(c: Config, b: Bank): Bank
    requires b.current.Some?
  {
    b.(buffer := if c.merge then Rest(b.buffer, SameAddr(b.current.value.req.addr)) else b.buffer,
       free := b.free + SlotsOf(Merged(c, b)) + [b.current.value.slot],
       current := None, dataReady := None)
  }

  /** The first entry of the scheduled buffer becomes the current one. */
  function Select(b: Bank, scheduled: seq<Entry>, cycle: nat): Bank
    requires scheduled != []
  {
    b.(current := Some(scheduled[0].(phase := Cmd)), buffer := scheduled[1..],
       bankReady := None, stamp := cycle, initial := b.row, log := [])
  }

  /** The previous command is done: the next one may be issued. */
  function Resume(b: Bank, cycle: nat): Bank
    requires b.current.Some?
  {
    b.(current := Some(b.current.value.(phase := Cmd)), bankReady := None, stamp := cycle)
  }

  function Latency(c: Config, cmd: Command): nat {
    match cmd
    case Activate => c.activate
    case Column => c.column
    case Precharge => c.precharge
  }

  /** The command that a bank in phase `Cmd` gets. */
  function NextCommand(b: Bank): Command
    requires b.current.Some?
  {
    if b.row == CLOSED then Activate
    else if b.current.value.req.row == b.row then Column
    else Precharge
  }

  /** The chosen bank of a channel gets its next command. */
  function Issue(c: Config, b: Bank, cycle: nat): Bank
    requires b.current.Some?
  {
    var e := b.current.value;
    var cmd := NextCommand(b);
    var ready := Some(cycle + Latency(c, cmd));
    b.(current := Some(e.(phase := if cmd == Column then Data else CmdWait)),
       row := (match cmd case Activate => e.req.row case Column => b.row case Precharge => CLOSED),
       bankReady := ready, dataAvail := if cmd == Column then ready else None,
       log := b.log + [Issued(cmd, cycle)])
  }

  /** The bank got the data bus; its data will have been sent at `ready`. */
  function Grant(b: Bank, ready: nat): Bank
    requires b.current.Some?
  {
    b.(current := Some(b.current.value.(phase := DataWait)), dataReady := Some(ready), dataAvail := None)
  }

  // ----- the row-buffer protocol -----

  /** What a request needs, given the row register at its selection. */
  function Plan(initial: nat, row: nat): seq<Command> {
    if initial == CLOSED then [Activate, Column]
    else if initial == row then [Column]
    else [Precharge, Activate, Column]
  }

  /** The row register after the first `n` commands of the plan. */
  function RowAfter(initial: nat, row: nat, n: nat): nat {
    if n == 0 then initial
    else if n == 1 && initial != CLOSED && initial != row then CLOSED
    else row
  }

  /** The commands issued are the first ones of the plan. */
  ghost predicate Follows(log: seq<Issued>, plan: seq<Command>) {
    |log| <= |plan| && forall k :: 0 <= k < |log| ==> log[k].cmd == plan[k]
  }

  /** When the last command issued has taken effect. */
  function Settled(c: Config, log: seq<Issued>): nat {
    if log == [] then 0 else log[|log| - 1].time + Latency(c, log[|log| - 1].cmd)
  }

  /** No command is issued before the latency of the previous one has passed. */
  ghost predicate Spaced(c: Config, log: seq<Issued>) {
    forall j, k {:trigger log[j], log[k]} :: 0 <= j && k == j + 1 < |log| ==>
      log[k].time >= log[j].time + Latency(c, log[j].cmd)
  }

  /** The bank serves its current request according to the plan. A bank that waits for its
      command has been touched before `limit`. */
  ghost predicate Protocol(c: Config, b: Bank, limit: nat) {
    match b.current
    case None => b.dataReady.None? && b.dataAvail.None?
    case Some(e) =>
      var plan := Plan(b.initial, e.req.row);
      && e.phase != Idle && e.req.row < CLOSED && Follows(b.log, plan) && Spaced(c, b.log)
      && b.row == RowAfter(b.initial, e.req.row, |b.log|)
      && (|b.log| == |plan| <==> e.phase == Data || e.phase == DataWait)
      && (e.phase == Cmd ==> b.stamp < limit && Settled(c, b.log) <= b.stamp)
      && (e.phase == CmdWait ==> b.bankReady == Some(Settled(c, b.log)))
      && b.dataAvail == (if e.phase == Data then Some(Settled(c, b.log)) else None)
      && (b.dataReady.Some? <==> e.phase == DataWait)
      && (e.phase == DataWait ==> b.dataReady.value >= Settled(c, b.log))
  }

  ghost predicate RowsOk(l: seq<Entry>) {
    forall e :: e in l ==> e.req.row < CLOSED
  }

  ghost predicate BankOk(c: Config, b: Bank, limit: nat) {
    Slots(b) == AllSlots(c.bufferSize) && RowsOk(b.buffer) && Protocol(c, b, limit)
  }

  // ----- what the moves keep -----

  lemma LaterLimit(c: Config, b: Bank, limit: nat, later: nat)
    requires BankOk(c, b, limit) && limit <= later
    ensures BankOk(c, b, later)
  {
  }

  lemma FlushBags(b: Bank)
    ensures Slots(Flush(b)) == Slots(b)
    ensures Pending(b) == Pending(Flush(b)) + RequestBag(Picked(b.buffer, IsPrefetch))
  {
    hide SlotBag, RequestBag, SlotsOf, Picked, Rest;
    PickedSplits(b.buffer, IsPrefetch);
    FreeBag(b.free, Picked(b.buffer, IsPrefetch));
  }

  /** Exactly the prefetches leave the bank, and their slots become free. */
  lemma FlushKeeps(c: Config, b: Bank, limit: nat)
    requires BankOk(c, b, limit)
    ensures BankOk(c, Flush(b), limit)
    ensures Pending(b) == Pending(Flush(b)) + RequestBag(Picked(b.buffer, IsPrefetch))
  {
    hide Slots, Pending, Follows, Spaced, Settled;
    FlushBags(b);
    PickedMembers(b.buffer, IsPrefetch);
  }

  lemma InsertBags(b: Bank, r: Request, cycle: nat)
    requires b.free != []
    ensures Slots(Insert(b, r, cycle)) == Slots(b) && Pending(Insert(b, r, cycle)) == Pending(b) + multiset{r}
  {
    hide SlotBag, RequestBag;
    var e := Entry(b.free[0], r, cycle, Idle);
    SplitBags(b.buffer, [e], b.buffer + [e]);
    assert b.free == [b.free[0]] + b.free[1..];
    SingleBags(e);
  }

  lemma InsertKeeps(c: Config, b: Bank, r: Request, cycle: nat, limit: nat)
    requires BankOk(c, b, limit) && b.free != [] && r.row < CLOSED
    ensures BankOk(c, Insert(b, r, cycle), limit)
    ensures Pending(Insert(b, r, cycle)) == Pending(b) + multiset{r}
  {
    hide Slots, Pending, Follows, Spaced, Settled;
    InsertBags(b, r, cycle);
  }

  lemma CompleteSlots(c: Config, b: Bank)
    requires b.current.Some?
    ensures Slots(Complete(c, b)) == Slots(b)
  {
    hide SlotBag, SlotsOf, Picked, Rest;
    SingleBags(b.current.value);
    FreeBag(b.free, Merged(c, b));
    if c.merge { PickedSplits(b.buffer, SameAddr(b.current.value.req.addr)); }
  }

  lemma CompletePending(c: Config, b: Bank)
    requires b.current.Some?
    ensures Pending(b) == Pending(Complete(c, b)) + multiset(Completed(c, b))
  {
    var cur := b.current.value;
    assert multiset(Completed(c, b)) == RequestBag(Merged(c, b)) + multiset{cur.req};
    hide RequestBag, SlotsOf, RequestsOf, Picked, Rest, Completed;
    SingleBags(cur);
    if c.merge { PickedSplits(b.buffer, SameAddr(cur.req.addr)); }
  }

  lemma CompleteKeeps(c: Config, b: Bank, limit: nat)
    requires BankOk(c, b, limit) && In(b, DataWait)
    ensures BankOk(c, Complete(c, b), limit)
    ensures Pending(b) == Pending(Complete(c, b)) + multiset(Completed(c, b))
  {
    hide Slots, Pending;
    CompleteSlots(c, b);
    CompletePending(c, b);
    PickedMembers(b.buffer, SameAddr(b.current.value.req.addr));
  }

  lemma SelectBags(b: Bank, scheduled: seq<Entry>, cycle: nat)
    requires b.current.None? && scheduled != []
    requires SlotBag(scheduled) == SlotBag(b.buffer)
    requires RequestBag(scheduled) == RequestBag(b.buffer)
    ensures Slots(Select(b, scheduled, cycle)) == Slots(b) && Pending(Select(b, scheduled, cycle)) == Pending(b)
  {
    hide SlotBag, RequestBag;
    var e := scheduled[0];
    SplitBags([e], scheduled[1..], scheduled);
    SingleBags(e);
    SingleBags(e.(phase := Cmd));
  }

  lemma SelectKeeps(c: Config, b: Bank, scheduled: seq<Entry>, cycle: nat, limit: nat)
    requires BankOk(c, b, limit) && b.current.None? && scheduled != []
    requires SlotBag(scheduled) == SlotBag(b.buffer)
    requires RequestBag(scheduled) == RequestBag(b.buffer)
    requires forall e :: e in scheduled ==> e in b.buffer
    ensures BankOk(c, Select(b, scheduled, cycle), cycle + 1)
    ensures Pending(Select(b, scheduled, cycle)) == Pending(b)
  {
    hide Slots, Pending;
    SelectBags(b, scheduled, cycle);
    assert scheduled[0] in b.buffer;
  }

  /** A change of phase moves no slot and no request. */
  lemma SameBags(b: Bank, b': Bank)
    requires b.current.Some? && b'.current.Some? && b.free == b'.free && b.buffer == b'.buffer
    requires b.current.value.slot == b'.current.value.slot && b.current.value.req == b'.current.value.req
    ensures Slots(b) == Slots(b') && Pending(b) == Pending(b')
  {
    hide SlotBag, RequestBag;
    SingleBags(b.current.value);
    SingleBags(b'.current.value);
  }

  lemma ResumeKeeps(c: Config, b: Bank, cycle: nat, limit: nat)
    requires BankOk(c, b, limit) && In(b, CmdWait) && b.bankReady.Some? && b.bankReady.value <= cycle
    ensures BankOk(c, Resume(b, cycle), cycle + 1) && Pending(Resume(b, cycle)) == Pending(b)
  {
    hide Slots, Pending;
    SameBags(b, Resume(b, cycle));
  }

  lemma SpacedAppend(c: Config, log: seq<Issued>, x: Issued)
    requires Spaced(c, log) && x.time >= Settled(c, log)
    ensures Spaced(c, log + [x])
  {
  }

  /** The command that the row register calls for is the next one of the plan. */
  lemma IssueProtocol(c: Config, b: Bank, cycle: nat, limit: nat)
    requires Protocol(c, b, limit) && In(b, Cmd) && limit <= cycle + 1
    ensures Protocol(c, Issue(c, b, cycle), limit)
    ensures NextCommand(b) == Plan(b.initial, b.current.value.req.row)[|b.log|]
  {
    SpacedAppend(c, b.log, Issued(NextCommand(b), cycle));
    hide Spaced;
  }

  lemma IssueKeeps(c: Config, b: Bank, cycle: nat, limit: nat)
    requires BankOk(c, b, limit) && In(b, Cmd) && limit <= cycle + 1
    ensures BankOk(c, Issue(c, b, cycle), limit) && Pending(Issue(c, b, cycle)) == Pending(b)
  {
    SameBags(b, Issue(c, b, cycle));
    IssueProtocol(c, b, cycle, limit);
    hide Slots, Pending, Protocol;
  }

  lemma GrantKeeps(c: Config, b: Bank, ready: nat, limit: nat)
    requires BankOk(c, b, limit) && In(b, Data) && b.dataAvail.Some? && b.dataAvail.value <= ready
    ensures BankOk(c, Grant(b, ready), limit) && Pending(Grant(b, ready)) == Pending(b)
  {
    hide Slots, Pending, Spaced, Follows;
    SameBags(b, Grant(b, ready));
  }

  // ----- what the bank's invariant means -----

  /** Every slot of the request buffer is in exactly one place. */
  lemma SlotsPartition(c: Config, b: Bank, limit: nat, slot: nat)
    requires BankOk(c, b, limit)
    ensures multiset(b.free)[slot] + SlotBag(b.buffer)[slot] + SlotBag(CurrentOf(b))[slot]
            == if slot < c.bufferSize then 1 else 0
    ensures |b.free| + |b.buffer| + |CurrentOf(b)| == c.bufferSize
  {
    AllSlotsCount(c.bufferSize, slot);
    assert |Slots(b)| == |b.free| + |b.buffer| + |CurrentOf(b)|;
  }

  /** A request whose data has arrived saw exactly the commands that the row register at its
      selection calls for; and data is ready only then. */
  lemma ServedByPlan(c: Config, b: Bank, limit: nat)
    requires BankOk(c, b, limit) && b.dataReady.Some?
    ensures In(b, DataWait) && |b.log| == |Plan(b.initial, b.current.value.req.row)|
    ensures forall k :: 0 <= k < |b.log| ==> b.log[k].cmd == Plan(b.initial, b.current.value.req.row)[k]
    ensures forall j, k :: 0 <= j && k == j + 1 < |b.log| ==> b.log[k].time >= b.log[j].time + Latency(c, b.log[j].cmd)
    ensures b.row == b.current.value.req.row && b.dataReady.value >= Settled(c, b.log)
  {
  }

  // ----- the data bus of a channel -----

  /** `granted` is history: the bytes of all transfers so far. */
  datatype Bus = Bus(avail: int, ready: nat, granted: nat)

  function Acquire(width: nat, bus: Bus, size: nat, cycle: nat): Bus
    requires width > 0
  {
    if size < bus.avail then Bus(bus.avail - size, cycle, bus.granted + size)
    else
      var over := size - bus.avail;
      Bus(width - over % width, (if over >= 0 then cycle + over / width + 1 else 0), bus.granted + size)
  }

  /** Never more bytes than the bus carries up to the cycle at which it is ready. */
  ghost predicate BusOk(width: nat, bus: Bus) {
    0 < bus.avail <= width && bus.granted + bus.avail <= width * bus.ready + width
  }

  lemma AcquireKeeps(width: nat, bus: Bus, size: nat, cycle: nat)
    requires width > 0 && BusOk(width, bus) && bus.ready <= cycle
    ensures BusOk(width, Acquire(width, bus, size, cycle))
    ensures Acquire(width, bus, size, cycle).ready >= cycle
  {
    var r := Acquire(width, bus, size, cycle);
    Arithmetic.ScaleLess(bus.ready, cycle, width);
    if size >= bus.avail {
      var over := size - bus.avail;
      assert over == width * (over / width) + over % width;
      assert width * r.ready == width * cycle + width * (over / width) + width;
    }
  }
}
