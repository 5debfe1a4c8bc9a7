/** The DRAM controller as the simulator runs it: loops over channels and banks that update arrays
    and lists in place. Each method is proved to do what the stage in DramControl does. */
module DramUnit {
  import opened Lists
  import opened Options
  import opened DramBank
  import opened DramPolicy
  import opened DramControl
  import opened DramTheorems

  // ----- lists -----

  lemma ListAppend(l: seq<Entry>, e: Entry)
    ensures Elems<Entry>([]) == {} && SlotsOf([]) == [] && RequestsOf([]) == []
    ensures Elems(l + [e]) == Elems(l) + {e}
    ensures SlotsOf(l + [e]) == SlotsOf(l) + [e.slot] && RequestsOf(l + [e]) == RequestsOf(l) + [e.req]
  {
  }

  /** Removing the entries that meet the test one by one leaves the others. */
  lemma WithoutPicked(l: seq<Entry>, t: Test)
    ensures Without(l, Elems(Picked(l, t))) == Rest(l, t)
  {
    hide Meets;
    PickedMembers(l, t);
    WithoutMeeting(l, t, Elems(Picked(l, t)));
  }

  lemma {:induction false} WithoutMeeting(l: seq<Entry>, t: Test, gone: set<Entry>)
    requires forall e :: e in l ==> (e in gone <==> Meets(e, t))
    ensures Without(l, gone) == Rest(l, t)
  {
    if l != [] { WithoutMeeting(l[1..], t, gone); }
  }

  lemma {:induction false} PickedAppend(l: seq<Entry>, e: Entry, t: Test)
    ensures Picked(l + [e], t) == Picked(l, t) + if Meets(e, t) then [e] else []
  {
    if l == [] {
      assert [e][1..] == [];
    } else {
      PickedAppend(l[1..], e, t);
      assert (l + [e])[1..] == l[1..] + [e];
    }
  }

  lemma {:induction false} ReturnedAppend(l: seq<Request>, r: Request)
    ensures Returned(l + [r]) == Returned(l) + Returned([r])
  {
    if l == [] {
      assert l + [r] == [r] && Returned(l) == [];
    } else {
      ReturnedAppend(l[1..], r);
      assert (l + [r])[1..] == l[1..] + [r] && (l + [r])[0] == l[0];
      var first := if l[0].kind == WriteBack then [] else [l[0]];
      assert Returned(l + [r]) == first + (Returned(l[1..]) + Returned([r]));
    }
  }

  lemma {:induction false} FreedAppend(l: seq<Request>, r: Request)
    ensures Freed(l + [r]) == Freed(l) + Freed([r])
  {
    if l == [] {
      assert l + [r] == [r] && Freed(l) == [];
    } else {
      FreedAppend(l[1..], r);
      assert (l + [r])[1..] == l[1..] + [r] && (l + [r])[0] == l[0];
      var first := if l[0].kind == WriteBack then [l[0]] else [];
      assert Freed(l + [r]) == first + (Freed(l[1..]) + Freed([r]));
    }
  }

  lemma ReturnedSingle(r: Request)
    ensures Returned([r]) == (if r.kind == WriteBack then [] else [r])
    ensures Freed([r]) == (if r.kind == WriteBack then [r] else [])
  {
    assert [r][1..] == [];
  }

  lemma EmitAppend(c: Config, s: Ctrl, l: seq<Request>, r: Request)
    ensures Emit(c, Emit(c, s, l), [r]) == Emit(c, s, l + [r])
  {
    hide Returned, Freed, Delay;
    ReturnedAppend(l, r);
    FreedAppend(l, r);
    DelayAppend(Returned(l), Returned([r]), s.cycle + c.delay);
    var ready := s.cycle + c.delay;
    var a, b := Delay(Returned(l), ready), Delay(Returned([r]), ready);
    assert s.delayed + a + b == s.delayed + (a + b);
    assert s.output + Returned(l) + Returned([r]) == s.output + (Returned(l) + Returned([r]));
    assert s.finished + multiset(Freed(l)) + multiset(Freed([r])) == s.finished + multiset(Freed(l) + Freed([r]));
  }

  lemma DelayAppend(l: seq<Request>, m: seq<Request>, ready: nat)
    ensures Delay(l + m, ready) == Delay(l, ready) + Delay(m, ready)
  {
  }

  lemma OldestLocal(a: seq<Bank>, b: seq<Bank>, lo: nat, hi: nat, w: Want)
    requires lo <= hi <= |a| && |a| == |b| && forall k :: lo <= k < hi ==> a[k] == b[k]
    ensures Oldest(a, lo, hi, w) == Oldest(b, lo, hi, w)
    decreases hi
  {
    if lo < hi { OldestLocal(a, b, lo, hi - 1, w); }
  }

  class Controller {
    const c: Config
    const banks: array<Bank>
    const buses: array<Bus>
    var cycle: nat
    var total: int
    var delayed: seq<Delayed>
    var output: seq<Request>
    ghost var accepted: multiset<Request>
    ghost var finished: multiset<Request>

    ghost predicate Shaped() {
      banks.Length == BankCount(c) && buses.Length == c.channels
    }

    ghost function State(): Ctrl
      reads this, banks, buses
    {
      Ctrl(banks[..], buses[..], cycle, total, delayed, output, accepted, finished)
    }

    ghost predicate Valid()
      reads this, banks, buses
    {
      Shaped() && Inv(c, State())
    }

    constructor (config: Config)
      ensures c == config && fresh(banks) && fresh(buses) && Valid() && State() == Init(config)
    {
      c := config;
      banks := new Bank[BankCount(config)](_ => EmptyBank(config));
      buses := new Bus[config.channels](_ => Bus(config.busWidth, 0, 0));
      cycle, total, delayed, output, accepted, finished := 0, 0, [], [], multiset{}, multiset{};
      new;
      hide Inv, EmptyBank, BankCount;
      assert banks[..] == Init(c).banks;
      assert buses[..] == Init(c).buses;
      InitKeeps(c);
    }

    // ----- channels -----

    /** The inner loop of both channel schedulers. */
    method PickOldest(lo: nat, hi: nat, w: Want) returns (best: Option<nat>)
      requires lo <= hi <= banks.Length
      ensures best == Oldest(banks[..], lo, hi, w)
    {
      best := None;
      for k := lo to hi
        invariant best == Oldest(banks[..], lo, k, w)
      {
        if Wants(banks[k], w) && (best.None? || banks[k].stamp < banks[best.value].stamp) {
          best := Some(k);
        }
      }
    }

    method ChannelScheduleCmd()
      requires Shaped()
      modifies banks
      ensures banks[..] == CmdStage(c, old(banks[..]), cycle)
    {
      hide First, ChannelOf, CmdBank;
      ghost var before := banks[..];
      FirstZero(c);
      for ch := 0 to c.channels
        invariant First(c, ch) <= banks.Length
        invariant forall k :: 0 <= k < First(c, ch) ==> banks[k] == CmdBank(c, before, cycle, k)
        invariant forall k :: First(c, ch) <= k < banks.Length ==> banks[k] == before[k]
      {
        ChannelBounds(c, ch);
        ScheduleChannel(ch, before);
      }
    }

    method ScheduleChannel(ch: nat, ghost before: seq<Bank>)
      requires Shaped() && ch < c.channels && |before| == banks.Length && First(c, ch) + c.perChannel <= banks.Length
      requires forall k :: First(c, ch) <= k < banks.Length ==> banks[k] == before[k]
      modifies banks
      ensures forall k :: 0 <= k < First(c, ch) ==> banks[k] == old(banks[k])
      ensures forall k :: First(c, ch) <= k < First(c, ch) + c.perChannel ==> banks[k] == CmdBank(c, before, cycle, k)
      ensures forall k :: First(c, ch) + c.perChannel <= k < banks.Length ==> banks[k] == before[k]
    {
      hide First, ChannelOf, Issue, Chosen, BankCount;
      ghost var lo := First(c, ch);
      var best := PickOldest(First(c, ch), First(c, ch) + c.perChannel, ForCommand);
      OldestLocal(banks[..], before, lo, lo + c.perChannel, ForCommand);
      if best.Some? {
        banks[best.value] := Issue(c, banks[best.value], cycle);
      }
      forall k | lo <= k < lo + c.perChannel ensures banks[k] == CmdBank(c, before, cycle, k) {
        ChosenIn(c, before, k, ch);
      }
    }

    method ChannelScheduleData()
      requires Shaped()
      modifies banks, buses
      ensures (banks[..], buses[..]) == DataStage(c, old(banks[..]), old(buses[..]), cycle, 0)
    {
      hide First, GrantAll;
      for ch := 0 to c.channels
        invariant DataStage(c, banks[..], buses[..], cycle, ch) == DataStage(c, old(banks[..]), old(buses[..]), cycle, 0)
      {
        ChannelBounds(c, ch);
        ghost var u := buses[..];
        GrantChannel(ch);
        assert buses[..] == u[ch := buses[ch]];
      }
    }

    /** While the bus is available, the oldest bank with data at hand gets it. */
    method GrantChannel(ch: nat)
      requires ch < buses.Length && First(c, ch) + c.perChannel <= banks.Length
      modifies banks, buses
      ensures forall k :: 0 <= k < buses.Length && k != ch ==> buses[k] == old(buses[k])
      ensures (banks[..], buses[ch]) == GrantAll(c, old(banks[..]), old(buses[ch]), First(c, ch), First(c, ch) + c.perChannel, cycle)
    {
      hide First, Acquire, Grant;
      var lo := First(c, ch);
      var hi := lo + c.perChannel;
      while buses[ch].ready <= cycle
        invariant forall k :: 0 <= k < buses.Length && k != ch ==> buses[k] == old(buses[k])
        invariant GrantAll(c, banks[..], buses[ch], lo, hi, cycle) == GrantAll(c, old(banks[..]), old(buses[ch]), lo, hi, cycle)
        decreases Loaded(banks[..], lo, hi)
      {
        var best := PickOldest(lo, hi, ForBus(cycle));
        if best.None? {
          break;
        }
        ghost var was := banks[..];
        GrantOne(ch, best.value);
        assert banks[..] == was[best.value := banks[best.value]];
        GrantUnloads(was, lo, hi, best.value, buses[ch].ready);
      }
    }

    method GrantOne(ch: nat, k: nat)
      requires ch < buses.Length && k < banks.Length && banks[k].current.Some?
      modifies banks, buses
      ensures buses[ch] == Acquire(c.busWidth, old(buses[ch]), old(banks[k].current.value.req.size), cycle)
      ensures banks[k] == Grant(old(banks[k]), buses[ch].ready)
      ensures forall j :: 0 <= j < buses.Length && j != ch ==> buses[j] == old(buses[j])
      ensures forall j :: 0 <= j < banks.Length && j != k ==> banks[j] == old(banks[j])
    {
      buses[ch] := Acquire(c.busWidth, buses[ch], banks[k].current.value.req.size, cycle);
      banks[k] := Grant(banks[k], buses[ch].ready);
    }

    // ----- banks -----

    method FlushPrefetch(k: nat)
      requires k < banks.Length
      modifies banks, this`total, this`finished
      ensures State() == FlushBank(old(State()), k)
    {
      hide RequestBag, Picked, Rest, Without, Elems, SlotsOf;
      ghost var was := banks[..];
      var done := Collect(banks[k].buffer, IsPrefetch);
      finished := finished + RequestBag(done);
      RemoveEach(k, done);
      WithoutPicked(was[k].buffer, IsPrefetch);
      assert banks[k] == Flush(was[k]);
      assert banks[..] == was[k := banks[k]];
    }

    method Collect(l: seq<Entry>, t: Test) returns (done: seq<Entry>)
      ensures done == Picked(l, t)
    {
      done := [];
      for i := 0 to |l|
        invariant done == Picked(l[..i], t)
      {
        PickedAppend(l[..i], l[i], t);
        assert l[..i] + [l[i]] == l[..i + 1];
        if Meets(l[i], t) {
          done := done + [l[i]];
        }
      }
      assert l[..|l|] == l;
    }

    /** The given entries leave the buffer of bank `k` and their slots become free. */
    method RemoveEach(k: nat, done: seq<Entry>)
      requires k < banks.Length
      modifies banks, this`total
      ensures total == old(total) - |done|
      ensures forall j :: 0 <= j < banks.Length && j != k ==> banks[j] == old(banks[j])
      ensures banks[k] == old(banks[k]).(free := old(banks[k].free) + SlotsOf(done),
                                         buffer := Without(old(banks[k].buffer), Elems(done)))
    {
      ghost var was := banks[k];
      WithoutNone(was.buffer);
      assert SlotsOf([]) == [] && Elems<Entry>([]) == {};
      hide Without, Elems, SlotsOf;
      for i := 0 to |done|
        invariant total == old(total) - i
        invariant forall j :: 0 <= j < banks.Length && j != k ==> banks[j] == old(banks[j])
        invariant banks[k] == was.(free := was.free + SlotsOf(done[..i]), buffer := Without(was.buffer, Elems(done[..i])))
      {
        WithoutTwice(was.buffer, Elems(done[..i]), done[i]);
        assert done[..i + 1] == done[..i] + [done[i]];
        ListAppend(done[..i], done[i]);
        banks[k] := banks[k].(free := banks[k].free + [done[i].slot], buffer := Without(banks[k].buffer, {done[i]}));
        total := total - 1;
      }
      assert done[..|done|] == done;
    }

    /** A completed request leaves. */
    method Return(r: Request)
      modifies this`delayed, this`output, this`finished
      ensures State() == Emit(c, old(State()), [r])
    {
      EmitOne(c, State(), r);
      hide Emit;
      if r.kind == WriteBack {
        finished := finished + multiset{r};
      } else if c.delay > 0 {
        delayed := delayed + [Delayed(r, cycle + c.delay)];
      } else {
        output := output + [r];
      }
    }

    /** The entries with the address of the completed one complete with it. */
    method MergeRequests(k: nat, addr: nat)
      requires k < banks.Length
      modifies banks, this`total, this`delayed, this`output, this`finished
      ensures var was := old(State());
              var done := Picked(was.banks[k].buffer, SameAddr(addr));
              State() == Emit(c, was, RequestsOf(done)).(
                banks := was.banks[k := was.banks[k].(free := was.banks[k].free + SlotsOf(done),
                                                      buffer := Rest(was.banks[k].buffer, SameAddr(addr)))],
                total := was.total - |done|)
    {
      hide Emit, Picked, Rest, Without, Elems, SlotsOf, RequestsOf;
      ghost var was := State();
      var l := banks[k].buffer;
      var done := ReturnMatching(l, SameAddr(addr));
      RemoveEach(k, done);
      WithoutPicked(l, SameAddr(addr));
      assert banks[..] == was.banks[k := banks[k]];
      EmitFrame(c, was, RequestsOf(done));
    }

    method ReturnMatching(l: seq<Entry>, t: Test) returns (done: seq<Entry>)
      modifies this`delayed, this`output, this`finished
      ensures done == Picked(l, t) && State() == Emit(c, old(State()), RequestsOf(done))
    {
      hide Emit, Meets, Picked, RequestsOf;
      ghost var was := State();
      done := [];
      EmitNothing(c, was);
      NothingPicked(t);
      for i := 0 to |l|
        invariant done == Picked(l[..i], t) && State() == Emit(c, was, RequestsOf(done))
      {
        PickedAppend(l[..i], l[i], t);
        assert l[..i] + [l[i]] == l[..i + 1];
        if Meets(l[i], t) {
          EmitAppend(c, was, RequestsOf(done), l[i].req);
          Return(l[i].req);
          ListAppend(done, l[i]);
          done := done + [l[i]];
        }
      }
      assert l[..|l|] == l;
    }

    method CompleteBank(k: nat)
      requires k < banks.Length && banks[k].current.Some?
      modifies banks, this`total, this`delayed, this`output, this`finished
      ensures State() == CompleteOne(c, old(State()), k)
    {
      hide Emit, Picked, Rest, Without, SlotsOf, RequestsOf;
      ghost var was := State();
      var e := banks[k].current.value;
      if c.merge {
        MergeRequests(k, e.req.addr);
      }
      CompleteLists(c, was, State(), k);
      ListAppend([], e);
      Return(e.req);
      banks[k] := banks[k].(free := banks[k].free + [e.slot], current := None, dataReady := None);
      total := total - 1;
      assert banks[..] == was.banks[k := banks[k]];
      assert banks[k] == Complete(c, was.banks[k]);
      assert total == was.total - |Merged(c, was.banks[k])| - 1;
      assert Outlets(State()) == Outlets(CompleteOne(c, was, k));
      assert State().buses == was.buses && State().accepted == was.accepted && State().cycle == was.cycle;
    }

    method BankScheduleComplete()
      modifies banks, this`total, this`delayed, this`output, this`finished
      ensures State() == CompleteStage(c, old(State()), 0)
    {
      hide CompleteOne;
      for k := 0 to banks.Length
        invariant CompleteStage(c, State(), k) == CompleteStage(c, old(State()), 0)
      {
        if Arrived(banks[k], cycle) {
          CompleteBank(k);
        }
      }
    }

    method BankScheduleNew()
      modifies banks
      ensures banks[..] == NewStage(c, old(banks[..]), cycle)
    {
      hide Schedule, Select, Resume;
      for k := 0 to banks.Length
        invariant forall j :: 0 <= j < k ==> banks[j] == NewBank(c, old(banks[j]), cycle)
        invariant forall j :: k <= j < banks.Length ==> banks[j] == old(banks[j])
      {
        var b := banks[k];
        if b.current.None? {
          if b.buffer != [] {
            SchedulePermutes(c, b.row, b.buffer);
            banks[k] := Select(b, Schedule(c, b.row, b.buffer), cycle);
          }
        } else if In(b, CmdWait) && b.bankReady.Some? && b.bankReady.value <= cycle {
          banks[k] := Resume(b, cycle);
        }
      }
    }

    // ----- the network -----

    /** `insert_new_req`. */
    method InsertNewReq(r: Request) returns (taken: bool)
      requires r.bank < banks.Length
      modifies banks, this`total, this`accepted, this`finished
      ensures (taken, State()) == Accept(old(State()), r)
    {
      hide FlushBank;
      if banks[r.bank].free == [] {
        FlushPrefetch(r.bank);
        if banks[r.bank].free == [] {
          return false;
        }
      }
      InsertInBuffer(r);
      return true;
    }

    method InsertInBuffer(r: Request)
      requires r.bank < banks.Length && banks[r.bank].free != []
      modifies banks, this`total, this`accepted
      ensures var was := old(State());
              State() == was.(banks := was.banks[r.bank := Insert(was.banks[r.bank], r, was.cycle)], total := was.total + 1,
                              accepted := was.accepted + multiset{r})
    {
      ghost var was := banks[..];
      var b := banks[r.bank];
      banks[r.bank] := b.(free := b.free[1..], buffer := b.buffer + [Entry(b.free[0], r, cycle, Idle)]);
      total := total + 1;
      accepted := accepted + multiset{r};
      assert banks[..] == was[r.bank := Insert(was[r.bank], r, cycle)];
    }

    /** One pass over the output list. */
    method OfferAll(allowed: set<bool>, accepts: Request -> bool) returns (sent: seq<Request>, offered: set<bool>)
      ensures sent == Sends(output, allowed, accepts) && offered == Offers(output, allowed, accepts)
    {
      sent, offered := [], {};
      for i := 0 to |output|
        invariant sent + Sends(output[i..], allowed, accepts) == Sends(output, allowed, accepts)
        invariant offered + Offers(output[i..], allowed, accepts) == Offers(output, allowed, accepts)
      {
        var r := output[i];
        if r.gpu in allowed {
          offered := offered + {r.gpu};
          if !accepts(r) {
            return;
          }
          sent := sent + [r];
        }
        assert output[i..][1..] == output[i + 1..];
      }
    }

    /** `send`. */
    method SendOut(accepts: Request -> bool)
      modifies this`output, this`finished
      ensures State() == Send(c, old(State()), accepts)
    {
      hide Sends, Offers;
      var both := {false, true};
      var sent, offered := OfferAll(both, accepts);
      if c.partitioned {
        var more, _ := OfferAll(both - offered, accepts);
        sent := sent + more;
      }
      finished := finished + multiset(sent);
      RemoveSent(sent);
    }

    method RemoveSent(sent: seq<Request>)
      modifies this`output
      ensures output == Without(old(output), Elems(sent))
    {
      ghost var was := output;
      ghost var gone: set<Request> := {};
      WithoutNone(was);
      hide Without;
      for i := 0 to |sent|
        invariant output == Without(was, gone) && gone == Elems(sent[..i])
      {
        WithoutTwice(was, gone, sent[i]);
        output := Without(output, {sent[i]});
        gone := gone + {sent[i]};
        assert sent[..i + 1] == sent[..i] + [sent[i]];
      }
      assert sent[..|sent|] == sent;
    }

    /** `delay_packet`. */
    method DelayPacket()
      modifies this`delayed, this`output
      ensures State() == Release(old(State()))
    {
      var n, released := CountDue();
      output := output + released;
      delayed := delayed[n..];
    }

    /** The delayed requests up to the first that is not ready. */
    method CountDue() returns (n: nat, released: seq<Request>)
      ensures n == Due(delayed, cycle) && released == RequestsIn(delayed[..n])
    {
      n, released := 0, [];
      while n < |delayed| && delayed[n].ready <= cycle
        invariant n <= |delayed| && Due(delayed, cycle) == n + Due(delayed[n..], cycle)
        invariant released == RequestsIn(delayed[..n])
      {
        assert delayed[n..][1..] == delayed[n + 1..];
        assert RequestsIn(delayed[..n + 1]) == RequestsIn(delayed[..n]) + [delayed[n].req];
        released := released + [delayed[n].req];
        n := n + 1;
      }
    }

    /** `run_a_cycle`. */
    method RunACycle(i: Input)
      requires Valid() && InputOk(c, State(), i)
      modifies this, banks, buses
      ensures Valid() && State() == Cycle(c, old(State()), i)
    {
      hide Held, Send, Release, CmdStage, DataStage, CompleteStage, NewStage, Accept, BankCount;
      CycleKeeps(c, State(), i);
      if i.locked {
        cycle := cycle + 1;
        return;
      }
      SendOut(i.accepts);
      if c.delay > 0 {
        DelayPacket();
      }
      ScheduleAll();
      if i.incoming.Some? {
        var _ := InsertNewReq(i.incoming.value);
      }
      cycle := cycle + 1;
    }

    /** `channel_schedule` and `bank_schedule`. */
    method ScheduleAll()
      requires Shaped()
      modifies banks, buses, this`total, this`delayed, this`output, this`finished
      ensures State() == Schedules(c, old(State()))
    {
      hide CmdStage, DataStage, CompleteStage, NewStage, BankCount;
      ghost var was := State();
      ChannelScheduleCmd();
      ChannelScheduleData();
      assert State() == was.(banks := banks[..], buses := buses[..]);
      BankScheduleComplete();
      ghost var completed := State();
      BankScheduleNew();
      assert State() == completed.(banks := banks[..]);
    }
  }

  lemma EmitOne(c: Config, s: Ctrl, r: Request)
    ensures Emit(c, s, [r]) ==
            if r.kind == WriteBack then s.(finished := s.finished + multiset{r})
            else if c.delay > 0 then s.(delayed := s.delayed + [Delayed(r, s.cycle + c.delay)])
            else s.(output := s.output + [r])
  {
    hide Returned, Freed;
    ReturnedSingle(r);
    assert Delay([], s.cycle + c.delay) == [] && Delay([r], s.cycle + c.delay) == [Delayed(r, s.cycle + c.delay)];
    assert s.delayed + [] == s.delayed && s.output + [] == s.output && s.finished + multiset{} == s.finished;
  }

  lemma EmitNothing(c: Config, s: Ctrl)
    ensures Emit(c, s, RequestsOf([])) == s
  {
    assert RequestsOf([]) == [];
    assert Delay([], s.cycle + c.delay) == [];
  }

  /** The lists after the merged requests and then the current one have left. */
  lemma CompleteLists(c: Config, s: Ctrl, t: Ctrl, k: nat)
    requires k < |s.banks| && s.banks[k].current.Some? && t.cycle == s.cycle
    requires if c.merge then Outlets(t) == Outlets(Emit(c, s, RequestsOf(Merged(c, s.banks[k])))) else t == s
    ensures var r := s.banks[k].current.value.req; Outlets(Emit(c, t, [r])) == Outlets(CompleteOne(c, s, k))
    ensures CompleteOne(c, s, k) == s.(banks := s.banks[k := Complete(c, s.banks[k])], total := s.total - |Merged(c, s.banks[k])| - 1,
      delayed := CompleteOne(c, s, k).delayed, output := CompleteOne(c, s, k).output, finished := CompleteOne(c, s, k).finished)
    ensures var e := Emit(c, t, [s.banks[k].current.value.req]); e == t.(delayed := e.delayed, output := e.output, finished := e.finished)
  {
    var merged, r := RequestsOf(Merged(c, s.banks[k])), s.banks[k].current.value.req;
    EmitAppend(c, s, merged, r);
    EmitNothing(c, s);
    EmitSame(c, t, Emit(c, s, merged), [r]);
    hide Picked, RequestsOf, Delay, Returned, Freed;
  }

  function Outlets(s: Ctrl): (seq<Delayed>, seq<Request>, multiset<Request>) {
    (s.delayed, s.output, s.finished)
  }

  lemma EmitSame(c: Config, s: Ctrl, t: Ctrl, l: seq<Request>)
    requires Outlets(s) == Outlets(t) && s.cycle == t.cycle
    ensures Outlets(Emit(c, s, l)) == Outlets(Emit(c, t, l))
  {
  }

  lemma NothingPicked(t: Test)
    ensures Picked([], t) == []
  {
  }

  lemma EmitFrame(c: Config, s: Ctrl, l: seq<Request>)
    ensures var t := Emit(c, s, l);
            t.banks == s.banks && t.buses == s.buses && t.cycle == s.cycle && t.total == s.total && t.accepted == s.accepted
  {
  }

  lemma GrantUnloads(banks: seq<Bank>, lo: nat, hi: nat, k: nat, ready: nat)
    requires lo <= k < hi <= |banks| && In(banks[k], Data)
    ensures Loaded(banks[k := Grant(banks[k], ready)], lo, hi) < Loaded(banks, lo, hi)
  {
    var granted := banks[k := Grant(banks[k], ready)];
    assert k in Loaded(banks, lo, hi) && k !in Loaded(granted, lo, hi);
  }

  lemma ChosenIn(c: Config, banks: seq<Bank>, k: nat, ch: nat)
    requires |banks| == BankCount(c) && ch < c.channels && First(c, ch) <= k < First(c, ch) + c.perChannel <= |banks|
    ensures Chosen(c, banks, k) == Oldest(banks, First(c, ch), First(c, ch) + c.perChannel, ForCommand)
  {
    InChannel(c, k, ch);
  }

  lemma FirstZero(c: Config)
    ensures First(c, 0) == 0
  {
  }
}
