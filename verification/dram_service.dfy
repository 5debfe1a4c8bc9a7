/** Service over whole runs of the controller: a request leaves its bank when its data has been sent
    and not before, and in every unlocked cycle each bank goes on if it can. */
module DramService {
  import opened Lists
  import opened Arithmetic
  import opened Options
  import opened DramBank
  import opened DramPolicy
  import opened DramControl
  import opened DramTheorems
  import opened DramEffects

  /** The current request of the bank has had all the commands that the row at its selection calls for,
      each after the latency of the one before, and its data were sent after the last. */
  ghost predicate PlanDone(c: Config, b: Bank) {
    && b.current.Some? && b.dataReady.Some?
    && var plan := Plan(b.initial, b.current.value.req.row);
       && |b.log| == |plan| && (forall k :: 0 <= k < |plan| ==> b.log[k].cmd == plan[k])
       && (forall k, k' :: 0 <= k && k' == k + 1 < |plan| ==> b.log[k'].time >= b.log[k].time + Latency(c, b.log[k].cmd))
       && b.dataReady.value >= b.log[|plan| - 1].time + c.column
  }

  /** In this cycle request `r` leaves bank `j` because its data, or those of the current request with
      which it is merged, have been sent. */
  ghost predicate Completes(c: Config, s: Ctrl, j: nat, r: Request)
    requires |s.banks| == BankCount(c) && |s.buses| == c.channels && j < |s.banks|
  {
    var g := OnBus(c, s)[j];
    DataSent(g, s.cycle) && PlanDone(c, g) && Together(c, g, r)
  }

  lemma SentPlan(c: Config, b: Bank, limit: nat)
    requires BankOk(c, b, limit) && b.dataReady.Some?
    ensures PlanDone(c, b)
  {
    ServedByPlan(c, b, limit);
    hide Slots;
  }

  lemma PendingEntries(b: Bank, r: Request)
    ensures r in Pending(b) <==> (exists e :: e in b.buffer && e.req == r) || (b.current.Some? && b.current.value.req == r)
  {
    var l := b.buffer;
    assert b.current.Some? ==> RequestsOf([b.current.value]) == [b.current.value.req];
    assert r in RequestBag(l) <==> r in RequestsOf(l);
    if r in RequestsOf(l) {
      var i :| 0 <= i < |l| && l[i].req == r;
      assert l[i] in l;
    }
    if e :| e in l && e.req == r {
      var i :| 0 <= i < |l| && l[i] == e;
      assert RequestsOf(l)[i] == r;
    }
  }

  /** Acceptance takes nothing from a bank but prefetches. */
  lemma EnteredKeeps(b: Bank, t: Bank, incoming: Option<Request>, r: Request)
    requires Entered(b, t, incoming)
    ensures r in Pending(b) && r !in Pending(t) ==> incoming.Some? && r.kind == Prefetch
    ensures r in Pending(t) && r !in Pending(b) ==> incoming == Some(r)
  {
    hide Pending;
    PendingEntries(b, r);
    PendingEntries(t, r);
  }

  /** A request leaves its bank only when its data has been sent, at or after the ready time that its
      grant gave and after its whole plan, or as a prefetch that makes room. */
  lemma LeavesOnTime(c: Config, s: Ctrl, i: Input, j: nat, r: Request)
    requires Inv(c, s) && InputOk(c, s, i) && j < |s.banks|
    ensures |s.banks| == BankCount(c) && |s.buses| == c.channels && |Cycle(c, s, i).banks| == |s.banks|
    ensures r in Pending(s.banks[j]) && r !in Pending(Cycle(c, s, i).banks[j]) ==>
              !i.locked && (Completes(c, s, j, r) || (r.kind == Prefetch && IncomingFor(i, j).Some?))
  {
    hide Held, Pending, BankOk, BankCount, Completed, Emptied, Renewed, Entered, NewStage, Cycle, OnBus, Done, PlanDone;
    HeldSize(c, s, s.cycle);
    if i.locked {
      LockedBanks(c, s, i);
    } else {
      CycleEach(c, s, i, j);
      var g, u, v, t := OnBus(c, s)[j], Done(c, s, i).banks[j], NewStage(c, Done(c, s, i).banks, s.cycle)[j], Cycle(c, s, i).banks[j];
      EnteredKeeps(v, t, IncomingFor(i, j), r);
      if DataSent(g, s.cycle) {
        SentPlan(c, g, s.cycle);
        CompletedTogether(c, g, r);
        EmptiedOf(c, g, u, r);
      }
    }
  }

  lemma LockedBanks(c: Config, s: Ctrl, i: Input)
    requires i.locked && InputOk(c, s, i) && |s.banks| == BankCount(c) && |s.buses| == c.channels
    ensures Cycle(c, s, i) == s.(cycle := s.cycle + 1)
  {
  }

  lemma EmptiedOf(c: Config, g: Bank, u: Bank, r: Request)
    requires g.current.Some? && Emptied(c, g, u)
    ensures r in Pending(g) ==> r in Pending(u) || r in Completed(c, g)
    ensures r in Completed(c, g) ==> Pending(g)[r] > Pending(u)[r]
  {
    hide Pending, Completed;
  }

  /** And then it does leave: when its data has been sent the request, and what is merged with it, is
      gone from the bank after the cycle. */
  lemma LeavesWhenSent(c: Config, s: Ctrl, i: Input, j: nat, r: Request)
    requires Inv(c, s) && InputOk(c, s, i) && j < |s.banks| && !i.locked
    ensures |s.banks| == BankCount(c) && |s.buses| == c.channels && |Cycle(c, s, i).banks| == |s.banks|
    ensures DataSent(OnBus(c, s)[j], s.cycle) && Together(c, OnBus(c, s)[j], r) ==>
              r in Pending(s.banks[j]) && r !in Pending(Cycle(c, s, i).banks[j])
  {
    hide Held, Pending, BankOk, BankCount, Completed, Emptied, Renewed, Entered, NewStage, Cycle, OnBus, Done;
    HeldSize(c, s, s.cycle);
    CycleEach(c, s, i, j);
    var g, u, v, t := OnBus(c, s)[j], Done(c, s, i).banks[j], NewStage(c, Done(c, s, i).banks, s.cycle)[j], Cycle(c, s, i).banks[j];
    if DataSent(g, s.cycle) && Together(c, g, r) {
      CompletedTogether(c, g, r);
      EmptiedOf(c, g, u, r);
      PendingOnce(c, s, j, r);
      EnteredKeeps(v, t, IncomingFor(i, j), r);
    }
  }

  /** A request is pending in one bank, once. */
  lemma PendingOnce(c: Config, s: Ctrl, j: nat, r: Request)
    requires Inv(c, s) && j < |s.banks|
    ensures Pending(s.banks[j])[r] <= 1 && (r in Pending(s.banks[j]) ==> r in s.accepted)
  {
    hide Pending, AllPending, RequestsIn, AllOk, BusesOk, InOrder;
    PendingPart(s.banks, j, r);
    assert s.accepted[r] >= AllPending(s.banks)[r] >= Pending(s.banks[j])[r];
  }

  lemma {:induction false} PendingPart(banks: seq<Bank>, j: nat, r: Request)
    requires j < |banks|
    ensures AllPending(banks)[r] >= Pending(banks[j])[r]
  {
    hide Pending;
    if j < |banks| - 1 { PendingPart(banks[..|banks| - 1], j, r); }
  }

  /** A request on its way keeps its ready time until then. */
  lemma ReadyKept(c: Config, s: Ctrl, i: Input, j: nat)
    requires Inv(c, s) && InputOk(c, s, i) && j < |s.banks| && In(s.banks[j], DataWait)
    ensures |s.banks| == BankCount(c) && |s.buses| == c.channels && |Cycle(c, s, i).banks| == |s.banks|
    ensures OnBus(c, s)[j] == s.banks[j]
    ensures s.banks[j].dataReady.Some?
    ensures i.locked || s.banks[j].dataReady.value > s.cycle ==>
              Cycle(c, s, i).banks[j].current == s.banks[j].current && Cycle(c, s, i).banks[j].dataReady == s.banks[j].dataReady
  {
    hide Held, Pending, BankCount, Emptied, NewStage, Cycle, OnBus, Done, CmdStage;
    HeldSize(c, s, s.cycle);
    HeldBank(c, s, j, s.cycle);
    BankBefore(c, s, j);
    assert CmdStage(c, s.banks, s.cycle)[j] == CmdBank(c, s.banks, s.cycle, j);
    assert s.banks[j].dataReady.Some? by { WaitsReady(c, s.banks[j], s.cycle); }
    if i.locked {
      LockedBanks(c, s, i);
    } else {
      CycleEach(c, s, i, j);
    }
  }

  lemma WaitsReady(c: Config, b: Bank, limit: nat)
    requires BankOk(c, b, limit)
    ensures In(b, DataWait) <==> b.dataReady.Some?
  {
    hide Slots;
  }

  // ----- over runs -----

  /** In step `m` of a run the bank gets the bus, and its data are ready at `ready`. */
  ghost predicate GrantedAt(c: Config, run: seq<Ctrl>, m: nat, j: nat, r: Request, ready: nat) {
    && m < |run| && |run[m].banks| == BankCount(c) && |run[m].buses| == c.channels && j < |run[m].banks|
    && var b, g := CmdStage(c, run[m].banks, run[m].cycle)[j], OnBus(c, run[m])[j];
       GotBus(c, b, g, run[m].cycle) && b.current.value.req == r && g.dataReady == Some(ready)
  }

  /** The ready time of a request on its way is the one that a grant, in this step or before, gave it
      for its own bytes. */
  lemma {:induction false} ReadyFromGrant(c: Config, run: seq<Ctrl>, inputs: seq<Input>, k: nat, j: nat)
    requires IsRun(c, run, inputs) && k < |inputs| && |run| == |inputs| + 1 && j < |run[k].banks|
    ensures |run[k].banks| == BankCount(c) && |run[k].buses| == c.channels
    ensures var g := OnBus(c, run[k])[j];
            In(g, DataWait) && g.dataReady.Some? ==>
              exists m :: 0 <= m <= k && GrantedAt(c, run, m, j, g.current.value.req, g.dataReady.value)
  {
    hide IsRun, Inv, OnBus, CmdStage, GotBus, Cycle, InputOk, BankCount;
    AlwaysInv(c, run, inputs, k);
    StepOf(c, run, inputs, k);
    BankBefore(c, run[k], j);
    var b, g := CmdStage(c, run[k].banks, run[k].cycle)[j], OnBus(c, run[k])[j];
    if In(g, DataWait) && g.dataReady.Some? {
      if GotBus(c, b, g, run[k].cycle) {
        GrantOf(c, b, g, run[k].cycle);
        assert GrantedAt(c, run, k, j, g.current.value.req, g.dataReady.value);
      } else {
        OnItsWay(c, run[k], j, g);
        FirstIdle(c, run, inputs, j);
        StepOf(c, run, inputs, k - 1);
        AlwaysInv(c, run, inputs, k - 1);
        BankNumber(c, run[k - 1], run[k]);
        ReadyBefore(c, run[k - 1], inputs[k - 1], j);
        ReadyFromGrant(c, run, inputs, k - 1, j);
      }
    }
  }

  lemma GrantOf(c: Config, b: Bank, g: Bank, cycle: nat)
    requires GotBus(c, b, g, cycle)
    ensures In(g, DataWait) && b.current.Some? && g.current.value.req == b.current.value.req
  {
  }

  lemma OnItsWay(c: Config, s: Ctrl, j: nat, g: Bank)
    requires |s.banks| == BankCount(c) && j < |s.banks| && In(g, DataWait)
    requires g == CmdStage(c, s.banks, s.cycle)[j]
    ensures g == s.banks[j]
  {
    assert g == CmdBank(c, s.banks, s.cycle, j);
  }

  lemma FirstIdle(c: Config, run: seq<Ctrl>, inputs: seq<Input>, j: nat)
    requires IsRun(c, run, inputs)
    ensures |run| > 0 && (j < |run[0].banks| ==> !In(run[0].banks[j], DataWait))
  {
  }

  lemma BankNumber(c: Config, s: Ctrl, t: Ctrl)
    requires Inv(c, s) && Inv(c, t)
    ensures |s.banks| == |t.banks| == BankCount(c) && |s.buses| == |t.buses| == c.channels
  {
    hide AllOk, BusesOk, Conserved, InOrder;
  }

  /** Who is on its way after a cycle was so, with the same ready time, when the bus was granted. */
  lemma ReadyBefore(c: Config, s: Ctrl, i: Input, j: nat)
    requires Inv(c, s) && InputOk(c, s, i) && j < |s.banks|
    ensures |s.banks| == BankCount(c) && |s.buses| == c.channels && |Cycle(c, s, i).banks| == |s.banks|
    ensures var t, g := Cycle(c, s, i).banks[j], OnBus(c, s)[j];
            In(t, DataWait) ==> In(g, DataWait) && g.dataReady == t.dataReady && g.current.value.req == t.current.value.req
  {
    hide Held, Pending, BankOk, BankCount, NewStage, Cycle, OnBus, Done, CmdStage;
    HeldSize(c, s, s.cycle);
    if i.locked {
      LockedBanks(c, s, i);
      if In(s.banks[j], DataWait) { ReadyKept(c, s, i, j); }
    } else {
      CycleEach(c, s, i, j);
    }
  }

  /** The request leaves its bank in step `k` because its data, or those of the request it is merged
      with, have been sent: not before the ready time of a grant that gave the current request the bus
      for its own bytes. */
  ghost predicate SentInTime(c: Config, run: seq<Ctrl>, k: nat, j: nat, r: Request) {
    && k < |run| && |run[k].banks| == BankCount(c) && |run[k].buses| == c.channels && j < |run[k].banks|
    && Completes(c, run[k], j, r)
    && exists m: nat, ready: nat :: m <= k && ready <= run[k].cycle && GrantedAt(c, run, m, j, OnBus(c, run[k])[j].current.value.req, ready)
  }

  /** In every step of every run a request that leaves its bank, unless it was a prefetch that made room,
      leaves in an unlocked cycle, after its whole plan and when its data have been sent. */
  lemma CompletionOnTime(c: Config, run: seq<Ctrl>, inputs: seq<Input>, k: nat, j: nat, r: Request)
    requires IsRun(c, run, inputs) && |run| == |inputs| + 1 && k < |inputs|
    requires j < |run[k].banks| && j < |run[k + 1].banks|
    requires r in Pending(run[k].banks[j]) && r !in Pending(run[k + 1].banks[j])
    ensures !inputs[k].locked
    ensures SentInTime(c, run, k, j, r) || (r.kind == Prefetch && IncomingFor(inputs[k], j).Some?)
  {
    hide IsRun, Inv, OnBus, Pending, GrantedAt, PlanDone, Together, InputOk, Cycle, BankCount;
    AlwaysInv(c, run, inputs, k);
    StepOf(c, run, inputs, k);
    LeavesOnTime(c, run[k], inputs[k], j, r);
    ReadyFromGrant(c, run, inputs, k, j);
  }

  // ----- nobody stalls -----

  /** After an unlocked cycle no bank could have gone on: an idle one has nothing buffered but what has just
      been accepted, one that waits for a command to take effect must wait on, one with its data at hand
      finds the bus of its channel taken, and data under way have not all been sent. */
  ghost predicate GoesOn(c: Config, s: Ctrl, i: Input, t: Ctrl, j: nat)
    requires j < |t.banks| && ChannelOf(c, j) < |t.buses|
  {
    var b := t.banks[j];
    && (b.current.None? ==> forall e :: e in b.buffer ==> IncomingFor(i, j) == Some(e.req))
    && (In(b, CmdWait) ==> b.bankReady.Some? && b.bankReady.value > s.cycle)
    && (In(b, Data) && b.dataAvail.Some? && b.dataAvail.value <= s.cycle ==> t.buses[ChannelOf(c, j)].ready > s.cycle)
    && (b.dataReady.Some? ==> b.dataReady.value > s.cycle)
  }

  lemma NothingStalls(c: Config, s: Ctrl, i: Input, j: nat)
    requires Inv(c, s) && InputOk(c, s, i) && !i.locked && j < |s.banks|
    ensures |s.banks| == BankCount(c) && |s.buses| == c.channels && ChannelOf(c, j) < c.channels
    ensures var t := Cycle(c, s, i); |t.banks| == |s.banks| && |t.buses| == |s.buses| && GoesOn(c, s, i, t, j)
  {
    hide Held, Pending, BankCount, NewStage, Cycle, Done, CmdStage, ChannelOf, DataStage, CompleteStage, Leave, Enter;
    HeldSize(c, s, s.cycle);
    CycleEach(c, s, i, j);
    CycleBuses(c, s, i);
    HeldBuses(c, s, s.cycle);
    DataStageLaw(c, CmdStage(c, s.banks, s.cycle), s.buses, s.cycle, 0, j);
    WaitsReady(c, OnBus(c, s)[j], s.cycle);
    WaitsBank(c, OnBus(c, s)[j], s.cycle);
    hide BankOk;
  }

  lemma WaitsBank(c: Config, b: Bank, limit: nat)
    requires BankOk(c, b, limit)
    ensures In(b, CmdWait) ==> b.bankReady.Some?
  {
    hide Slots;
  }

  lemma HeldBuses(c: Config, s: Ctrl, limit: nat)
    requires Held(c, s, limit)
    ensures BusesOk(c, s.buses)
  {
  }

  /** Only the data stage changes the buses. */
  lemma CycleBuses(c: Config, s: Ctrl, i: Input)
    requires Inv(c, s) && InputOk(c, s, i) && !i.locked && |s.banks| == BankCount(c) && |s.buses| == c.channels
    ensures Cycle(c, s, i).buses == DataStage(c, CmdStage(c, s.banks, s.cycle), s.buses, s.cycle, 0).1
  {
    hide Inv, Leave, CmdStage, DataStage, CompleteStage, NewStage;
    LeaveBuses(c, s, i);
    var l := Leave(c, s, i);
    var (granted, buses) := DataStage(c, CmdStage(c, s.banks, s.cycle), s.buses, s.cycle, 0);
    CompleteBuses(c, l.(banks := granted, buses := buses), 0);
    hide Flush, Insert, Picked;
  }

  lemma {:induction false} CompleteBuses(c: Config, s: Ctrl, k: nat)
    requires k <= |s.banks|
    ensures CompleteStage(c, s, k).buses == s.buses
    decreases |s.banks| - k
  {
    hide Complete, Completed, Returned, Freed, Delay;
    if k < |s.banks| {
      CompleteBuses(c, if Arrived(s.banks[k], s.cycle) then CompleteOne(c, s, k) else s, k + 1);
    }
  }

  // ----- where completed requests go -----

  /** A write-back is done with; any other request goes back, by way of the delay list if there is an
      additional latency. */
  ghost predicate Answered(c: Config, s: Ctrl, r: Request, cycle: nat) {
    if r.kind == WriteBack then r in s.finished
    else if c.delay > 0 then Delayed(r, cycle + c.delay) in s.delayed
    else r in s.output
  }

  ghost predicate ListsGrow(s: Ctrl, t: Ctrl) {
    s.delayed <= t.delayed && s.output <= t.output && s.finished <= t.finished
  }

  lemma {:induction false} ReturnedMembers(l: seq<Request>)
    ensures forall r :: r in l ==> if r.kind == WriteBack then r in Freed(l) else r in Returned(l)
  {
    if l != [] { ReturnedMembers(l[1..]); }
  }

  lemma EmitGrows(c: Config, s: Ctrl, l: seq<Request>)
    ensures ListsGrow(s, Emit(c, s, l))
  {
    hide Returned, Freed, Delay;
  }

  lemma EmitAnswers(c: Config, s: Ctrl, l: seq<Request>, r: Request)
    requires r in l
    ensures Answered(c, Emit(c, s, l), r, s.cycle)
  {
    ReturnedMembers(l);
    hide Returned, Freed, Delay;
    var t := Emit(c, s, l);
    if r.kind == WriteBack {
      assert r in multiset(Freed(l)) && r in t.finished;
    } else if c.delay > 0 {
      DelayedMembers(Returned(l), r, s.cycle + c.delay);
      assert t.delayed == s.delayed + Delay(Returned(l), s.cycle + c.delay);
    } else {
      assert t.output == s.output + Returned(l);
    }
  }

  lemma DelayedMembers(l: seq<Request>, r: Request, ready: nat)
    ensures r in l ==> Delayed(r, ready) in Delay(l, ready)
  {
    if r in l {
      var i :| 0 <= i < |l| && l[i] == r;
      assert Delay(l, ready)[i] == Delayed(r, ready);
    }
  }

  lemma {:induction false} StageAnswers(c: Config, s: Ctrl, k: nat, j: nat, r: Request)
    requires k <= |s.banks| && j < |s.banks|
    requires forall i :: 0 <= i < |s.banks| && s.banks[i].dataReady.Some? ==> In(s.banks[i], DataWait)
    ensures var t := CompleteStage(c, s, k);
            && ListsGrow(s, t)
            && (j >= k && DataSent(s.banks[j], s.cycle) && Together(c, s.banks[j], r) ==> Answered(c, t, r, s.cycle))
    decreases |s.banks| - k
  {
    hide Complete, Completed, Emit, Together;
    if k < |s.banks| {
      if DataSent(s.banks[k], s.cycle) {
        var t := CompleteOne(c, s, k);
        CompletedTogether(c, s.banks[k], r);
        EmitGrows(c, s, Completed(c, s.banks[k]));
        if r in Completed(c, s.banks[k]) { EmitAnswers(c, s, Completed(c, s.banks[k]), r); }
        EmitBanks(c, s, Completed(c, s.banks[k]));
        CompleteEmpties(c, s.banks[k]);
        StageAnswers(c, t, k + 1, j, r);
        AnsweredOn(c, t, CompleteStage(c, t, k + 1), r, s.cycle);
      } else {
        StageAnswers(c, s, k + 1, j, r);
      }
    }
  }

  lemma AnsweredOn(c: Config, s: Ctrl, t: Ctrl, r: Request, cycle: nat)
    requires ListsGrow(s, t)
    ensures Answered(c, s, r, cycle) ==> Answered(c, t, r, cycle)
  {
  }

  /** A request whose data have been sent is answered in the same cycle: freed if it is a write-back, and
      else on its way back. */
  lemma CompletedGoes(c: Config, s: Ctrl, i: Input, j: nat, r: Request)
    requires Inv(c, s) && InputOk(c, s, i) && !i.locked && j < |s.banks|
    ensures |s.banks| == BankCount(c) && |s.buses| == c.channels
    ensures DataSent(OnBus(c, s)[j], s.cycle) && Together(c, OnBus(c, s)[j], r) ==> Answered(c, Cycle(c, s, i), r, s.cycle)
  {
    hide Held, BankCount, BankOk, CmdStage, DataStage, CompleteStage, NewStage, Leave, Together, Answered, Accept;
    HeldSize(c, s, s.cycle);
    var l := Leave(c, s, i);
    LeaveKeeps(c, s, i, s.cycle);
    LeaveBuses(c, s, i);
    MidHeld(c, s, l);
    var (granted, buses) := DataStage(c, CmdStage(c, s.banks, s.cycle), s.buses, s.cycle, 0);
    var mid := l.(banks := granted, buses := buses);
    HeldWaits(c, mid, s.cycle);
    StageAnswers(c, mid, 0, j, r);
    var u := CompleteStage(c, mid, 0);
    var v := u.(banks := NewStage(c, u.banks, s.cycle));
    if i.incoming.Some? { AcceptLists(v, i.incoming.value); }
    AnsweredOn(c, u, Cycle(c, s, i), r, s.cycle);
  }

  lemma AcceptLists(s: Ctrl, r: Request)
    requires r.bank < |s.banks|
    ensures ListsGrow(s, Accept(s, r).1)
  {
    hide Flush, Insert, Picked, RequestBag;
  }

  // ----- commands and their latencies -----

  /** A bank whose row is open gets the column command and has its data one column latency later; a closed
      one opens the row, which takes the activation latency; and one with another row closes it first, which
      takes the precharge latency. */
  lemma IssueLaw(c: Config, b: Bank, cycle: nat)
    requires b.current.Some?
    ensures var r, row := Issue(c, b, cycle), b.current.value.req.row;
            && r.current.Some? && r.current.value.req == b.current.value.req && r.buffer == b.buffer
            && if b.row == CLOSED then
                 In(r, CmdWait) && r.row == row && r.bankReady == Some(cycle + c.activate) && r.log == b.log + [Issued(Activate, cycle)]
               else if b.row == row then
                 In(r, Data) && r.row == row && r.dataAvail == Some(cycle + c.column) && r.log == b.log + [Issued(Column, cycle)]
               else
                 In(r, CmdWait) && r.row == CLOSED && r.bankReady == Some(cycle + c.precharge) && r.log == b.log + [Issued(Precharge, cycle)]
  {
  }

  /** How long a request is served at least, by what it found at its selection: its row open, no row open, or
      another row open. */
  lemma ServiceTime(c: Config, run: seq<Ctrl>, inputs: seq<Input>, k: nat, j: nat)
    requires IsRun(c, run, inputs) && k < |run| && j < |run[k].banks| && run[k].banks[j].dataReady.Some?
    ensures var b := run[k].banks[j];
            && b.current.Some? && b.log != []
            && b.dataReady.value >= b.log[0].time + c.column +
                                    (if b.initial == b.current.value.req.row then 0
                                     else if b.initial == CLOSED then c.activate
                                     else c.precharge + c.activate)
  {
    AlwaysInv(c, run, inputs, k);
    hide IsRun, BusesOk, Conserved, InOrder, Slots;
    var b := run[k].banks[j];
    assert BankOk(c, b, run[k].cycle);
    assert Spaced(c, b.log) && |b.log| == |Plan(b.initial, b.current.value.req.row)|;
    if |b.log| > 1 { assert b.log[1].time >= b.log[0].time + Latency(c, b.log[0].cmd); }
    if |b.log| > 2 { assert b.log[2].time >= b.log[1].time + Latency(c, b.log[1].cmd); }
  }

  // ----- acceptance and departure -----

  /** A request is taken in exactly if its bank has a free entry, or has one after the prefetches are flushed;
      it is the last of the buffer then, with the time of its arrival. */
  lemma AcceptExact(s: Ctrl, r: Request)
    requires r.bank < |s.banks|
    ensures var (ok, t) := Accept(s, r);
            && (ok <==> s.banks[r.bank].free != [] || exists e :: e in s.banks[r.bank].buffer && e.req.kind == Prefetch)
            && |t.banks| == |s.banks|
            && (ok ==>
                  var l := t.banks[r.bank].buffer;
                  && l != [] && l[|l| - 1].req == r && l[|l| - 1].stamp == s.cycle && l[|l| - 1].phase == Idle
                  && (s.banks[r.bank].free != [] ==> l[..|l| - 1] == s.banks[r.bank].buffer)
                  && (s.banks[r.bank].free == [] ==> forall e :: e in l[..|l| - 1] <==> e in s.banks[r.bank].buffer && e.req.kind != Prefetch))
  {
    var l := s.banks[r.bank].buffer;
    PickedMembers(l, IsPrefetch);
    if Picked(l, IsPrefetch) != [] { assert Picked(l, IsPrefetch)[0] in l; }
    hide Picked, DramBank.Rest, RequestBag, SlotsOf;
  }

  /** The requests of a list that are of an allowed class. */
  function OfClass(l: seq<Request>, allowed: set<bool>): seq<Request> {
    if l == [] then []
    else (if l[0].gpu in allowed then [l[0]] else []) + OfClass(l[1..], allowed)
  }

  /** A pass over the list `all` sent its first `n` requests, all of which the network accepts, and no more
      because it refuses the next; and it offered the classes of those and of the next. */
  ghost predicate Passed(all: seq<Request>, n: nat, sent: seq<Request>, offered: set<bool>, accepts: Request -> bool) {
    && n <= |all| && sent == all[..n]
    && (forall k :: 0 <= k < n ==> accepts(all[k])) && (n < |all| ==> !accepts(all[n]))
    && offered == Classes(if n < |all| then all[..n + 1] else all)
  }

  lemma PassedNext(x: Request, rest: seq<Request>, n: nat, sent: seq<Request>, offered: set<bool>, accepts: Request -> bool)
    requires Passed(rest, n, sent, offered, accepts) && accepts(x)
    ensures Passed([x] + rest, n + 1, [x] + sent, {x.gpu} + offered, accepts)
  {
    var all, seen := [x] + rest, if n < |rest| then rest[..n + 1] else rest;
    ClassesNext(x, seen);
    assert (if n + 1 < |all| then all[..n + 2] else all) == [x] + seen;
    hide Classes;
  }

  lemma PassedStop(x: Request, rest: seq<Request>, accepts: Request -> bool)
    requires !accepts(x)
    ensures Passed([x] + rest, 0, [], {x.gpu}, accepts)
  {
    var all := [x] + rest;
    ClassesNext(x, []);
    assert all[..1] == [x] + [];
    hide Classes;
  }

  /** A pass sends the requests of the allowed classes in order, up to the first that the network refuses. */
  lemma {:induction false} SendsExact(l: seq<Request>, allowed: set<bool>, accepts: Request -> bool) returns (n: nat)
    ensures Passed(OfClass(l, allowed), n, Sends(l, allowed, accepts), Offers(l, allowed, accepts), accepts)
  {
    n := 0;
    if l != [] {
      var rest := l[1..];
      n := SendsExact(rest, allowed, accepts);
      hide Passed;
      if l[0].gpu !in allowed {
        assert OfClass(l, allowed) == OfClass(rest, allowed);
      } else if accepts(l[0]) {
        PassedNext(l[0], OfClass(rest, allowed), n, Sends(rest, allowed, accepts), Offers(rest, allowed, accepts), accepts);
        n := n + 1;
      } else {
        PassedStop(l[0], OfClass(rest, allowed), accepts);
        n := 0;
      }
    }
  }

  function Classes(l: seq<Request>): set<bool> {
    set r | r in l :: r.gpu
  }

  lemma ClassesNext(x: Request, l: seq<Request>)
    ensures Classes([x] + l) == {x.gpu} + Classes(l) && Classes([]) == {}
  {
    assert x in [x] + l;
    forall g | g in {x.gpu} + Classes(l) ensures g in Classes([x] + l) {
      if g != x.gpu {
        var r :| r in l && r.gpu == g;
        assert r in [x] + l;
      }
    }
  }

  /** What the network takes is what both passes send; the rest stays in the list, in order. */
  lemma SentExact(c: Config, s: Ctrl, accepts: Request -> bool)
    requires NoDup(s.output)
    ensures var both, t := {false, true}, Send(c, s, accepts);
            var first := Sends(s.output, both, accepts);
            var second := if c.partitioned then Sends(s.output, both - Offers(s.output, both, accepts), accepts) else [];
            forall r :: r in t.output <==> r in s.output && r !in first && r !in second
  {
    WithoutMembers(s.output, Elems(Sent(c, s.output, accepts)));
    hide Sends, Offers, Without;
  }

  lemma {:induction false} WithoutMembers(l: seq<Request>, gone: set<Request>)
    ensures forall r :: r in Without(l, gone) <==> r in l && r !in gone
  {
    if l != [] { WithoutMembers(l[1..], gone); }
  }
}
