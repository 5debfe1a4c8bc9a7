/** The pipeline over whole runs: between the cycles of a router no flit is caught inside the
    switch and every port is free, so the law of the switch stages holds in every cycle. */
module NocPipeline {
  import opened Arithmetic
  import opened Lists
  import opened Options
  import opened NocTopology
  import opened NocState
  import opened NocInvariant
  import opened NocMoves
  import opened NocStages
  import opened NocLink
  import opened NocHeads
  import opened NocSwitch
  import opened NocTheorems

  /** No flit wins the switch and no port is taken. */
  ghost predicate Hushed(c: Config, n: Net, m: Net) {
    && (forall i {:trigger m.I(i)} :: c.Has(i) && Quiet(n.I(i)) ==> Quiet(m.I(i)))
    && (forall p: Port {:trigger m.P(p)} :: m.P(p).swReady == n.P(p).swReady)
  }

  lemma HushedCalm(c: Config, n: Net, m: Net, q: nat, due: int)
    requires Hushed(c, n, m) && CalmBy(c, n, q, due)
    ensures CalmBy(c, m, q, due)
  {
    hide Quiet;
    forall i | c.Has(i) && i.router == q ensures Quiet(m.I(i)) { assert Quiet(n.I(i)); }
    forall p: Port | p.router == q ensures m.P(p).swReady <= due { assert n.P(p).swReady <= due; }
  }

  lemma {:induction false} ReturnHushed(c: Config, n: Net, r: nat, k: nat, now: int)
    requires Inv(c, n) && r < c.routers && k <= |n.N(r).pending|
    requires forall j :: 0 <= j < k ==> n.N(r).pending[j].ready > now
    ensures ReturnReady(c, n, r, k, now).ins == n.ins && ReturnReady(c, n, r, k, now).ports == n.ports
    decreases |n.N(r).pending| - k
  {
    hide Inv;
    if k == |n.N(r).pending| {
    } else if n.N(r).pending[k].ready <= now {
      ReturnKeeps(c, n, r, k);
      ReturnHushed(c, ReturnCredit(n, r, k), r, k, now);
    } else {
      ReturnHushed(c, n, r, k + 1, now);
    }
  }

  lemma SameHushed(c: Config, n: Net, m: Net)
    requires m.ins == n.ins && m.ports == n.ports
    ensures Hushed(c, n, m)
  {
    hide Quiet;
    forall i: Chan ensures m.I(i) == n.I(i) {}
    forall p: Port ensures m.P(p) == n.P(p) {}
  }

  lemma LinkHushed(c: Config, n: Net, r: nat)
    requires Inv(c, n) && r < c.routers
    ensures Hushed(c, n, LinkStage(c, n, r, c.Ports()))
  {
    hide Inv, LinkStage, Sends, Serves;
    var m := LinkStage(c, n, r, c.Ports());
    forall i | c.Has(i) && Quiet(n.I(i)) ensures Quiet(m.I(i)) { InputsAfter(c, n, r, c.Ports(), i); }
    forall p: Port ensures m.P(p).swReady == n.P(p).swReady { LinksAfter(c, n, r, c.Ports(), p); }
  }

  lemma HeadsHushed(c: Config, n: Net, r: nat)
    requires Inv(c, n) && r < c.routers
    ensures Hushed(c, n, RouteStage(c, n, r, 0, 0)) && Hushed(c, n, VcStage(c, n, r, 0, 0)) && Hushed(c, n, InjectStage(c, n, r))
  {
    hide Inv, RouteStage, VcStage, InjectStage;
    RouteHushed(c, n, r);
    VcHushed(c, n, r);
    InjectHushed(c, n, r);
  }

  lemma RouteHushed(c: Config, n: Net, r: nat)
    requires Inv(c, n) && r < c.routers
    ensures Hushed(c, n, RouteStage(c, n, r, 0, 0))
  {
    hide Inv, RouteStage, RouteOf, Arrived;
    RouteAfter(c, n, r, 0, 0);
  }

  lemma VcHushed(c: Config, n: Net, r: nat)
    requires Inv(c, n) && r < c.routers
    ensures Hushed(c, n, VcStage(c, n, r, 0, 0))
  {
    hide Inv, VcStage, Settled, Eligible;
    VcAfter(c, n, r, 0, 0);
    var m := VcStage(c, n, r, 0, 0);
    forall i | c.Has(i) && Quiet(n.I(i)) ensures Quiet(m.I(i)) { assert Served(c, n, m, i); }
  }

  lemma InjectHushed(c: Config, n: Net, r: nat)
    requires Inv(c, n) && r < c.routers
    ensures Hushed(c, n, InjectStage(c, n, r))
  {
    hide Inv, InjectStage;
    ConfigFacts(c, n);
    var k := InjectAfter(c, n, r);
    var m := InjectStage(c, n, r);
    forall i | c.Has(i) && Quiet(n.I(i)) ensures Quiet(m.I(i)) { assert Extended(i, n.I(i), m.I(i), r, n.N(r).cycle); }
  }

  /** After the switch stages no flit is left inside the switch. */
  lemma SwitchCalms(c: Config, n: Net, r: nat, q: nat)
    requires Inv(c, n) && r < c.routers && Calm(c, n, r) && Calm(c, n, q)
    ensures CalmBy(c, CrossStage(c, AllocationStage(c, n, r, c.Ports()), r, c.Ports()), q, n.N(q).cycle + if q == r then 1 else 0)
  {
    hide Inv, CrossStage, AllocationStage, OldestOf, Wanted, CreditsOnly;
    SwitchAfter(c, n, r);
    var m := CrossStage(c, AllocationStage(c, n, r, c.Ports()), r, c.Ports());
    forall i | c.Has(i) && i.router == q ensures Quiet(m.I(i)) {
      QuietBehind(c, n, i);
      assert Quiet(n.I(i));
    }
    forall p: Port | p.router == q ensures m.P(p).swReady <= n.N(q).cycle + if q == r then 1 else 0 {
      assert n.P(p).swReady <= n.N(q).cycle;
    }
  }

  /** What comes after the front flit has only just arrived. */
  lemma QuietBehind(c: Config, n: Net, i: Chan)
    requires Inv(c, n) && c.Has(i)
    ensures n.I(i).buffer != [] ==> Quiet(Behind(n.I(i)))
  {
    InputFacts(c, n, i);
  }

  /** A router cycle leaves every calm router calm. */
  lemma RouterCalm(c: Config, n: Net, r: nat, now: int, locked: bool, q: nat)
    requires Inv(c, n) && r < c.routers && Calm(c, n, r) && Calm(c, n, q)
    ensures Calm(c, RouterCycle(c, n, r, now, locked), q)
  {
    hide Inv, ReturnReady, LinkStage, AllocationStage, CrossStage, RouteStage, VcStage, InjectStage, Hushed, CalmBy, SameClocks;
    RouterTicks(c, n, r, now, locked, q);
    if locked {
      TickCalm(c, n, r, q);
    } else {
      var n1 := ReturnReady(c, n, r, 0, now);
      var n2 := LinkStage(c, n1, r, c.Ports());
      var n3 := AllocationStage(c, n2, r, c.Ports());
      var n4 := CrossStage(c, n3, r, c.Ports());
      var n5 := RouteStage(c, n4, r, 0, 0);
      var n6 := VcStage(c, n5, r, 0, 0);
      var n7 := InjectStage(c, n6, r);
      ReturnHushed(c, n, r, 0, now);
      SameHushed(c, n, n1);
      LinkHushed(c, n1, r);
      EarlyClock(c, n, r, now, r);
      EarlyClock(c, n, r, now, q);
      HushedCalm(c, n, n1, r, n.N(r).cycle);
      HushedCalm(c, n, n1, q, n.N(q).cycle);
      HushedCalm(c, n1, n2, r, n.N(r).cycle);
      HushedCalm(c, n1, n2, q, n.N(q).cycle);
      SwitchCalms(c, n2, r, q);
      var due := n.N(q).cycle + if q == r then 1 else 0;
      HeadsHushed(c, n4, r);
      HushedCalm(c, n4, n5, q, due);
      HeadsHushed(c, n5, r);
      HushedCalm(c, n5, n6, q, due);
      HeadsHushed(c, n6, r);
      HushedCalm(c, n6, n7, q, due);
      SameHushed(c, n7, Tick(n7, r));
      HushedCalm(c, n7, Tick(n7, r), q, due);
    }
  }

  lemma TickCalm(c: Config, n: Net, r: nat, q: nat)
    requires Calm(c, n, q)
    ensures Calm(c, Tick(n, r), q)
  {
    hide Quiet;
    var m := Tick(n, r);
    forall i: Chan ensures m.I(i) == n.I(i) {}
    forall p: Port ensures m.P(p) == n.P(p) {}
  }

  lemma EarlyClock(c: Config, n: Net, r: nat, now: int, q: nat)
    requires Inv(c, n) && r < c.routers
    ensures LinkStage(c, ReturnReady(c, n, r, 0, now), r, c.Ports()).N(q).cycle == n.N(q).cycle
  {
    hide Inv, ReturnReady, LinkStage;
    ReturnReadyStill(c, n, r, 0, now);
    var n1 := ReturnReady(c, n, r, 0, now);
    LinkStageClocks(c, n1, r, c.Ports());
    assert n1.N(q).cycle == n.N(q).cycle;
  }

  lemma {:induction false} NetworkCalm(c: Config, n: Net, first: nat, k: nat, now: int, locked: bool)
    requires Inv(c, n) && forall q: nat :: Calm(c, n, q)
    ensures forall q: nat :: Calm(c, NetworkCycle(c, n, first, k, now, locked), q)
  {
    hide Inv, RouterCycle, Turn, Calm;
    ConfigFacts(c, n);
    if k > 0 {
      var mid, r := NetworkCycle(c, n, first, k - 1, now, locked), Turn(k - 1, first, c.routers);
      NetworkCalm(c, n, first, k - 1, now, locked);
      forall q: nat ensures Calm(c, RouterCycle(c, mid, r, now, locked), q) {
        RouterCalm(c, mid, r, now, locked, q);
      }
    }
  }

  lemma StepCalm(c: Config, n: Net, e: Event)
    requires Inv(c, n) && EventOk(c, e) && forall q: nat :: Calm(c, n, q)
    ensures forall q: nat :: Calm(c, Apply(c, n, e), q)
  {
    if e.CycleEvent? {
      hide Inv, Calm;
      NetworkCalm(c, n, e.first, c.routers, e.now, e.locked);
    } else {
      hide Inv, Calm;
      var m := Apply(c, n, e);
      forall q: nat ensures Calm(c, m, q) {
        assert m.ins == n.ins && m.ports == n.ports && m.N(q).cycle == n.N(q).cycle;
        SameHushed(c, n, m);
        CalmStays(c, n, m, q);
      }
    }
  }

  lemma CalmStays(c: Config, n: Net, m: Net, q: nat)
    requires Calm(c, n, q) && Hushed(c, n, m) && m.N(q).cycle == n.N(q).cycle
    ensures Calm(c, m, q)
  {
    HushedCalm(c, n, m, q, n.N(q).cycle);
  }

  /** In every reachable state no flit is caught in a switch and every port is free. */
  lemma {:induction false} AlwaysCalm(c: Config, events: seq<Event>, q: nat)
    requires Started(c, events)
    ensures Calm(c, Run(c, events), q)
  {
    if events != [] {
      hide Inv, Apply, Calm;
      var before, e := events[..|events| - 1], events[|events| - 1];
      assert e in events;
      forall p: nat ensures Calm(c, Run(c, before), p) { AlwaysCalm(c, before, p); }
      StepCalm(c, Run(c, before), e);
    }
  }

  /** At whatever point of a network cycle of whatever run, every router is calm, so the law of its cycle holds. */
  lemma CalmInEveryCycle(c: Config, events: seq<Event>, first: nat, k: nat, now: int, locked: bool, r: nat)
    requires Started(c, events)
    ensures Calm(c, NetworkCycle(c, Run(c, events), first, k, now, locked), r)
  {
    hide Inv, Run, NetworkCycle, Calm;
    forall q: nat ensures Calm(c, Run(c, events), q) { AlwaysCalm(c, events, q); }
    NetworkCalm(c, Run(c, events), first, k, now, locked);
  }

  // ----- a whole router cycle -----

  /** The credits that are not ready at `now`, in order. */
  function NotReady(l: seq<Credit>, now: int): seq<Credit> {
    if l == [] then [] else (if l[0].ready <= now then [] else [l[0]]) + NotReady(l[1..], now)
  }

  lemma {:induction false} NotReadyCut(l: seq<Credit>, k: nat, now: int)
    requires k < |l| && l[k].ready <= now
    ensures NotReady(l[..k] + l[k + 1..], now) == NotReady(l, now)
  {
    var t := l[..k] + l[k + 1..];
    if k == 0 {
      assert t == l[1..];
    } else {
      assert t[1..] == l[1..][..k - 1] + l[1..][k..];
      NotReadyCut(l[1..], k - 1, now);
    }
  }

  lemma {:induction false} NotReadyAll(l: seq<Credit>, now: int)
    requires forall k :: 0 <= k < |l| ==> l[k].ready > now
    ensures NotReady(l, now) == l
  {
    if l != [] { NotReadyAll(l[1..], now); }
  }

  /** The credits that are ready, and no others, have left the list of the router and been added to the
      counters that they are for. */
  ghost predicate Returned(c: Config, n: Net, m: Net, r: nat, now: int) {
    && m == n.(outs := m.outs, nodes := m.nodes)
    && (forall q: nat :: m.N(q) == if q == r then n.N(q).(pending := NotReady(n.N(q).pending, now)) else n.N(q))
    && forall o: Chan ::
         m.O(o) == n.O(o).(credit := if o.router == r && c.Has(o)
                                     then n.O(o).credit + CreditsFor(n.N(r).pending, o.port, o.vc) - CreditsFor(m.N(r).pending, o.port, o.vc)
                                     else n.O(o).credit)
  }

  lemma {:induction false} ReturnParts(c: Config, n: Net, r: nat, k: nat, now: int)
    requires Inv(c, n) && r < c.routers && k <= |n.N(r).pending|
    requires forall j :: 0 <= j < k ==> n.N(r).pending[j].ready > now
    ensures var m := ReturnReady(c, n, r, k, now);
            && m == n.(outs := m.outs, nodes := m.nodes)
            && (forall q: nat :: m.N(q) == if q == r then n.N(q).(pending := NotReady(n.N(q).pending, now)) else n.N(q))
            && (forall o: Chan :: m.O(o) == n.O(o).(credit := m.O(o).credit) && (!(o.router == r && c.Has(o)) ==> m.O(o) == n.O(o)))
    decreases |n.N(r).pending| - k
  {
    hide Inv, Config.Linked, Config.Has;
    if k == |n.N(r).pending| {
      NotReadyAll(n.N(r).pending, now);
    } else if n.N(r).pending[k].ready <= now {
      ReturnKeeps(c, n, r, k);
      ReturnsOne(c, n, r, k);
      NotReadyCut(n.N(r).pending, k, now);
      ReturnParts(c, ReturnCredit(n, r, k), r, k, now);
    } else {
      ReturnParts(c, n, r, k + 1, now);
    }
  }

  lemma ReturnsOne(c: Config, n: Net, r: nat, k: nat)
    requires Inv(c, n) && r < c.routers && k < |n.N(r).pending|
    ensures c.Has(Chan(r, n.N(r).pending[k].port, n.N(r).pending[k].vc))
  {
    assert PendingOk(c, r, n.N(r).pending);
    var o := Chan(r, n.N(r).pending[k].port, n.N(r).pending[k].vc);
    assert c.Linked(o);
    assert c.LinkOk(Port(o.router, o.port));
  }

  lemma ReturnAfter(c: Config, n: Net, r: nat, now: int)
    requires Inv(c, n) && r < c.routers
    ensures Returned(c, n, ReturnReady(c, n, r, 0, now), r, now)
  {
    hide Inv, ReturnReady, NotReady;
    var m := ReturnReady(c, n, r, 0, now);
    ReturnParts(c, n, r, 0, now);
    forall o: Chan
      ensures m.O(o) == n.O(o).(credit := if o.router == r && c.Has(o)
                                          then n.O(o).credit + CreditsFor(n.N(r).pending, o.port, o.vc) - CreditsFor(m.N(r).pending, o.port, o.vc)
                                          else n.O(o).credit)
    {
      if o.router == r && c.Has(o) { SameCredits(c, n, m, o); }
    }
  }

  /** Credits neither appear nor vanish: with the same flits, what the list loses the counter gains. */
  lemma SameCredits(c: Config, n: Net, m: Net, o: Chan)
    requires Inv(c, n) && Inv(c, m) && c.Has(o) && m.ins == n.ins
    ensures m.O(o).credit + CreditsFor(m.N(o.router).pending, o.port, o.vc) == n.O(o).credit + CreditsFor(n.N(o.router).pending, o.port, o.vc)
  {
    assert CreditOk(c, n, o) && CreditOk(c, m, o);
    if !c.Linked(o) {
      NoCredits(c, o, n.N(o.router).pending);
      NoCredits(c, o, m.N(o.router).pending);
    }
  }

  lemma {:induction false} NoCredits(c: Config, o: Chan, l: seq<Credit>)
    requires PendingOk(c, o.router, l) && !c.Linked(o)
    ensures CreditsFor(l, o.port, o.vc) == 0
  {
    if l != [] { NoCredits(c, o, l[1..]); }
  }

  /** If a tail leaves through local channel `o`, its request is in the mailbox and its packet delivered. */
  ghost predicate HandsOver(c: Config, n: Net, m: Net, o: Chan) {
    Completes(c, n, o) ==>
      var p := n.O(o).buffer[0].piece;
      && (forall q: nat :: m.N(q) == if q == o.router then n.N(q).(mailbox := n.N(q).mailbox + [p.req]) else n.N(q))
      && m.delivered == n.delivered + [p.pkt] && m.total == n.total - 1
  }

  /** An output VC has lost its front flit if its port served it, and is else as it was. */
  ghost predicate OutServed(c: Config, n: Net, m: Net, r: nat, o: Chan) {
    m.O(o) == if o.router == r && Sends(c, n, o) then Sent(o.port, n.O(o)) else n.O(o)
  }

  /** An input VC has got the flit of the served output VC behind it, and is else as it was. */
  ghost predicate InServed(c: Config, n: Net, m: Net, r: nat, d: Chan) {
    m.I(d) == if c.Linked(d) && c.Peer(d).router == r && Sends(c, n, c.Peer(d))
              then Received(n.I(d), n.O(c.Peer(d)).buffer[0], n.N(r).cycle + c.linkLatency + 1) else n.I(d)
  }

  /** A link is taken if a flit went over it. */
  ghost predicate LinkTaken(c: Config, n: Net, m: Net, r: nat, p: Port) {
    m.P(p) == if p.router == r && p.port != LOCAL && Serves(c, n, r, p.port)
              then n.P(p).(linkReady := n.N(r).cycle + c.linkLatency) else n.P(p)
  }

  /** Each port whose link is free has sent the front flit of one VC, if it had a flit and a credit. */
  ghost predicate LinksServed(c: Config, n: Net, m: Net, r: nat) {
    && (forall o: Chan :: OutServed(c, n, m, r, o))
    && (forall d: Chan :: d.vc < c.vcs ==> InServed(c, n, m, r, d))
    && (forall p: Port :: LinkTaken(c, n, m, r, p))
    && (forall o: Chan :: o.router == r ==> HandsOver(c, n, m, o))
    && ((forall v: nat :: !Completes(c, n, Chan(r, LOCAL, v))) ==>
          (forall q: nat :: m.N(q) == n.N(q)) && m.delivered == n.delivered && m.total == n.total)
    && m.log == n.log
  }

  lemma LinkAfter(c: Config, n: Net, r: nat)
    requires Inv(c, n) && r < c.routers
    ensures LinksServed(c, n, LinkStage(c, n, r, c.Ports()), r)
  {
    hide Inv, LinkStage, Completes, HandsOver, OutServed, InServed, LinkTaken;
    var m := LinkStage(c, n, r, c.Ports());
    forall o: Chan ensures OutServed(c, n, m, r, o) { OutAfter(c, n, r, o); }
    forall d: Chan | d.vc < c.vcs ensures InServed(c, n, m, r, d) { InAfter(c, n, r, d); }
    forall p: Port ensures LinkTaken(c, n, m, r, p) { TakenAfter(c, n, r, p); }
    forall o: Chan | o.router == r ensures HandsOver(c, n, m, o) { HandsAfter(c, n, r, o); }
    NodesAfter(c, n, r, c.Ports(), Chan(r, LOCAL, 0));
  }

  lemma OutAfter(c: Config, n: Net, r: nat, o: Chan)
    requires Inv(c, n) && r < c.routers
    ensures OutServed(c, n, LinkStage(c, n, r, c.Ports()), r, o)
  {
    hide Inv, LinkStage;
    OutputsAfter(c, n, r, c.Ports(), o);
  }

  lemma InAfter(c: Config, n: Net, r: nat, d: Chan)
    requires Inv(c, n) && r < c.routers && d.vc < c.vcs
    ensures InServed(c, n, LinkStage(c, n, r, c.Ports()), r, d)
  {
    hide Inv, LinkStage;
    InputsAfter(c, n, r, c.Ports(), d);
  }

  lemma TakenAfter(c: Config, n: Net, r: nat, p: Port)
    requires Inv(c, n) && r < c.routers
    ensures LinkTaken(c, n, LinkStage(c, n, r, c.Ports()), r, p)
  {
    hide Inv, LinkStage;
    LinksAfter(c, n, r, c.Ports(), p);
    if p.router == r && p.port >= c.Ports() { assert !Serves(c, n, r, p.port); }
  }

  lemma HandsAfter(c: Config, n: Net, r: nat, o: Chan)
    requires Inv(c, n) && r < c.routers && o.router == r
    ensures HandsOver(c, n, LinkStage(c, n, r, c.Ports()), o)
  {
    hide Inv, LinkStage, Completes;
    NodesAfter(c, n, r, c.Ports(), o);
  }

  /** An unlocked cycle of a calm router, law by law: credits come back, links carry flits, flits cross the
      switch, heads get their routes and then VCs, requests enter, and the router counts. */
  lemma RouterCycleLaw(c: Config, n: Net, r: nat, now: int) returns (n1: Net, n2: Net, n4: Net, n5: Net, n6: Net, n7: Net, k: nat)
    requires Inv(c, n) && r < c.routers && Calm(c, n, r)
    ensures c.linkWidth > 0
    ensures Returned(c, n, n1, r, now) && LinksServed(c, n1, n2, r) && Switched(c, n2, n4, r)
    ensures RoutedFrom(c, n4, n5, r, 0, 0) && GivenFrom(c, n5, n6, r, 0, 0) && Injected(c, n6, n7, r, k)
    ensures k < |n6.N(r).injection| ==> forall u: nat :: u < c.vcs ==>
              |n7.I(Chan(r, LOCAL, u)).buffer| + NumFlits(c, n6.N(r).injection[k]) > BUFFER_MAX
    ensures RouterCycle(c, n, r, now, false) == n7.(nodes := n7.nodes[r := n7.N(r).(cycle := n7.N(r).cycle + 1)])
  {
    hide Inv, ReturnReady, LinkStage, AllocationStage, CrossStage, RouteStage, VcStage, InjectStage;
    hide Returned, LinksServed, Switched, RoutedFrom, GivenFrom, Injected, CalmBy, Hushed, NumFlits;
    ConfigFacts(c, n);
    n1 := ReturnReady(c, n, r, 0, now);
    n2 := LinkStage(c, n1, r, c.Ports());
    n4 := CrossStage(c, AllocationStage(c, n2, r, c.Ports()), r, c.Ports());
    n5 := RouteStage(c, n4, r, 0, 0);
    n6 := VcStage(c, n5, r, 0, 0);
    n7 := InjectStage(c, n6, r);
    ReturnAfter(c, n, r, now);
    LinkAfter(c, n1, r);
    StillCalm(c, n, r, now);
    SwitchAfter(c, n2, r);
    RouteAfter(c, n4, r, 0, 0);
    VcAfter(c, n5, r, 0, 0);
    k := InjectAfter(c, n6, r);
  }

  /** Credits and links do not disturb the calm. */
  lemma StillCalm(c: Config, n: Net, r: nat, now: int)
    requires Inv(c, n) && r < c.routers && Calm(c, n, r)
    ensures Calm(c, LinkStage(c, ReturnReady(c, n, r, 0, now), r, c.Ports()), r)
  {
    hide Inv, ReturnReady, LinkStage, Hushed, CalmBy;
    var n1 := ReturnReady(c, n, r, 0, now);
    ReturnHushed(c, n, r, 0, now);
    SameHushed(c, n, n1);
    LinkHushed(c, n1, r);
    EarlyClock(c, n, r, now, r);
    HushedCalm(c, n, n1, r, n.N(r).cycle);
    HushedCalm(c, n1, LinkStage(c, n1, r, c.Ports()), r, n.N(r).cycle);
  }
}
