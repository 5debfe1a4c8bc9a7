/** Delivery in bounded time: over every run, a flit that has reached a local output buffer
    leaves the network as soon as its VC has had its turn often enough. */
module NocDelivery {
  import opened Arithmetic
  import opened Lists
  import opened Options
  import opened NocTopology
  import opened NocState
  import opened NocInvariant
  import opened NocMoves
  import opened NocStages
  import opened NocLink
  import opened NocTheorems

  /** Between two states flits may have entered and left output VC `o`, in order. */
  ghost predicate Onward(n: Net, m: Net, o: Chan) {
    && Left(m.O(o)) >= Left(n.O(o)) && n.O(o).switched <= m.O(o).switched
    && m.P(Port(o.router, o.port)).linkReady == n.P(Port(o.router, o.port)).linkReady
  }

  /** The rotation of its port starts at VC `o`. */
  predicate FirstInLine(c: Config, n: Net, o: Chan)
    requires c.vcs > 0
  {
    n.N(o.router).cycle % c.vcs == o.vc
  }

  lemma StillOnward(n: Net, m: Net, o: Chan)
    requires Still(n, m)
    ensures Onward(n, m, o) && Left(m.O(o)) == Left(n.O(o)) && m.N(o.router).cycle == n.N(o.router).cycle
  {
  }

  /** A local output VC never lacks a credit. */
  lemma LocalLoaded(c: Config, n: Net, o: Chan)
    requires Inv(c, n) && c.Has(o) && o.port == LOCAL && n.O(o).buffer != []
    ensures Loaded(n.O(o))
  {
    assert !c.Linked(o) by {
      if c.Linked(o) { PeerSymmetric(c, o); }
    }
    assert CreditOk(c, n, o);
  }

  /** A local output VC with a flit is served when the rotation starts at it. */
  lemma LocalSends(c: Config, n: Net, o: Chan)
    requires Inv(c, n) && c.Has(o) && o.port == LOCAL && n.P(Port(o.router, LOCAL)).linkReady == 0
    requires n.O(o).buffer != [] && FirstInLine(c, n, o)
    ensures Sends(c, n, o)
  {
    LocalLoaded(c, n, o);
    hide Inv;
    assert Reached(c, n, o, 0);
  }

  lemma LinkOnward(c: Config, n: Net, r: nat, o: Chan)
    requires Inv(c, n) && r < c.routers && o.port == LOCAL
    ensures var m := LinkStage(c, n, r, c.Ports());
            && Onward(n, m, o)
            && Left(m.O(o)) == Left(n.O(o)) + if r == o.router && Sends(c, n, o) then 1 else 0
  {
    hide Inv, LinkStage;
    OutputsAfter(c, n, r, c.Ports(), o);
    LinksAfter(c, n, r, c.Ports(), Port(o.router, o.port));
    assert Sends(c, n, o) ==> o.port < c.Ports();
  }

  /** An unlocked cycle puts no flit back into a local output VC, and takes one out if and only if it is that
      of its router and its port serves the VC: no VC before it in the rotation has a flit. */
  lemma RouterServes(c: Config, n: Net, r: nat, now: int, o: Chan)
    requires Inv(c, n) && r < c.routers && c.Has(o) && o.port == LOCAL
    ensures var m := RouterCycle(c, n, r, now, false);
            && Onward(n, m, o)
            && Left(m.O(o)) == Left(n.O(o)) + if r == o.router && Sends(c, ReturnReady(c, n, r, 0, now), o) then 1 else 0
  {
    hide Inv, ReturnReady, LinkStage, AllocationStage, CrossStage, RouteStage, VcStage, InjectStage, Still, Sends;
    var n1 := ReturnReady(c, n, r, 0, now);
    var n2 := LinkStage(c, n1, r, c.Ports());
    var n3 := AllocationStage(c, n2, r, c.Ports());
    var n4 := CrossStage(c, n3, r, c.Ports());
    var n5 := RouteStage(c, n4, r, 0, 0);
    var n6 := VcStage(c, n5, r, 0, 0);
    var n7 := InjectStage(c, n6, r);
    ReturnReadyStill(c, n, r, 0, now);
    StillOnward(n, n1, o);
    LinkOnward(c, n1, r, o);
    AllocationStill(c, n2, r, c.Ports());
    CrossStill(c, n3, r, c.Ports());
    StillOn(n2, n3, n4);
    RouteStill(c, n4, r, 0, 0);
    StillOn(n2, n4, n5);
    VcStill(c, n5, r, 0, 0);
    StillOn(n2, n5, n6);
    InjectStageStill(c, n6, r);
    StillOn(n2, n6, n7);
    StillOnward(n2, n7, o);
  }

  /** The flits of a local output VC are still there when its router comes to link traversal. */
  lemma StillThere(c: Config, n: Net, r: nat, now: int, o: Chan)
    requires Inv(c, n) && r < c.routers
    ensures var n1 := ReturnReady(c, n, r, 0, now);
            && (n.O(o).buffer != [] ==> n1.O(o).buffer != []) && n1.N(o.router).cycle == n.N(o.router).cycle
            && n1.P(Port(o.router, o.port)).linkReady == n.P(Port(o.router, o.port)).linkReady
  {
    hide Inv, ReturnReady;
    ReturnReadyStill(c, n, r, 0, now);
    StillOnward(n, ReturnReady(c, n, r, 0, now), o);
  }

  /** In a cycle of its router a local output VC loses a flit if it has one and is first in line;
      no cycle puts a flit back. */
  lemma RouterOnward(c: Config, n: Net, r: nat, now: int, locked: bool, o: Chan)
    requires Inv(c, n) && r < c.routers && c.Has(o) && o.port == LOCAL && n.P(Port(o.router, LOCAL)).linkReady == 0 && c.vcs > 0
    ensures var m := RouterCycle(c, n, r, now, locked);
            && Onward(n, m, o)
            && (!locked && r == o.router && n.O(o).buffer != [] && FirstInLine(c, n, o) ==> Left(m.O(o)) > Left(n.O(o)))
  {
    hide Inv, ReturnReady, LinkStage, AllocationStage, CrossStage, RouteStage, VcStage, InjectStage;
    if !locked {
      RouterServes(c, n, r, now, o);
      if r == o.router && n.O(o).buffer != [] && FirstInLine(c, n, o) {
        StillThere(c, n, r, now, o);
        LocalSends(c, ReturnReady(c, n, r, 0, now), o);
      }
    }
  }

  /** The same for `k` routers in turn. */
  lemma {:induction false} NetworkOnward(c: Config, n: Net, first: nat, k: nat, now: int, locked: bool, o: Chan, i: nat)
    requires Inv(c, n) && k <= c.routers && c.Has(o) && o.port == LOCAL && n.P(Port(o.router, LOCAL)).linkReady == 0 && c.vcs > 0
    requires i < c.routers && Turn(i, first, c.routers) == o.router
    ensures var m := NetworkCycle(c, n, first, k, now, locked);
            && Onward(n, m, o)
            && (!locked && i < k && n.O(o).buffer != [] && FirstInLine(c, n, o) ==> Left(m.O(o)) > Left(n.O(o)))
  {
    hide Inv, RouterCycle, Turn;
    if k > 0 {
      var mid := NetworkCycle(c, n, first, k - 1, now, locked);
      NetworkOnward(c, n, first, k - 1, now, locked, o, i);
      RouterOnward(c, mid, Turn(k - 1, first, c.routers), now, locked, o);
      if i == k - 1 {
        NetworkTicks(c, n, first, k - 1, now, locked, i);
      }
    }
  }

  /** A locked cycle only counts: no buffer, port, credit, queue or mailbox changes. */
  lemma {:induction false} LockedRests(c: Config, n: Net, first: nat, k: nat, now: int)
    requires Inv(c, n)
    ensures var m := NetworkCycle(c, n, first, k, now, true);
            && m == n.(nodes := m.nodes)
            && forall r: nat {:trigger m.N(r)} :: m.N(r) == n.N(r).(cycle := m.N(r).cycle)
  {
    hide Inv;
    if k > 0 {
      LockedRests(c, n, first, k - 1, now);
      var mid := NetworkCycle(c, n, first, k - 1, now, true);
      var m := NetworkCycle(c, n, first, k, now, true);
      assert m == Tick(mid, Turn(k - 1, first, c.routers));
      forall r: nat ensures m.N(r) == n.N(r).(cycle := m.N(r).cycle) { assert mid.N(r) == n.N(r).(cycle := mid.N(r).cycle); }
    }
  }

  // ----- over runs -----

  /** The number of network cycles in a run. */
  function Cycles(events: seq<Event>): nat {
    if events == [] then 0
    else Cycles(events[..|events| - 1]) + if events[|events| - 1].CycleEvent? then 1 else 0
  }

  /** How often the rotation started at VC `vc` in an unlocked cycle of a run. */
  function Turns(vcs: nat, events: seq<Event>, vc: nat): nat
    requires vcs > 0
  {
    if events == [] then 0
    else
      var before, e := events[..|events| - 1], events[|events| - 1];
      Turns(vcs, before, vc) + if e.CycleEvent? && !e.locked && Cycles(before) % vcs == vc then 1 else 0
  }

  lemma StepStill(c: Config, n: Net, e: Event)
    requires Inv(c, n) && EventOk(c, e) && !e.CycleEvent?
    ensures Still(n, Apply(c, n, e))
  {
    hide Inv;
  }

  /** Every router has counted the cycles of the run, and its local link is never taken. */
  lemma {:induction false} Counted(c: Config, events: seq<Event>, r: nat)
    requires Started(c, events) && r < c.routers
    ensures var n := Run(c, events); n.N(r).cycle == Cycles(events) && n.P(Port(r, LOCAL)).linkReady == 0
  {
    hide Inv, Apply;
    if events != [] {
      var before, e := events[..|events| - 1], events[|events| - 1];
      Counted(c, before, r);
      assert e in events;
      StepCounted(c, Run(c, before), e, r);
    }
  }

  lemma StepCounted(c: Config, n: Net, e: Event, r: nat)
    requires Inv(c, n) && EventOk(c, e) && r < c.routers && n.P(Port(r, LOCAL)).linkReady == 0
    ensures var m := Apply(c, n, e);
            && m.N(r).cycle == n.N(r).cycle + (if e.CycleEvent? then 1 else 0)
            && m.P(Port(r, LOCAL)).linkReady == 0
  {
    if e.CycleEvent? {
      EveryRouterOnce(c, n, e.first, e.now, e.locked, r);
      var i := TurnAll(r, e.first, c.routers);
      NetworkOnward(c, n, e.first, c.routers, e.now, e.locked, Chan(r, LOCAL, 0), i);
    } else {
      hide Inv;
      StepStill(c, n, e);
    }
  }

  /** One event: an unlocked cycle that starts at the VC takes a flit out of it. */
  lemma StepOnward(c: Config, n: Net, e: Event, o: Chan)
    requires Inv(c, n) && EventOk(c, e) && c.Has(o) && o.port == LOCAL && n.P(Port(o.router, LOCAL)).linkReady == 0 && c.vcs > 0
    ensures var m := Apply(c, n, e);
            && Onward(n, m, o)
            && (e.CycleEvent? && !e.locked && n.O(o).buffer != [] && FirstInLine(c, n, o) ==> Left(m.O(o)) > Left(n.O(o)))
  {
    if e.CycleEvent? {
      hide Inv;
      var i := TurnAll(o.router, e.first, c.routers);
      NetworkOnward(c, n, e.first, c.routers, e.now, e.locked, o, i);
    } else {
      hide Inv;
      StepStill(c, n, e);
      StillOnward(n, Apply(c, n, e), o);
    }
  }

  lemma RunSplit(before: seq<Event>, more: seq<Event>)
    requires more != []
    ensures var events := before + more;
            && events[..|events| - 1] == before + more[..|more| - 1]
            && events[|events| - 1] == more[|more| - 1]
  {
  }

  /** In any continuation of a run at least as many flits leave a local output VC as it has
      turns, until those it holds now have left. */
  lemma {:induction false} TurnsServed(c: Config, before: seq<Event>, more: seq<Event>, o: Chan)
    requires Started(c, before) && Started(c, before + more) && c.Has(o) && o.port == LOCAL
    ensures c.vcs > 0
    ensures var ov, after := Run(c, before).O(o), Run(c, before + more).O(o);
            var turns := Turns(c.vcs, before + more, o.vc) - Turns(c.vcs, before, o.vc);
            && ov.switched <= after.switched
            && (Left(after) >= Left(ov) + turns || Left(after) >= |ov.switched|)
  {
    hide Inv, Apply, Wired, Config.Symmetric;
    if more == [] {
      assert before + more == before;
    } else {
      var now := before + more[..|more| - 1];
      var e := more[|more| - 1];
      RunSplit(before, more);
      assert forall x :: x in now ==> x in before + more;
      assert e in before + more;
      TurnsServed(c, before, more[..|more| - 1], o);
      var n := Run(c, now);
      Counted(c, now, o.router);
      StepOnward(c, n, e, o);
    }
  }

  /** A flit in position `k` of a local output buffer has left the network as soon as its VC has
      been first in line in `k + 1` unlocked cycles, whatever else happens. With the tail the
      packet is delivered and its request is handed to the router's node. */
  lemma LocalFlitLeaves(c: Config, before: seq<Event>, more: seq<Event>, o: Chan, k: nat)
    requires Started(c, before) && Started(c, before + more) && c.Has(o) && o.port == LOCAL
    requires k < |Run(c, before).O(o).buffer| && c.vcs > 0
    requires Turns(c.vcs, before + more, o.vc) - Turns(c.vcs, before, o.vc) > k
    ensures var p, n := Run(c, before).O(o).buffer[k].piece, Run(c, before + more);
            && p.Key() in n.place && n.place[p.Key()].Ejected? && n.place[p.Key()].chan == o
            && (p.Tail() ==> p.pkt in n.delivered && p.req in n.N(o.router).taken + n.N(o.router).mailbox)
  {
    hide Inv, Wired, Config.Symmetric;
    var was, n := Run(c, before), Run(c, before + more);
    OutputFacts(c, was, o);
    OutputFacts(c, n, o);
    TurnsServed(c, before, more, o);
    var at := Left(was.O(o)) + k;
    assert At(n.place, n.O(o).switched[at].Key(), Ejected(o, at));
    LeftTail(c, n, o, at);
  }

  lemma LeftTail(c: Config, n: Net, o: Chan, at: nat)
    requires Inv(c, n) && c.Has(o) && o.port == LOCAL && at < Left(n.O(o))
    ensures var p := n.O(o).switched[at];
            p.Tail() ==> p.pkt in n.delivered && p.req in n.N(o.router).taken + n.N(o.router).mailbox
  {
    hide Credits, Ownership, Phases, Streams;
    OutputFacts(c, n, o);
    var p := n.O(o).switched[at];
    assert Known(n.log, p) && At(n.place, p.Key(), Ejected(o, at)) && p.req.dst == o.router;
    if p.Tail() {
      assert TailEjected(n.place, n.log, p.pkt);
      assert MailOk(n, o.router);
      BoundForHas(n.log, n.delivered, p.pkt);
    }
  }

  lemma {:induction false} BoundForHas(log: seq<Packet>, delivered: seq<nat>, p: nat)
    requires p in delivered && p < |log|
    ensures log[p].req in BoundFor(log, delivered, log[p].req.dst)
  {
    var k := |delivered| - 1;
    if delivered[k] != p {
      assert p in delivered[..k];
      BoundForHas(log, delivered[..k], p);
    }
  }

  // ----- no local port is idle -----

  /** How many flits have left the network through the first `k` VCs of a router's local port. */
  function PortLeft(n: Net, r: nat, k: nat): int {
    if k == 0 then 0 else PortLeft(n, r, k - 1) + Left(n.O(Chan(r, LOCAL, k - 1)))
  }

  lemma {:induction false} PortGrows(n: Net, m: Net, r: nat, k: nat, v: nat)
    requires forall u: nat :: u < k ==> Left(m.O(Chan(r, LOCAL, u))) >= Left(n.O(Chan(r, LOCAL, u)))
    ensures PortLeft(m, r, k) >= PortLeft(n, r, k)
    ensures v < k && Left(m.O(Chan(r, LOCAL, v))) > Left(n.O(Chan(r, LOCAL, v))) ==> PortLeft(m, r, k) > PortLeft(n, r, k)
  {
    if k > 0 { PortGrows(n, m, r, k - 1, v); }
  }

  /** In an unlocked cycle of its router a local port that has a flit sends one. */
  lemma RouterWorks(c: Config, n: Net, r: nat, now: int, locked: bool, o: Chan)
    requires Inv(c, n) && r < c.routers && c.Has(o) && o.port == LOCAL && n.P(Port(o.router, LOCAL)).linkReady == 0
    ensures var m := RouterCycle(c, n, r, now, locked);
            && PortLeft(m, o.router, c.vcs) >= PortLeft(n, o.router, c.vcs)
            && (!locked && r == o.router && n.O(o).buffer != [] ==> PortLeft(m, o.router, c.vcs) > PortLeft(n, o.router, c.vcs))
  {
    hide Inv, ReturnReady, LinkStage, RouterCycle, Sends, PortLeft;
    var m := RouterCycle(c, n, r, now, locked);
    ConfigFacts(c, n);
    forall u: nat | u < c.vcs ensures Left(m.O(Chan(o.router, LOCAL, u))) >= Left(n.O(Chan(o.router, LOCAL, u))) {
      RouterOnward(c, n, r, now, locked, Chan(o.router, LOCAL, u));
    }
    PortGrows(n, m, o.router, c.vcs, 0);
    if !locked && r == o.router && n.O(o).buffer != [] {
      var v := LocalServed(c, n, now, o);
      RouterServes(c, n, r, now, Chan(r, LOCAL, v));
      PortGrows(n, m, o.router, c.vcs, v);
    }
  }

  lemma LocalServed(c: Config, n: Net, now: int, o: Chan) returns (v: nat)
    requires Inv(c, n) && c.Has(o) && o.port == LOCAL && n.P(Port(o.router, LOCAL)).linkReady == 0 && n.O(o).buffer != []
    ensures v < c.vcs && Sends(c, ReturnReady(c, n, o.router, 0, now), Chan(o.router, LOCAL, v))
  {
    hide Inv, ReturnReady, Sends, Loaded;
    var n1 := ReturnReady(c, n, o.router, 0, now);
    StillThere(c, n, o.router, now, o);
    LocalLoaded(c, n1, o);
    SomeSends(c, n1, o.router, LOCAL);
    assert o == Chan(o.router, LOCAL, o.vc);
    v :| Sends(c, n1, Chan(o.router, LOCAL, v));
    SendsHas(c, n1, Chan(o.router, LOCAL, v));
  }

  lemma SendsHas(c: Config, n: Net, o: Chan)
    requires Sends(c, n, o)
    ensures c.Has(o)
  {
  }

  lemma {:induction false} NetworkWorks(c: Config, n: Net, first: nat, k: nat, now: int, locked: bool, o: Chan, i: nat)
    requires Inv(c, n) && k <= c.routers && c.Has(o) && o.port == LOCAL && n.P(Port(o.router, LOCAL)).linkReady == 0 && c.vcs > 0
    requires i < c.routers && Turn(i, first, c.routers) == o.router
    ensures var m := NetworkCycle(c, n, first, k, now, locked);
            && PortLeft(m, o.router, c.vcs) >= PortLeft(n, o.router, c.vcs)
            && (!locked && i < k && n.O(o).buffer != [] ==>
                  PortLeft(m, o.router, c.vcs) > PortLeft(n, o.router, c.vcs) || Left(m.O(o)) > Left(n.O(o)))
  {
    hide Inv, RouterCycle, Turn, PortLeft;
    if k > 0 {
      var mid := NetworkCycle(c, n, first, k - 1, now, locked);
      NetworkWorks(c, n, first, k - 1, now, locked, o, i);
      NetworkOnward(c, n, first, k - 1, now, locked, o, i);
      RouterWorks(c, mid, Turn(k - 1, first, c.routers), now, locked, o);
      RouterOnward(c, mid, Turn(k - 1, first, c.routers), now, locked, o);
    }
  }

  lemma StepWorks(c: Config, n: Net, e: Event, o: Chan)
    requires Inv(c, n) && EventOk(c, e) && c.Has(o) && o.port == LOCAL && n.P(Port(o.router, LOCAL)).linkReady == 0 && c.vcs > 0
    ensures var m := Apply(c, n, e);
            && PortLeft(m, o.router, c.vcs) >= PortLeft(n, o.router, c.vcs)
            && (e.CycleEvent? && !e.locked && n.O(o).buffer != [] && Left(m.O(o)) == Left(n.O(o)) ==>
                  PortLeft(m, o.router, c.vcs) > PortLeft(n, o.router, c.vcs))
  {
    hide Inv, NetworkCycle, PortLeft, Send, Receive;
    if e.CycleEvent? {
      var i := TurnAll(o.router, e.first, c.routers);
      NetworkOnward(c, n, e.first, c.routers, e.now, e.locked, o, i);
      NetworkWorks(c, n, e.first, c.routers, e.now, e.locked, o, i);
    } else {
      StepStill(c, n, e);
      PortGrows(n, Apply(c, n, e), o.router, c.vcs, 0);
    }
  }

  function UnlockedCycles(events: seq<Event>): nat {
    if events == [] then 0
    else UnlockedCycles(events[..|events| - 1]) + if events[|events| - 1].CycleEvent? && !events[|events| - 1].locked then 1 else 0
  }

  /** While a flit stays at the front of a local output buffer, a flit of another VC leaves through the same
      port in every unlocked cycle: in as many unlocked cycles as flits leave ahead of it, and one more, it
      has left. */
  lemma {:induction false} PortNeverIdle(c: Config, before: seq<Event>, more: seq<Event>, o: Chan)
    requires Started(c, before) && Started(c, before + more) && c.Has(o) && o.port == LOCAL && Run(c, before).O(o).buffer != []
    ensures var n, m := Run(c, before), Run(c, before + more);
            && Left(m.O(o)) >= Left(n.O(o)) && n.O(o).switched <= m.O(o).switched
            && PortLeft(m, o.router, c.vcs) >= PortLeft(n, o.router, c.vcs)
            && (Left(m.O(o)) == Left(n.O(o)) ==>
                  PortLeft(m, o.router, c.vcs) - PortLeft(n, o.router, c.vcs) >= UnlockedCycles(before + more) - UnlockedCycles(before))
  {
    hide Inv, Apply, Wired, Config.Symmetric, PortLeft;
    if more == [] {
      assert before + more == before;
    } else {
      var now := before + more[..|more| - 1];
      var e := more[|more| - 1];
      RunSplit(before, more);
      assert forall x :: x in now ==> x in before + more;
      assert e in before + more;
      PortNeverIdle(c, before, more[..|more| - 1], o);
      var n := Run(c, now);
      Counted(c, now, o.router);
      StepOnward(c, n, e, o);
      StepWorks(c, n, e, o);
    }
  }

  // ----- unlocked cycles -----

  /** How many numbers below `x` leave remainder `v`. */
  function Passed(x: nat, vcs: nat, v: nat): nat
    requires v < vcs
  {
    if x == 0 then 0 else Passed(x - 1, vcs, v) + if (x - 1) % vcs == v then 1 else 0
  }

  lemma {:induction false} PassedFirst(x: nat, vcs: nat, v: nat)
    requires v < vcs && x <= vcs
    ensures Passed(x, vcs, v) == if x > v then 1 else 0
  {
    if x > 0 {
      PassedFirst(x - 1, vcs, v);
      DivModOf(0, vcs, x - 1);
    }
  }

  lemma SameRemainder(x: nat, w: nat)
    requires w > 0
    ensures (x + w) % w == x % w
  {
    assert x + w == (x / w + 1) * w + x % w;
    DivModOf(x / w + 1, w, x % w);
  }

  /** Each remainder comes once in a round. */
  lemma {:induction false} PassedRound(x: nat, vcs: nat, v: nat)
    requires v < vcs
    ensures Passed(x + vcs, vcs, v) == Passed(x, vcs, v) + 1
  {
    if x == 0 {
      PassedFirst(vcs, vcs, v);
    } else {
      PassedRound(x - 1, vcs, v);
      SameRemainder(x - 1, vcs);
      assert x + vcs - 1 == x - 1 + vcs;
    }
  }

  lemma {:induction false} UnlockedTurns(vcs: nat, before: seq<Event>, more: seq<Event>, vc: nat)
    requires vc < vcs && forall e :: e in more ==> e.CycleEvent? ==> !e.locked
    ensures Cycles(before + more) == Cycles(before) + Cycles(more)
    ensures Turns(vcs, before + more, vc) - Turns(vcs, before, vc) ==
              Passed(Cycles(before + more), vcs, vc) - Passed(Cycles(before), vcs, vc)
  {
    if more == [] {
      assert before + more == before;
    } else {
      RunSplit(before, more);
      UnlockedTurns(vcs, before, more[..|more| - 1], vc);
      assert more[|more| - 1] in more;
    }
  }

  lemma {:induction false} PassedGrows(x: nat, y: nat, vcs: nat, v: nat)
    requires v < vcs && x <= y
    ensures Passed(x, vcs, v) <= Passed(y, vcs, v)
  {
    if x < y { PassedGrows(x, y - 1, vcs, v); }
  }

  lemma {:induction false} PassedRounds(x: nat, vcs: nat, v: nat, rounds: nat)
    requires v < vcs
    ensures Passed(x + rounds * vcs, vcs, v) == Passed(x, vcs, v) + rounds
  {
    if rounds > 0 {
      PassedRounds(x, vcs, v, rounds - 1);
      PassedRound(x + (rounds - 1) * vcs, vcs, v);
      assert x + rounds * vcs == x + (rounds - 1) * vcs + vcs;
    }
  }

  /** While no cycle is locked, a flit in position `k` of a local output buffer leaves the network
      within `k + 1` times as many cycles as there are VCs. */
  lemma LocalFlitLeavesSoon(c: Config, before: seq<Event>, more: seq<Event>, o: Chan, k: nat)
    requires Started(c, before) && Started(c, before + more) && c.Has(o) && o.port == LOCAL
    requires k < |Run(c, before).O(o).buffer|
    requires forall e :: e in more ==> e.CycleEvent? ==> !e.locked
    requires Cycles(more) >= (k + 1) * c.vcs
    ensures var p, n := Run(c, before).O(o).buffer[k].piece, Run(c, before + more);
            && p.Key() in n.place && n.place[p.Key()].Ejected? && n.place[p.Key()].chan == o
            && (p.Tail() ==> p.pkt in n.delivered && p.req in n.N(o.router).taken + n.N(o.router).mailbox)
  {
    hide Inv, Run, Setup;
    assert c.vcs > 0;
    UnlockedTurns(c.vcs, before, more, o.vc);
    PassedRounds(Cycles(before), c.vcs, o.vc, k + 1);
    PassedGrows(Cycles(before) + (k + 1) * c.vcs, Cycles(before + more), c.vcs, o.vc);
    LocalFlitLeaves(c, before, more, o, k);
  }
}
