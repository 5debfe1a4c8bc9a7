/** What route calculation, VC allocation and injection do to the packets at the front. */
module NocHeads {
  import opened Options
  import opened NocTopology
  import opened NocState
  import opened NocInvariant
  import opened NocMoves
  import opened NocStages

  // ----- route calculation -----

  /** A head flit has arrived at the front of `i` and has no route yet. */
  predicate Arrived(n: Net, i: Chan) {
    var b := n.I(i).buffer;
    b != [] && b[0].piece.Head() && b[0].phase == IB && b[0].ready <= n.N(i.router).cycle
  }

  /** The input VC after its head flit was given the routes to its destination. */
  function Routed(c: Config, i: Chan, iv: InVc): InVc
    requires iv.buffer != []
  {
    var f := iv.buffer[0];
    var (routes, dir) := RouteOf(c, i.router, f.piece.req.dst, f.dir, iv.routes);
    iv.(buffer := [f.(phase := RC, dir := dir)] + iv.buffer[1..], routes := routes)
  }

  /** The extra test of the ring never fails: an arrived head has no route fixed. */
  lemma NeedsRouteExact(c: Config, n: Net, i: Chan)
    requires Inv(c, n) && c.Has(i)
    ensures NeedsRoute(c, n, i) <==> Arrived(n, i)
  {
    InputFacts(c, n, i);
  }

  ghost predicate RoutedFrom(c: Config, n: Net, m: Net, r: nat, p: nat, v: nat) {
    && m == n.(ins := m.ins)
    && forall i: Chan {:trigger m.I(i)} ::
         m.I(i) == if c.Has(i) && i.router == r && Ahead(p, v, i) && Arrived(n, i) then Routed(c, i, n.I(i)) else n.I(i)
  }

  /** Every head flit that has arrived at the front of an input VC gets its routes, and nothing
      else changes. */
  lemma {:induction false} RouteAfter(c: Config, n: Net, r: nat, p: nat, v: nat)
    requires Inv(c, n) && r < c.routers && p <= c.Ports() && v <= c.vcs
    ensures RoutedFrom(c, n, RouteStage(c, n, r, p, v), r, p, v)
    decreases c.Ports() - p, c.vcs - v
  {
    hide Inv, NeedsRoute, CalculateRoute, Routed;
    var i := Chan(r, p, v);
    if p == c.Ports() {
    } else if v == c.vcs {
      RouteAfter(c, n, r, p + 1, 0);
    } else {
      NeedsRouteExact(c, n, i);
      if Arrived(n, i) {
        CalculateRouteKeeps(c, n, i);
        RouteAfter(c, CalculateRoute(c, n, i), r, p, v + 1);
        RoutedOne(c, n, i);
      } else {
        RouteAfter(c, n, r, p, v + 1);
      }
    }
  }

  lemma RoutedOne(c: Config, n: Net, i: Chan)
    requires n.I(i).buffer != []
    ensures var m := CalculateRoute(c, n, i);
            m == n.(ins := n.ins[i := Routed(c, i, n.I(i))])
  {
  }

  // ----- VC allocation -----

  /** The input VC after its packet was given output VC `o`. */
  function Given(iv: InVc, o: Chan): InVc
    requires iv.buffer != []
  {
    iv.(buffer := [iv.buffer[0].(phase := VCA)] + iv.buffer[1..], grant := Some(o))
  }

  /** A routed head flit at the front of `i`, with no VC yet, may use output VC `o`. */
  predicate Eligible(c: Config, n: Net, i: Chan, o: Chan) {
    var iv := n.I(i);
    && c.Has(i) && i.router == o.router && i.port != o.port
    && iv.buffer != [] && iv.buffer[0].piece.Head() && iv.buffer[0].phase == RC
    && Offers(c, o, iv.routes, iv.buffer[0].piece.req.dst)
  }

  /** Output VC `o` was given to the packet at `i`. */
  ghost predicate GivenTo(n: Net, m: Net, i: Chan, o: Chan) {
    && n.O(o).avail && m.O(o) == n.O(o).(avail := false, owner := Some(i))
    && n.I(i).buffer != [] && m.I(i) == Given(n.I(i), o)
  }

  /** The part of the law that concerns output VC `o`: if it was free and a packet could use it,
      it was given to one; it is still free only if no packet that was left can use it; and of
      those left none that can use it is older than the one it was given to. */
  ghost predicate Settled(c: Config, n: Net, m: Net, o: Chan) {
    && (m.O(o) == n.O(o) || exists i :: Eligible(c, n, i, o) && GivenTo(n, m, i, o))
    && (m.O(o).avail ==> forall i :: !Eligible(c, m, i, o))
    && (m.O(o) != n.O(o) && m.O(o).owner.Some? ==>
          forall j :: Eligible(c, m, j, o) ==> FrontTime(n, m.O(o).owner.value) <= FrontTime(n, j))
  }

  /** The part that concerns input VC `i`: it is as it was, or was given an output VC. */
  ghost predicate Served(c: Config, n: Net, m: Net, i: Chan) {
    m.I(i) == n.I(i) || exists o :: c.Has(o) && Eligible(c, n, i, o) && GivenTo(n, m, i, o)
  }

  ghost predicate GivenFrom(c: Config, n: Net, m: Net, r: nat, p: nat, v: nat) {
    && m == n.(ins := m.ins, outs := m.outs)
    && (forall o :: c.Has(o) && o.router == r && Ahead(p, v, o) ==> Settled(c, n, m, o))
    && (forall o :: !(c.Has(o) && o.router == r && Ahead(p, v, o)) ==> m.O(o) == n.O(o))
    && (forall i :: Served(c, n, m, i))
  }

  /** `i` is the oldest packet that can use free output VC `o`, and gets it. */
  ghost predicate GivenFirst(c: Config, n: Net, m: Net, i: Chan, o: Chan) {
    && Eligible(c, n, i, o) && n.O(o).avail
    && m == n.(ins := n.ins[i := Given(n.I(i), o)], outs := n.outs[o := n.O(o).(avail := false, owner := Some(i))])
    && forall j :: Eligible(c, n, j, o) ==> FrontTime(n, i) <= FrontTime(n, j)
  }

  lemma GiveAfter(c: Config, n: Net, o: Chan)
    requires Inv(c, n) && c.Has(o)
    ensures var m := GiveVc(c, n, o);
            || (m == n && (n.O(o).avail ==> forall i :: !Eligible(c, n, i, o)))
            || exists i :: GivenFirst(c, n, m, i, o)
  {
    hide Inv, Offers, FrontTime;
    var w := PickVc(c, n, o);
    if n.O(o).avail && w.Some? {
      assert GivenFirst(c, n, GiveVc(c, n, o), w.value, o);
    }
  }

  /** A packet that was given an output VC asks for none. */
  lemma LeftOver(c: Config, n: Net, m: Net, j: Chan, o: Chan)
    requires Served(c, n, m, j) && Eligible(c, m, j, o)
    ensures m.I(j) == n.I(j) && Eligible(c, n, j, o)
  {
    hide Offers;
  }

  /** A VC that no packet can use stays as it is. */
  lemma NotGiven(c: Config, n: Net, m: Net, r: nat, p: nat, v: nat, o: Chan)
    requires GivenFrom(c, n, m, r, p, v + 1) && o == Chan(r, p, v) && (n.O(o).avail ==> forall i :: !Eligible(c, n, i, o))
    ensures GivenFrom(c, n, m, r, p, v)
  {
    hide Offers, Served, Eligible;
    assert m.O(o) == n.O(o);
    forall j | Eligible(c, m, j, o) ensures Eligible(c, n, j, o) {
      assert Served(c, n, m, j);
      LeftOver(c, n, m, j, o);
    }
    assert Settled(c, n, m, o);
    hide Settled;
    forall q | c.Has(q) && q.router == r && Ahead(p, v, q) ensures Settled(c, n, m, q) {
      assert q == o || Ahead(p, v + 1, q);
    }
  }

  lemma GivenServed(c: Config, n: Net, mid: Net, m: Net, i: Chan, o: Chan, j: Chan)
    requires GivenFirst(c, n, mid, i, o) && c.Has(o) && Served(c, mid, m, j)
    requires m.O(o) == mid.O(o)
    ensures Served(c, n, m, j)
    ensures j == i ==> m.I(i) == mid.I(i)
  {
    hide Offers;
    if j == i {
      assert GivenTo(n, m, i, o);
    } else if m.I(j) != mid.I(j) {
      var q :| c.Has(q) && Eligible(c, mid, j, q) && GivenTo(mid, m, j, q);
      assert q != o;
      assert GivenTo(n, m, j, q) && Eligible(c, n, j, q);
    }
  }

  lemma GivenSettled(c: Config, n: Net, mid: Net, m: Net, i: Chan, o: Chan, q: Chan)
    requires GivenFirst(c, n, mid, i, o) && q != o && m.I(i) == mid.I(i) && Settled(c, mid, m, q)
    ensures Settled(c, n, m, q)
  {
    hide Offers;
    if m.O(q) != mid.O(q) {
      var j :| Eligible(c, mid, j, q) && GivenTo(mid, m, j, q);
      assert j != i;
      assert Eligible(c, n, j, q) && GivenTo(n, m, j, q);
    }
    assert forall j :: FrontTime(n, j) == FrontTime(mid, j);
  }

  lemma GivenNext(c: Config, n: Net, mid: Net, m: Net, r: nat, p: nat, v: nat, i: Chan, o: Chan)
    requires c.Has(o) && o == Chan(r, p, v) && GivenFirst(c, n, mid, i, o) && GivenFrom(c, mid, m, r, p, v + 1)
    ensures GivenFrom(c, n, m, r, p, v)
  {
    hide Offers, Settled, Served, Eligible, FrontTime;
    assert m.O(o) == mid.O(o);
    forall j: Chan ensures Served(c, n, m, j) {
      assert Served(c, mid, m, j);
      GivenServed(c, n, mid, m, i, o, j);
    }
    assert Served(c, mid, m, i);
    GivenServed(c, n, mid, m, i, o, i);
    GivenOne(c, n, mid, m, i, o);
    forall q | c.Has(q) && q.router == r && Ahead(p, v, q) ensures Settled(c, n, m, q) {
      if q != o {
        assert Ahead(p, v + 1, q);
        GivenSettled(c, n, mid, m, i, o, q);
      }
    }
  }

  lemma GivenOne(c: Config, n: Net, mid: Net, m: Net, i: Chan, o: Chan)
    requires GivenFirst(c, n, mid, i, o) && m.O(o) == mid.O(o) && m.I(i) == mid.I(i)
    requires forall j :: Served(c, n, m, j)
    ensures Settled(c, n, m, o)
  {
    assert GivenTo(n, m, i, o);
    forall j | Eligible(c, m, j, o) ensures FrontTime(n, i) <= FrontTime(n, j) {
      assert Served(c, n, m, j);
      LeftOver(c, n, m, j, o);
    }
  }

  /** VC allocation gives every free output VC that a packet can use to one of them, in favour of
      the oldest, leaves none free that a packet can use, and changes nothing else. */
  lemma {:induction false} VcAfter(c: Config, n: Net, r: nat, p: nat, v: nat)
    requires Inv(c, n) && r < c.routers && p <= c.Ports() && v <= c.vcs
    ensures GivenFrom(c, n, VcStage(c, n, r, p, v), r, p, v)
    decreases c.Ports() - p, c.vcs - v
  {
    hide Inv, GiveVc, Settled, Served, Eligible, GivenFirst, GivenFrom;
    var o := Chan(r, p, v);
    if p == c.Ports() {
      NoneGiven(c, n, r, p, v);
    } else if v == c.vcs {
      VcAfter(c, n, r, p + 1, 0);
      NextPort(c, n, VcStage(c, n, r, p + 1, 0), r, p, v);
    } else {
      var mid := GiveVc(c, n, o);
      GiveAfter(c, n, o);
      VcAfter(c, mid, r, p, v + 1);
      var m := VcStage(c, mid, r, p, v + 1);
      if i :| GivenFirst(c, n, mid, i, o) {
        GivenNext(c, n, mid, m, r, p, v, i, o);
      } else {
        NotGiven(c, n, m, r, p, v, o);
      }
    }
  }

  lemma NoneGiven(c: Config, n: Net, r: nat, p: nat, v: nat)
    requires p == c.Ports()
    ensures GivenFrom(c, n, n, r, p, v)
  {
    hide Settled;
  }

  lemma NextPort(c: Config, n: Net, m: Net, r: nat, p: nat, v: nat)
    requires v == c.vcs && GivenFrom(c, n, m, r, p + 1, 0)
    ensures GivenFrom(c, n, m, r, p, v)
  {
    hide Settled, Served;
    forall o | c.Has(o) ensures Ahead(p, v, o) <==> Ahead(p + 1, 0, o) {}
  }

  // ----- injection -----

  /** A packet without data is one flit. With data its flits could carry more than the data, but all
      of them except one could not. */
  lemma FlitsCarry(c: Config, req: Req)
    requires c.linkWidth > 0
    ensures !req.data ==> NumFlits(c, req) == 1
    ensures req.data ==> (NumFlits(c, req) - 1) * c.linkWidth <= req.size < NumFlits(c, req) * c.linkWidth
  {
    var q := req.size / c.linkWidth;
    assert req.size == q * c.linkWidth + req.size % c.linkWidth;
    assert (q + 1) * c.linkWidth == q * c.linkWidth + c.linkWidth;
  }

  /** The packets that the first `k` waiting requests become. */
  function PacketsOf(c: Config, reqs: seq<Req>): (s: seq<Packet>)
    requires c.linkWidth > 0
    ensures |s| == |reqs|
  {
    if reqs == [] then [] else [Packet(reqs[0], NumFlits(c, reqs[0]))] + PacketsOf(c, reqs[1..])
  }

  /** The oldest waiting requests have entered the network, in order, as packets that were added to
      the local input VCs; the rest still waits. */
  ghost predicate Injected(c: Config, n: Net, m: Net, r: nat, k: nat)
    requires c.linkWidth > 0
  {
    && k <= |n.N(r).injection|
    && (forall q: nat {:trigger m.N(q)} :: m.N(q) == if q == r then n.N(q).(injection := n.N(q).injection[k..]) else n.N(q))
    && m.log == n.log + PacketsOf(c, n.N(r).injection[..k]) && m.total == n.total + k
    && m.outs == n.outs && m.ports == n.ports && m.delivered == n.delivered
    && forall i: Chan {:trigger m.I(i)} :: Extended(i, n.I(i), m.I(i), r, n.N(r).cycle)
  }

  ghost predicate Extended(i: Chan, was: InVc, now: InVc, r: nat, cycle: nat) {
    && now.routes == was.routes && now.grant == was.grant && was.buffer <= now.buffer && was.arrived <= now.arrived
    && ((i.router == r && i.port == LOCAL) || now == was)
    && forall x :: |was.buffer| <= x < |now.buffer| ==> now.buffer[x].phase == IB && now.buffer[x].ready == cycle && now.buffer[x].dir == -1
  }

  lemma InjectOne(c: Config, n: Net, d: Chan)
    requires CanInject(c, n, d)
    ensures Injected(c, n, InjectPacket(c, n, d), d.router, 1)
  {
    hide PlacesOf;
    var inj := n.N(d.router).injection;
    assert inj[..1] == [inj[0]];
    assert PacketsOf(c, inj[..1]) == [Packet(inj[0], NumFlits(c, inj[0]))];
  }

  lemma PacketsNext(c: Config, reqs: seq<Req>, k: nat)
    requires c.linkWidth > 0 && 0 < |reqs| && k < |reqs|
    ensures PacketsOf(c, reqs[..1]) + PacketsOf(c, reqs[1..][..k]) == PacketsOf(c, reqs[..k + 1])
  {
    assert reqs[..k + 1][1..] == reqs[1..][..k];
    assert reqs[..1][1..] == [];
  }

  lemma ExtendedOn(i: Chan, a: InVc, b: InVc, d: InVc, r: nat, cycle: nat)
    requires Extended(i, a, b, r, cycle) && Extended(i, b, d, r, cycle)
    ensures Extended(i, a, d, r, cycle)
  {
  }

  lemma InjectedNext(c: Config, n: Net, mid: Net, m: Net, r: nat, k: nat)
    requires c.linkWidth > 0 && Injected(c, n, mid, r, 1) && Injected(c, mid, m, r, k)
    ensures Injected(c, n, m, r, k + 1)
  {
    hide Extended, NumFlits, PacketsOf;
    assert mid.N(r) == n.N(r).(injection := n.N(r).injection[1..]);
    PacketsNext(c, n.N(r).injection, k);
    forall i: Chan ensures Extended(i, n.I(i), m.I(i), r, n.N(r).cycle) {
      assert m.I(i) == m.I(i) && mid.I(i) == mid.I(i);
      ExtendedOn(i, n.I(i), mid.I(i), m.I(i), r, n.N(r).cycle);
    }
    forall q: nat ensures m.N(q) == if q == r then n.N(q).(injection := n.N(q).injection[k + 1..]) else n.N(q) {
      assert m.N(q) == m.N(q) && mid.N(q) == mid.N(q);
      assert n.N(r).injection[1..][k..] == n.N(r).injection[k + 1..];
    }
  }

  /** Requests enter in order until the next one finds no room in any local input VC. */
  lemma {:induction false} InjectAfter(c: Config, n: Net, r: nat) returns (k: nat)
    requires Inv(c, n) && r < c.routers
    ensures c.linkWidth > 0 && Injected(c, n, InjectStage(c, n, r), r, k)
    ensures k < |n.N(r).injection| ==> forall u: nat :: u < c.vcs ==>
              |InjectStage(c, n, r).I(Chan(r, LOCAL, u)).buffer| + NumFlits(c, n.N(r).injection[k]) > BUFFER_MAX
    decreases |n.N(r).injection|
  {
    hide Inv, InjectPacket, Injected;
    ConfigFacts(c, n);
    k := 0;
    var v := if n.N(r).injection == [] then None else PickLocal(c, n, r, n.N(r).injection[0], 0);
    if v.Some? {
      var d := Chan(r, LOCAL, v.value);
      InjectKeeps(c, n, d);
      InjectOne(c, n, d);
      var mid := InjectPacket(c, n, d);
      assert mid.N(r).injection == n.N(r).injection[1..] by { InjectedRest(c, n, mid, r, 1); }
      k := InjectAfter(c, mid, r);
      InjectedNext(c, n, mid, InjectStage(c, n, r), r, k);
      k := k + 1;
    } else {
      InjectedNone(c, n, r);
    }
  }

  lemma InjectedRest(c: Config, n: Net, m: Net, r: nat, k: nat)
    requires c.linkWidth > 0 && Injected(c, n, m, r, k)
    ensures m.N(r).injection == n.N(r).injection[k..]
  {
  }

  lemma InjectedNone(c: Config, n: Net, r: nat)
    requires c.linkWidth > 0
    ensures Injected(c, n, n, r, 0)
  {
  }
}
