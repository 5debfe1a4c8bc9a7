/** What link traversal does: per output port one flit moves on or leaves the network, and
    within a bounded number of turns every flit in a local output buffer has left. */
module NocLink {
  import opened Arithmetic
  import opened Options
  import opened NocTopology
  import opened NocState
  import opened NocInvariant
  import opened NocMoves
  import opened NocStages

  predicate Loaded(ov: OutVc) {
    ov.buffer != [] && ov.credit > 0
  }

  /** The rotation, which starts at VC `cycle mod vcs`, comes to `o` after `d` VCs of the port,
      none of which has both a flit and a credit. */
  ghost predicate Reached(c: Config, n: Net, o: Chan, d: nat) {
    && d < c.vcs && Turn(d, n.N(o.router).cycle, c.vcs) == o.vc
    && forall e: nat :: e < d ==> !Loaded(n.O(Chan(o.router, o.port, Turn(e, n.N(o.router).cycle, c.vcs))))
  }

  ghost predicate LinkFree(n: Net, o: Chan) {
    n.P(Port(o.router, o.port)).linkReady <= n.N(o.router).cycle
  }

  /** Output VC `o` is the one that its port serves in this cycle. */
  ghost predicate Sends(c: Config, n: Net, o: Chan) {
    c.Has(o) && LinkFree(n, o) && Loaded(n.O(o)) && exists d: nat :: Reached(c, n, o, d)
  }

  /** The output VC after its front flit has gone over the link, or out of the network. */
  function Sent(port: nat, ov: OutVc): OutVc
    requires ov.buffer != []
  {
    ov.(buffer := ov.buffer[1..], credit := if port == LOCAL then ov.credit else ov.credit - 1,
        avail := ov.avail || ov.buffer[0].piece.Tail())
  }

  /** The input VC after a flit has come over the link. */
  function Received(iv: InVc, f: Flit, ready: nat): InVc {
    iv.(buffer := iv.buffer + [f.(phase := IB, ready := ready)], arrived := iv.arrived + [f.piece])
  }

  // ----- the rotating search -----

  lemma {:induction false} PickReached(c: Config, n: Net, r: nat, port: nat, d: nat)
    requires c.vcs > 0 && d <= c.vcs
    requires forall e: nat :: e < d ==> !Sendable(n, Chan(r, port, Rotated(c, n, r, e)))
    ensures var v := PickLink(c, n, r, port, d);
            v.Some? ==> exists e: nat :: e < c.vcs && Rotated(c, n, r, e) == v.value &&
                                           forall f: nat :: f < e ==> !Sendable(n, Chan(r, port, Rotated(c, n, r, f)))
    decreases c.vcs - d
  {
    hide Sendable, Rotated;
    if d < c.vcs && !Sendable(n, Chan(r, port, Rotated(c, n, r, d))) {
      PickReached(c, n, r, port, d + 1);
    }
  }

  /** Every output VC has its credits in range, so that a credit other than 0 is positive. */
  lemma SendableLoaded(c: Config, n: Net, o: Chan)
    requires Inv(c, n) && c.Has(o)
    ensures Sendable(n, o) <==> Loaded(n.O(o))
  {
    assert CreditOk(c, n, o);
  }

  /** Of a port at most one VC is served. */
  lemma SendsOne(c: Config, n: Net, o: Chan, p: Chan)
    requires Sends(c, n, o) && Sends(c, n, p) && o.router == p.router && o.port == p.port
    ensures o == p
  {
    hide Loaded, Turn;
    var d: nat :| Reached(c, n, o, d);
    var e: nat :| Reached(c, n, p, e);
    assert p == Chan(o.router, o.port, Turn(e, n.N(o.router).cycle, c.vcs));
    assert o == Chan(p.router, p.port, Turn(d, n.N(p.router).cycle, c.vcs));
  }

  /** A port serves a VC exactly if its link is free and one of its VCs has a flit and a credit. */
  lemma SomeSends(c: Config, n: Net, r: nat, port: nat)
    requires Inv(c, n) && r < c.routers && port < c.Ports()
    ensures Serves(c, n, r, port) <==>
              LinkFree(n, Chan(r, port, 0)) && exists v: nat :: v < c.vcs && Loaded(n.O(Chan(r, port, v)))
  {
    ConfigFacts(c, n);
    if LinkFree(n, Chan(r, port, 0)) && exists v: nat :: v < c.vcs && Loaded(n.O(Chan(r, port, v))) {
      var v: nat :| v < c.vcs && Loaded(n.O(Chan(r, port, v)));
      SendableLoaded(c, n, Chan(r, port, v));
      PickLinkExact(c, n, r, port);
      PickSends(c, n, r, port);
    }
  }

  /** What the search returns is the first VC with a flit and a credit. */
  lemma PickFirst(c: Config, n: Net, r: nat, port: nat)
    requires Inv(c, n) && r < c.routers && port < c.Ports() && c.vcs > 0
    ensures var v := PickLink(c, n, r, port, 0);
            v.Some? ==> Loaded(n.O(Chan(r, port, v.value))) && exists e: nat :: Reached(c, n, Chan(r, port, v.value), e)
  {
    var v := PickLink(c, n, r, port, 0);
    forall u: nat | u < c.vcs ensures Sendable(n, Chan(r, port, u)) <==> Loaded(n.O(Chan(r, port, u))) {
      SendableLoaded(c, n, Chan(r, port, u));
    }
    hide Inv, Sendable, Loaded, Turn;
    PickReached(c, n, r, port, 0);
    if v.Some? {
      var e: nat :| e < c.vcs && Rotated(c, n, r, e) == v.value &&
                      forall f: nat :: f < e ==> !Sendable(n, Chan(r, port, Rotated(c, n, r, f)));
      forall f: nat | f < e ensures !Loaded(n.O(Chan(r, port, Turn(f, n.N(r).cycle, c.vcs)))) {
        assert !Sendable(n, Chan(r, port, Rotated(c, n, r, f)));
      }
      assert Reached(c, n, Chan(r, port, v.value), e);
    }
  }

  /** The search finds the VC that the port serves. */
  lemma PickSends(c: Config, n: Net, r: nat, port: nat)
    requires Inv(c, n) && r < c.routers && port < c.Ports() && LinkFree(n, Chan(r, port, 0)) && c.vcs > 0
    ensures var v := PickLink(c, n, r, port, 0);
            && (v.Some? ==> Sends(c, n, Chan(r, port, v.value)))
            && (forall u: nat :: Sends(c, n, Chan(r, port, u)) ==> v == Some(u))
  {
    var v := PickLink(c, n, r, port, 0);
    PickFirst(c, n, r, port);
    PickLinkExact(c, n, r, port);
    forall u: nat | Sends(c, n, Chan(r, port, u)) ensures v == Some(u) {
      SendableLoaded(c, n, Chan(r, port, u));
      hide Inv, Sendable, Loaded, Reached;
      assert v.Some?;
      SendsOne(c, n, Chan(r, port, u), Chan(r, port, v.value));
    }
  }

  // ----- one port -----

  /** What the served VC `o` does to the tables: its front flit is gone, and is now the last one
      of the input VC behind the link or, at a local port, out of the network. */
  ghost predicate Moved(c: Config, n: Net, m: Net, o: Chan)
    requires n.O(o).buffer != []
  {
    var f, now, port := n.O(o).buffer[0], n.N(o.router).cycle, Port(o.router, o.port);
    && m.outs == n.outs[o := Sent(o.port, n.O(o))]
    && m.log == n.log
    && if o.port == LOCAL then
         && m.ins == n.ins && m.ports == n.ports
         && (forall q: nat :: m.N(q) == if q == o.router && f.piece.Tail()
                                        then n.N(q).(mailbox := n.N(q).mailbox + [f.piece.req]) else n.N(q))
         && m.delivered == n.delivered + (if f.piece.Tail() then [f.piece.pkt] else [])
         && m.total == n.total - (if f.piece.Tail() then 1 else 0)
       else
         && c.Linked(o)
         && m.ins == n.ins[c.Peer(o) := Received(n.I(c.Peer(o)), f, now + c.linkLatency + 1)]
         && m.ports == n.ports[port := n.P(port).(linkReady := now + c.linkLatency)]
         && m.nodes == n.nodes && m.delivered == n.delivered && m.total == n.total
  }

  lemma EjectMoves(c: Config, n: Net, o: Chan)
    requires CanEject(n, o)
    ensures Moved(c, n, Eject(n, o), o)
  {
  }

  lemma TraverseMoves(c: Config, n: Net, o: Chan)
    requires n.O(o).buffer != [] && c.Linked(o) && o.port != LOCAL
    ensures Moved(c, n, Traverse(c, n, o), o)
  {
  }

  /** A port moves the front flit of the VC that it serves, and nothing if it serves none. */
  lemma PortMoves(c: Config, n: Net, r: nat, port: nat)
    requires Inv(c, n) && r < c.routers && port < c.Ports()
    ensures forall v: nat :: Sends(c, n, Chan(r, port, v)) ==> Moved(c, n, LinkPort(c, n, r, port), Chan(r, port, v))
    ensures LinkPort(c, n, r, port) == n || exists v: nat :: Sends(c, n, Chan(r, port, v))
  {
    hide Inv, Moved, Traverse, Eject, PickLink;
    ConfigFacts(c, n);
    if LinkFree(n, Chan(r, port, 0)) {
      PickSends(c, n, r, port);
      var v := PickLink(c, n, r, port, 0);
      if v.Some? {
        var o := Chan(r, port, v.value);
        OutputFacts(c, n, o);
        if port == LOCAL {
          EjectMoves(c, n, o);
        } else {
          TraverseMoves(c, n, o);
        }
      }
    }
  }

  // ----- the whole stage -----

  ghost predicate SamePort(n: Net, m: Net, r: nat, port: nat) {
    && m.P(Port(r, port)) == n.P(Port(r, port)) && m.N(r).cycle == n.N(r).cycle
    && forall v: nat :: m.O(Chan(r, port, v)) == n.O(Chan(r, port, v))
  }

  /** Which VC a port serves is a matter of that port alone. */
  lemma SendsLocally(c: Config, n: Net, m: Net, o: Chan)
    requires SamePort(n, m, o.router, o.port)
    ensures Sends(c, m, o) <==> Sends(c, n, o)
  {
    hide Turn, Loaded;
    assert m.O(o) == n.O(o) by { assert o == Chan(o.router, o.port, o.vc); }
    forall d: nat ensures Reached(c, m, o, d) <==> Reached(c, n, o, d) {}
  }

  /** Traversal of one port leaves the other ports of the router alone. */
  lemma OtherPort(c: Config, n: Net, r: nat, port: nat, other: nat)
    requires Inv(c, n) && r < c.routers && port < c.Ports() && other != port
    ensures SamePort(n, LinkPort(c, n, r, port), r, other)
  {
    hide Inv, LinkPort, Sent, Received, Sends;
    PortMoves(c, n, r, port);
    LinkPortClocks(c, n, r, port);
    if v: nat :| Sends(c, n, Chan(r, port, v)) {}
  }

  lemma {:induction false} LaterPort(c: Config, n: Net, r: nat, k: nat, port: nat)
    requires Inv(c, n) && r < c.routers && k <= port < c.Ports()
    ensures SamePort(n, LinkStage(c, n, r, k), r, port)
  {
    hide Inv, LinkPort;
    if k > 0 {
      LaterPort(c, n, r, k - 1, port);
      OtherPort(c, LinkStage(c, n, r, k - 1), r, k - 1, port);
    }
  }

  /** Of the output VCs exactly the served ones lose exactly their front flit. */
  lemma {:induction false} OutputsAfter(c: Config, n: Net, r: nat, k: nat, o: Chan)
    requires Inv(c, n) && r < c.routers && k <= c.Ports()
    ensures LinkStage(c, n, r, k).O(o) ==
              if o.router == r && o.port < k && Sends(c, n, o) then Sent(o.port, n.O(o)) else n.O(o)
  {
    hide Inv, LinkPort, Sent, Received;
    if k > 0 {
      var port, mid := k - 1, LinkStage(c, n, r, k - 1);
      OutputsAfter(c, n, r, port, o);
      LaterPort(c, n, r, port, port);
      if o.router == r && o.port == port {
        SendsLocally(c, n, mid, o);
        assert o == Chan(r, port, o.vc);
      }
      hide Sends;
      PortMoves(c, mid, r, port);
      if v: nat :| Sends(c, mid, Chan(r, port, v)) {
        if o.router == r && o.port == port && Sends(c, mid, o) {
          SendsOne(c, mid, Chan(r, port, v), o);
        }
      }
    }
  }

  /** Of the input VCs exactly those behind a served VC get a flit: the one at its front. */
  lemma {:induction false} InputsAfter(c: Config, n: Net, r: nat, k: nat, d: Chan)
    requires Inv(c, n) && r < c.routers && k <= c.Ports() && d.vc < c.vcs
    ensures LinkStage(c, n, r, k).I(d) ==
              if c.Linked(d) && c.Peer(d).router == r && c.Peer(d).port < k && Sends(c, n, c.Peer(d))
              then Received(n.I(d), n.O(c.Peer(d)).buffer[0], n.N(r).cycle + c.linkLatency + 1) else n.I(d)
  {
    hide Inv, LinkPort, Sent, Received, Config.Valid;
    ConfigValid(c, n);
    if k > 0 {
      var port, mid := k - 1, LinkStage(c, n, r, k - 1);
      InputsAfter(c, n, r, port, d);
      LaterPort(c, n, r, port, port);
      if c.Linked(d) {
        PeerSymmetric(c, d);
        if c.Peer(d).router == r && c.Peer(d).port == port {
          SendsLocally(c, n, mid, c.Peer(d));
          assert c.Peer(d) == Chan(r, port, d.vc);
        }
      }
      hide Sends;
      PortFills(c, mid, r, port, d);
    }
  }

  lemma ConfigValid(c: Config, n: Net)
    requires Inv(c, n)
    ensures c.Valid()
  {
  }

  lemma PortFills(c: Config, n: Net, r: nat, port: nat, d: Chan)
    requires Inv(c, n) && r < c.routers && port < c.Ports() && d.vc < c.vcs
    ensures LinkPort(c, n, r, port).I(d) ==
              if c.Linked(d) && c.Peer(d).router == r && c.Peer(d).port == port && Sends(c, n, c.Peer(d))
              then Received(n.I(d), n.O(c.Peer(d)).buffer[0], n.N(r).cycle + c.linkLatency + 1) else n.I(d)
  {
    hide Inv, LinkPort, Sent, Received, Config.Valid;
    ConfigValid(c, n);
    PortMoves(c, n, r, port);
    assert forall v: nat :: Sends(c, n, Chan(r, port, v)) ==> v < c.vcs;
    hide Sends;
    if c.Linked(d) {
      PeerSymmetric(c, d);
    }
    if v: nat :| Sends(c, n, Chan(r, port, v)) {
      var o := Chan(r, port, v);
      if c.Linked(o) {
        PeerSymmetric(c, o);
        if c.Linked(d) && c.Peer(d).router == r && c.Peer(d).port == port && Sends(c, n, c.Peer(d)) {
          SendsOne(c, n, o, c.Peer(d));
        }
      }
    }
  }

  /** The tail at the front of a served local VC. */
  ghost predicate Completes(c: Config, n: Net, o: Chan) {
    o.port == LOCAL && Sends(c, n, o) && n.O(o).buffer[0].piece.Tail()
  }

  /** A request is handed over exactly if a tail leaves through the local port: it is appended to
      the mailbox, its packet counts as delivered and no longer as under way. */
  lemma {:induction false} NodesAfter(c: Config, n: Net, r: nat, k: nat, o: Chan)
    requires Inv(c, n) && r < c.routers && 0 < k <= c.Ports() && o.router == r
    ensures var m := LinkStage(c, n, r, k);
            && m.log == n.log
            && (Completes(c, n, o) ==>
                  var p := n.O(o).buffer[0].piece;
                  && (forall q: nat :: m.N(q) == if q == r then n.N(q).(mailbox := n.N(q).mailbox + [p.req]) else n.N(q))
                  && m.delivered == n.delivered + [p.pkt] && m.total == n.total - 1)
            && ((forall v: nat :: !Completes(c, n, Chan(r, LOCAL, v))) ==>
                  (forall q: nat :: m.N(q) == n.N(q)) && m.delivered == n.delivered && m.total == n.total)
  {
    hide Inv, LinkPort, Sent, Received;
    var port, mid := k - 1, LinkStage(c, n, r, k - 1);
    PortMoves(c, mid, r, port);
    if k == 1 {
      assert Completes(c, n, o) ==> o == Chan(r, LOCAL, o.vc);
      forall v: nat | Sends(c, n, Chan(r, LOCAL, v)) && n.O(Chan(r, LOCAL, v)).buffer[0].piece.Tail()
        ensures Completes(c, n, Chan(r, LOCAL, v))
      {
      }
    } else {
      NodesAfter(c, n, r, port, o);
    }
    if v: nat :| Sends(c, mid, Chan(r, port, v)) {}
  }

  ghost predicate Serves(c: Config, n: Net, r: nat, port: nat) {
    exists v: nat :: Sends(c, n, Chan(r, port, v))
  }

  lemma ServesLocally(c: Config, n: Net, m: Net, r: nat, port: nat)
    requires SamePort(n, m, r, port)
    ensures Serves(c, m, r, port) <==> Serves(c, n, r, port)
  {
    forall v: nat ensures Sends(c, m, Chan(r, port, v)) <==> Sends(c, n, Chan(r, port, v)) {
      SendsLocally(c, n, m, Chan(r, port, v));
    }
    hide Sends;
  }

  lemma PortTakes(c: Config, n: Net, r: nat, port: nat, p: Port)
    requires Inv(c, n) && r < c.routers && port < c.Ports()
    ensures LinkPort(c, n, r, port).P(p) ==
              if p == Port(r, port) && port != LOCAL && Serves(c, n, r, port)
              then n.P(p).(linkReady := n.N(r).cycle + c.linkLatency) else n.P(p)
  {
    hide Inv, LinkPort, Sent, Received;
    PortMoves(c, n, r, port);
    if v: nat :| Sends(c, n, Chan(r, port, v)) {}
  }

  /** The link of a port is taken for `linkLatency` cycles exactly if a flit went over it. */
  lemma {:induction false} LinksAfter(c: Config, n: Net, r: nat, k: nat, p: Port)
    requires Inv(c, n) && r < c.routers && k <= c.Ports()
    ensures LinkStage(c, n, r, k).P(p) ==
              if p.router == r && LOCAL < p.port < k && Serves(c, n, r, p.port)
              then n.P(p).(linkReady := n.N(r).cycle + c.linkLatency) else n.P(p)
  {
    hide Inv, LinkPort, Serves;
    if k > 0 {
      var port, mid := k - 1, LinkStage(c, n, r, k - 1);
      LinksAfter(c, n, r, port, p);
      LaterPort(c, n, r, port, port);
      ServesLocally(c, n, mid, r, port);
      PortTakes(c, mid, r, port, p);
    }
  }
}
