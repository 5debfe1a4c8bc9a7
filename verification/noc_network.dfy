/** The routers as the simulator runs them: stages that search and update their tables in
    loops. Each is proved to do exactly what its specification in NocStages says. */
module NocNetwork {
  import opened Arithmetic
  import opened Options
  import opened NocTopology
  import opened NocState
  import opened NocInvariant
  import opened NocMoves
  import opened NocStages

  class RouterNetwork {
    const c: Config
    var ins: map<Chan, InVc>
    var outs: map<Chan, OutVc>
    var ports: map<Port, PortState>
    var nodes: map<nat, Node>
    var total: int
    var place: map<(nat, nat), Place>
    var log: seq<Packet>
    var delivered: seq<nat>

    function State(): Net
      reads this
    {
      Net(ins, outs, ports, nodes, total, place, log, delivered)
    }

    ghost predicate Valid()
      reads this
    {
      Inv(c, State())
    }

    constructor (config: Config)
      requires Setup(config)
      ensures c == config && State() == INIT && Valid()
    {
      c := config;
      ins, outs, ports, nodes := map[], map[], map[], map[];
      total, place, log, delivered := 0, map[], [], [];
      new;
      InitKeeps(c);
    }

    method ProcessPendingCredit(r: nat, now: int)
      requires Valid() && r < c.routers
      modifies this
      ensures Valid() && State() == ReturnReady(c, old(State()), r, 0, now)
    {
      hide Inv;
      var k := 0;
      while k < |State().N(r).pending|
        invariant Valid() && k <= |State().N(r).pending|
        invariant forall j :: 0 <= j < k ==> State().N(r).pending[j].ready > now
        invariant ReturnReady(c, State(), r, k, now) == ReturnReady(c, old(State()), r, 0, now)
        decreases |State().N(r).pending| - k
      {
        if State().N(r).pending[k].ready <= now {
          ReturnKeeps(c, State(), r, k);
          AcceptCredit(r, k);
        } else {
          k := k + 1;
        }
      }
    }

    method AcceptCredit(r: nat, k: nat)
      requires k < |State().N(r).pending|
      modifies this
      ensures State() == ReturnCredit(old(State()), r, k)
    {
      var node := State().N(r);
      var o := Chan(r, node.pending[k].port, node.pending[k].vc);
      var ov := State().O(o);
      outs := outs[o := ov.(credit := ov.credit + 1)];
      nodes := nodes[r := node.(pending := node.pending[..k] + node.pending[k + 1..])];
    }

    /** Link traversal: per output port, at most one flit goes to the neighbour or out. */
    method StageLt(r: nat)
      requires Valid() && r < c.routers
      modifies this
      ensures Valid() && State() == LinkStage(c, old(State()), r, c.Ports())
    {
      hide Inv, LinkPort;
      for port := 0 to c.Ports()
        invariant Valid() && State() == LinkStage(c, old(State()), r, port)
      {
        LinkOnePort(r, port);
      }
    }

    method LinkOnePort(r: nat, port: nat)
      requires Valid() && r < c.routers && port < c.Ports()
      modifies this
      ensures Valid() && State() == LinkPort(c, old(State()), r, port)
    {
      hide Inv;
      ConfigFacts(c, State());
      if State().P(Port(r, port)).linkReady <= State().N(r).cycle {
        var vc := PickOutputVc(r, port);
        if vc.Some? {
          var o := Chan(r, port, vc.value);
          OutputFacts(c, State(), o);
          assert State().O(o).buffer[0].phase == ST;
          hide OwnerOk, HistoryOk, OutPhases, LinkFlow, OutRecorded, Traverse, Eject;
          if port != LOCAL {
            TraverseKeeps(c, State(), o);
            SendFlit(o);
          } else {
            EjectKeeps(c, State(), o);
            EjectFlit(o);
          }
        }
      }
    }

    method PickOutputVc(r: nat, port: nat) returns (vc: Option<nat>)
      requires c.vcs > 0
      ensures vc == PickLink(c, State(), r, port, 0)
    {
      var d := 0;
      while d < c.vcs
        invariant d <= c.vcs && PickLink(c, State(), r, port, d) == PickLink(c, State(), r, port, 0)
      {
        var v := (d + State().N(r).cycle) % c.vcs;
        if State().O(Chan(r, port, v)).buffer != [] && State().O(Chan(r, port, v)).credit != 0 {
          return Some(v);
        }
        d := d + 1;
      }
      return None;
    }

    /** The front flit of `o` is inserted at the neighbouring router. */
    method SendFlit(o: Chan)
      requires State().O(o).buffer != [] && c.Linked(o)
      modifies this
      ensures State() == Traverse(c, old(State()), o)
    {
      var ov, now := State().O(o), State().N(o.router).cycle;
      var f, d := ov.buffer[0], c.Peer(o);
      var iv := State().I(d);
      ins := ins[d := iv.(buffer := iv.buffer + [f.(phase := IB, ready := now + c.linkLatency + 1)],
                          arrived := iv.arrived + [f.piece])];
      ports := ports[Port(o.router, o.port) := State().P(Port(o.router, o.port)).(linkReady := now + c.linkLatency)];
      ov := ov.(buffer := ov.buffer[1..], credit := ov.credit - 1);
      if f.piece.Tail() {
        ov := ov.(avail := true);
      }
      outs := outs[o := ov];
      place := place[f.piece.Key() := In(d, |iv.arrived|)];
    }

    /** The front flit of local channel `o` leaves; with the tail the request is handed over. */
    method EjectFlit(o: Chan)
      requires CanEject(State(), o)
      modifies this
      ensures State() == Eject(old(State()), o)
    {
      var ov := State().O(o);
      var f := ov.buffer[0];
      place := place[f.piece.Key() := Ejected(o, |ov.switched| - |ov.buffer|)];
      ov := ov.(buffer := ov.buffer[1..]);
      if f.piece.Tail() {
        ov := ov.(avail := true);
        total := total - 1;
        var node := State().N(o.router);
        nodes := nodes[o.router := node.(mailbox := node.mailbox + [f.piece.req])];
        delivered := delivered + [f.piece.pkt];
      }
      outs := outs[o := ov];
    }

    /** Switch allocation: per free output port, the oldest waiting flit wins. */
    method StageSa(r: nat)
      requires Valid() && r < c.routers
      modifies this
      ensures Valid() && State() == AllocationStage(c, old(State()), r, c.Ports())
    {
      hide Inv, SwitchPort;
      for op := 0 to c.Ports()
        invariant Valid() && State() == AllocationStage(c, old(State()), r, op)
      {
        ArbitrateSwitch(r, op);
      }
    }

    method ArbitrateSwitch(r: nat, op: nat)
      requires Valid() && r < c.routers && op < c.Ports()
      modifies this
      ensures Valid() && State() == SwitchPort(c, old(State()), r, op)
    {
      hide Inv;
      if State().P(Port(r, op)).swReady <= State().N(r).cycle {
        var winner := PickSwitchWinner(r, op);
        if winner.Some? {
          AllocateSwitchKeeps(c, State(), winner.value, op);
          GrantSwitch(winner.value, op);
        }
      }
    }

    method GrantSwitch(i: Chan, op: nat)
      requires State().I(i).buffer != []
      modifies this
      ensures State() == AllocateSwitch(old(State()), i, op)
    {
      var iv, port := State().I(i), Port(i.router, op);
      ins := ins[i := iv.(buffer := [iv.buffer[0].(phase := SA)] + iv.buffer[1..])];
      ports := ports[port := State().P(port).(swReady := State().N(i.router).cycle + 1)];
    }

    method PickSwitchWinner(r: nat, op: nat) returns (winner: Option<Chan>)
      requires r < c.routers
      ensures winner == PickSwitch(c, State(), r, op)
    {
      var n := State();
      ghost var want, time := i => WantsSwitch(n, i, op), i => FrontTime(n, i);
      winner := None;
      for p := 0 to c.Ports()
        invariant Oldest(c, r, want, time, p, 0, winner) == Oldest(c, r, want, time, 0, 0, None)
      {
        for v := 0 to c.vcs
          invariant Oldest(c, r, want, time, p, v, winner) == Oldest(c, r, want, time, 0, 0, None)
        {
          var i := Chan(r, p, v);
          if WantsSwitch(n, i, op) && (winner.None? || FrontTime(n, i) < FrontTime(n, winner.value)) {
            winner := Some(i);
          }
        }
      }
    }

    /** Switch traversal: the winner of each output port moves to its output buffer. */
    method StageSt(r: nat)
      requires Valid() && r < c.routers
      modifies this
      ensures Valid() && State() == CrossStage(c, old(State()), r, c.Ports())
    {
      hide Inv;
      for op := 0 to c.Ports()
        invariant Valid() && State() == CrossStage(c, old(State()), r, op)
      {
        ghost var before := State();
        var winner := FindSwitchWinner(r, op);
        if winner.Some? {
          SwitchKeeps(c, State(), winner.value);
          MoveFlit(winner.value);
        }
        assert State() == CrossPort(c, before, r, op);
      }
    }

    method FindSwitchWinner(r: nat, op: nat) returns (winner: Option<Chan>)
      requires r < c.routers
      ensures winner == PickWinner(c, State(), r, op, 0, 0, None)
    {
      var n := State();
      winner := None;
      for p := 0 to c.Ports()
        invariant PickWinner(c, n, r, op, p, 0, winner) == PickWinner(c, n, r, op, 0, 0, None)
      {
        var v := 0;
        while v < c.vcs
          invariant v <= c.vcs && PickWinner(c, n, r, op, p, v, winner) == PickWinner(c, n, r, op, 0, 0, None)
          decreases c.vcs - v
        {
          if WonSwitch(n, Chan(r, p, v), op) {
            winner := Some(Chan(r, p, v));
            break;
          }
          v := v + 1;
        }
      }
    }

    /** The front flit of `i` enters the granted output buffer and a credit goes upstream. */
    method MoveFlit(i: Chan)
      requires State().I(i).buffer != [] && State().I(i).grant.Some? && (i.port == LOCAL || c.Linked(i))
      modifies this
      ensures State() == Switch(c, old(State()), i)
    {
      var iv := State().I(i);
      var f, o := iv.buffer[0], iv.grant.value;
      var ov := State().O(o);
      place := place[f.piece.Key() := Out(o, |ov.switched|)];
      ov := ov.(buffer := ov.buffer + [f.(phase := ST)], switched := ov.switched + [f.piece]);
      iv := iv.(buffer := iv.buffer[1..]);
      if f.piece.Tail() {
        iv := iv.(grant := None);
        ov := ov.(owner := None);
      }
      ins := ins[i := iv];
      outs := outs[o := ov];
      if i.port != LOCAL {
        var up := c.Peer(i).router;
        var node := State().N(up);
        var credit := Credit(Opposite(i.port), i.vc, State().N(i.router).cycle + 1);
        nodes := nodes[up := node.(pending := node.pending + [credit])];
      }
    }

    /** Route calculation for every head flit that has arrived. */
    method StageRc(r: nat)
      requires Valid() && r < c.routers
      modifies this
      ensures Valid() && State() == RouteStage(c, old(State()), r, 0, 0)
    {
      hide Inv;
      for p := 0 to c.Ports()
        invariant Valid() && RouteStage(c, State(), r, p, 0) == RouteStage(c, old(State()), r, 0, 0)
      {
        for v := 0 to c.vcs
          invariant Valid() && RouteStage(c, State(), r, p, v) == RouteStage(c, old(State()), r, 0, 0)
        {
          var i := Chan(r, p, v);
          if NeedsRoute(c, State(), i) {
            CalculateRouteKeeps(c, State(), i);
            SetRoute(i);
          }
        }
      }
    }

    method SetRoute(i: Chan)
      requires State().I(i).buffer != []
      modifies this
      ensures State() == CalculateRoute(c, old(State()), i)
    {
      var iv := State().I(i);
      var f := iv.buffer[0];
      var (routes, dir) := RouteOf(c, i.router, f.piece.req.dst, f.dir, iv.routes);
      ins := ins[i := iv.(buffer := [f.(phase := RC, dir := dir)] + iv.buffer[1..], routes := routes)];
    }

    /** VC allocation: each free output VC is given to the oldest head flit routed to it. */
    method StageVca(r: nat)
      requires Valid() && r < c.routers
      modifies this
      ensures Valid() && State() == VcStage(c, old(State()), r, 0, 0)
    {
      hide Inv, GiveVc;
      for p := 0 to c.Ports()
        invariant Valid() && VcStage(c, State(), r, p, 0) == VcStage(c, old(State()), r, 0, 0)
      {
        for v := 0 to c.vcs
          invariant Valid() && VcStage(c, State(), r, p, v) == VcStage(c, old(State()), r, 0, 0)
        {
          GiveOutputVc(Chan(r, p, v));
        }
      }
    }

    /** A free output VC is given away. */
    method GiveOutputVc(o: Chan)
      requires Valid() && c.Has(o)
      modifies this
      ensures Valid() && State() == GiveVc(c, old(State()), o)
    {
      hide Inv;
      if State().O(o).avail {
        var winner := PickVcWinner(o);
        if winner.Some? {
          AllocateVcKeeps(c, State(), winner.value, o);
          GrantVc(winner.value, o);
        }
      }
    }

    method GrantVc(i: Chan, o: Chan)
      requires State().I(i).buffer != []
      modifies this
      ensures State() == AllocateVc(old(State()), i, o)
    {
      var iv, ov := State().I(i), State().O(o);
      ins := ins[i := iv.(buffer := [iv.buffer[0].(phase := VCA)] + iv.buffer[1..], grant := Some(o))];
      outs := outs[o := ov.(avail := false, owner := Some(i))];
    }

    method PickVcWinner(o: Chan) returns (winner: Option<Chan>)
      requires o.router < c.routers
      ensures winner == PickVc(c, State(), o)
    {
      var n := State();
      ghost var want, time := i => WantsVc(c, n, i, o), i => FrontTime(n, i);
      winner := None;
      for p := 0 to c.Ports()
        invariant Oldest(c, o.router, want, time, p, 0, winner) == Oldest(c, o.router, want, time, 0, 0, None)
      {
        for v := 0 to c.vcs
          invariant Oldest(c, o.router, want, time, p, v, winner) == Oldest(c, o.router, want, time, 0, 0, None)
        {
          var i := Chan(o.router, p, v);
          if WantsVc(c, n, i, o) && (winner.None? || FrontTime(n, i) < FrontTime(n, winner.value)) {
            winner := Some(i);
          }
        }
      }
    }

    /** Waiting requests become packets in the first local VC with room for all their flits. */
    method LocalPacketInjection(r: nat)
      requires Valid() && r < c.routers
      modifies this
      ensures Valid() && State() == InjectStage(c, old(State()), r)
    {
      hide Inv, InjectPacket;
      ConfigFacts(c, State());
      while State().N(r).injection != []
        invariant Valid() && InjectStage(c, State(), r) == InjectStage(c, old(State()), r)
        decreases |State().N(r).injection|
      {
        var vc := PickLocalVc(r, State().N(r).injection[0]);
        if vc.None? {
          break;
        }
        InjectKeeps(c, State(), Chan(r, LOCAL, vc.value));
        InsertPacket(Chan(r, LOCAL, vc.value));
      }
    }

    method PickLocalVc(r: nat, req: Req) returns (vc: Option<nat>)
      requires c.linkWidth > 0
      ensures vc == PickLocal(c, State(), r, req, 0)
    {
      for v := 0 to c.vcs
        invariant PickLocal(c, State(), r, req, v) == PickLocal(c, State(), r, req, 0)
      {
        if |State().I(Chan(r, LOCAL, v)).buffer| + NumFlits(c, req) <= BUFFER_MAX {
          return Some(v);
        }
      }
      return None;
    }

    /** The request at the front of the queue is cut into flits, pushed one by one. */
    method InsertPacket(d: Chan)
      requires c.linkWidth > 0 && State().N(d.router).injection != []
      modifies this
      ensures State() == InjectPacket(c, old(State()), d)
      ensures State().N(d.router).injection == old(State()).N(d.router).injection[1..]
    {
      var node, iv, pkt := State().N(d.router), State().I(d), |log|;
      var req := node.injection[0];
      var num := NumFlits(c, req);
      var flits, pieces := iv.buffer, iv.arrived;
      for k := 0 to num
        invariant flits == iv.buffer + FlitsOf(pkt, num, req, node.cycle)[..k]
        invariant pieces == iv.arrived + PiecesOf(pkt, num, req)[..k]
      {
        flits := flits + [Flit(Piece(pkt, k, num, req), IB, node.cycle, node.cycle, -1)];
        pieces := pieces + [Piece(pkt, k, num, req)];
      }
      assert FlitsOf(pkt, num, req, node.cycle)[..num] == FlitsOf(pkt, num, req, node.cycle);
      assert PiecesOf(pkt, num, req)[..num] == PiecesOf(pkt, num, req);
      ins := ins[d := iv.(buffer := flits, arrived := pieces)];
      nodes := nodes[d.router := node.(injection := node.injection[1..])];
      total := total + 1;
      place := place + PlacesOf(pkt, num, d, |iv.arrived|);
      log := log + [Packet(req, num)];
    }

    method RunRouter(r: nat, now: int, locked: bool)
      requires Valid() && r < c.routers
      modifies this
      ensures Valid() && State() == RouterCycle(c, old(State()), r, now, locked)
    {
      hide Inv, ReturnReady, LinkStage, AllocationStage, CrossStage, RouteStage, VcStage, InjectStage;
      if !locked {
        ProcessPendingCredit(r, now);
        StageLt(r);
        StageSa(r);
        StageSt(r);
        StageRc(r);
        StageVca(r);
        LocalPacketInjection(r);
      }
      TickKeeps(c, State(), r);
      var node := State().N(r);
      nodes := nodes[r := node.(cycle := node.cycle + 1)];
    }

    /** One cycle of all routers; the first to run rotates with the simulation cycle. */
    method RunACycle(now: nat, locked: bool)
      requires Valid()
      modifies this
      ensures Valid() && c.routers > 0
      ensures State() == NetworkCycle(c, old(State()), now % c.routers, c.routers, now, locked)
      ensures forall r: nat :: r < c.routers ==> State().N(r).cycle == old(State()).N(r).cycle + 1
    {
      hide Inv, RouterCycle;
      ConfigFacts(c, State());
      var first := now % c.routers;
      for k := 0 to c.routers
        invariant Valid() && State() == NetworkCycle(c, old(State()), first, k, now, locked)
      {
        RunRouter(Turn(k, first, c.routers), now, locked);
      }
      forall r: nat | r < c.routers ensures State().N(r).cycle == old(State()).N(r).cycle + 1 {
        EveryRouterOnce(c, old(State()), first, now, locked, r);
      }
    }

    /** A node offers a request to its router, which refuses it when the queue is full. */
    method SendRequest(r: nat, req: Req) returns (accepted: bool)
      requires Valid() && r < c.routers && req.dst < c.routers
      modifies this
      ensures Valid() && State() == Send(c, old(State()), r, req)
      ensures accepted <==> |old(State()).N(r).injection| < INJECTION_MAX
      ensures State().N(r).injection == old(State()).N(r).injection + (if accepted then [req] else [])
    {
      hide Inv;
      ghost var after := Send(c, State(), r, req);
      var node := State().N(r);
      accepted := |node.injection| < INJECTION_MAX;
      if accepted {
        nodes := nodes[r := node.(injection := node.injection + [req])];
      }
      assert State() == after;
    }

    /** A node takes the request at the front of its mailbox, if there is one. */
    method ReceiveRequest(r: nat) returns (req: Option<Req>)
      requires Valid()
      modifies this
      ensures Valid() && State() == Receive(c, old(State()), r)
      ensures req == if old(State()).N(r).mailbox == [] then None else Some(old(State()).N(r).mailbox[0])
      ensures State().N(r).mailbox == if req.None? then [] else old(State()).N(r).mailbox[1..]
      ensures State().N(r).taken == old(State()).N(r).taken + if req.None? then [] else [req.value]
    {
      hide Inv;
      ghost var after := Receive(c, State(), r);
      var node := State().N(r);
      if node.mailbox == [] {
        req := None;
      } else {
        req := Some(node.mailbox[0]);
        nodes := nodes[r := Taking(node)];
      }
      assert State() == after;
    }
  }
}
