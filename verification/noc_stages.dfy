/** The pipeline stages of a router, a cycle of the whole network, and runs. */
module NocStages {
  import opened Arithmetic
  import opened Options
  import opened NocTopology
  import opened NocState
  import opened NocInvariant
  import opened NocMoves

  lemma ConfigFacts(c: Config, n: Net)
    requires Inv(c, n)
    ensures c.routers > 0 && c.vcs > 0 && c.linkWidth > 0
  {
  }

  // ----- returning credits -----

  /** From index `k` on, every credit that is ready at `now` is returned. */
  function ReturnReady(c: Config, n: Net, r: nat, k: nat, now: int): (m: Net)
    requires Inv(c, n) && r < c.routers && k <= |n.N(r).pending|
    requires forall j :: 0 <= j < k ==> n.N(r).pending[j].ready > now
    ensures Inv(c, m)
    ensures forall j :: 0 <= j < |m.N(r).pending| ==> m.N(r).pending[j].ready > now
    decreases |n.N(r).pending| - k
  {
    if k == |n.N(r).pending| then n
    else if n.N(r).pending[k].ready <= now then
      ReturnKeeps(c, n, r, k);
      ReturnReady(c, ReturnCredit(n, r, k), r, k, now)
    else ReturnReady(c, n, r, k + 1, now)
  }

  // ----- link traversal -----

  predicate Sendable(n: Net, o: Chan) {
    n.O(o).buffer != [] && n.O(o).credit != 0
  }

  /** The VC examined at step `d` of the search, which starts at a rotating VC. */
  function Rotated(c: Config, n: Net, r: nat, d: nat): (v: nat)
    requires c.vcs > 0
    ensures v < c.vcs
  {
    Turn(d, n.N(r).cycle, c.vcs)
  }

  /** The first VC of the port, in rotated order from step `d` on, that has a flit and a credit. */
  function PickLink(c: Config, n: Net, r: nat, port: nat, d: nat): (v: Option<nat>)
    requires c.vcs > 0 && d <= c.vcs
    ensures v.Some? ==> v.value < c.vcs && Sendable(n, Chan(r, port, v.value))
    ensures v.None? ==> forall e :: d <= e < c.vcs ==> !Sendable(n, Chan(r, port, Rotated(c, n, r, e)))
    decreases c.vcs - d
  {
    if d == c.vcs then None
    else if Sendable(n, Chan(r, port, Rotated(c, n, r, d))) then Some(Rotated(c, n, r, d))
    else PickLink(c, n, r, port, d + 1)
  }

  /** The search finds a VC with a flit and a credit exactly if the port has one. */
  lemma PickLinkExact(c: Config, n: Net, r: nat, port: nat)
    requires c.vcs > 0
    ensures PickLink(c, n, r, port, 0).Some? <==> exists v: nat :: v < c.vcs && Sendable(n, Chan(r, port, v))
  {
    hide Sendable;
    if v: nat :| v < c.vcs && Sendable(n, Chan(r, port, v)) {
      var d := TurnAll(v, n.N(r).cycle, c.vcs);
      assert Rotated(c, n, r, d) == v;
    }
  }

  function LinkPort(c: Config, n: Net, r: nat, port: nat): (m: Net)
    requires Inv(c, n) && r < c.routers && port < c.Ports()
    ensures Inv(c, m)
  {
    if n.P(Port(r, port)).linkReady > n.N(r).cycle then n
    else
      match PickLink(c, n, r, port, 0)
      case None => n
      case Some(v) =>
        var o := Chan(r, port, v);
        OutputFacts(c, n, o);
        if port == LOCAL then EjectKeeps(c, n, o); Eject(n, o)
        else TraverseKeeps(c, n, o); Traverse(c, n, o)
  }

  /** Link traversal of ports `0..k`. */
  function LinkStage(c: Config, n: Net, r: nat, k: nat): (m: Net)
    requires Inv(c, n) && r < c.routers && k <= c.Ports()
    ensures Inv(c, m)
  {
    if k == 0 then n else LinkPort(c, LinkStage(c, n, r, k - 1), r, k - 1)
  }

  // ----- searching the input VCs of a router -----

  /** The search has yet to see `i` when it stands at VC `v` of port `p`. */
  predicate Ahead(p: nat, v: nat, i: Chan) {
    p < i.port || (p == i.port && v <= i.vc)
  }

  predicate Better(time: Chan -> nat, i: Chan, best: Option<Chan>) {
    best.None? || time(i) < time(best.value)
  }

  /** Oldest-first search: port by port, VC by VC, from (`p`, `v`) on; `best` was found before. */
  function Oldest(c: Config, r: nat, want: Chan -> bool, time: Chan -> nat, p: nat, v: nat, best: Option<Chan>): (w: Option<Chan>)
    requires p <= c.Ports() && v <= c.vcs && r < c.routers
    ensures w == best || (w.Some? && c.Has(w.value) && w.value.router == r && want(w.value))
    ensures best.Some? ==> w.Some? && (w == best || time(w.value) < time(best.value))
    ensures forall i :: c.Has(i) && i.router == r && Ahead(p, v, i) && want(i) ==> w.Some? && time(w.value) <= time(i)
    decreases c.Ports() - p, c.vcs - v
  {
    if p == c.Ports() then best
    else if v == c.vcs then Oldest(c, r, want, time, p + 1, 0, best)
    else
      var i := Chan(r, p, v);
      Oldest(c, r, want, time, p, v + 1, if want(i) && Better(time, i, best) then Some(i) else best)
  }

  function FrontTime(n: Net, i: Chan): nat {
    if n.I(i).buffer == [] then 0 else n.I(i).buffer[0].time
  }

  /** The oldest flit that wants the switch to port `op`. */
  function PickSwitch(c: Config, n: Net, r: nat, op: nat): (w: Option<Chan>)
    requires r < c.routers
    ensures w.Some? ==> c.Has(w.value) && w.value.router == r && WantsSwitch(n, w.value, op)
    ensures forall i :: c.Has(i) && i.router == r && WantsSwitch(n, i, op) ==> w.Some? && FrontTime(n, w.value) <= FrontTime(n, i)
  {
    Oldest(c, r, i => WantsSwitch(n, i, op), i => FrontTime(n, i), 0, 0, None)
  }

  function SwitchPort(c: Config, n: Net, r: nat, op: nat): (m: Net)
    requires Inv(c, n) && r < c.routers
    ensures Inv(c, m)
  {
    if n.P(Port(r, op)).swReady > n.N(r).cycle then n
    else
      match PickSwitch(c, n, r, op)
      case None => n
      case Some(i) => AllocateSwitchKeeps(c, n, i, op); AllocateSwitch(n, i, op)
  }

  /** Switch allocation of output ports `0..k`. */
  function AllocationStage(c: Config, n: Net, r: nat, k: nat): (m: Net)
    requires Inv(c, n) && r < c.routers
    ensures Inv(c, m)
  {
    if k == 0 then n else SwitchPort(c, AllocationStage(c, n, r, k - 1), r, k - 1)
  }

  // ----- switch traversal -----

  predicate WonSwitch(n: Net, i: Chan, op: nat) {
    CanSwitch(n, i) && n.I(i).grant.value.port == op && i.port != op
  }

  /** The winner of port `op`: the first in its port, in the last port that has one. */
  function PickWinner(c: Config, n: Net, r: nat, op: nat, p: nat, v: nat, best: Option<Chan>): (w: Option<Chan>)
    requires p <= c.Ports() && v <= c.vcs && r < c.routers
    ensures w == best || (w.Some? && c.Has(w.value) && w.value.router == r && WonSwitch(n, w.value, op))
    ensures best.Some? ==> w.Some?
    ensures forall i :: c.Has(i) && i.router == r && Ahead(p, v, i) && WonSwitch(n, i, op) ==> w.Some?
    decreases c.Ports() - p, c.vcs - v
  {
    if p == c.Ports() then best
    else if v == c.vcs then PickWinner(c, n, r, op, p + 1, 0, best)
    else if WonSwitch(n, Chan(r, p, v), op) then PickWinner(c, n, r, op, p + 1, 0, Some(Chan(r, p, v)))
    else PickWinner(c, n, r, op, p, v + 1, best)
  }

  function CrossPort(c: Config, n: Net, r: nat, op: nat): (m: Net)
    requires Inv(c, n) && r < c.routers
    ensures Inv(c, m)
  {
    match PickWinner(c, n, r, op, 0, 0, None)
    case None => n
    case Some(i) => SwitchKeeps(c, n, i); Switch(c, n, i)
  }

  /** Switch traversal to output ports `0..k`. */
  function CrossStage(c: Config, n: Net, r: nat, k: nat): (m: Net)
    requires Inv(c, n) && r < c.routers
    ensures Inv(c, m)
  {
    if k == 0 then n else CrossPort(c, CrossStage(c, n, r, k - 1), r, k - 1)
  }

  // ----- route calculation and VC allocation -----

  /** A ring router also requires that the input VC has no route fixed. */
  predicate NeedsRoute(c: Config, n: Net, i: Chan) {
    WantsRoute(n, i) && (c.shape.Ring? ==> n.I(i).grant.None?)
  }

  /** Route calculation from VC `v` of port `p` on. */
  function RouteStage(c: Config, n: Net, r: nat, p: nat, v: nat): (m: Net)
    requires Inv(c, n) && r < c.routers && p <= c.Ports() && v <= c.vcs
    ensures Inv(c, m)
    decreases c.Ports() - p, c.vcs - v
  {
    var i := Chan(r, p, v);
    if p == c.Ports() then n
    else if v == c.vcs then RouteStage(c, n, r, p + 1, 0)
    else if NeedsRoute(c, n, i) then
      CalculateRouteKeeps(c, n, i);
      RouteStage(c, CalculateRoute(c, n, i), r, p, v + 1)
    else RouteStage(c, n, r, p, v + 1)
  }

  /** The oldest routed head flit that may be given output channel `o`. */
  function PickVc(c: Config, n: Net, o: Chan): (w: Option<Chan>)
    requires o.router < c.routers
    ensures w.Some? ==> c.Has(w.value) && WantsVc(c, n, w.value, o)
    ensures forall i :: c.Has(i) && WantsVc(c, n, i, o) ==> w.Some? && FrontTime(n, w.value) <= FrontTime(n, i)
  {
    Oldest(c, o.router, i => WantsVc(c, n, i, o), i => FrontTime(n, i), 0, 0, None)
  }

  function GiveVc(c: Config, n: Net, o: Chan): (m: Net)
    requires Inv(c, n) && c.Has(o)
    ensures Inv(c, m)
  {
    if !n.O(o).avail then n
    else
      match PickVc(c, n, o)
      case None => n
      case Some(i) => AllocateVcKeeps(c, n, i, o); AllocateVc(n, i, o)
  }

  /** VC allocation from output VC `v` of port `p` on. */
  function VcStage(c: Config, n: Net, r: nat, p: nat, v: nat): (m: Net)
    requires Inv(c, n) && r < c.routers && p <= c.Ports() && v <= c.vcs
    ensures Inv(c, m)
    decreases c.Ports() - p, c.vcs - v
  {
    if p == c.Ports() then n
    else if v == c.vcs then VcStage(c, n, r, p + 1, 0)
    else VcStage(c, GiveVc(c, n, Chan(r, p, v)), r, p, v + 1)
  }

  // ----- injection -----

  predicate Fits(c: Config, n: Net, d: Chan, req: Req)
    requires c.linkWidth > 0
  {
    |n.I(d).buffer| + NumFlits(c, req) <= BUFFER_MAX
  }

  /** The first local input VC from `v` on with room for the whole packet. */
  function PickLocal(c: Config, n: Net, r: nat, req: Req, v: nat): (w: Option<nat>)
    requires c.linkWidth > 0 && v <= c.vcs
    ensures w.Some? ==> w.value < c.vcs && Fits(c, n, Chan(r, LOCAL, w.value), req)
    ensures w.None? ==> forall u :: v <= u < c.vcs ==> !Fits(c, n, Chan(r, LOCAL, u), req)
    decreases c.vcs - v
  {
    if v == c.vcs then None
    else if Fits(c, n, Chan(r, LOCAL, v), req) then Some(v)
    else PickLocal(c, n, r, req, v + 1)
  }

  /** Waiting requests enter the network until one does not fit anywhere. */
  function InjectStage(c: Config, n: Net, r: nat): (m: Net)
    requires Inv(c, n) && r < c.routers
    ensures Inv(c, m)
    ensures m.N(r).injection != [] ==>
              forall u :: 0 <= u < c.vcs ==> !Fits(c, m, Chan(r, LOCAL, u), m.N(r).injection[0])
    decreases |n.N(r).injection|
  {
    if n.N(r).injection == [] then n
    else
      match PickLocal(c, n, r, n.N(r).injection[0], 0)
      case None => n
      case Some(v) =>
        var d := Chan(r, LOCAL, v);
        InjectKeeps(c, n, d);
        InjectStage(c, InjectPacket(c, n, d), r)
  }

  // ----- cycles and runs -----

  function Tick(n: Net, r: nat): Net {
    n.(nodes := n.nodes[r := n.N(r).(cycle := n.N(r).cycle + 1)])
  }

  lemma NodesOnlyKeeps(c: Config, n: Net, m: Net)
    requires Inv(c, n) && m == n.(nodes := m.nodes)
    requires forall r :: m.N(r).pending == n.N(r).pending
    requires Waiting(c, m)
    ensures Inv(c, m)
  {
    hide Credits, Streams, Ownership, Phases, Places, Deliveries, Waiting;
    SameTables(n, m);
    CreditsFrame(c, n, m);
    StreamsFrame(c, n, m);
    OwnershipFrame(c, n, m);
    PhasesFrame(c, n, m);
    PlacesFrame(c, n, m);
  }

  lemma SameTables(n: Net, m: Net)
    requires m == n.(nodes := m.nodes)
    ensures SameFlits(n, m)
  {
  }

  lemma TickKeeps(c: Config, n: Net, r: nat)
    requires Inv(c, n)
    ensures Inv(c, Tick(n, r))
  {
    hide Credits, Streams, Ownership, Phases, Places, Deliveries;
    var m := Tick(n, r);
    WaitingFrame(c, n, m);
    NodesOnlyKeeps(c, n, m);
  }

  /** One cycle of one router; `now` is the global simulation cycle. */
  function RouterCycle(c: Config, n: Net, r: nat, now: int, locked: bool): (m: Net)
    requires Inv(c, n) && r < c.routers
    ensures Inv(c, m)
  {
    if locked then TickKeeps(c, n, r); Tick(n, r)
    else
      var n1 := ReturnReady(c, n, r, 0, now);
      var n2 := LinkStage(c, n1, r, c.Ports());
      var n3 := AllocationStage(c, n2, r, c.Ports());
      var n4 := CrossStage(c, n3, r, c.Ports());
      var n5 := RouteStage(c, n4, r, 0, 0);
      var n6 := VcStage(c, n5, r, 0, 0);
      var n7 := InjectStage(c, n6, r);
      TickKeeps(c, n7, r);
      Tick(n7, r)
  }

  /** A network cycle ticks `k` routers in turn, starting at router `first`. */
  function NetworkCycle(c: Config, n: Net, first: nat, k: nat, now: int, locked: bool): (m: Net)
    requires Inv(c, n)
    ensures Inv(c, m)
  {
    if k == 0 then n
    else RouterCycle(c, NetworkCycle(c, n, first, k - 1, now, locked), Turn(k - 1, first, c.routers), now, locked)
  }

  // ----- what the other stages leave alone -----

  ghost predicate SameClocks(n: Net, m: Net) {
    forall r: nat {:trigger m.N(r)} :: m.N(r).cycle == n.N(r).cycle
  }

  /** How many flits have left the output buffer. */
  function Left(ov: OutVc): int {
    |ov.switched| - |ov.buffer|
  }

  ghost predicate SameLinks(n: Net, m: Net) {
    forall p: Port {:trigger m.P(p)} :: m.P(p).linkReady == n.P(p).linkReady
  }

  /** Flits enter output buffers but none leaves one. */
  ghost predicate NoneLeft(n: Net, m: Net) {
    forall o: Chan {:trigger m.O(o)} :: Left(m.O(o)) == Left(n.O(o)) && n.O(o).switched <= m.O(o).switched
  }

  /** No flit goes over a link or out of the network. */
  ghost predicate Still(n: Net, m: Net) {
    SameClocks(n, m) && SameLinks(n, m) && NoneLeft(n, m)
  }

  lemma StillOn(n: Net, mid: Net, m: Net)
    requires Still(n, mid) && Still(mid, m)
    ensures Still(n, m)
  {
    forall r: nat ensures m.N(r).cycle == n.N(r).cycle { assert mid.N(r).cycle == n.N(r).cycle; }
    forall p: Port ensures m.P(p).linkReady == n.P(p).linkReady { assert mid.P(p).linkReady == n.P(p).linkReady; }
    forall o: Chan ensures Left(m.O(o)) == Left(n.O(o)) && n.O(o).switched <= m.O(o).switched {
      assert Left(mid.O(o)) == Left(n.O(o)) && n.O(o).switched <= mid.O(o).switched;
    }
  }

  lemma FlitClocks(c: Config, n: Net, o: Chan)
    requires n.O(o).buffer != []
    ensures c.Linked(o) ==> SameClocks(n, Traverse(c, n, o))
    ensures |n.O(o).buffer| <= |n.O(o).switched| ==> SameClocks(n, Eject(n, o))
  {
  }

  lemma SwitchStill(c: Config, n: Net, i: Chan)
    requires CanSwitch(n, i) && (i.port == LOCAL || c.Linked(i))
    ensures Still(n, Switch(c, n, i))
  {
  }

  lemma FrontStill(c: Config, n: Net, i: Chan, o: Chan)
    requires n.I(i).buffer != []
    ensures Still(n, AllocateSwitch(n, i, o.port)) && Still(n, CalculateRoute(c, n, i)) && Still(n, AllocateVc(n, i, o))
  {
  }

  lemma InjectStill(c: Config, n: Net, d: Chan)
    requires CanInject(c, n, d)
    ensures Still(n, InjectPacket(c, n, d))
  {
    hide FlitsOf, PiecesOf, PlacesOf;
  }

  lemma {:induction false} ReturnReadyStill(c: Config, n: Net, r: nat, k: nat, now: int)
    requires Inv(c, n) && r < c.routers && k <= |n.N(r).pending|
    requires forall j :: 0 <= j < k ==> n.N(r).pending[j].ready > now
    ensures Still(n, ReturnReady(c, n, r, k, now))
    decreases |n.N(r).pending| - k
  {
    hide Inv;
    if k == |n.N(r).pending| {
    } else if n.N(r).pending[k].ready <= now {
      ReturnKeeps(c, n, r, k);
      ReturnReadyStill(c, ReturnCredit(n, r, k), r, k, now);
    } else {
      ReturnReadyStill(c, n, r, k + 1, now);
    }
  }

  lemma LinkPortClocks(c: Config, n: Net, r: nat, port: nat)
    requires Inv(c, n) && r < c.routers && port < c.Ports()
    ensures SameClocks(n, LinkPort(c, n, r, port))
  {
    hide Inv, Traverse, Eject, PickLink;
    ConfigFacts(c, n);
    var v := PickLink(c, n, r, port, 0);
    if v.Some? {
      var o := Chan(r, port, v.value);
      OutputFacts(c, n, o);
      if port == LOCAL { EjectKeeps(c, n, o); }
      FlitClocks(c, n, o);
    }
  }

  lemma {:induction false} LinkStageClocks(c: Config, n: Net, r: nat, k: nat)
    requires Inv(c, n) && r < c.routers && k <= c.Ports()
    ensures SameClocks(n, LinkStage(c, n, r, k))
  {
    hide Inv, LinkPort;
    if k > 0 {
      LinkStageClocks(c, n, r, k - 1);
      LinkPortClocks(c, LinkStage(c, n, r, k - 1), r, k - 1);
    }
  }

  lemma SwitchPortStill(c: Config, n: Net, r: nat, op: nat)
    requires Inv(c, n) && r < c.routers
    ensures Still(n, SwitchPort(c, n, r, op))
  {
    hide Inv, PickSwitch, AllocateSwitch;
    var w := PickSwitch(c, n, r, op);
    if w.Some? { FrontStill(c, n, w.value, Chan(r, op, 0)); }
  }

  lemma {:induction false} AllocationStill(c: Config, n: Net, r: nat, k: nat)
    requires Inv(c, n) && r < c.routers
    ensures Still(n, AllocationStage(c, n, r, k))
  {
    hide Inv, SwitchPort;
    if k > 0 {
      var m := AllocationStage(c, n, r, k - 1);
      AllocationStill(c, n, r, k - 1);
      SwitchPortStill(c, m, r, k - 1);
      hide Still;
      StillOn(n, m, SwitchPort(c, m, r, k - 1));
    }
  }

  lemma {:induction false} CrossStill(c: Config, n: Net, r: nat, k: nat)
    requires Inv(c, n) && r < c.routers
    ensures Still(n, CrossStage(c, n, r, k))
  {
    hide Inv, PickWinner, Switch;
    if k > 0 {
      CrossStill(c, n, r, k - 1);
      var m := CrossStage(c, n, r, k - 1);
      var w := PickWinner(c, m, r, k - 1, 0, 0, None);
      if w.Some? {
        SwitchKeeps(c, m, w.value);
        SwitchStill(c, m, w.value);
      }
    }
  }

  lemma {:induction false} RouteStill(c: Config, n: Net, r: nat, p: nat, v: nat)
    requires Inv(c, n) && r < c.routers && p <= c.Ports() && v <= c.vcs
    ensures Still(n, RouteStage(c, n, r, p, v))
    decreases c.Ports() - p, c.vcs - v
  {
    hide Inv, CalculateRoute;
    var i := Chan(r, p, v);
    if p == c.Ports() {
    } else if v == c.vcs {
      RouteStill(c, n, r, p + 1, 0);
    } else if NeedsRoute(c, n, i) {
      CalculateRouteKeeps(c, n, i);
      FrontStill(c, n, i, i);
      RouteStill(c, CalculateRoute(c, n, i), r, p, v + 1);
    } else {
      RouteStill(c, n, r, p, v + 1);
    }
  }

  lemma GiveVcStill(c: Config, n: Net, o: Chan)
    requires Inv(c, n) && c.Has(o)
    ensures Still(n, GiveVc(c, n, o))
  {
    hide Inv, PickVc, AllocateVc;
    var w := PickVc(c, n, o);
    if w.Some? { FrontStill(c, n, w.value, o); }
  }

  lemma {:induction false} VcStill(c: Config, n: Net, r: nat, p: nat, v: nat)
    requires Inv(c, n) && r < c.routers && p <= c.Ports() && v <= c.vcs
    ensures Still(n, VcStage(c, n, r, p, v))
    decreases c.Ports() - p, c.vcs - v
  {
    hide Inv, GiveVc;
    if p == c.Ports() {
    } else if v == c.vcs {
      VcStill(c, n, r, p + 1, 0);
    } else {
      GiveVcStill(c, n, Chan(r, p, v));
      VcStill(c, GiveVc(c, n, Chan(r, p, v)), r, p, v + 1);
    }
  }

  lemma {:induction false} InjectStageStill(c: Config, n: Net, r: nat)
    requires Inv(c, n) && r < c.routers
    ensures Still(n, InjectStage(c, n, r))
    decreases |n.N(r).injection|
  {
    ConfigFacts(c, n);
    hide Inv, PickLocal, FlitsOf, PiecesOf, PlacesOf;
    if n.N(r).injection != [] {
      var v := PickLocal(c, n, r, n.N(r).injection[0], 0);
      if v.Some? {
        var d := Chan(r, LOCAL, v.value);
        InjectKeeps(c, n, d);
        InjectStill(c, n, d);
        hide Still, InjectPacket;
        InjectStageStill(c, InjectPacket(c, n, d), r);
        StillOn(n, InjectPacket(c, n, d), InjectStage(c, n, r));
      }
    }
  }

  lemma RouterTicks(c: Config, n: Net, r: nat, now: int, locked: bool, q: nat)
    requires Inv(c, n) && r < c.routers
    ensures RouterCycle(c, n, r, now, locked).N(q).cycle == n.N(q).cycle + if q == r then 1 else 0
  {
    hide Inv, ReturnReady, LinkStage, AllocationStage, CrossStage, RouteStage, VcStage, InjectStage;
    if !locked {
      var n1 := ReturnReady(c, n, r, 0, now);
      var n2 := LinkStage(c, n1, r, c.Ports());
      var n3 := AllocationStage(c, n2, r, c.Ports());
      var n4 := CrossStage(c, n3, r, c.Ports());
      var n5 := RouteStage(c, n4, r, 0, 0);
      var n6 := VcStage(c, n5, r, 0, 0);
      ReturnReadyStill(c, n, r, 0, now);
      LinkStageClocks(c, n1, r, c.Ports());
      AllocationStill(c, n2, r, c.Ports());
      CrossStill(c, n3, r, c.Ports());
      RouteStill(c, n4, r, 0, 0);
      VcStill(c, n5, r, 0, 0);
      InjectStageStill(c, n6, r);
      var n7 := InjectStage(c, n6, r);
      assert n7.N(q).cycle == n6.N(q).cycle == n5.N(q).cycle == n4.N(q).cycle == n3.N(q).cycle;
      assert n3.N(q).cycle == n2.N(q).cycle == n1.N(q).cycle == n.N(q).cycle;
    }
  }

  /** After `k` steps a router has run once if it was visited, and else not at all. */
  lemma {:induction false} NetworkTicks(c: Config, n: Net, first: nat, k: nat, now: int, locked: bool, i: nat)
    requires Inv(c, n) && k <= c.routers && i < c.routers
    ensures var q := Turn(i, first, c.routers);
            NetworkCycle(c, n, first, k, now, locked).N(q).cycle == n.N(q).cycle + if i < k then 1 else 0
  {
    hide Inv, RouterCycle, Turn;
    if k > 0 {
      NetworkTicks(c, n, first, k - 1, now, locked, i);
      RouterTicks(c, NetworkCycle(c, n, first, k - 1, now, locked), Turn(k - 1, first, c.routers), now, locked, Turn(i, first, c.routers));
      if i < k - 1 {
        TurnOnce(i, k - 1, first, c.routers);
      } else if i > k - 1 {
        TurnOnce(k - 1, i, first, c.routers);
      }
    }
  }

  /** In a network cycle, from whatever router it starts, every router runs exactly once. */
  lemma EveryRouterOnce(c: Config, n: Net, first: nat, now: int, locked: bool, r: nat)
    requires Inv(c, n) && r < c.routers
    ensures NetworkCycle(c, n, first, c.routers, now, locked).N(r).cycle == n.N(r).cycle + 1
  {
    hide Inv, Turn, NetworkCycle;
    var i := TurnAll(r, first, c.routers);
    NetworkTicks(c, n, first, c.routers, now, locked, i);
  }

  /** The network interface offers a request; it is refused when the queue is full. */
  function Send(c: Config, n: Net, r: nat, req: Req): (m: Net)
    requires Inv(c, n) && r < c.routers && req.dst < c.routers
    ensures Inv(c, m)
  {
    if |n.N(r).injection| >= INJECTION_MAX then n
    else
      var m := n.(nodes := n.nodes[r := n.N(r).(injection := n.N(r).injection + [req])]);
      SendWaiting(c, n, r, req);
      NodesOnlyKeeps(c, n, m);
      m
  }

  lemma SendWaiting(c: Config, n: Net, r: nat, req: Req)
    requires Waiting(c, n) && r < c.routers && req.dst < c.routers
    ensures Waiting(c, n.(nodes := n.nodes[r := n.N(r).(injection := n.N(r).injection + [req])]))
  {
    var m := n.(nodes := n.nodes[r := n.N(r).(injection := n.N(r).injection + [req])]);
    hide BoundFor;
    forall q | 0 <= q < c.routers ensures WaitingOk(c, m.N(q).injection) { assert WaitingOk(c, n.N(q).injection); }
    forall q: nat ensures MailOk(m, q) { assert MailOk(n, q); }
  }

  function Taking(node: Node): Node
    requires node.mailbox != []
  {
    node.(mailbox := node.mailbox[1..], taken := node.taken + [node.mailbox[0]])
  }

  /** The node takes the request at the front of its mailbox. */
  function Receive(c: Config, n: Net, r: nat): (m: Net)
    requires Inv(c, n)
    ensures Inv(c, m)
  {
    if n.N(r).mailbox == [] then n
    else
      var m := n.(nodes := n.nodes[r := Taking(n.N(r))]);
      ReceiveWaiting(c, n, r);
      NodesOnlyKeeps(c, n, m);
      m
  }

  lemma ReceiveWaiting(c: Config, n: Net, r: nat)
    requires Waiting(c, n) && n.N(r).mailbox != []
    ensures Waiting(c, n.(nodes := n.nodes[r := Taking(n.N(r))]))
  {
    hide BoundFor;
    var m := n.(nodes := n.nodes[r := Taking(n.N(r))]);
    forall q | 0 <= q < c.routers ensures WaitingOk(c, m.N(q).injection) { assert WaitingOk(c, n.N(q).injection); }
    forall q: nat ensures MailOk(m, q) {
      assert MailOk(n, q);
      if q == r {
        var a, b := n.N(r).taken, n.N(r).mailbox;
        assert (a + [b[0]]) + b[1..] == a + b;
      }
    }
  }

  datatype Event = CycleEvent(first: nat, now: int, locked: bool) | SendEvent(router: nat, req: Req) | ReceiveEvent(router: nat)

  /** Requests are sent between routers of the network. */
  predicate EventOk(c: Config, e: Event) {
    e.SendEvent? ==> e.router < c.routers && e.req.dst < c.routers
  }

  ghost predicate Setup(c: Config) {
    c.Valid() && Wired(c)
  }

  /** Every ring and every square mesh can be set up. */
  lemma ShapesSetUp(n: nat, vcs: nat, linkWidth: nat, linkLatency: nat)
    requires n > 0 && vcs >= 2 && linkWidth > 0
    ensures Setup(RingConfig(n, vcs, linkWidth, linkLatency)) && Setup(MeshConfig(n, vcs, linkWidth, linkLatency))
  {
    hide RingConfig, MeshConfig, Wired;
  }

  function Apply(c: Config, n: Net, e: Event): (m: Net)
    requires Inv(c, n) && EventOk(c, e)
    ensures Inv(c, m)
  {
    match e
    case CycleEvent(first, now, locked) => NetworkCycle(c, n, first, c.routers, now, locked)
    case SendEvent(r, req) => Send(c, n, r, req)
    case ReceiveEvent(r) => Receive(c, n, r)
  }

  /** The state after a run of events from power-on. Every reachable state satisfies the invariant. */
  function Run(c: Config, events: seq<Event>): (n: Net)
    requires Setup(c) && forall e :: e in events ==> EventOk(c, e)
    ensures Inv(c, n)
  {
    if events == [] then InitKeeps(c); INIT
    else
      var e := events[|events| - 1];
      assert e in events;
      Apply(c, Run(c, events[..|events| - 1]), e)
  }

  lemma InitKeeps(c: Config)
    requires Setup(c)
    ensures Inv(c, INIT)
  {
    forall ch ensures InRecorded(INIT.place, ch, INIT.I(ch)) && OutRecorded(INIT.place, ch, INIT.O(ch)) {}
  }
}
