/** State of the whole network of wormhole routers, and the elementary moves that
    the pipeline stages of a router are made of. */
module NocState {
  import opened Options
  import opened NocTopology

  /** Capacity of an input buffer, and the initial credit of an output VC. */
  const BUFFER_MAX: nat := 10
  const INJECTION_MAX: nat := 32

  /** A memory request as the network interface sees it. */
  datatype Req = Req(name: nat, dst: nat, data: bool, size: nat)

  /** What never changes about a flit: the packet (numbered in order of injection),
      its position in the packet, the packet's length and the request. */
  datatype Piece = Piece(pkt: nat, id: nat, num: nat, req: Req) {
    predicate Head() { id == 0 }

    predicate Tail() { id + 1 == num }

    function Next(): Piece { Piece(pkt, id + 1, num, req) }

    function Key(): (nat, nat) { (pkt, id) }
  }

  datatype Phase = IB | RC | VCA | SA | ST

  datatype Flit = Flit(piece: Piece, phase: Phase, time: nat, ready: nat, dir: int)

  datatype Credit = Credit(port: nat, vc: nat, ready: int)

  /** One input VC. `grant` stands for `m_route_fixed`, `m_output_port_id` and
      `m_output_vc_id`, which are always written together. `arrived` is history:
      every flit that ever entered the buffer. */
  datatype InVc = InVc(buffer: seq<Flit>, routes: Routes, grant: Option<Chan>, arrived: seq<Piece>)

  /** One output VC. `owner` (the input VC that was granted it) and `switched` (every
      flit that ever entered the buffer) are history. */
  datatype OutVc = OutVc(buffer: seq<Flit>, avail: bool, credit: int, owner: Option<Chan>, switched: seq<Piece>)

  /** The cycle from which the switch and the link of a port are free. */
  datatype PortState = PortState(swReady: nat, linkReady: nat)

  /** `taken` (the requests that left the mailbox) is history. */
  datatype Node = Node(pending: seq<Credit>, injection: seq<Req>, mailbox: seq<Req>, cycle: nat, taken: seq<Req>)

  datatype Packet = Packet(req: Req, num: nat)

  /** Where a flit is: waiting in an input or output buffer, or handed to the local
      node. `pos` counts the flits that entered that buffer before it. */
  datatype Place = In(chan: Chan, pos: nat) | Out(chan: Chan, pos: nat) | Ejected(chan: Chan, pos: nat)

  const IDLE_IN := InVc([], Routes({}, {}), None, [])
  const IDLE_OUT := OutVc([], true, BUFFER_MAX, None, [])
  const IDLE_PORT := PortState(0, 0)
  const IDLE_NODE := Node([], [], [], 0, [])

  /** All routers together. What a table does not mention is in its initial state.
      `place`, `log` and `delivered` are history; a new packet takes its number from `log`, and no
      stage reads them otherwise. */
  datatype Net = Net(
    ins: map<Chan, InVc>,
    outs: map<Chan, OutVc>,
    ports: map<Port, PortState>,
    nodes: map<nat, Node>,
    total: int,
    place: map<(nat, nat), Place>,
    log: seq<Packet>,
    delivered: seq<nat>)
  {
    function I(ch: Chan): InVc { if ch in ins then ins[ch] else IDLE_IN }

    function O(ch: Chan): OutVc { if ch in outs then outs[ch] else IDLE_OUT }

    function P(p: Port): PortState { if p in ports then ports[p] else IDLE_PORT }

    function N(r: nat): Node { if r in nodes then nodes[r] else IDLE_NODE }
  }

  const INIT := Net(map[], map[], map[], map[], 0, map[], [], [])

  function NumFlits(c: Config, req: Req): nat
    requires c.linkWidth > 0
  {
    if req.data then 1 + req.size / c.linkWidth else 1
  }

  // ----- elementary moves -----

  /** A credit leaves the pending list and is added to its counter. */
  function ReturnCredit(n: Net, r: nat, k: nat): Net
    requires k < |n.N(r).pending|
  {
    var node := n.N(r);
    var credit := node.pending[k];
    var o := Chan(r, credit.port, credit.vc);
    n.(outs := n.outs[o := n.O(o).(credit := n.O(o).credit + 1)],
       nodes := n.nodes[r := node.(pending := node.pending[..k] + node.pending[k + 1..])])
  }

  /** Link traversal of the front flit of an output channel to the next router. */
  function Traverse(c: Config, n: Net, o: Chan): Net
    requires n.O(o).buffer != [] && c.Linked(o)
  {
    var ov, d := n.O(o), c.Peer(o);
    var iv, f, now, port := n.I(d), ov.buffer[0], n.N(o.router).cycle, Port(o.router, o.port);
    n.(ins := n.ins[d := iv.(buffer := iv.buffer + [f.(phase := IB, ready := now + c.linkLatency + 1)],
                             arrived := iv.arrived + [f.piece])],
       outs := n.outs[o := ov.(buffer := ov.buffer[1..], credit := ov.credit - 1, avail := ov.avail || f.piece.Tail())],
       ports := n.ports[port := n.P(port).(linkReady := now + c.linkLatency)],
       place := n.place[f.piece.Key() := In(d, |iv.arrived|)])
  }

  /** Link traversal of the front flit of a local output channel: the flit leaves the
      network and, if it is the tail, the request is handed over. */
  function Eject(n: Net, o: Chan): Net
    requires n.O(o).buffer != [] && |n.O(o).buffer| <= |n.O(o).switched|
  {
    var ov, node := n.O(o), n.N(o.router);
    var f := ov.buffer[0];
    var done := f.piece.Tail();
    n.(outs := n.outs[o := ov.(buffer := ov.buffer[1..], avail := ov.avail || done)],
       nodes := if done then n.nodes[o.router := node.(mailbox := node.mailbox + [f.piece.req])] else n.nodes,
       total := if done then n.total - 1 else n.total,
       place := n.place[f.piece.Key() := Ejected(o, |ov.switched| - |ov.buffer|)],
       delivered := if done then n.delivered + [f.piece.pkt] else n.delivered)
  }

  function WithFront(iv: InVc, f: Flit): InVc
    requires iv.buffer != []
  {
    iv.(buffer := [f] + iv.buffer[1..])
  }

  /** Switch allocation of output port `op` to the front flit of `i`. */
  function AllocateSwitch(n: Net, i: Chan, op: nat): Net
    requires n.I(i).buffer != []
  {
    var port := Port(i.router, op);
    n.(ins := n.ins[i := WithFront(n.I(i), n.I(i).buffer[0].(phase := SA))],
       ports := n.ports[port := n.P(port).(swReady := n.N(i.router).cycle + 1)])
  }

  /** Switch traversal of the front flit of `i` into the output channel it was granted. */
  function CrossSwitch(n: Net, i: Chan): Net
    requires n.I(i).buffer != [] && n.I(i).grant.Some?
  {
    var iv := n.I(i);
    var f, o := iv.buffer[0], iv.grant.value;
    var ov := n.O(o);
    n.(ins := n.ins[i := iv.(buffer := iv.buffer[1..], grant := if f.piece.Tail() then None else iv.grant)],
       outs := n.outs[o := ov.(buffer := ov.buffer + [f.(phase := ST)], switched := ov.switched + [f.piece],
                               owner := if f.piece.Tail() then None else ov.owner)],
       place := n.place[f.piece.Key() := Out(o, |ov.switched|)])
  }

  /** A credit for the slot freed in `i` is sent back to the router feeding it. */
  function SendCredit(c: Config, n: Net, i: Chan): Net
    requires c.Linked(i)
  {
    var up := c.Peer(i).router;
    var node := n.N(up);
    n.(nodes := n.nodes[up := node.(pending := node.pending + [Credit(Opposite(i.port), i.vc, n.N(i.router).cycle + 1)])])
  }

  /** Switch traversal with its credit. */
  function Switch(c: Config, n: Net, i: Chan): Net
    requires n.I(i).buffer != [] && n.I(i).grant.Some?
    requires i.port == LOCAL || c.Linked(i)
  {
    if i.port == LOCAL then CrossSwitch(n, i) else SendCredit(c, CrossSwitch(n, i), i)
  }

  /** Route calculation for the head flit at the front of `i`. */
  function CalculateRoute(c: Config, n: Net, i: Chan): Net
    requires n.I(i).buffer != []
  {
    var f := n.I(i).buffer[0];
    var (routes, dir) := RouteOf(c, i.router, f.piece.req.dst, f.dir, n.I(i).routes);
    n.(ins := n.ins[i := WithFront(n.I(i), f.(phase := RC, dir := dir)).(routes := routes)])
  }

  /** VC allocation: output channel `o` is given to the packet at the front of `i`. */
  function AllocateVc(n: Net, i: Chan, o: Chan): Net
    requires n.I(i).buffer != []
  {
    n.(ins := n.ins[i := WithFront(n.I(i), n.I(i).buffer[0].(phase := VCA)).(grant := Some(o))],
       outs := n.outs[o := n.O(o).(avail := false, owner := Some(i))])
  }

  /** The flits a request is cut into. */
  function FlitsOf(pkt: nat, num: nat, req: Req, now: nat): (s: seq<Flit>)
    ensures |s| == num
    ensures forall k :: 0 <= k < num ==> s[k] == Flit(Piece(pkt, k, num, req), IB, now, now, -1)
  {
    seq(num, k requires 0 <= k => Flit(Piece(pkt, k, num, req), IB, now, now, -1))
  }

  function PiecesOf(pkt: nat, num: nat, req: Req): (s: seq<Piece>)
    ensures |s| == num
    ensures forall k :: 0 <= k < num ==> s[k] == Piece(pkt, k, num, req)
  {
    seq(num, k requires 0 <= k => Piece(pkt, k, num, req))
  }

  /** Places of the flits of a packet that enters channel `d` after `base` others. */
  function PlacesOf(pkt: nat, num: nat, d: Chan, base: nat): (m: map<(nat, nat), Place>)
    ensures forall p: nat, k: nat :: (p, k) in m <==> p == pkt && k < num
    ensures forall k: nat :: k < num ==> m[(pkt, k)] == In(d, base + k)
  {
    if num == 0 then map[] else PlacesOf(pkt, num - 1, d, base)[(pkt, num - 1) := In(d, base + num - 1)]
  }

  /** The oldest waiting request enters local input VC `d` as a packet of flits. */
  function InjectPacket(c: Config, n: Net, d: Chan): Net
    requires c.linkWidth > 0 && n.N(d.router).injection != []
  {
    var node, iv, pkt := n.N(d.router), n.I(d), |n.log|;
    var req := node.injection[0];
    var num := NumFlits(c, req);
    n.(ins := n.ins[d := iv.(buffer := iv.buffer + FlitsOf(pkt, num, req, node.cycle),
                             arrived := iv.arrived + PiecesOf(pkt, num, req))],
       nodes := n.nodes[d.router := node.(injection := node.injection[1..])],
       total := n.total + 1,
       place := n.place + PlacesOf(pkt, num, d, |iv.arrived|),
       log := n.log + [Packet(req, num)])
  }
}
