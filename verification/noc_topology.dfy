/** Shapes of the on-chip network: which router sits behind which port, and the
    ports that route calculation offers to a packet. */
module NocTopology {
  import opened Arithmetic
  import opened Options

  const LOCAL: nat := 0
  const LEFT: nat := 1
  const RIGHT: nat := 2
  const UP: nat := 3
  const DOWN: nat := 4

  datatype Shape = Ring | Mesh(width: nat)

  datatype Port = Port(router: nat, port: nat)

  /** One virtual channel of one port of one router. */
  datatype Chan = Chan(router: nat, port: nat, vc: nat)

  /** The two rows of `m_route[port][vc]`: the adaptive and the escape ports. */
  datatype Routes = Routes(adaptive: set<nat>, escape: set<nat>)

  function Opposite(port: nat): nat {
    if port == LEFT then RIGHT
    else if port == RIGHT then LEFT
    else if port == UP then DOWN
    else if port == DOWN then UP
    else port
  }

  /** `link` holds the router wired to each port that is wired at all. */
  datatype Config = Config(shape: Shape, routers: nat, vcs: nat, linkWidth: nat, linkLatency: nat, link: map<Port, nat>) {
    function Ports(): nat {
      if shape.Ring? then 3 else 5
    }

    predicate Has(ch: Chan) {
      ch.router < routers && ch.port < Ports() && ch.vc < vcs
    }

    predicate Linked(ch: Chan) {
      Port(ch.router, ch.port) in link
    }

    /** The channel at the far end of a link. Links are symmetric, so this leads
        from an output channel to the input it feeds and from an input channel
        back to the output feeding it. */
    function Peer(ch: Chan): Chan
      requires Linked(ch)
    {
      Chan(link[Port(ch.router, ch.port)], Opposite(ch.port), ch.vc)
    }

    /** A link joins non-local ports of existing routers, and goes both ways. */
    ghost predicate LinkOk(p: Port)
      requires p in link
    {
      var far := Port(link[p], Opposite(p.port));
      && p.router < routers && 0 < p.port < Ports() && link[p] < routers && far.port < Ports()
      && far in link && link[far] == p.router
    }

    ghost predicate Symmetric() {
      forall p {:trigger LinkOk(p)} :: p in link ==> LinkOk(p)
    }

    ghost predicate Valid() {
      routers > 0 && linkWidth > 0 && vcs >= 2 && Symmetric()
    }
  }

  /** Every wired channel is the peer of its peer. */
  lemma PeerSymmetric(c: Config, ch: Chan)
    requires c.Valid() && c.Linked(ch) && ch.vc < c.vcs
    ensures c.Has(c.Peer(ch)) && c.Linked(c.Peer(ch)) && c.Peer(c.Peer(ch)) == ch
    ensures ch.port != LOCAL && c.Peer(ch).port != LOCAL
  {
    var near := Port(ch.router, ch.port);
    assert c.LinkOk(near);
  }

  /** Two different wired channels never have the same peer. */
  lemma PeerInjective(c: Config, a: Chan, b: Chan)
    requires c.Valid() && c.Linked(a) && c.Linked(b) && a.vc < c.vcs && b.vc < c.vcs
    ensures c.Peer(a) == c.Peer(b) ==> a == b
  {
    PeerSymmetric(c, a);
    PeerSymmetric(c, b);
  }

  // ----- wiring -----

  /** The router behind a port of a ring of `n` routers. */
  function RingNeighbour(n: nat, p: Port): (r: Option<nat>)
    requires n > 0
  {
    if p.port == LEFT then Some((p.router + n - 1) % n)
    else if p.port == RIGHT then Some((p.router + 1) % n)
    else None
  }

  /** The router behind a port of a mesh with rows of `w` routers. */
  function MeshNeighbour(w: nat, p: Port): (r: Option<nat>)
    requires w > 0
  {
    var r := p.router;
    if p.port == UP && r / w > 0 then MeshUp(w, r); Some(r - w)
    else if p.port == DOWN && r / w < w - 1 then Some(r + w)
    else if p.port == LEFT && r % w != 0 then Some(r - 1)
    else if p.port == RIGHT && r % w != w - 1 then Some(r + 1)
    else None
  }

  function RingConfig(n: nat, vcs: nat, linkWidth: nat, linkLatency: nat): (c: Config)
    requires n > 0 && vcs >= 2 && linkWidth > 0
    ensures c.Valid() && Wired(c) && c.routers == n && c.vcs == vcs && c.shape == Ring
  {
    var ports := set r: nat, p: nat | r < n && p < 3 :: Port(r, p);
    var c := Config(Ring, n, vcs, linkWidth, linkLatency,
                    map p | p in ports && RingNeighbour(n, p).Some? :: RingNeighbour(n, p).value);
    assert c.Symmetric() by {
      forall p | p in c.link
        ensures c.LinkOk(p)
      {
        RingSymmetric(n, p.router);
        assert Port(c.link[p], Opposite(p.port)) in ports;
      }
    }
    RingWired(c, ports);
    c
  }

  function MeshConfig(w: nat, vcs: nat, linkWidth: nat, linkLatency: nat): (c: Config)
    requires w > 0 && vcs >= 2 && linkWidth > 0
    ensures c.Valid() && Wired(c) && c.routers == w * w && c.vcs == vcs && c.shape == Mesh(w)
  {
    var n := w * w;
    var ports := set r: nat, p: nat | r < n && p < 5 :: Port(r, p);
    var c := Config(Mesh(w), n, vcs, linkWidth, linkLatency,
                    map p | p in ports && MeshNeighbour(w, p).Some? :: MeshNeighbour(w, p).value);
    assert c.Symmetric() by {
      forall p | p in c.link
        ensures c.LinkOk(p)
      {
        MeshSymmetric(w, p);
        assert Port(c.link[p], Opposite(p.port)) in ports;
      }
    }
    assert n > 0;
    MeshWired(c, w, ports);
    c
  }

  /** Quotient and remainder are determined by the decomposition. */
  lemma DivModUnique(n: nat, w: nat, q: nat, r: nat)
    requires w > 0 && r < w && n == q * w + r
    ensures n / w == q && n % w == r
  {
    DivModOf(q, w, r);
  }

  lemma RingSymmetric(n: nat, r: nat)
    requires r < n
    ensures (r + n - 1) % n < n && ((r + n - 1) % n + 1) % n == r
    ensures (r + 1) % n < n && ((r + 1) % n + n - 1) % n == r
  {
    if r > 0 {
      DivModUnique(r + n - 1, n, 1, r - 1);
      DivModUnique(r, n, 0, r);
    } else {
      DivModUnique(n - 1, n, 0, n - 1);
      DivModUnique(n, n, 1, 0);
    }
    if r + 1 < n {
      DivModUnique(r + 1, n, 0, r + 1);
      DivModUnique(r + n, n, 1, r);
    } else {
      DivModUnique(n, n, 1, 0);
      DivModUnique(n - 1, n, 0, n - 1);
    }
  }

  lemma MeshRow(w: nat, r: nat)
    requires w > 0 && r < w * w
    ensures r / w < w
  {
    var y := r / w;
    assert r == y * w + r % w;
    if y > w {
      MultiplesApart(w, y, w);
    }
  }

  lemma MeshUp(w: nat, r: nat)
    requires w > 0 && r / w > 0
    ensures r >= w && (r - w) / w == r / w - 1 && (r - w) % w == r % w
  {
    var y, x := r / w, r % w;
    assert r == y * w + x;
    MultiplesApart(0, y, w);
    assert r - w == (y - 1) * w + x;
    DivModUnique(r - w, w, y - 1, x);
  }

  lemma MeshDown(w: nat, r: nat)
    requires w > 0 && r / w < w - 1
    ensures r + w < w * w && (r + w) / w == r / w + 1 && (r + w) % w == r % w
  {
    var y, x := r / w, r % w;
    assert r == y * w + x;
    MultiplesApart(y + 1, w, w);
    assert r + w == (y + 1) * w + x;
    DivModUnique(r + w, w, y + 1, x);
  }

  lemma MeshLeft(w: nat, r: nat)
    requires w > 0 && r % w != 0
    ensures r > 0 && (r - 1) / w == r / w && (r - 1) % w == r % w - 1
  {
    DivModUnique(r - 1, w, r / w, r % w - 1);
  }

  lemma MeshRight(w: nat, r: nat)
    requires w > 0 && r < w * w && r % w != w - 1
    ensures r + 1 < w * w && (r + 1) / w == r / w && (r + 1) % w == r % w + 1
  {
    MeshRow(w, r);
    MultiplesApart(r / w, w, w);
    DivModUnique(r + 1, w, r / w, r % w + 1);
  }

  lemma MeshSymmetric(w: nat, p: Port)
    requires w > 0 && p.router < w * w && MeshNeighbour(w, p).Some?
    ensures MeshNeighbour(w, p).value < w * w
    ensures MeshNeighbour(w, Port(MeshNeighbour(w, p).value, Opposite(p.port))) == Some(p.router)
  {
    MeshRow(w, p.router);
    if p.port == UP {
      MeshUp(w, p.router);
    } else if p.port == DOWN {
      MeshDown(w, p.router);
    } else if p.port == LEFT {
      MeshLeft(w, p.router);
    } else {
      MeshRight(w, p.router);
    }
  }

  // ----- routing -----

  /** Ring routing: the shorter way round, chosen once and then kept in `dir`
      (-1 while none was chosen). Only the first row is written. */
  function RingRoute(n: nat, router: nat, dst: nat, dir: int, before: Routes): (Routes, int) {
    if dst == router then (Routes({LOCAL}, before.escape), dir)
    else if dir >= 0 then (Routes({dir as nat}, before.escape), dir)
    else
      var left := if router > dst then router - dst else router - dst + n;
      var right := if router > dst then dst - router + n else dst - router;
      if left < right then (Routes({LEFT}, before.escape), LEFT)
      else (Routes({RIGHT}, before.escape), RIGHT)
  }

  /** Mesh routing: every productive port in the first row, dimension order in the second. */
  function MeshRoute(w: nat, router: nat, dst: nat): Routes
    requires w > 0
  {
    if dst == router then Routes({LOCAL}, {LOCAL})
    else
      var xSrc, ySrc, xDst, yDst := router % w, router / w, dst % w, dst / w;
      var horizontal := if xSrc > xDst then {LEFT} else if xSrc < xDst then {RIGHT} else {};
      var vertical := if ySrc > yDst then {UP} else if ySrc < yDst then {DOWN} else {};
      Routes(horizontal + vertical, if horizontal != {} then horizontal else vertical)
  }

  function RouteOf(c: Config, router: nat, dst: nat, dir: int, before: Routes): (Routes, int) {
    match c.shape
    case Ring => RingRoute(c.routers, router, dst, dir, before)
    case Mesh(w) => if w == 0 then (before, dir) else (MeshRoute(w, router, dst), dir)
  }

  /** Whether VC allocation may give output channel `out` to a packet bound for
      `dst` whose route calculation produced `routes`. On a mesh the last VC uses
      the escape row. The two last VCs of a ring are split by the side on which
      the destination lies (Duato's rule). */
  predicate Offers(c: Config, out: Chan, routes: Routes, dst: nat) {
    match c.shape
    case Ring =>
      && out.port in routes.adaptive
      && (out.vc == c.vcs - 2 ==> out.router <= dst)
      && (out.vc == c.vcs - 1 ==> out.router >= dst)
    case Mesh(_) =>
      out.port in (if out.vc < c.vcs - 1 then routes.adaptive else routes.escape)
  }

  /** The row index `ovc / (m_num_vc - 1)` of a mesh router is 1 for the last VC only. */
  lemma EscapeRow(vcs: nat, vc: nat)
    requires vcs >= 2 && vc < vcs
    ensures vc / (vcs - 1) == if vc < vcs - 1 then 0 else 1
  {
    if vc < vcs - 1 {
      DivModUnique(vc, vcs - 1, 0, vc);
    } else {
      DivModUnique(vc, vcs - 1, 1, 0);
    }
  }

  /** Number of routers in `rows` rows of `w`. */
  function Area(w: nat, rows: nat): nat {
    if rows == 0 then 0 else Area(w, rows - 1) + w
  }

  lemma {:induction false} AreaIsProduct(w: nat, rows: nat)
    ensures Area(w, rows) == w * rows
  {
    if rows > 0 {
      AreaIsProduct(w, rows - 1);
      assert w * rows == w * (rows - 1) + w;
    }
  }

  /** Routers and wiring really are those of the shape. */
  ghost predicate Wired(c: Config) {
    match c.shape
    case Ring =>
      c.routers > 0 &&
      forall r: nat, p: nat {:trigger RingNeighbour(c.routers, Port(r, p))} ::
        r < c.routers && RingNeighbour(c.routers, Port(r, p)).Some? ==> Port(r, p) in c.link
    case Mesh(w) =>
      && w > 0 && Area(w, w) == c.routers
      && forall r: nat, p: nat {:trigger MeshNeighbour(w, Port(r, p))} ::
           r < c.routers && MeshNeighbour(w, Port(r, p)).Some? ==> Port(r, p) in c.link
  }

  lemma RingWired(c: Config, ports: set<Port>)
    requires c.shape == Ring && c.routers > 0
    requires forall r: nat, p: nat :: r < c.routers && p < 3 ==> Port(r, p) in ports
    requires forall p :: p in ports && RingNeighbour(c.routers, p).Some? ==> p in c.link
    ensures Wired(c)
  {
    forall r: nat, p: nat | r < c.routers && RingNeighbour(c.routers, Port(r, p)).Some? ensures Port(r, p) in c.link {
      assert Port(r, p) in ports;
    }
  }

  lemma MeshWired(c: Config, w: nat, ports: set<Port>)
    requires c.shape == Mesh(w) && w > 0 && c.routers == w * w
    requires forall r: nat, p: nat :: r < c.routers && p < 5 ==> Port(r, p) in ports
    requires forall p :: p in ports && MeshNeighbour(w, p).Some? ==> p in c.link
    ensures Wired(c)
  {
    AreaIsProduct(w, w);
    forall r: nat, p: nat | r < c.routers && MeshNeighbour(w, Port(r, p)).Some? ensures Port(r, p) in c.link {
      assert p < 5;
      assert Port(r, p) in ports;
    }
  }

  /** A sticky direction that the head flit may carry. */
  predicate DirOk(dir: int) {
    dir == -1 || dir == LEFT || dir == RIGHT
  }

  lemma MeshRouteIsSound(w: nat, router: nat, dst: nat, port: nat)
    requires w > 0 && router < w * w && dst < w * w
    requires port in MeshRoute(w, router, dst).adaptive || port in MeshRoute(w, router, dst).escape
    ensures if port == LOCAL then dst == router else MeshNeighbour(w, Port(router, port)).Some?
  {
    hide MeshRoute, MeshNeighbour;
    MeshRow(w, router);
    MeshRow(w, dst);
    MeshPorts(w, router, dst, port);
  }

  lemma MeshPorts(w: nat, router: nat, dst: nat, port: nat)
    requires w > 0 && router / w < w && dst / w < w
    requires port in MeshRoute(w, router, dst).adaptive || port in MeshRoute(w, router, dst).escape
    ensures if port == LOCAL then dst == router else MeshNeighbour(w, Port(router, port)).Some?
  {
  }

  /** Route calculation offers the local port only at the destination, and otherwise
      only ports that are wired. */
  lemma RouteIsSound(c: Config, router: nat, dst: nat, dir: int, before: Routes, out: Chan)
    requires Wired(c) && router < c.routers && dst < c.routers && DirOk(dir) && out.router == router
    ensures DirOk(RouteOf(c, router, dst, dir, before).1)
    ensures Offers(c, out, RouteOf(c, router, dst, dir, before).0, dst) ==>
              if out.port == LOCAL then dst == router else c.Linked(out)
  {
    if c.shape.Ring? {
      assert RingNeighbour(c.routers, Port(router, out.port)).Some? <==> out.port == LEFT || out.port == RIGHT;
    } else if Offers(c, out, RouteOf(c, router, dst, dir, before).0, dst) {
      AreaIsProduct(c.shape.width, c.shape.width);
      MeshRouteIsSound(c.shape.width, router, dst, out.port);
    }
  }
}
