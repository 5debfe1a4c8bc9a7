/** Routing is minimal, and the channels that packets can always fall back on never wait for
    each other in a circle. */
module NocRouting {
  import opened Arithmetic
  import opened Options
  import opened NocTopology

  // ----- ring -----

  /** The hops from `r` to `dst` on a ring of `n` routers, going out through `port` every time. */
  function RingHops(n: nat, r: nat, dst: nat, port: nat): int {
    if port == RIGHT then (if r <= dst then dst - r else dst - r + n)
    else (if dst <= r then r - dst else r - dst + n)
  }

  lemma RingStep(n: nat, r: nat)
    requires r < n
    ensures RingNeighbour(n, Port(r, RIGHT)) == Some(if r + 1 < n then r + 1 else 0)
    ensures RingNeighbour(n, Port(r, LEFT)) == Some(if r > 0 then r - 1 else n - 1)
  {
    if r + 1 < n { DivModOf(0, n, r + 1); } else { DivModOf(1, n, 0); }
    if r > 0 { DivModOf(1, n, r - 1); } else { DivModOf(0, n, n - 1); }
  }

  /** Away from its destination a packet is offered one way round: the shorter one, if it has not
      chosen yet, and else the one it chose. The next router on it is one hop nearer. */
  lemma RingMinimal(n: nat, r: nat, dst: nat, dir: int, before: Routes)
    requires r < n && dst < n && dst != r && DirOk(dir)
    ensures var (routes, chosen) := RingRoute(n, r, dst, dir, before);
            && (chosen == LEFT || chosen == RIGHT) && routes.adaptive == {chosen as nat}
            && (dir != -1 ==> chosen == dir)
            && (dir == -1 ==> RingHops(n, r, dst, chosen) <= RingHops(n, r, dst, Opposite(chosen)))
            && RingNeighbour(n, Port(r, chosen)).Some?
            && RingHops(n, RingNeighbour(n, Port(r, chosen)).value, dst, chosen) == RingHops(n, r, dst, chosen) - 1
            && RingNeighbour(n, Port(r, chosen)).value < n
  {
    hide RingNeighbour;
    RingStep(n, r);
  }

  /** Where a packet is after `k` hops through `port`. */
  function RingWalk(n: nat, r: nat, port: nat, k: nat): (q: nat)
    requires r < n && (port == LEFT || port == RIGHT)
    ensures q < n
  {
    if k == 0 then r else RingStep(n, RingWalk(n, r, port, k - 1)); RingNeighbour(n, Port(RingWalk(n, r, port, k - 1), port)).value
  }

  /** `RingHops` is the number of hops after which a packet first stands at its destination. */
  lemma {:induction false} RingArrives(n: nat, r: nat, dst: nat, port: nat, k: nat)
    requires r < n && dst < n && (port == LEFT || port == RIGHT) && k <= RingHops(n, r, dst, port)
    ensures RingHops(n, RingWalk(n, r, port, k), dst, port) == RingHops(n, r, dst, port) - k
    ensures RingWalk(n, r, port, k) == dst <==> k == RingHops(n, r, dst, port)
  {
    hide RingNeighbour;
    if k > 0 {
      RingArrives(n, r, dst, port, k - 1);
      RingStep(n, RingWalk(n, r, port, k - 1));
    }
  }

  // ----- mesh -----

  function Apart(a: int, b: int): nat {
    if a < b then b - a else a - b
  }

  /** The hops between two routers of a mesh with rows of `w`. */
  function MeshHops(w: nat, a: nat, b: nat): nat
    requires w > 0
  {
    Apart(a % w, b % w) + Apart(a / w, b / w)
  }

  lemma MeshStep(w: nat, r: nat, port: nat)
    requires w > 0 && r < w * w && MeshNeighbour(w, Port(r, port)).Some?
    ensures var q := MeshNeighbour(w, Port(r, port)).value;
            && q / w == r / w + (if port == DOWN then 1 else if port == UP then -1 else 0)
            && q % w == r % w + (if port == RIGHT then 1 else if port == LEFT then -1 else 0)
  {
    if port == UP {
      MeshUp(w, r);
    } else if port == DOWN {
      MeshDown(w, r);
    } else if port == LEFT {
      MeshLeft(w, r);
    } else {
      MeshRight(w, r);
    }
  }

  lemma SameRouter(w: nat, a: nat, b: nat)
    requires w > 0 && a / w == b / w && a % w == b % w
    ensures a == b
  {
    assert a == (a / w) * w + a % w;
    assert b == (b / w) * w + b % w;
  }

  /** The first row of the table offers a port exactly if the router behind it is one hop nearer;
      the second row offers one of these, in the destination's column if already there. */
  lemma MeshMinimal(w: nat, r: nat, dst: nat, port: nat)
    requires w > 0 && r < w * w && dst < w * w && dst != r
    ensures var routes, next := MeshRoute(w, r, dst), MeshNeighbour(w, Port(r, port));
            && (port in routes.adaptive <==> next.Some? && MeshHops(w, next.value, dst) == MeshHops(w, r, dst) - 1)
            && routes.escape != {} && routes.escape <= routes.adaptive
            && (port in routes.escape ==> (port == UP || port == DOWN) == (r % w == dst % w))
  {
    hide MeshHops, MeshNeighbour;
    MeshRow(w, r);
    MeshRow(w, dst);
    if r / w == dst / w && r % w == dst % w { SameRouter(w, r, dst); }
    assert forall p :: p in MeshRoute(w, r, dst).adaptive || p in MeshRoute(w, r, dst).escape ==> MeshNeighbour(w, Port(r, p)).Some? by {
      forall p | p in MeshRoute(w, r, dst).adaptive || p in MeshRoute(w, r, dst).escape ensures MeshNeighbour(w, Port(r, p)).Some? {
        MeshRouteIsSound(w, r, dst, p);
      }
    }
    if MeshNeighbour(w, Port(r, port)).Some? {
      MeshStep(w, r, port);
      MeshPort(w, r, port);
      MeshNearer(w, r, MeshNeighbour(w, Port(r, port)).value, dst, port);
    }
  }

  lemma MeshPort(w: nat, r: nat, port: nat)
    requires w > 0 && MeshNeighbour(w, Port(r, port)).Some?
    ensures port == UP || port == DOWN || port == LEFT || port == RIGHT
  {
  }

  lemma MeshNearer(w: nat, r: nat, q: nat, dst: nat, port: nat)
    requires w > 0 && dst != r && (port == UP || port == DOWN || port == LEFT || port == RIGHT)
    requires q / w == r / w + (if port == DOWN then 1 else if port == UP then -1 else 0)
    requires q % w == r % w + (if port == RIGHT then 1 else if port == LEFT then -1 else 0)
    ensures port in MeshRoute(w, r, dst).adaptive <==> MeshHops(w, q, dst) == MeshHops(w, r, dst) - 1
  {
  }

  // ----- escape channels -----

  /** A rank of the two last VCs of a ring's ports: going right, the last VC comes before the one
      before it, and going left after it. */
  function RingRank(c: Config, o: Chan): int {
    var first := (o.port == RIGHT) == (o.vc == c.vcs - 1);
    (if first then 0 else c.routers) + (if o.port == RIGHT then o.router as int else c.routers - o.router)
  }

  /** At every router a packet is offered one of the two last VCs of a ring's port, and from one such
      channel to the next the rank grows: packets that hold one and wait for another cannot form
      a circle. */
  lemma RingEscape(c: Config, r: nat, dst: nat, port: nat, routes: Routes, more: Routes, u: nat, v: nat)
    requires c.shape.Ring? && c.vcs >= 2 && r < c.routers && dst < c.routers && dst != r
    requires (port == LEFT || port == RIGHT) && port in routes.adaptive && port in more.adaptive && u < c.vcs && v < c.vcs
    ensures Offers(c, Chan(r, port, c.vcs - 2), routes, dst) || Offers(c, Chan(r, port, c.vcs - 1), routes, dst)
    ensures var next := RingNeighbour(c.routers, Port(r, port)).value;
            u >= c.vcs - 2 && v >= c.vcs - 2 && next != dst &&
            Offers(c, Chan(r, port, u), routes, dst) && Offers(c, Chan(next, port, v), more, dst) ==>
              RingRank(c, Chan(r, port, u)) < RingRank(c, Chan(next, port, v))
  {
    hide RingNeighbour;
    RingStep(c.routers, r);
  }

  /** A rank of the last VCs of a mesh's ports: rows come before columns. */
  function MeshRank(w: nat, router: nat, port: nat): int
    requires w > 0
  {
    if port == RIGHT then router % w
    else if port == LEFT then w - router % w
    else 2 * w + if port == DOWN then router / w else w - router / w
  }

  /** The way of the second row: along the row, then along the column. */
  function RowFirst(w: nat, r: nat, dst: nat): nat
    requires w > 0
  {
    if r % w > dst % w then LEFT
    else if r % w < dst % w then RIGHT
    else if r / w > dst / w then UP
    else DOWN
  }

  lemma EscapePort(w: nat, r: nat, dst: nat, port: nat)
    requires w > 0 && dst != r && port in MeshRoute(w, r, dst).escape
    ensures port == RowFirst(w, r, dst) && (r / w != dst / w || r % w != dst % w)
  {
    if r / w == dst / w && r % w == dst % w { SameRouter(w, r, dst); }
  }

  lemma RankGrows(w: nat, r: nat, dst: nat, next: nat)
    requires w > 0 && dst / w < w && r / w < w && (r / w != dst / w || r % w != dst % w)
    requires var port := RowFirst(w, r, dst);
             && next / w == r / w + (if port == DOWN then 1 else if port == UP then -1 else 0)
             && next % w == r % w + (if port == RIGHT then 1 else if port == LEFT then -1 else 0)
    requires next / w != dst / w || next % w != dst % w
    ensures MeshRank(w, r, RowFirst(w, r, dst)) < MeshRank(w, next, RowFirst(w, next, dst))
  {
  }

  /** From one escape channel of a packet to the next the rank grows. */
  lemma MeshEscape(w: nat, r: nat, dst: nat, port: nat, then': nat)
    requires w > 0 && r < w * w && dst < w * w && dst != r && port in MeshRoute(w, r, dst).escape
    ensures MeshNeighbour(w, Port(r, port)).Some?
    ensures var next := MeshNeighbour(w, Port(r, port)).value;
            next != dst && then' in MeshRoute(w, next, dst).escape ==> MeshRank(w, r, port) < MeshRank(w, next, then')
  {
    hide MeshNeighbour, MeshRoute, MeshRank, RowFirst;
    MeshRow(w, r);
    MeshRow(w, dst);
    MeshRouteIsSound(w, r, dst, port);
    MeshStep(w, r, port);
    EscapePort(w, r, dst, port);
    var next := MeshNeighbour(w, Port(r, port)).value;
    if next != dst && then' in MeshRoute(w, next, dst).escape {
      EscapePort(w, next, dst, then');
      assert port == UP || port == DOWN || port == LEFT || port == RIGHT by { MeshPort(w, r, port); }
      RankGrows(w, r, dst, next);
    }
  }
}
