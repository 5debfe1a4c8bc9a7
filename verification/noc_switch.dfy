/** What switch allocation and switch traversal do together: in a cycle of its router every
    output port for which a flit waits gets exactly one, the oldest. */
module NocSwitch {
  import opened Arithmetic
  import opened Options
  import opened NocTopology
  import opened NocState
  import opened NocInvariant
  import opened NocMoves
  import opened NocStages

  /** The front flit of `i` entered the network before that of `j`; among flits of one cycle
      the port and then the VC decides. */
  predicate Older(n: Net, i: Chan, j: Chan) {
    || FrontTime(n, i) < FrontTime(n, j)
    || (FrontTime(n, i) == FrontTime(n, j) && (i.port < j.port || (i.port == j.port && i.vc < j.vc)))
  }

  /** Input VC `i` has a flit and was granted an output VC of port `op`. */
  predicate Queues(n: Net, i: Chan, op: nat) {
    n.I(i).buffer != [] && n.I(i).grant.Some? && n.I(i).grant.value.port == op
  }

  /** Of all the input VCs that queue for port `op` the front flit of `i` is the oldest. */
  ghost predicate OldestOf(c: Config, n: Net, i: Chan, op: nat) {
    && c.Has(i) && Queues(n, i, op)
    && forall j {:trigger Queues(n, j, op)} :: c.Has(j) && j.router == i.router && j != i && Queues(n, j, op) ==> Older(n, i, j)
  }

  /** Its front flit crosses the switch in this cycle. */
  ghost predicate Crosses(c: Config, n: Net, i: Chan) {
    n.I(i).grant.Some? && OldestOf(c, n, i, n.I(i).grant.value.port)
  }

  /** The flit at the front, if there is one, has not won the switch. */
  predicate Quiet(iv: InVc) {
    iv.buffer != [] ==> iv.buffer[0].phase != SA
  }

  /** No flit of the router has won the switch without crossing it, and every port is free by
      cycle `due`. */
  ghost predicate CalmBy(c: Config, n: Net, r: nat, due: int) {
    && (forall i {:trigger n.I(i)} :: c.Has(i) && i.router == r ==> Quiet(n.I(i)))
    && (forall p: Port {:trigger n.P(p)} :: p.router == r ==> n.P(p).swReady <= due)
  }

  ghost predicate Calm(c: Config, n: Net, r: nat) {
    CalmBy(c, n, r, n.N(r).cycle)
  }

  /** In a calm router every flit at the front of an input VC with a grant asks for the switch. */
  lemma QueuesAsks(c: Config, n: Net, i: Chan, op: nat)
    requires Inv(c, n) && c.Has(i) && Calm(c, n, i.router)
    ensures WantsSwitch(n, i, op) <==> Queues(n, i, op)
  {
    InputFacts(c, n, i);
  }

  // ----- the oldest-first search -----

  predicate Precedes(time: Chan -> nat, i: Chan, j: Chan) {
    time(i) < time(j) || (time(i) == time(j) && (i.port < j.port || (i.port == j.port && i.vc < j.vc)))
  }

  /** What the search returns precedes all that it has still to see, unless it was found before. */
  lemma {:induction false} OldestPrecedes(c: Config, r: nat, want: Chan -> bool, time: Chan -> nat, p: nat, v: nat, best: Option<Chan>, j: Chan)
    requires p <= c.Ports() && v <= c.vcs && r < c.routers
    requires c.Has(j) && j.router == r && Ahead(p, v, j) && want(j)
    ensures var w := Oldest(c, r, want, time, p, v, best);
            w.Some? && (w == best || w == Some(j) || Precedes(time, w.value, j))
    decreases c.Ports() - p, c.vcs - v
  {
    var i := Chan(r, p, v);
    var (q, u, next) := NextStep(c, want, time, p, v, best, i);
    OldestStep(c, r, want, time, p, v, best);
    if v == c.vcs || j != i {
      assert Ahead(q, u, j);
      hide Oldest, NextStep;
      OldestPrecedes(c, r, want, time, q, u, next, j);
      StillPrecedes(time, i, best, next, Oldest(c, r, want, time, q, u, next), j);
    }
  }

  /** Where the search stands after VC `v` of port `p`, and the best it has found. */
  function NextStep(c: Config, want: Chan -> bool, time: Chan -> nat, p: nat, v: nat, best: Option<Chan>, i: Chan): (nat, nat, Option<Chan>) {
    if v == c.vcs then (p + 1, 0, best) else (p, v + 1, if want(i) && Better(time, i, best) then Some(i) else best)
  }

  lemma StillPrecedes(time: Chan -> nat, i: Chan, best: Option<Chan>, next: Option<Chan>, w: Option<Chan>, j: Chan)
    requires w.Some? && time(w.value) <= time(j)
    requires next == best || (next == Some(i) && (i.port < j.port || (i.port == j.port && i.vc < j.vc)))
    requires w == next || w == Some(j) || Precedes(time, w.value, j)
    ensures w == best || w == Some(j) || Precedes(time, w.value, j)
  {
  }

  lemma OldestStep(c: Config, r: nat, want: Chan -> bool, time: Chan -> nat, p: nat, v: nat, best: Option<Chan>)
    requires p < c.Ports() && v <= c.vcs && r < c.routers
    ensures var (q, u, next) := NextStep(c, want, time, p, v, best, Chan(r, p, v));
            u <= c.vcs && q <= c.Ports() && Oldest(c, r, want, time, p, v, best) == Oldest(c, r, want, time, q, u, next)
  {
  }

  /** The search finds the oldest of the flits that queue for the port, and any if one does. */
  lemma PickOldest(c: Config, n: Net, r: nat, op: nat)
    requires r < c.routers
    requires forall i :: c.Has(i) && i.router == r ==> (WantsSwitch(n, i, op) <==> Queues(n, i, op))
    ensures var w := PickSwitch(c, n, r, op);
            && (w.Some? ==> w.value.router == r && OldestOf(c, n, w.value, op))
            && (forall i: Chan :: i.router == r && OldestOf(c, n, i, op) ==> w == Some(i))
  {
    hide WantsSwitch, Queues, FrontTime;
    var w := PickSwitch(c, n, r, op);
    forall j | c.Has(j) && j.router == r && Queues(n, j, op) && w != Some(j) ensures w.Some? && Older(n, w.value, j) {
      OldestPrecedes(c, r, i => WantsSwitch(n, i, op), i => FrontTime(n, i), 0, 0, None, j);
    }
  }

  // ----- switch allocation -----

  /** The input VC whose front flit has won the switch. */
  function Allocated(iv: InVc): InVc
    requires iv.buffer != []
  {
    iv.(buffer := [iv.buffer[0].(phase := SA)] + iv.buffer[1..])
  }

  /** The winners of ports `0..k`, and nothing else, have changed. */
  ghost predicate AllocatedUpTo(c: Config, n: Net, m: Net, r: nat, k: nat) {
    forall i: Chan {:trigger m.I(i)} ::
      m.I(i) == if i.router == r && Crosses(c, n, i) && n.I(i).grant.value.port < k then Allocated(n.I(i)) else n.I(i)
  }

  /** The ports for which a flit won the switch are taken until the next cycle. */
  ghost predicate PortsUpTo(c: Config, n: Net, m: Net, r: nat, k: nat) {
    forall p: Port {:trigger m.P(p)} ::
      m.P(p) == n.P(p).(swReady := m.P(p).swReady) &&
      m.P(p).swReady == if p.router == r && p.port < k && Wanted(c, n, p) then n.N(r).cycle + 1 else n.P(p).swReady
  }

  /** Some input VC has a flit and a grant for the port. */
  ghost predicate Wanted(c: Config, n: Net, p: Port) {
    exists i :: c.Has(i) && i.router == p.router && Queues(n, i, p.port)
  }

  ghost predicate OnlyInsPorts(n: Net, m: Net) {
    m == n.(ins := m.ins, ports := m.ports)
  }

  /** The competition for a port is not changed by those for the ports before it. */
  lemma SameCompetition(c: Config, n: Net, mid: Net, r: nat, op: nat)
    requires AllocatedUpTo(c, n, mid, r, op) && r < c.routers && Inv(c, n) && Calm(c, n, r)
    ensures forall i :: c.Has(i) && i.router == r ==>
              (WantsSwitch(mid, i, op) <==> Queues(mid, i, op)) && (Queues(mid, i, op) <==> Queues(n, i, op))
    ensures forall i :: c.Has(i) && i.router == r ==> (OldestOf(c, mid, i, op) <==> OldestOf(c, n, i, op))
  {
    hide Inv;
    forall i | c.Has(i) && i.router == r
      ensures (WantsSwitch(mid, i, op) <==> Queues(mid, i, op)) && (Queues(mid, i, op) <==> Queues(n, i, op))
      ensures FrontTime(mid, i) == FrontTime(n, i)
    {
      QueuesAsks(c, n, i, op);
      assert mid.I(i) == n.I(i) || (Queues(n, i, n.I(i).grant.value.port) && n.I(i).grant.value.port < op && mid.I(i) == Allocated(n.I(i)));
    }
    hide WantsSwitch, Queues, FrontTime, Calm, AllocatedUpTo;
    forall i | c.Has(i) && i.router == r ensures OldestOf(c, mid, i, op) <==> OldestOf(c, n, i, op) {
      forall j | c.Has(j) && j.router == r ensures Older(mid, i, j) <==> Older(n, i, j) {}
    }
  }

  lemma OnePortAllocates(c: Config, n: Net, r: nat, op: nat)
    requires Inv(c, n) && r < c.routers && n.P(Port(r, op)).swReady <= n.N(r).cycle
    requires forall i :: c.Has(i) && i.router == r ==> (WantsSwitch(n, i, op) <==> Queues(n, i, op))
    ensures var m := SwitchPort(c, n, r, op);
            && OnlyInsPorts(n, m)
            && (forall i: Chan {:trigger m.I(i)} :: m.I(i) == if i.router == r && OldestOf(c, n, i, op) then Allocated(n.I(i)) else n.I(i))
            && (forall p: Port {:trigger m.P(p)} ::
                  m.P(p) == if p == Port(r, op) && Wanted(c, n, p) then n.P(p).(swReady := n.N(r).cycle + 1) else n.P(p))
  {
    hide Inv, OldestOf, Wanted, PickSwitch;
    PickOldest(c, n, r, op);
    var w := PickSwitch(c, n, r, op);
    WantedFound(c, n, r, op, w);
    if w.Some? { OldestQueues(c, n, w.value, op); }
    hide WantsSwitch;
  }

  lemma OldestQueues(c: Config, n: Net, i: Chan, op: nat)
    requires OldestOf(c, n, i, op)
    ensures c.Has(i) && Queues(n, i, op)
  {
  }

  lemma WantedFound(c: Config, n: Net, r: nat, op: nat, w: Option<Chan>)
    requires forall i :: c.Has(i) && i.router == r && Queues(n, i, op) ==> w.Some?
    requires w.Some? ==> w.value.router == r && OldestOf(c, n, w.value, op)
    ensures w.Some? <==> Wanted(c, n, Port(r, op))
  {
    if w.Some? { assert Queues(n, w.value, op); }
  }

  lemma {:induction false} AllocationAfter(c: Config, n: Net, r: nat, k: nat)
    requires Inv(c, n) && r < c.routers && Calm(c, n, r)
    ensures var m := AllocationStage(c, n, r, k);
            OnlyInsPorts(n, m) && AllocatedUpTo(c, n, m, r, k) && PortsUpTo(c, n, m, r, k)
  {
    hide Inv, SwitchPort;
    if k > 0 {
      var op, mid := k - 1, AllocationStage(c, n, r, k - 1);
      AllocationAfter(c, n, r, op);
      SameCompetition(c, n, mid, r, op);
      assert Wanted(c, mid, Port(r, op)) <==> Wanted(c, n, Port(r, op));
      hide Wanted, OldestOf, Queues, WantsSwitch, AllocatedUpTo, PortsUpTo;
      PortAhead(c, n, mid, r, op);
      OnePortAllocates(c, mid, r, op);
      AllocatedNext(c, n, mid, SwitchPort(c, mid, r, op), r, op);
      PortsNext(c, n, mid, SwitchPort(c, mid, r, op), r, op);
    } else {
      assert PortsUpTo(c, n, n, r, 0) && AllocatedUpTo(c, n, n, r, 0);
    }
  }

  lemma PortAhead(c: Config, n: Net, mid: Net, r: nat, op: nat)
    requires Calm(c, n, r) && PortsUpTo(c, n, mid, r, op) && OnlyInsPorts(n, mid)
    ensures mid.P(Port(r, op)) == n.P(Port(r, op)) && mid.P(Port(r, op)).swReady <= mid.N(r).cycle
  {
  }

  lemma PortsNext(c: Config, n: Net, mid: Net, m: Net, r: nat, op: nat)
    requires PortsUpTo(c, n, mid, r, op) && (Wanted(c, mid, Port(r, op)) <==> Wanted(c, n, Port(r, op))) && mid.N(r) == n.N(r)
    requires forall p: Port {:trigger m.P(p)} ::
               m.P(p) == if p == Port(r, op) && Wanted(c, mid, p) then mid.P(p).(swReady := mid.N(r).cycle + 1) else mid.P(p)
    ensures PortsUpTo(c, n, m, r, op + 1)
  {
    hide Wanted;
  }

  lemma AllocatedNext(c: Config, n: Net, mid: Net, m: Net, r: nat, op: nat)
    requires AllocatedUpTo(c, n, mid, r, op)
    requires forall i :: c.Has(i) && i.router == r ==> (OldestOf(c, mid, i, op) <==> OldestOf(c, n, i, op))
    requires forall i: Chan {:trigger m.I(i)} :: m.I(i) == if i.router == r && OldestOf(c, mid, i, op) then Allocated(mid.I(i)) else mid.I(i)
    ensures AllocatedUpTo(c, n, m, r, op + 1)
  {
    forall i: Chan
      ensures m.I(i) == if i.router == r && Crosses(c, n, i) && n.I(i).grant.value.port < op + 1 then Allocated(n.I(i)) else n.I(i)
    {
      assert OldestOf(c, n, i, op) ==> c.Has(i) && n.I(i).grant.Some? && n.I(i).grant.value.port == op;
      assert OldestOf(c, mid, i, op) ==> c.Has(i);
      hide OldestOf;
    }
  }

  // ----- switch traversal -----

  /** The input VC after its front flit has crossed the switch. */
  function Behind(iv: InVc): InVc
    requires iv.buffer != []
  {
    iv.(buffer := iv.buffer[1..], grant := if iv.buffer[0].piece.Tail() then None else iv.grant)
  }

  /** The output VC after flit `f` has crossed the switch into it. */
  function Entered(ov: OutVc, f: Flit): OutVc {
    ov.(buffer := ov.buffer + [f.(phase := ST)], switched := ov.switched + [f.piece],
        owner := if f.piece.Tail() then None else ov.owner)
  }

  /** The winners of ports `0..k` have left their input VCs. */
  ghost predicate LeftUpTo(c: Config, a: Net, m: Net, r: nat, k: nat) {
    forall i: Chan {:trigger m.I(i)} ::
      m.I(i) == if c.Has(i) && i.router == r && CanSwitch(a, i) && a.I(i).grant.value.port < k then Behind(a.I(i)) else a.I(i)
  }

  /** Who owns an output VC and won the switch. */
  ghost predicate Enters(c: Config, a: Net, o: Chan) {
    a.O(o).owner.Some? && c.Has(a.O(o).owner.value) && CanSwitch(a, a.O(o).owner.value)
  }

  /** They have entered the output VCs that they own. */
  ghost predicate EnteredUpTo(c: Config, a: Net, m: Net, r: nat, k: nat) {
    forall o: Chan {:trigger m.O(o)} :: c.Has(o) ==>
      m.O(o) == if o.router == r && o.port < k && Enters(c, a, o) then Entered(a.O(o), a.I(a.O(o).owner.value).buffer[0]) else a.O(o)
  }

  /** Credits, due in the next cycle, are all that the nodes get. */
  ghost predicate CreditsOnly(a: Net, m: Net, now: nat) {
    forall q: nat {:trigger m.N(q)} ::
      && m.N(q) == a.N(q).(pending := m.N(q).pending) && a.N(q).pending <= m.N(q).pending
      && forall x :: |a.N(q).pending| <= x < |m.N(q).pending| ==> m.N(q).pending[x].ready == now + 1
  }

  ghost predicate SameRest(a: Net, m: Net) {
    m.ports == a.ports && m.total == a.total && m.log == a.log && m.delivered == a.delivered
  }

  /** At most one flit has won each port. */
  ghost predicate OneWinner(c: Config, a: Net, r: nat) {
    forall i, j :: c.Has(i) && c.Has(j) && i.router == r && j.router == r && CanSwitch(a, i) && CanSwitch(a, j) ==>
      a.I(i).grant.value.port == a.I(j).grant.value.port ==> i == j
  }

  /** A single move. */
  lemma SwitchMoves(c: Config, n: Net, i: Chan)
    requires n.I(i).buffer != [] && n.I(i).grant.Some? && (i.port == LOCAL || c.Linked(i))
    ensures var m, o := Switch(c, n, i), n.I(i).grant.value;
            && m.ins == n.ins[i := Behind(n.I(i))]
            && m.outs == n.outs[o := Entered(n.O(o), n.I(i).buffer[0])]
            && SameRest(n, m) && CreditsOnly(n, m, n.N(i.router).cycle)
  {
  }

  /** While it takes one port after the other the stage finds the winner of each. */
  lemma WinnerFound(c: Config, a: Net, mid: Net, r: nat, op: nat)
    requires Inv(c, a) && Inv(c, mid) && r < c.routers && OneWinner(c, a, r) && LeftUpTo(c, a, mid, r, op)
    ensures forall i :: c.Has(i) && i.router == r ==> (WonSwitch(mid, i, op) <==> CanSwitch(a, i) && a.I(i).grant.value.port == op)
    ensures forall i :: c.Has(i) && i.router == r && WonSwitch(mid, i, op) ==> mid.I(i) == a.I(i)
    ensures var w := PickWinner(c, mid, r, op, 0, 0, None);
            forall i :: c.Has(i) && i.router == r && CanSwitch(a, i) && a.I(i).grant.value.port == op ==> w == Some(i)
  {
    hide Inv, WonSwitch, LeftUpTo;
    forall i | c.Has(i) && i.router == r
      ensures WonSwitch(mid, i, op) <==> CanSwitch(a, i) && a.I(i).grant.value.port == op
      ensures WonSwitch(mid, i, op) ==> mid.I(i) == a.I(i)
    {
      StillWaits(c, a, mid, r, op, i);
    }
  }

  lemma StillWaits(c: Config, a: Net, mid: Net, r: nat, op: nat, i: Chan)
    requires Inv(c, a) && LeftUpTo(c, a, mid, r, op) && c.Has(i) && i.router == r
    ensures WonSwitch(mid, i, op) <==> CanSwitch(a, i) && a.I(i).grant.value.port == op
    ensures WonSwitch(mid, i, op) ==> mid.I(i) == a.I(i)
  {
    InputFacts(c, a, i);
    assert mid.I(i) == if CanSwitch(a, i) && a.I(i).grant.value.port < op then Behind(a.I(i)) else a.I(i);
    hide Inv, LeftUpTo;
  }

  lemma OnePortCrosses(c: Config, n: Net, r: nat, op: nat)
    requires Inv(c, n) && r < c.routers
    ensures var m, w := CrossPort(c, n, r, op), PickWinner(c, n, r, op, 0, 0, None);
            && SameRest(n, m) && CreditsOnly(n, m, n.N(r).cycle)
            && (w.None? ==> m.ins == n.ins && m.outs == n.outs)
            && (w.Some? ==>
                  var i := w.value;
                  && CanSwitch(n, i) && n.I(i).grant.value.port == op && c.Has(i) && i.router == r
                  && m.ins == n.ins[i := Behind(n.I(i))]
                  && m.outs == n.outs[n.I(i).grant.value := Entered(n.O(n.I(i).grant.value), n.I(i).buffer[0])])
  {
    hide Inv, Switch, Behind, Entered, CreditsOnly;
    var w := PickWinner(c, n, r, op, 0, 0, None);
    if w.Some? {
      SwitchKeeps(c, n, w.value);
      SwitchMoves(c, n, w.value);
    } else {
      assert CreditsOnly(n, n, n.N(r).cycle) by { CreditsNone(n, n.N(r).cycle); }
    }
  }

  lemma CreditsNone(n: Net, now: nat)
    ensures CreditsOnly(n, n, now)
  {
  }

  lemma CreditsOn(a: Net, mid: Net, m: Net, now: nat)
    requires CreditsOnly(a, mid, now) && CreditsOnly(mid, m, now)
    ensures CreditsOnly(a, m, now)
  {
    forall q: nat
      ensures m.N(q) == a.N(q).(pending := m.N(q).pending) && a.N(q).pending <= m.N(q).pending
      ensures forall x :: |a.N(q).pending| <= x < |m.N(q).pending| ==> m.N(q).pending[x].ready == now + 1
    {
      assert mid.N(q) == a.N(q).(pending := mid.N(q).pending);
      forall x | |a.N(q).pending| <= x < |m.N(q).pending| ensures m.N(q).pending[x].ready == now + 1 {
        if x < |mid.N(q).pending| {
          assert m.N(q).pending[x] == mid.N(q).pending[x];
        }
      }
    }
  }

  lemma {:induction false} CrossAfter(c: Config, a: Net, r: nat, k: nat)
    requires Inv(c, a) && r < c.routers && OneWinner(c, a, r)
    ensures var m := CrossStage(c, a, r, k);
            LeftUpTo(c, a, m, r, k) && EnteredUpTo(c, a, m, r, k) && SameRest(a, m) && CreditsOnly(a, m, a.N(r).cycle)
  {
    hide Inv, CrossPort, LeftUpTo, EnteredUpTo, OneWinner, CreditsOnly, PickWinner;
    if k == 0 {
      NothingYet(c, a, r);
      CreditsNone(a, a.N(r).cycle);
    } else {
      var op, mid := k - 1, CrossStage(c, a, r, k - 1);
      CrossAfter(c, a, r, op);
      WinnerFound(c, a, mid, r, op);
      OnePortCrosses(c, mid, r, op);
      var m := CrossPort(c, mid, r, op);
      CreditsOn(a, mid, m, a.N(r).cycle) by { assert mid.N(r).cycle == a.N(r).cycle by { CrossStill(c, a, r, op); } }
      LeftNext(c, a, mid, m, r, op, PickWinner(c, mid, r, op, 0, 0, None));
      EnteredNext(c, a, mid, m, r, op, PickWinner(c, mid, r, op, 0, 0, None));
    }
  }

  lemma NothingYet(c: Config, a: Net, r: nat)
    ensures LeftUpTo(c, a, a, r, 0) && EnteredUpTo(c, a, a, r, 0)
  {
  }

  lemma LeftNext(c: Config, a: Net, mid: Net, m: Net, r: nat, op: nat, w: Option<Chan>)
    requires LeftUpTo(c, a, mid, r, op)
    requires w.None? ==> m.ins == mid.ins
    requires w.Some? ==> c.Has(w.value) && w.value.router == r && CanSwitch(a, w.value) && a.I(w.value).grant.value.port == op
    requires w.Some? ==> mid.I(w.value) == a.I(w.value) && m.ins == mid.ins[w.value := Behind(a.I(w.value))]
    requires forall i :: c.Has(i) && i.router == r && CanSwitch(a, i) && a.I(i).grant.value.port == op ==> w == Some(i)
    ensures LeftUpTo(c, a, m, r, op + 1)
  {
    hide Behind;
    forall i: Chan
      ensures m.I(i) == if c.Has(i) && i.router == r && CanSwitch(a, i) && a.I(i).grant.value.port < op + 1 then Behind(a.I(i)) else a.I(i)
    {
      assert m.I(i) == if w == Some(i) then Behind(a.I(i)) else mid.I(i);
    }
  }

  lemma EnteredNext(c: Config, a: Net, mid: Net, m: Net, r: nat, op: nat, w: Option<Chan>)
    requires Inv(c, a) && r < c.routers && EnteredUpTo(c, a, mid, r, op)
    requires w.None? ==> m.outs == mid.outs
    requires w.Some? ==> c.Has(w.value) && w.value.router == r && CanSwitch(a, w.value) && a.I(w.value).grant.value.port == op
    requires w.Some? ==> var o := a.I(w.value).grant.value; m.outs == mid.outs[o := Entered(mid.O(o), a.I(w.value).buffer[0])]
    requires forall i :: c.Has(i) && i.router == r && CanSwitch(a, i) && a.I(i).grant.value.port == op ==> w == Some(i)
    ensures EnteredUpTo(c, a, m, r, op + 1)
  {
    hide Entered, Inv, GrantOk, InPhases, HistoryOk;
    if w.Some? { Granted(c, a, w.value); }
    forall o: Chan | c.Has(o)
      ensures m.O(o) == if o.router == r && o.port < op + 1 && Enters(c, a, o)
                        then Entered(a.O(o), a.I(a.O(o).owner.value).buffer[0]) else a.O(o)
    {
      if a.O(o).owner.Some? { Owned(c, a, o); }
      assert m.O(o) == if w.Some? && a.I(w.value).grant == Some(o) then Entered(mid.O(o), a.I(w.value).buffer[0]) else mid.O(o);
    }
  }

  /** A grant is one of the router's own output VCs, and is on record there. */
  lemma Granted(c: Config, n: Net, i: Chan)
    requires Inv(c, n) && c.Has(i) && n.I(i).grant.Some?
    ensures var o := n.I(i).grant.value; c.Has(o) && o.router == i.router && n.O(o).owner == Some(i)
  {
    InputFacts(c, n, i);
  }

  lemma Owned(c: Config, n: Net, o: Chan)
    requires Inv(c, n) && c.Has(o) && n.O(o).owner.Some?
    ensures var i := n.O(o).owner.value; c.Has(i) && i.router == o.router && n.I(i).grant == Some(o)
  {
    OutputFacts(c, n, o);
    InputFacts(c, n, n.O(o).owner.value);
  }

  // ----- both stages -----

  /** Allocation leaves one winner for each port for which a flit waits: the oldest. */
  lemma WinnersAre(c: Config, n: Net, a: Net, r: nat)
    requires Inv(c, n) && Calm(c, n, r) && AllocatedUpTo(c, n, a, r, c.Ports())
    ensures forall i :: c.Has(i) && i.router == r ==> (CanSwitch(a, i) <==> Crosses(c, n, i))
    ensures forall i :: c.Has(i) && i.router == r && Crosses(c, n, i) ==> n.I(i).buffer != [] && a.I(i) == Allocated(n.I(i))
    ensures OneWinner(c, a, r)
  {
    hide Inv;
    forall i | c.Has(i) && i.router == r
      ensures CanSwitch(a, i) <==> Crosses(c, n, i)
      ensures Crosses(c, n, i) ==> n.I(i).buffer != [] && a.I(i) == Allocated(n.I(i))
    {
      WinnerIs(c, n, a, r, i);
    }
    forall i, j | c.Has(i) && c.Has(j) && i.router == r && j.router == r && CanSwitch(a, i) && CanSwitch(a, j) &&
                  a.I(i).grant.value.port == a.I(j).grant.value.port
      ensures i == j
    {
      OneOldest(c, n, i, j);
    }
  }

  lemma WinnerIs(c: Config, n: Net, a: Net, r: nat, i: Chan)
    requires Inv(c, n) && Calm(c, n, r) && AllocatedUpTo(c, n, a, r, c.Ports()) && c.Has(i) && i.router == r
    ensures CanSwitch(a, i) <==> Crosses(c, n, i)
    ensures Crosses(c, n, i) ==> n.I(i).buffer != [] && a.I(i) == Allocated(n.I(i))
  {
    hide Inv, OldestOf;
    if Crosses(c, n, i) { OldestQueues(c, n, i, n.I(i).grant.value.port); }
    if n.I(i).grant.Some? { Granted(c, n, i); }
    assert a.I(i) == n.I(i) || Crosses(c, n, i);
    assert Quiet(n.I(i));
  }

  lemma OneOldest(c: Config, n: Net, i: Chan, j: Chan)
    requires Crosses(c, n, i) && Crosses(c, n, j) && i.router == j.router && n.I(i).grant.value.port == n.I(j).grant.value.port
    ensures i == j
  {
    hide FrontTime;
    assert Queues(n, i, n.I(i).grant.value.port) && Queues(n, j, n.I(i).grant.value.port);
  }

  /** Exactly the ports for which a flit waits get one. */
  lemma SomeCrosses(c: Config, n: Net, p: Port)
    requires Inv(c, n) && p.router < c.routers && Calm(c, n, p.router)
    ensures Wanted(c, n, p) <==> exists i: Chan :: i.router == p.router && Crosses(c, n, i) && n.I(i).grant.value.port == p.port
  {
    hide Inv, Calm, PickSwitch;
    forall i | c.Has(i) && i.router == p.router ensures WantsSwitch(n, i, p.port) <==> Queues(n, i, p.port) {
      QueuesAsks(c, n, i, p.port);
    }
    PickOldest(c, n, p.router, p.port);
    hide WantsSwitch;
    if w :| c.Has(w) && w.router == p.router && Queues(n, w, p.port) {
      var i := PickSwitch(c, n, p.router, p.port).value;
      OldestQueues(c, n, i, p.port);
      hide OldestOf;
      assert Crosses(c, n, i);
    }
    if i: Chan :| i.router == p.router && Crosses(c, n, i) && n.I(i).grant.value.port == p.port {
      OldestQueues(c, n, i, p.port);
    }
  }

  /** The law of both stages: the flits that cross leave their input VCs and enter the output VCs
      granted to them, their ports are taken for this cycle, credits go upstream, and all else
      stays as it was. */
  ghost predicate Switched(c: Config, n: Net, m: Net, r: nat) {
    && (forall i: Chan {:trigger m.I(i)} ::
          m.I(i) == if i.router == r && Crosses(c, n, i) && n.I(i).buffer != [] then Behind(n.I(i)) else n.I(i))
    && (forall o: Chan {:trigger m.O(o)} :: c.Has(o) ==>
          m.O(o) == if o.router == r && n.O(o).owner.Some? && Crosses(c, n, n.O(o).owner.value) && n.I(n.O(o).owner.value).buffer != []
                    then Entered(n.O(o), n.I(n.O(o).owner.value).buffer[0]) else n.O(o))
    && PortsUpTo(c, n, m, r, c.Ports()) && CreditsOnly(n, m, n.N(r).cycle)
    && m.total == n.total && m.log == n.log && m.delivered == n.delivered
  }

  lemma SwitchAfter(c: Config, n: Net, r: nat)
    requires Inv(c, n) && r < c.routers && Calm(c, n, r)
    ensures Switched(c, n, CrossStage(c, AllocationStage(c, n, r, c.Ports()), r, c.Ports()), r)
  {
    hide Inv, Calm, Crosses, AllocatedUpTo, PortsUpTo, CreditsOnly, CrossStage, AllocationStage, OneWinner;
    var a := AllocationStage(c, n, r, c.Ports());
    var m := CrossStage(c, a, r, c.Ports());
    AllocationAfter(c, n, r, c.Ports());
    WinnersAre(c, n, a, r);
    CrossAfter(c, a, r, c.Ports());
    CreditsSame(n, a, m, n.N(r).cycle);
    assert PortsUpTo(c, n, m, r, c.Ports()) by { PortsSame(c, n, a, m, r); }
    forall i: Chan
      ensures m.I(i) == if i.router == r && Crosses(c, n, i) && n.I(i).buffer != [] then Behind(n.I(i)) else n.I(i)
    {
      SwitchedIn(c, n, a, m, r, i);
    }
    forall o: Chan | c.Has(o)
      ensures m.O(o) == if o.router == r && n.O(o).owner.Some? && Crosses(c, n, n.O(o).owner.value) && n.I(n.O(o).owner.value).buffer != []
                        then Entered(n.O(o), n.I(n.O(o).owner.value).buffer[0]) else n.O(o)
    {
      SwitchedOut(c, n, a, m, r, o);
    }
  }

  lemma CreditsSame(n: Net, a: Net, m: Net, now: nat)
    requires OnlyInsPorts(n, a) && CreditsOnly(a, m, now)
    ensures CreditsOnly(n, m, now)
  {
  }

  lemma PortsSame(c: Config, n: Net, a: Net, m: Net, r: nat)
    requires PortsUpTo(c, n, a, r, c.Ports()) && m.ports == a.ports
    ensures PortsUpTo(c, n, m, r, c.Ports())
  {
    hide Wanted;
    forall p: Port ensures m.P(p) == a.P(p) {}
  }

  lemma SwitchedIn(c: Config, n: Net, a: Net, m: Net, r: nat, i: Chan)
    requires Inv(c, n) && AllocatedUpTo(c, n, a, r, c.Ports()) && LeftUpTo(c, a, m, r, c.Ports())
    requires forall j :: c.Has(j) && j.router == r ==> (CanSwitch(a, j) <==> Crosses(c, n, j))
    ensures m.I(i) == if i.router == r && Crosses(c, n, i) && n.I(i).buffer != [] then Behind(n.I(i)) else n.I(i)
  {
    hide Inv, OldestOf;
    if Crosses(c, n, i) {
      OldestQueues(c, n, i, n.I(i).grant.value.port);
      Granted(c, n, i);
    }
  }

  lemma SwitchedOut(c: Config, n: Net, a: Net, m: Net, r: nat, o: Chan)
    requires Inv(c, n) && OnlyInsPorts(n, a) && EnteredUpTo(c, a, m, r, c.Ports()) && c.Has(o)
    requires forall j :: c.Has(j) && j.router == r ==> (CanSwitch(a, j) <==> Crosses(c, n, j))
    requires forall j :: c.Has(j) && j.router == r && Crosses(c, n, j) ==> n.I(j).buffer != [] && a.I(j) == Allocated(n.I(j))
    ensures m.O(o) == if o.router == r && n.O(o).owner.Some? && Crosses(c, n, n.O(o).owner.value) && n.I(n.O(o).owner.value).buffer != []
                      then Entered(n.O(o), n.I(n.O(o).owner.value).buffer[0]) else n.O(o)
  {
    hide Inv, Crosses, CanSwitch;
    if n.O(o).owner.Some? { Owned(c, n, o); }
  }
}
