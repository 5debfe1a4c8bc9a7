/** Every elementary move of the router pipeline keeps the network invariant. */
module NocMoves {
  import opened Options
  import opened NocTopology
  import opened NocState
  import opened NocInvariant

  // ----- what the parts of the invariant depend on -----

  /** The same flits in the same buffers, whatever their phases. */
  ghost predicate SameFlits(n: Net, m: Net) {
    && m.place == n.place && m.log == n.log
    && (forall ch :: m.I(ch).arrived == n.I(ch).arrived && SamePieces(m.I(ch).buffer, n.I(ch).buffer))
    && (forall ch :: m.O(ch).switched == n.O(ch).switched && m.O(ch).buffer == n.O(ch).buffer)
  }

  ghost predicate SamePieces(a: seq<Flit>, b: seq<Flit>) {
    |a| == |b| && forall k :: 0 <= k < |a| ==> a[k].piece == b[k].piece
  }

  lemma StreamsFrame(c: Config, n: Net, m: Net)
    requires Streams(c, n) && SameFlits(n, m)
    ensures Streams(c, m)
  {
    forall o | c.Has(o) ensures LinkFlow(c, m, o) { assert LinkFlow(c, n, o); }
    forall ch | c.Has(ch) ensures HistoryOk(m.I(ch).buffer, m.I(ch).arrived, m.log) {
      assert HistoryOk(n.I(ch).buffer, n.I(ch).arrived, n.log);
    }
  }

  lemma PlacesFrame(c: Config, n: Net, m: Net)
    requires Places(c, n) && SameFlits(n, m)
    ensures Places(c, m)
  {
    forall ch | c.Has(ch) ensures InRecorded(m.place, ch, m.I(ch)) && OutRecorded(m.place, ch, m.O(ch)) {
      assert InRecorded(n.place, ch, n.I(ch)) && OutRecorded(n.place, ch, n.O(ch));
    }
    forall key | key in m.place ensures Present(c, m, key, m.place[key]) { assert Present(c, n, key, n.place[key]); }
  }

  lemma CreditsFrame(c: Config, n: Net, m: Net)
    requires Credits(c, n) && SameFlits(n, m)
    requires forall ch :: m.O(ch).credit == n.O(ch).credit
    requires forall r :: m.N(r).pending == n.N(r).pending
    ensures Credits(c, m)
  {
    forall o | c.Has(o) ensures CreditOk(c, m, o) { assert CreditOk(c, n, o); }
    forall r | 0 <= r < c.routers ensures PendingOk(c, r, m.N(r).pending) { assert PendingOk(c, r, n.N(r).pending); }
  }

  lemma OwnershipFrame(c: Config, n: Net, m: Net)
    requires Ownership(c, n) && SameFlits(n, m)
    requires forall ch :: m.I(ch).grant == n.I(ch).grant
    requires forall ch :: m.O(ch) == n.O(ch).(credit := m.O(ch).credit)
    ensures Ownership(c, m)
  {
    forall i | c.Has(i) ensures GrantOk(c, m, i) { assert GrantOk(c, n, i); }
    forall o | c.Has(o) ensures OwnerOk(c, m, o) { assert OwnerOk(c, n, o); }
  }

  lemma PhasesFrame(c: Config, n: Net, m: Net)
    requires Phases(c, n)
    requires forall ch :: m.I(ch) == n.I(ch) && m.O(ch).buffer == n.O(ch).buffer
    ensures Phases(c, m)
  {
    forall ch | c.Has(ch) ensures InPhases(c, ch, m.I(ch)) && OutPhases(m.O(ch).buffer) {
      assert InPhases(c, ch, n.I(ch)) && OutPhases(n.O(ch).buffer);
    }
  }

  lemma WaitingFrame(c: Config, n: Net, m: Net)
    requires Waiting(c, n)
    requires m.log == n.log && m.delivered == n.delivered
    requires forall r :: SameMail(n.N(r), m.N(r)) && m.N(r).injection == n.N(r).injection
    ensures Waiting(c, m)
  {
    hide BoundFor;
    forall r | 0 <= r < c.routers ensures WaitingOk(c, m.N(r).injection) { assert WaitingOk(c, n.N(r).injection); }
    forall r: nat ensures MailOk(m, r) { assert MailOk(n, r) && SameMail(n.N(r), m.N(r)); }
  }

  ghost predicate SameMail(a: Node, b: Node) {
    a.mailbox == b.mailbox && a.taken == b.taken
  }

  /** What the invariant says about one input channel. */
  lemma InputFacts(c: Config, n: Net, i: Chan)
    requires Inv(c, n) && c.Has(i)
    ensures InPhases(c, i, n.I(i)) && HistoryOk(n.I(i).buffer, n.I(i).arrived, n.log) && GrantOk(c, n, i)
    ensures n.I(i).buffer != [] && i.port != LOCAL ==> c.Linked(i)
    ensures i.port == LOCAL ==> !Mid(n.I(i).arrived, |n.I(i).arrived|)
    ensures n.I(i).buffer != [] ==> n.I(i).buffer[0].piece.req.dst < c.routers
  {
    if n.I(i).buffer != [] {
      assert Known(n.log, n.I(i).arrived[Gone(n.I(i).buffer, n.I(i).arrived)]);
    }
  }

  /** What the invariant says about one output channel. */
  lemma OutputFacts(c: Config, n: Net, o: Chan)
    requires Inv(c, n) && c.Has(o)
    ensures OutPhases(n.O(o).buffer) && HistoryOk(n.O(o).buffer, n.O(o).switched, n.log) && OwnerOk(c, n, o)
    ensures LinkFlow(c, n, o) && OutRecorded(n.place, o, n.O(o))
    ensures n.O(o).buffer != [] && o.port != LOCAL ==> c.Linked(o)
  {
  }

  // ----- a credit comes back -----

  ghost predicate CanReturn(c: Config, n: Net, r: nat, k: nat) {
    Inv(c, n) && r < c.routers && k < |n.N(r).pending|
  }

  lemma ReturnCredits(c: Config, n: Net, r: nat, k: nat)
    requires Credits(c, n) && r < c.routers && k < |n.N(r).pending|
    ensures Credits(c, ReturnCredit(n, r, k))
  {
    var m := ReturnCredit(n, r, k);
    var pending := n.N(r).pending;
    forall o | c.Has(o)
      ensures CreditOk(c, m, o)
    {
      assert CreditOk(c, n, o);
      if o.router == r {
        CreditsForRemove(pending, k, o.port, o.vc);
      }
    }
    forall r' | 0 <= r' < c.routers
      ensures PendingOk(c, r', m.N(r').pending)
    {
      assert PendingOk(c, r', n.N(r').pending);
    }
  }

  lemma ReturnRest(n: Net, r: nat, k: nat)
    requires k < |n.N(r).pending|
    ensures SameFlits(n, ReturnCredit(n, r, k))
    ensures forall ch :: ReturnCredit(n, r, k).I(ch) == n.I(ch)
    ensures forall ch :: ReturnCredit(n, r, k).O(ch) == n.O(ch).(credit := ReturnCredit(n, r, k).O(ch).credit)
    ensures forall r' :: SameMail(n.N(r'), ReturnCredit(n, r, k).N(r')) && ReturnCredit(n, r, k).N(r').injection == n.N(r').injection
  {
  }

  lemma ReturnKeeps(c: Config, n: Net, r: nat, k: nat)
    requires CanReturn(c, n, r, k)
    ensures Inv(c, ReturnCredit(n, r, k))
  {
    hide Credits, Streams, Ownership, Phases, Places, Deliveries, Waiting;
    var m := ReturnCredit(n, r, k);
    ReturnRest(n, r, k);
    ReturnCredits(c, n, r, k);
    StreamsFrame(c, n, m);
    OwnershipFrame(c, n, m);
    PhasesFrame(c, n, m);
    PlacesFrame(c, n, m);
    WaitingFrame(c, n, m);
  }

  // ----- moves that only change the phase of a front flit -----

  /** `m` is `n` with the front flit of `i` replaced by `f` of the same piece. */
  ghost predicate FrontOnly(n: Net, m: Net, i: Chan, f: Flit) {
    && n.I(i).buffer != [] && f.piece == n.I(i).buffer[0].piece
    && m.I(i) == WithFront(n.I(i), f).(routes := m.I(i).routes, grant := m.I(i).grant)
    && (forall ch :: ch != i ==> m.I(ch) == n.I(ch))
    && m.nodes == n.nodes && m.place == n.place && m.log == n.log && m.delivered == n.delivered && m.total == n.total
  }

  lemma FrontSame(n: Net, m: Net, i: Chan, f: Flit)
    requires FrontOnly(n, m, i, f)
    requires forall ch :: m.O(ch).switched == n.O(ch).switched && m.O(ch).buffer == n.O(ch).buffer
    ensures SameFlits(n, m)
  {
    forall ch ensures m.I(ch).arrived == n.I(ch).arrived && SamePieces(m.I(ch).buffer, n.I(ch).buffer) {}
  }

  lemma FrontPhases(c: Config, n: Net, m: Net, i: Chan, f: Flit)
    requires Phases(c, n) && FrontOnly(n, m, i, f) && c.Has(i)
    requires forall ch :: m.O(ch).buffer == n.O(ch).buffer
    requires DirOk(f.dir) && FrontOk(c, i, m.I(i), f)
    ensures Phases(c, m)
  {
    forall ch | c.Has(ch) ensures InPhases(c, ch, m.I(ch)) && OutPhases(m.O(ch).buffer) {
      assert InPhases(c, ch, n.I(ch)) && OutPhases(n.O(ch).buffer);
    }
  }

  /** What every move of this kind keeps, apart from the grants. */
  lemma FrontKeeps(c: Config, n: Net, m: Net, i: Chan, f: Flit)
    requires Inv(c, n) && FrontOnly(n, m, i, f) && c.Has(i) && DirOk(f.dir) && FrontOk(c, i, m.I(i), f)
    requires forall ch :: m.O(ch) == n.O(ch).(avail := m.O(ch).avail, owner := m.O(ch).owner)
    requires Ownership(c, m)
    ensures Inv(c, m)
  {
    hide Credits, Streams, Ownership, Phases, Places, Deliveries, Waiting;
    FrontSame(n, m, i, f);
    CreditsFrame(c, n, m);
    StreamsFrame(c, n, m);
    PlacesFrame(c, n, m);
    FrontPhases(c, n, m, i, f);
    WaitingFrame(c, n, m);
  }

  /** A flit that may ask for the switch: an allocated head, or a body or tail flit that
      arrived, at the front of an input VC that was granted a channel of port `op`. */
  predicate WantsSwitch(n: Net, i: Chan, op: nat) {
    var iv := n.I(i);
    && iv.buffer != [] && iv.grant.Some? && iv.grant.value.port == op && i.port != op
    && iv.buffer[0].phase == (if iv.buffer[0].piece.Head() then VCA else IB)
  }

  lemma AllocateSwitchKeeps(c: Config, n: Net, i: Chan, op: nat)
    requires Inv(c, n) && c.Has(i) && WantsSwitch(n, i, op)
    ensures Inv(c, AllocateSwitch(n, i, op))
  {
    hide Credits, Streams, Ownership, Phases, Places, Deliveries, Waiting;
    var m, f := AllocateSwitch(n, i, op), n.I(i).buffer[0].(phase := SA);
    InputFacts(c, n, i);
    assert FrontOnly(n, m, i, f);
    FrontSame(n, m, i, f);
    OwnershipFrame(c, n, m);
    FrontKeeps(c, n, m, i, f);
  }

  /** A head flit that has arrived and awaits its route. */
  predicate WantsRoute(n: Net, i: Chan) {
    var iv := n.I(i);
    && iv.buffer != [] && iv.buffer[0].piece.Head() && iv.buffer[0].phase == IB
    && iv.buffer[0].ready <= n.N(i.router).cycle
  }

  lemma CalculateRouteKeeps(c: Config, n: Net, i: Chan)
    requires Inv(c, n) && c.Has(i) && WantsRoute(n, i)
    ensures Inv(c, CalculateRoute(c, n, i))
  {
    hide Credits, Streams, Ownership, Phases, Places, Deliveries, Waiting;
    var m, g := CalculateRoute(c, n, i), n.I(i).buffer[0];
    var (routes, dir) := RouteOf(c, i.router, g.piece.req.dst, g.dir, n.I(i).routes);
    var f := g.(phase := RC, dir := dir);
    InputFacts(c, n, i);
    assert RoutesOk(c, i.router, g.piece.req.dst, routes) && DirOk(dir) by {
      forall out: Chan | out.router == i.router && Offers(c, out, routes, g.piece.req.dst)
        ensures if out.port == LOCAL then g.piece.req.dst == i.router else c.Linked(out)
      {
        RouteIsSound(c, i.router, g.piece.req.dst, g.dir, n.I(i).routes, out);
      }
      RouteIsSound(c, i.router, g.piece.req.dst, g.dir, n.I(i).routes, i);
    }
    assert FrontOnly(n, m, i, f);
    FrontSame(n, m, i, f);
    OwnershipFrame(c, n, m);
    FrontKeeps(c, n, m, i, f);
  }

  /** A routed head flit that output channel `o` may be given to. */
  predicate WantsVc(c: Config, n: Net, i: Chan, o: Chan) {
    var iv := n.I(i);
    && i.router == o.router && i.port != o.port
    && iv.buffer != [] && iv.buffer[0].piece.Head() && iv.buffer[0].phase == RC
    && Offers(c, o, iv.routes, iv.buffer[0].piece.req.dst)
  }

  lemma AllocateVcGrantOk(c: Config, n: Net, i: Chan, o: Chan, j: Chan)
    requires GrantOk(c, n, i) && GrantOk(c, n, j) && OwnerOk(c, n, o) && InPhases(c, i, n.I(i))
    requires c.Has(o) && WantsVc(c, n, i, o) && n.O(o).avail
    ensures GrantOk(c, AllocateVc(n, i, o), j)
  {
  }

  lemma AllocateVcOwnerOk(c: Config, n: Net, i: Chan, o: Chan, p: Chan)
    requires OwnerOk(c, n, o) && OwnerOk(c, n, p) && InPhases(c, i, n.I(i))
    requires c.Has(i) && WantsVc(c, n, i, o) && n.O(o).avail
    ensures OwnerOk(c, AllocateVc(n, i, o), p)
  {
  }

  lemma AllocateVcOwnership(c: Config, n: Net, i: Chan, o: Chan)
    requires Ownership(c, n) && InPhases(c, i, n.I(i)) && c.Has(i) && c.Has(o) && WantsVc(c, n, i, o) && n.O(o).avail
    ensures Ownership(c, AllocateVc(n, i, o))
  {
    hide GrantOk, OwnerOk, InPhases;
    var m := AllocateVc(n, i, o);
    forall j | c.Has(j) ensures GrantOk(c, m, j) { AllocateVcGrantOk(c, n, i, o, j); }
    forall p | c.Has(p) ensures OwnerOk(c, m, p) { AllocateVcOwnerOk(c, n, i, o, p); }
  }

  lemma AllocateVcKeeps(c: Config, n: Net, i: Chan, o: Chan)
    requires Inv(c, n) && c.Has(i) && c.Has(o) && WantsVc(c, n, i, o) && n.O(o).avail
    ensures Inv(c, AllocateVc(n, i, o))
  {
    hide Credits, Streams, Ownership, Phases, Places, Deliveries, Waiting;
    var m, f := AllocateVc(n, i, o), n.I(i).buffer[0].(phase := VCA);
    InputFacts(c, n, i);
    AllocateVcOwnership(c, n, i, o);
    assert FrontOnly(n, m, i, f);
    FrontKeeps(c, n, m, i, f);
  }

  // ----- switch traversal -----

  predicate CanSwitch(n: Net, i: Chan) {
    n.I(i).buffer != [] && n.I(i).grant.Some? && n.I(i).buffer[0].phase == SA
  }

  lemma SwitchCreditOk(c: Config, n: Net, i: Chan, o: Chan)
    requires c.Valid() && CreditOk(c, n, o) && c.Has(i) && c.Has(o)
    requires CanSwitch(n, i) && (i.port == LOCAL || c.Linked(i))
    ensures CreditOk(c, Switch(c, n, i), o)
  {
    if c.Linked(o) {
      PeerSymmetric(c, o);
    }
    if i.port != LOCAL {
      PeerSymmetric(c, i);
      var u := c.Peer(i);
      CreditsForAppend(n.N(u.router).pending, Credit(Opposite(i.port), i.vc, n.N(i.router).cycle + 1), o.port, o.vc);
    }
  }

  lemma SwitchCredits(c: Config, n: Net, i: Chan)
    requires c.Valid() && Credits(c, n) && c.Has(i) && CanSwitch(n, i) && (i.port == LOCAL || c.Linked(i))
    ensures Credits(c, Switch(c, n, i))
  {
    hide CreditOk;
    var m := Switch(c, n, i);
    forall o | c.Has(o) ensures CreditOk(c, m, o) { SwitchCreditOk(c, n, i, o); }
    if i.port != LOCAL { PeerSymmetric(c, i); }
    forall r | 0 <= r < c.routers ensures PendingOk(c, r, m.N(r).pending) { assert PendingOk(c, r, n.N(r).pending); }
  }

  /** The flit that crosses the switch continues the stream of the output channel, and
      is bound for this router if the channel is local. */
  lemma SwitchContinues(c: Config, n: Net, i: Chan)
    requires HistoryOk(n.I(i).buffer, n.I(i).arrived, n.log) && GrantOk(c, n, i) && CanSwitch(n, i)
    requires OwnerOk(c, n, n.I(i).grant.value)
    ensures var o, x := n.I(i).grant.value, n.I(i).buffer[0].piece;
            var h := n.O(o).switched;
            && (if Mid(h, |h|) then x == h[|h| - 1].Next() else x.Head())
            && (o.port == LOCAL ==> x.req.dst == o.router)
  {
    var iv := n.I(i);
    assert Follows(iv.arrived, Gone(iv.buffer, iv.arrived));
  }

  lemma SwitchLinkFlow(c: Config, n: Net, i: Chan, p: Chan)
    requires LinkFlow(c, n, p) && CanSwitch(n, i)
    ensures LinkFlow(c, CrossSwitch(n, i), p)
  {
    if c.Linked(p) {
      var m := CrossSwitch(n, i);
      assert m.I(c.Peer(p)).arrived == n.I(c.Peer(p)).arrived;
      assert m.O(p).switched[..Gone(m.O(p).buffer, m.O(p).switched)] == n.O(p).switched[..Gone(n.O(p).buffer, n.O(p).switched)];
    }
  }

  lemma SwitchStreams(c: Config, n: Net, i: Chan)
    requires Streams(c, n) && c.Has(i) && CanSwitch(n, i) && GrantOk(c, n, i) && OwnerOk(c, n, n.I(i).grant.value)
    ensures Streams(c, CrossSwitch(n, i))
  {
    var m, iv, o := CrossSwitch(n, i), n.I(i), n.I(i).grant.value;
    var ov := n.O(o);
    SwitchContinues(c, n, i);
    HistoryPop(iv.buffer, iv.arrived, n.log);
    HistoryPush(ov.buffer, ov.switched, n.log, iv.buffer[0].(phase := ST));
    hide HistoryOk, OwnerOk, GrantOk, LinkFlow;
    forall p | c.Has(p) ensures LinkFlow(c, m, p) { SwitchLinkFlow(c, n, i, p); }
  }

  lemma SwitchGrantOk(c: Config, n: Net, i: Chan, j: Chan)
    requires HistoryOk(n.I(i).buffer, n.I(i).arrived, n.log)
    requires GrantOk(c, n, i) && GrantOk(c, n, j) && CanSwitch(n, i)
    ensures GrantOk(c, CrossSwitch(n, i), j)
  {
  }

  lemma SwitchOwnerOk(c: Config, n: Net, i: Chan, p: Chan)
    requires HistoryOk(n.I(i).buffer, n.I(i).arrived, n.log) && c.Has(i)
    requires CanSwitch(n, i) && GrantOk(c, n, i) && OwnerOk(c, n, n.I(i).grant.value) && OwnerOk(c, n, p)
    ensures OwnerOk(c, CrossSwitch(n, i), p)
  {
    SwitchContinues(c, n, i);
  }

  lemma SwitchOwnership(c: Config, n: Net, i: Chan)
    requires Ownership(c, n) && c.Has(i) && CanSwitch(n, i)
    requires HistoryOk(n.I(i).buffer, n.I(i).arrived, n.log)
    ensures Ownership(c, CrossSwitch(n, i))
  {
    assert GrantOk(c, n, i) && OwnerOk(c, n, n.I(i).grant.value);
    hide GrantOk, OwnerOk;
    var m := CrossSwitch(n, i);
    forall j | c.Has(j) ensures GrantOk(c, m, j) { SwitchGrantOk(c, n, i, j); }
    forall p | c.Has(p) ensures OwnerOk(c, m, p) { SwitchOwnerOk(c, n, i, p); }
  }

  lemma SwitchInPhases(c: Config, n: Net, i: Chan)
    requires InPhases(c, i, n.I(i)) && HistoryOk(n.I(i).buffer, n.I(i).arrived, n.log) && CanSwitch(n, i)
    ensures InPhases(c, i, CrossSwitch(n, i).I(i))
  {
    var iv := n.I(i);
    if |iv.buffer| > 1 {
      assert Follows(iv.arrived, Gone(iv.buffer, iv.arrived) + 1);
    }
  }

  lemma SwitchPhases(c: Config, n: Net, i: Chan)
    requires Phases(c, n) && HistoryOk(n.I(i).buffer, n.I(i).arrived, n.log) && c.Has(i) && CanSwitch(n, i)
    requires c.Has(n.I(i).grant.value)
    ensures Phases(c, CrossSwitch(n, i))
  {
    SwitchInPhases(c, n, i);
    hide InPhases, HistoryOk;
    var m := CrossSwitch(n, i);
    assert OutPhases(n.O(n.I(i).grant.value).buffer) && InPhases(c, i, n.I(i));
    forall j | c.Has(j) ensures InPhases(c, j, m.I(j)) { assert InPhases(c, j, n.I(j)); }
  }

  // A flit is recorded at one place only, so moving it leaves the records of others alone.

  lemma InRecordsStay(place: map<(nat, nat), Place>, key: (nat, nat), from: Place, to: Place, ch: Chan, iv: InVc)
    requires At(place, key, from) && InRecorded(place, ch, iv)
    requires from.In? && from.chan == ch ==> from.pos < Gone(iv.buffer, iv.arrived)
    ensures InRecorded(place[key := to], ch, iv)
  {
  }

  lemma OutRecordsStay(place: map<(nat, nat), Place>, key: (nat, nat), from: Place, to: Place, ch: Chan, ov: OutVc)
    requires At(place, key, from) && OutRecorded(place, ch, ov) && !from.Ejected?
    requires from.Out? && from.chan == ch ==> from.pos < Gone(ov.buffer, ov.switched)
    ensures OutRecorded(place[key := to], ch, ov)
  {
  }

  /** `n` and `m` agree on where the flit at `p` is. */
  ghost predicate SameSpot(n: Net, m: Net, p: Place) {
    var iv, ov, iv', ov' := n.I(p.chan), n.O(p.chan), m.I(p.chan), m.O(p.chan);
    match p
    case In(_, k) => iv.arrived <= iv'.arrived && 0 <= Gone(iv'.buffer, iv'.arrived) <= k
    case Out(_, k) => ov.switched <= ov'.switched && 0 <= Gone(ov'.buffer, ov'.switched) <= k
    case Ejected(_, k) => ov.switched <= ov'.switched && Gone(ov.buffer, ov.switched) <= Gone(ov'.buffer, ov'.switched) <= |ov'.switched|
  }

  lemma PresentStays(c: Config, n: Net, m: Net, key: (nat, nat), p: Place)
    requires Present(c, n, key, p) && SameSpot(n, m, p)
    ensures Present(c, m, key, p)
  {
  }

  /** The flit at the front of `i` is recorded there. */
  lemma FrontRecorded(c: Config, n: Net, i: Chan)
    requires InRecorded(n.place, i, n.I(i)) && HistoryOk(n.I(i).buffer, n.I(i).arrived, n.log) && n.I(i).buffer != []
    ensures At(n.place, n.I(i).buffer[0].piece.Key(), In(i, Gone(n.I(i).buffer, n.I(i).arrived)))
  {
    assert At(n.place, n.I(i).arrived[Gone(n.I(i).buffer, n.I(i).arrived)].Key(), In(i, Gone(n.I(i).buffer, n.I(i).arrived)));
  }

  lemma SwitchRecords(c: Config, n: Net, i: Chan, ch: Chan)
    requires HistoryOk(n.I(i).buffer, n.I(i).arrived, n.log) && CanSwitch(n, i)
    requires InRecorded(n.place, i, n.I(i)) && InRecorded(n.place, ch, n.I(ch)) && OutRecorded(n.place, ch, n.O(ch))
    ensures InRecorded(CrossSwitch(n, i).place, ch, CrossSwitch(n, i).I(ch))
    ensures OutRecorded(CrossSwitch(n, i).place, ch, CrossSwitch(n, i).O(ch))
  {
    var m, iv, o := CrossSwitch(n, i), n.I(i), n.I(i).grant.value;
    var key, from, to := iv.buffer[0].piece.Key(), In(i, Gone(iv.buffer, iv.arrived)), Out(o, |n.O(o).switched|);
    FrontRecorded(c, n, i);
    InRecordsStay(n.place, key, from, to, ch, m.I(ch));
    OutRecordsStay(n.place, key, from, to, ch, n.O(ch));
  }

  lemma SwitchPresent(c: Config, n: Net, i: Chan, key: (nat, nat))
    requires HistoryOk(n.I(i).buffer, n.I(i).arrived, n.log) && InRecorded(n.place, i, n.I(i)) && c.Has(i) && CanSwitch(n, i)
    requires c.Has(n.I(i).grant.value) && OutRecorded(n.place, n.I(i).grant.value, n.O(n.I(i).grant.value))
    requires key in CrossSwitch(n, i).place
    requires key in n.place ==> Present(c, n, key, n.place[key])
    ensures Present(c, CrossSwitch(n, i), key, CrossSwitch(n, i).place[key])
  {
    FrontRecorded(c, n, i);
    var m := CrossSwitch(n, i);
    if key != n.I(i).buffer[0].piece.Key() {
      HistoryPop(n.I(i).buffer, n.I(i).arrived, n.log);
      PresentStays(c, n, m, key, n.place[key]);
    }
  }

  lemma SwitchPlaces(c: Config, n: Net, i: Chan)
    requires Places(c, n) && HistoryOk(n.I(i).buffer, n.I(i).arrived, n.log)
    requires c.Has(i) && CanSwitch(n, i) && c.Has(n.I(i).grant.value)
    ensures Places(c, CrossSwitch(n, i))
  {
    var m := CrossSwitch(n, i);
    FrontRecorded(c, n, i);
    hide HistoryOk, InRecorded, OutRecorded, Present;
    forall ch | c.Has(ch) ensures InRecorded(m.place, ch, m.I(ch)) && OutRecorded(m.place, ch, m.O(ch)) {
      SwitchRecords(c, n, i, ch);
    }
    forall key | key in m.place ensures Present(c, m, key, m.place[key]) { SwitchPresent(c, n, i, key); }
  }

  lemma CrossSwitchKeeps(c: Config, n: Net, i: Chan)
    requires Inv(c, n) && c.Has(i) && CanSwitch(n, i)
    ensures var m := CrossSwitch(n, i);
            && Streams(c, m) && Ownership(c, m) && Phases(c, m) && Places(c, m)
            && Deliveries(c, m.place, m.log, m.delivered, m.total)
  {
    InputFacts(c, n, i);
    OutputFacts(c, n, n.I(i).grant.value);
    assert Places(c, n);
    FrontRecorded(c, n, i);
    hide Credits, Streams, Ownership, Phases, Places, Deliveries, Waiting, HistoryOk, OwnerOk;
    SwitchStreams(c, n, i);
    SwitchOwnership(c, n, i);
    SwitchPhases(c, n, i);
    SwitchPlaces(c, n, i);
    DeliveriesStay(c, n, n.I(i).buffer[0].piece.Key(), Out(n.I(i).grant.value, |n.O(n.I(i).grant.value).switched|));
  }

  lemma SendCreditFrame(c: Config, n: Net, i: Chan)
    requires c.Linked(i)
    ensures SameFlits(n, SendCredit(c, n, i))
    ensures forall r :: SameMail(n.N(r), SendCredit(c, n, i).N(r)) && SendCredit(c, n, i).N(r).injection == n.N(r).injection
  {
  }

  lemma SwitchKeeps(c: Config, n: Net, i: Chan)
    requires Inv(c, n) && c.Has(i) && CanSwitch(n, i)
    ensures i.port == LOCAL || c.Linked(i)
    ensures Inv(c, Switch(c, n, i))
  {
    hide Credits, Streams, Ownership, Phases, Places, Deliveries, Waiting, HistoryOk, GrantOk, InPhases;
    InputFacts(c, n, i);
    CrossSwitchKeeps(c, n, i);
    SwitchCredits(c, n, i);
    var k, m := CrossSwitch(n, i), Switch(c, n, i);
    if i.port != LOCAL {
      SendCreditFrame(c, k, i);
      StreamsFrame(c, k, m);
      OwnershipFrame(c, k, m);
      PhasesFrame(c, k, m);
      PlacesFrame(c, k, m);
    }
    WaitingFrame(c, n, m);
  }

  // ----- link traversal -----

  predicate CanTraverse(c: Config, n: Net, o: Chan) {
    c.Linked(o) && n.O(o).buffer != [] && n.O(o).credit != 0
  }

  lemma TraverseCredits(c: Config, n: Net, o: Chan)
    requires c.Valid() && Credits(c, n) && c.Has(o) && CanTraverse(c, n, o)
    ensures Credits(c, Traverse(c, n, o))
  {
    var m := Traverse(c, n, o);
    PeerSymmetric(c, o);
    assert CreditOk(c, n, o);
    forall p | c.Has(p) ensures CreditOk(c, m, p) {
      assert CreditOk(c, n, p);
      if c.Linked(p) { PeerInjective(c, o, p); }
    }
    forall r | 0 <= r < c.routers ensures PendingOk(c, r, m.N(r).pending) { assert PendingOk(c, r, n.N(r).pending); }
  }

  /** The flit that arrives continues the stream of the input channel behind the link. */
  lemma TraverseContinues(c: Config, n: Net, o: Chan)
    requires HistoryOk(n.O(o).buffer, n.O(o).switched, n.log) && LinkFlow(c, n, o) && CanTraverse(c, n, o)
    ensures var h, x := n.I(c.Peer(o)).arrived, n.O(o).buffer[0].piece;
            if Mid(h, |h|) then x == h[|h| - 1].Next() else x.Head()
  {
    var ov := n.O(o);
    assert Follows(ov.switched, Gone(ov.buffer, ov.switched));
  }

  lemma TraverseLinkFlow(c: Config, n: Net, o: Chan, p: Chan)
    requires c.Valid() && c.Has(o) && c.Has(p) && CanTraverse(c, n, o) && LinkFlow(c, n, o) && LinkFlow(c, n, p)
    requires HistoryOk(n.O(o).buffer, n.O(o).switched, n.log)
    ensures LinkFlow(c, Traverse(c, n, o), p)
  {
    HistoryPop(n.O(o).buffer, n.O(o).switched, n.log);
    if c.Linked(p) { PeerInjective(c, o, p); }
  }

  lemma TraverseStreams(c: Config, n: Net, o: Chan)
    requires c.Valid() && Streams(c, n) && c.Has(o) && CanTraverse(c, n, o)
    ensures Streams(c, Traverse(c, n, o))
  {
    var m, ov, d := Traverse(c, n, o), n.O(o), c.Peer(o);
    PeerSymmetric(c, o);
    assert LinkFlow(c, n, o);
    TraverseContinues(c, n, o);
    HistoryPop(ov.buffer, ov.switched, n.log);
    HistoryPush(n.I(d).buffer, n.I(d).arrived, n.log, m.I(d).buffer[|n.I(d).buffer|]);
    hide HistoryOk, LinkFlow;
    forall p | c.Has(p) ensures LinkFlow(c, m, p) { TraverseLinkFlow(c, n, o, p); }
  }

  lemma TraverseGrantOk(c: Config, n: Net, o: Chan, j: Chan)
    requires GrantOk(c, n, j) && CanTraverse(c, n, o)
    ensures GrantOk(c, Traverse(c, n, o), j)
  {
  }

  /** After a flit left, the channel is free exactly if it was the tail. */
  lemma PopOwnerOk(c: Config, n: Net, o: Chan)
    requires OwnerOk(c, n, o) && HistoryOk(n.O(o).buffer, n.O(o).switched, n.log) && n.O(o).buffer != []
    ensures var ov := n.O(o);
            (ov.avail || ov.buffer[0].piece.Tail()) == (ov.owner.None? && ov.buffer[1..] == [])
  {
  }

  lemma TraverseOwnerOk(c: Config, n: Net, o: Chan, p: Chan)
    requires OwnerOk(c, n, o) && HistoryOk(n.O(o).buffer, n.O(o).switched, n.log) && CanTraverse(c, n, o)
    requires OwnerOk(c, n, p)
    ensures OwnerOk(c, Traverse(c, n, o), p)
  {
    PopOwnerOk(c, n, o);
  }

  lemma TraverseOwnership(c: Config, n: Net, o: Chan)
    requires Ownership(c, n) && c.Has(o) && CanTraverse(c, n, o) && HistoryOk(n.O(o).buffer, n.O(o).switched, n.log)
    ensures Ownership(c, Traverse(c, n, o))
  {
    hide GrantOk, OwnerOk, HistoryOk;
    var m := Traverse(c, n, o);
    forall j | c.Has(j) ensures GrantOk(c, m, j) { TraverseGrantOk(c, n, o, j); }
    forall p | c.Has(p) ensures OwnerOk(c, m, p) { TraverseOwnerOk(c, n, o, p); }
  }

  lemma TraverseInPhases(c: Config, n: Net, o: Chan)
    requires OutPhases(n.O(o).buffer) && CanTraverse(c, n, o)
    requires InPhases(c, c.Peer(o), n.I(c.Peer(o))) && GrantOk(c, n, c.Peer(o))
    requires HistoryOk(n.O(o).buffer, n.O(o).switched, n.log) && LinkFlow(c, n, o)
    ensures InPhases(c, c.Peer(o), Traverse(c, n, o).I(c.Peer(o)))
  {
    TraverseContinues(c, n, o);
  }

  lemma TraversePhases(c: Config, n: Net, o: Chan)
    requires c.Valid() && Phases(c, n) && c.Has(o) && CanTraverse(c, n, o)
    requires HistoryOk(n.O(o).buffer, n.O(o).switched, n.log) && LinkFlow(c, n, o) && GrantOk(c, n, c.Peer(o))
    ensures Phases(c, Traverse(c, n, o))
  {
    PeerSymmetric(c, o);
    TraverseInPhases(c, n, o);
    hide InPhases, HistoryOk, LinkFlow, GrantOk;
    var m := Traverse(c, n, o);
    assert OutPhases(n.O(o).buffer) && InPhases(c, c.Peer(o), n.I(c.Peer(o)));
    forall j | c.Has(j) ensures InPhases(c, j, m.I(j)) { assert InPhases(c, j, n.I(j)); }
  }

  /** The flit at the front of output channel `o` is recorded there. */
  lemma OutFrontRecorded(n: Net, o: Chan)
    requires OutRecorded(n.place, o, n.O(o)) && HistoryOk(n.O(o).buffer, n.O(o).switched, n.log) && n.O(o).buffer != []
    ensures At(n.place, n.O(o).buffer[0].piece.Key(), Out(o, Gone(n.O(o).buffer, n.O(o).switched)))
  {
    assert At(n.place, n.O(o).switched[Gone(n.O(o).buffer, n.O(o).switched)].Key(), Out(o, Gone(n.O(o).buffer, n.O(o).switched)));
  }

  lemma TraverseRecords(c: Config, n: Net, o: Chan, ch: Chan)
    requires HistoryOk(n.O(o).buffer, n.O(o).switched, n.log) && CanTraverse(c, n, o) && o.port != LOCAL
    requires OutRecorded(n.place, o, n.O(o)) && InRecorded(n.place, ch, n.I(ch)) && OutRecorded(n.place, ch, n.O(ch))
    ensures InRecorded(Traverse(c, n, o).place, ch, Traverse(c, n, o).I(ch))
    ensures OutRecorded(Traverse(c, n, o).place, ch, Traverse(c, n, o).O(ch))
  {
    var m, ov, d := Traverse(c, n, o), n.O(o), c.Peer(o);
    var key, from, to := ov.buffer[0].piece.Key(), Out(o, Gone(ov.buffer, ov.switched)), In(d, |n.I(d).arrived|);
    OutFrontRecorded(n, o);
    InRecordsStay(n.place, key, from, to, ch, n.I(ch));
    OutRecordsStay(n.place, key, from, to, ch, m.O(ch));
  }

  lemma TraversePresent(c: Config, n: Net, o: Chan, key: (nat, nat))
    requires HistoryOk(n.O(o).buffer, n.O(o).switched, n.log) && CanTraverse(c, n, o) && c.Has(c.Peer(o)) && o.port != LOCAL
    requires OutRecorded(n.place, o, n.O(o)) && InRecorded(n.place, c.Peer(o), n.I(c.Peer(o)))
    requires key in Traverse(c, n, o).place
    requires key in n.place ==> Present(c, n, key, n.place[key])
    ensures Present(c, Traverse(c, n, o), key, Traverse(c, n, o).place[key])
  {
    OutFrontRecorded(n, o);
    var m := Traverse(c, n, o);
    if key != n.O(o).buffer[0].piece.Key() {
      HistoryPop(n.O(o).buffer, n.O(o).switched, n.log);
      PresentStays(c, n, m, key, n.place[key]);
    }
  }

  lemma TraversePlaces(c: Config, n: Net, o: Chan)
    requires c.Valid() && Places(c, n) && HistoryOk(n.O(o).buffer, n.O(o).switched, n.log)
    requires c.Has(o) && CanTraverse(c, n, o)
    ensures Places(c, Traverse(c, n, o))
  {
    var m := Traverse(c, n, o);
    PeerSymmetric(c, o);
    OutFrontRecorded(n, o);
    hide HistoryOk, InRecorded, OutRecorded, Present;
    forall ch | c.Has(ch) ensures InRecorded(m.place, ch, m.I(ch)) && OutRecorded(m.place, ch, m.O(ch)) {
      TraverseRecords(c, n, o, ch);
    }
    forall key | key in m.place ensures Present(c, m, key, m.place[key]) { TraversePresent(c, n, o, key); }
  }

  /** Moving a flit inside the network delivers nothing. */
  lemma DeliveriesStay(c: Config, n: Net, key: (nat, nat), to: Place)
    requires Deliveries(c, n.place, n.log, n.delivered, n.total)
    requires key in n.place && !n.place[key].Ejected? && !to.Ejected?
    ensures Deliveries(c, n.place[key := to], n.log, n.delivered, n.total)
  {
    forall p | 0 <= p < |n.log| ensures TailEjected(n.place[key := to], n.log, p) == TailEjected(n.place, n.log, p) {}
  }

  lemma TraverseKeeps(c: Config, n: Net, o: Chan)
    requires Inv(c, n) && c.Has(o) && CanTraverse(c, n, o)
    ensures Inv(c, Traverse(c, n, o))
  {
    hide Credits, Streams, Ownership, Phases, Places, Deliveries, Waiting, HistoryOk, OwnerOk, GrantOk, InPhases;
    OutputFacts(c, n, o);
    PeerSymmetric(c, o);
    InputFacts(c, n, c.Peer(o));
    OutFrontRecorded(n, o);
    var m := Traverse(c, n, o);
    TraverseCredits(c, n, o);
    TraverseStreams(c, n, o);
    TraverseOwnership(c, n, o);
    TraversePhases(c, n, o);
    TraversePlaces(c, n, o);
    DeliveriesStay(c, n, n.O(o).buffer[0].piece.Key(), In(c.Peer(o), |n.I(c.Peer(o)).arrived|));
    WaitingFrame(c, n, m);
  }

  // ----- ejection -----

  predicate CanEject(n: Net, o: Chan) {
    o.port == LOCAL && 0 < |n.O(o).buffer| <= |n.O(o).switched|
  }

  lemma EjectCredits(c: Config, n: Net, o: Chan)
    requires Credits(c, n) && CanEject(n, o)
    ensures Credits(c, Eject(n, o))
  {
    var m := Eject(n, o);
    forall p | c.Has(p) ensures CreditOk(c, m, p) { assert CreditOk(c, n, p); }
    forall r | 0 <= r < c.routers ensures PendingOk(c, r, m.N(r).pending) { assert PendingOk(c, r, n.N(r).pending); }
  }

  lemma EjectStreams(c: Config, n: Net, o: Chan)
    requires Streams(c, n) && c.Has(o) && CanEject(n, o) && !c.Linked(o)
    ensures Streams(c, Eject(n, o))
  {
    var m := Eject(n, o);
    HistoryPop(n.O(o).buffer, n.O(o).switched, n.log);
    hide HistoryOk;
    forall p | c.Has(p) ensures LinkFlow(c, m, p) { assert LinkFlow(c, n, p); }
  }

  lemma EjectOwnerOk(c: Config, n: Net, o: Chan, p: Chan)
    requires OwnerOk(c, n, o) && HistoryOk(n.O(o).buffer, n.O(o).switched, n.log) && CanEject(n, o) && OwnerOk(c, n, p)
    ensures OwnerOk(c, Eject(n, o), p)
  {
    PopOwnerOk(c, n, o);
  }

  lemma EjectGrantOk(c: Config, n: Net, o: Chan, j: Chan)
    requires GrantOk(c, n, j) && CanEject(n, o)
    ensures GrantOk(c, Eject(n, o), j)
  {
  }

  lemma EjectOwnership(c: Config, n: Net, o: Chan)
    requires Ownership(c, n) && c.Has(o) && CanEject(n, o) && HistoryOk(n.O(o).buffer, n.O(o).switched, n.log)
    ensures Ownership(c, Eject(n, o))
  {
    hide GrantOk, OwnerOk, HistoryOk;
    var m := Eject(n, o);
    forall j | c.Has(j) ensures GrantOk(c, m, j) { EjectGrantOk(c, n, o, j); }
    forall p | c.Has(p) ensures OwnerOk(c, m, p) { EjectOwnerOk(c, n, o, p); }
  }

  lemma EjectPhases(c: Config, n: Net, o: Chan)
    requires Phases(c, n) && c.Has(o) && CanEject(n, o)
    ensures Phases(c, Eject(n, o))
  {
    var m := Eject(n, o);
    assert OutPhases(n.O(o).buffer);
    forall j | c.Has(j) ensures InPhases(c, j, m.I(j)) { assert InPhases(c, j, n.I(j)); }
  }

  /** The records of the local channel itself: the flit at its front is now ejected. */
  lemma EjectRecord(place: map<(nat, nat), Place>, o: Chan, ov: OutVc, log: seq<Packet>)
    requires OutRecorded(place, o, ov) && HistoryOk(ov.buffer, ov.switched, log) && ov.buffer != []
    requires At(place, ov.buffer[0].piece.Key(), Out(o, Gone(ov.buffer, ov.switched)))
    ensures var gone := Gone(ov.buffer, ov.switched);
            OutRecorded(place[ov.buffer[0].piece.Key() := Ejected(o, gone)], o, ov.(buffer := ov.buffer[1..]))
  {
    HistoryPop(ov.buffer, ov.switched, log);
  }

  lemma EjectRecords(n: Net, o: Chan, ch: Chan)
    requires HistoryOk(n.O(o).buffer, n.O(o).switched, n.log) && CanEject(n, o)
    requires OutRecorded(n.place, o, n.O(o)) && InRecorded(n.place, ch, n.I(ch)) && OutRecorded(n.place, ch, n.O(ch))
    ensures InRecorded(Eject(n, o).place, ch, Eject(n, o).I(ch))
    ensures OutRecorded(Eject(n, o).place, ch, Eject(n, o).O(ch))
  {
    var m, ov := Eject(n, o), n.O(o);
    var gone := Gone(ov.buffer, ov.switched);
    OutFrontRecorded(n, o);
    InRecordsStay(n.place, ov.buffer[0].piece.Key(), Out(o, gone), Ejected(o, gone), ch, n.I(ch));
    if ch != o {
      OutRecordsStay(n.place, ov.buffer[0].piece.Key(), Out(o, gone), Ejected(o, gone), ch, n.O(ch));
    } else {
      EjectRecord(n.place, o, ov, n.log);
    }
  }

  lemma EjectPresent(c: Config, n: Net, o: Chan, key: (nat, nat))
    requires HistoryOk(n.O(o).buffer, n.O(o).switched, n.log) && CanEject(n, o) && c.Has(o)
    requires OutRecorded(n.place, o, n.O(o))
    requires key in Eject(n, o).place
    requires key in n.place ==> Present(c, n, key, n.place[key])
    ensures Present(c, Eject(n, o), key, Eject(n, o).place[key])
  {
    OutFrontRecorded(n, o);
    HistoryPop(n.O(o).buffer, n.O(o).switched, n.log);
    if key != n.O(o).buffer[0].piece.Key() {
      PresentStays(c, n, Eject(n, o), key, n.place[key]);
    }
  }

  lemma EjectPlaces(c: Config, n: Net, o: Chan)
    requires Places(c, n) && HistoryOk(n.O(o).buffer, n.O(o).switched, n.log) && c.Has(o) && CanEject(n, o)
    ensures Places(c, Eject(n, o))
  {
    var m := Eject(n, o);
    OutFrontRecorded(n, o);
    hide HistoryOk, InRecorded, OutRecorded, Present;
    forall ch | c.Has(ch) ensures InRecorded(m.place, ch, m.I(ch)) && OutRecorded(m.place, ch, m.O(ch)) {
      EjectRecords(n, o, ch);
    }
    forall key | key in m.place ensures Present(c, m, key, m.place[key]) { EjectPresent(c, n, o, key); }
  }

  lemma EjectDeliveries(c: Config, n: Net, o: Chan)
    requires Deliveries(c, n.place, n.log, n.delivered, n.total) && CanEject(n, o)
    requires Known(n.log, n.O(o).buffer[0].piece)
    requires At(n.place, n.O(o).buffer[0].piece.Key(), Out(o, Gone(n.O(o).buffer, n.O(o).switched)))
    ensures var m := Eject(n, o); Deliveries(c, m.place, m.log, m.delivered, m.total)
  {
    var m, x := Eject(n, o), n.O(o).buffer[0].piece;
    forall p | 0 <= p < |m.log| ensures p in m.delivered <==> TailEjected(m.place, m.log, p) {
      assert p in n.delivered <==> TailEjected(n.place, n.log, p);
    }
    assert x.Tail() ==> x.pkt !in n.delivered;
  }

  /** The request of a delivered packet is handed to the router it was bound for. */
  lemma EjectWaiting(c: Config, n: Net, o: Chan)
    requires Waiting(c, n) && CanEject(n, o) && |n.O(o).buffer| <= |n.O(o).switched|
    requires Known(n.log, n.O(o).buffer[0].piece) && n.O(o).buffer[0].piece.req.dst == o.router
    ensures Waiting(c, Eject(n, o))
  {
    hide BoundFor;
    var m, x := Eject(n, o), n.O(o).buffer[0].piece;
    forall r | 0 <= r < c.routers ensures WaitingOk(c, m.N(r).injection) { assert WaitingOk(c, n.N(r).injection); }
    forall r: nat ensures MailOk(m, r) {
      assert MailOk(n, r);
      BoundForNext(n.log, n.delivered, x.pkt, r);
    }
  }

  lemma EjectKeeps(c: Config, n: Net, o: Chan)
    requires Inv(c, n) && c.Has(o) && o.port == LOCAL && n.O(o).buffer != []
    ensures CanEject(n, o) && Inv(c, Eject(n, o))
  {
    hide Credits, Streams, Ownership, Phases, Places, Deliveries, Waiting, OwnerOk, OutPhases, OutRecorded;
    OutputFacts(c, n, o);
    if c.Linked(o) { PeerSymmetric(c, o); }
    OutFrontRecorded(n, o);
    HistoryPop(n.O(o).buffer, n.O(o).switched, n.log);
    var m := Eject(n, o);
    EjectCredits(c, n, o);
    EjectStreams(c, n, o);
    EjectOwnership(c, n, o);
    EjectPhases(c, n, o);
    EjectPlaces(c, n, o);
    EjectDeliveries(c, n, o);
    EjectWaiting(c, n, o);
  }

  // ----- injection -----

  predicate CanInject(c: Config, n: Net, d: Chan) {
    && d.port == LOCAL && n.N(d.router).injection != [] && c.linkWidth > 0
    && |n.I(d).buffer| + NumFlits(c, n.N(d.router).injection[0]) <= BUFFER_MAX
  }

  lemma InjectCredits(c: Config, n: Net, d: Chan)
    requires c.Valid() && Credits(c, n) && CanInject(c, n, d)
    ensures Credits(c, InjectPacket(c, n, d))
  {
    var m := InjectPacket(c, n, d);
    forall p | c.Has(p) ensures CreditOk(c, m, p) {
      assert CreditOk(c, n, p);
      if c.Linked(p) { PeerSymmetric(c, p); }
    }
    forall r | 0 <= r < c.routers ensures PendingOk(c, r, m.N(r).pending) { assert PendingOk(c, r, n.N(r).pending); }
  }

  lemma HistoryLog(buffer: seq<Flit>, h: seq<Piece>, log: seq<Packet>, x: Packet)
    requires HistoryOk(buffer, h, log)
    ensures HistoryOk(buffer, h, log + [x])
  {
    forall k | 0 <= k < |h| ensures Known(log + [x], h[k]) { assert Known(log, h[k]); }
  }

  lemma HistoryInject(buffer: seq<Flit>, h: seq<Piece>, log: seq<Packet>, num: nat, req: Req, now: nat)
    requires HistoryOk(buffer, h, log) && !Mid(h, |h|) && num > 0
    ensures HistoryOk(buffer + FlitsOf(|log|, num, req, now), h + PiecesOf(|log|, num, req), log + [Packet(req, num)])
    ensures !Mid(h + PiecesOf(|log|, num, req), |h| + num)
  {
    StreamAppendPacket(h, |log|, num, req);
    HistoryLog(buffer, h, log, Packet(req, num));
    var b', h', log' := buffer + FlitsOf(|log|, num, req, now), h + PiecesOf(|log|, num, req), log + [Packet(req, num)];
    forall k | 0 <= k < |h'| ensures Known(log', h'[k]) {
      if k >= |h| { assert h'[k] == Piece(|log|, k - |h|, num, req); }
    }
    forall k | 0 <= k < |b'| ensures b'[k].piece == h'[Gone(b', h') + k] {
      if k >= |buffer| { assert b'[k].piece == Piece(|log|, k - |buffer|, num, req); }
    }
  }

  lemma InjectLinkFlow(c: Config, n: Net, d: Chan, p: Chan)
    requires c.Valid() && LinkFlow(c, n, p) && CanInject(c, n, d) && c.Has(p)
    ensures LinkFlow(c, InjectPacket(c, n, d), p)
  {
    if c.Linked(p) { PeerSymmetric(c, p); }
  }

  lemma InjectStreams(c: Config, n: Net, d: Chan)
    requires c.Valid() && Streams(c, n) && c.Has(d) && CanInject(c, n, d)
    ensures Streams(c, InjectPacket(c, n, d))
  {
    var m, iv := InjectPacket(c, n, d), n.I(d);
    var req := n.N(d.router).injection[0];
    var num := NumFlits(c, req);
    HistoryInject(iv.buffer, iv.arrived, n.log, num, req, n.N(d.router).cycle);
    hide HistoryOk, LinkFlow;
    forall p | c.Has(p) ensures LinkFlow(c, m, p) { InjectLinkFlow(c, n, d, p); }
    forall ch | c.Has(ch) ensures HistoryOk(m.O(ch).buffer, m.O(ch).switched, m.log) {
      HistoryLog(n.O(ch).buffer, n.O(ch).switched, n.log, Packet(req, num));
    }
    forall ch | c.Has(ch) ensures HistoryOk(m.I(ch).buffer, m.I(ch).arrived, m.log) {
      if ch != d { HistoryLog(n.I(ch).buffer, n.I(ch).arrived, n.log, Packet(req, num)); }
    }
  }

  lemma InjectGrantOk(c: Config, n: Net, d: Chan, j: Chan)
    requires GrantOk(c, n, j) && CanInject(c, n, d)
    ensures GrantOk(c, InjectPacket(c, n, d), j)
  {
  }

  lemma InjectOwnerOk(c: Config, n: Net, d: Chan, p: Chan)
    requires OwnerOk(c, n, p) && CanInject(c, n, d)
    ensures OwnerOk(c, InjectPacket(c, n, d), p)
  {
  }

  lemma InjectOwnership(c: Config, n: Net, d: Chan)
    requires Ownership(c, n) && CanInject(c, n, d)
    ensures Ownership(c, InjectPacket(c, n, d))
  {
    hide GrantOk, OwnerOk;
    var m := InjectPacket(c, n, d);
    forall j | c.Has(j) ensures GrantOk(c, m, j) { InjectGrantOk(c, n, d, j); }
    forall p | c.Has(p) ensures OwnerOk(c, m, p) { InjectOwnerOk(c, n, d, p); }
  }

  lemma InjectPhases(c: Config, n: Net, d: Chan)
    requires Phases(c, n) && CanInject(c, n, d) && c.Has(d) && GrantOk(c, n, d)
    requires !Mid(n.I(d).arrived, |n.I(d).arrived|)
    ensures Phases(c, InjectPacket(c, n, d))
  {
    var m := InjectPacket(c, n, d);
    forall j | c.Has(j) ensures InPhases(c, j, m.I(j)) { assert InPhases(c, j, n.I(j)); }
    forall p | c.Has(p) ensures OutPhases(m.O(p).buffer) { assert OutPhases(n.O(p).buffer); }
  }

  lemma RecordsGrow(place: map<(nat, nat), Place>, extra: map<(nat, nat), Place>, ch: Chan, iv: InVc, ov: OutVc)
    requires place.Keys !! extra.Keys && InRecorded(place, ch, iv) && OutRecorded(place, ch, ov)
    ensures InRecorded(place + extra, ch, iv) && OutRecorded(place + extra, ch, ov)
  {
    assert forall k, p :: At(place, k, p) ==> At(place + extra, k, p);
  }

  /** The records of the channel a packet is injected into. */
  lemma InjectRecord(place: map<(nat, nat), Place>, pkt: nat, num: nat, req: Req, now: nat, d: Chan, iv: InVc)
    requires InRecorded(place + PlacesOf(pkt, num, d, |iv.arrived|), d, iv)
    ensures var extra := PlacesOf(pkt, num, d, |iv.arrived|);
            InRecorded(place + extra, d, iv.(buffer := iv.buffer + FlitsOf(pkt, num, req, now), arrived := iv.arrived + PiecesOf(pkt, num, req)))
  {
    var places, pieces := place + PlacesOf(pkt, num, d, |iv.arrived|), PiecesOf(pkt, num, req);
    assert |pieces| == |FlitsOf(pkt, num, req, now)| == num;
    forall k | 0 <= k < num ensures pieces[k] == Piece(pkt, k, num, req) {}
    hide FlitsOf, PiecesOf, PlacesOf, InRecorded, At;
    forall k | 0 <= k < num ensures At(places, pieces[k].Key(), In(d, |iv.arrived| + k)) {
      NewPlace(place, pkt, num, d, |iv.arrived|, k);
    }
    RecordAppend(places, d, iv, FlitsOf(pkt, num, req, now), pieces);
  }

  lemma RecordAppend(place: map<(nat, nat), Place>, d: Chan, iv: InVc, flits: seq<Flit>, pieces: seq<Piece>)
    requires InRecorded(place, d, iv) && |flits| == |pieces|
    requires forall k :: 0 <= k < |pieces| ==> At(place, pieces[k].Key(), In(d, |iv.arrived| + k))
    ensures InRecorded(place, d, iv.(buffer := iv.buffer + flits, arrived := iv.arrived + pieces))
  {
    hide At;
    var h := iv.arrived + pieces;
    forall k | Gone(iv.buffer, iv.arrived) <= k < |h| ensures At(place, h[k].Key(), In(d, k)) {
      if k < |iv.arrived| {
        assert h[k] == iv.arrived[k];
      } else {
        var j := k - |iv.arrived|;
        assert h[k] == pieces[j];
      }
    }
  }

  lemma NewPlace(place: map<(nat, nat), Place>, pkt: nat, num: nat, d: Chan, base: nat, k: nat)
    requires k < num
    ensures At(place + PlacesOf(pkt, num, d, base), (pkt, k), In(d, base + k))
  {
    assert (pkt, k) in PlacesOf(pkt, num, d, base);
  }

  lemma InjectRecords(c: Config, n: Net, d: Chan, ch: Chan)
    requires CanInject(c, n, d) && InRecorded(n.place, ch, n.I(ch)) && OutRecorded(n.place, ch, n.O(ch))
    requires forall k: nat :: (|n.log|, k) !in n.place
    ensures InRecorded(InjectPacket(c, n, d).place, ch, InjectPacket(c, n, d).I(ch))
    ensures OutRecorded(InjectPacket(c, n, d).place, ch, InjectPacket(c, n, d).O(ch))
  {
    hide InRecorded, OutRecorded;
    var node := n.N(d.router);
    var num := NumFlits(c, node.injection[0]);
    var extra := PlacesOf(|n.log|, num, d, |n.I(d).arrived|);
    assert n.place.Keys !! extra.Keys by {
      forall key | key in extra ensures key !in n.place { assert key == (key.0, key.1); }
    }
    RecordsGrow(n.place, extra, ch, n.I(ch), n.O(ch));
    if ch == d {
      InjectRecord(n.place, |n.log|, num, node.injection[0], node.cycle, d, n.I(d));
    }
  }

  lemma InjectPresent(c: Config, n: Net, d: Chan, key: (nat, nat))
    requires CanInject(c, n, d) && c.Has(d) && |n.I(d).buffer| <= |n.I(d).arrived|
    requires forall k: nat :: (|n.log|, k) !in n.place
    requires key in InjectPacket(c, n, d).place
    requires key in n.place ==> Present(c, n, key, n.place[key])
    ensures Present(c, InjectPacket(c, n, d), key, InjectPacket(c, n, d).place[key])
  {
    if key in n.place {
      PresentStays(c, n, InjectPacket(c, n, d), key, n.place[key]);
    } else {
      assert key == (key.0, key.1);
    }
  }

  lemma InjectPlaces(c: Config, n: Net, d: Chan)
    requires Places(c, n) && CanInject(c, n, d) && c.Has(d) && |n.I(d).buffer| <= |n.I(d).arrived|
    ensures Places(c, InjectPacket(c, n, d))
  {
    hide InRecorded, OutRecorded, Present;
    var m := InjectPacket(c, n, d);
    forall p: nat, k: nat ensures (p, k) in m.place <==> p < |m.log| && k < m.log[p].num {}
    forall ch | c.Has(ch) ensures InRecorded(m.place, ch, m.I(ch)) && OutRecorded(m.place, ch, m.O(ch)) {
      InjectRecords(c, n, d, ch);
    }
    forall key | key in m.place ensures Present(c, m, key, m.place[key]) { InjectPresent(c, n, d, key); }
  }

  lemma InjectDeliveries(c: Config, n: Net, d: Chan)
    requires Deliveries(c, n.place, n.log, n.delivered, n.total) && CanInject(c, n, d)
    requires n.N(d.router).injection[0].dst < c.routers
    ensures var m := InjectPacket(c, n, d); Deliveries(c, m.place, m.log, m.delivered, m.total)
  {
    var m := InjectPacket(c, n, d);
    forall p | 0 <= p < |m.log| ensures p in m.delivered <==> TailEjected(m.place, m.log, p) {
      if p < |n.log| { assert p in n.delivered <==> TailEjected(n.place, n.log, p); }
    }
  }

  lemma InjectWaiting(c: Config, n: Net, d: Chan)
    requires Waiting(c, n) && CanInject(c, n, d) && d.router < c.routers
    requires Deliveries(c, n.place, n.log, n.delivered, n.total)
    ensures n.N(d.router).injection[0].dst < c.routers && Waiting(c, InjectPacket(c, n, d))
  {
    hide BoundFor;
    var m := InjectPacket(c, n, d);
    assert WaitingOk(c, n.N(d.router).injection);
    forall r | 0 <= r < c.routers ensures WaitingOk(c, m.N(r).injection) { assert WaitingOk(c, n.N(r).injection); }
    forall r: nat ensures MailOk(m, r) {
      assert MailOk(n, r);
      BoundForLater(n.log, m.log[|n.log|], n.delivered, r);
    }
  }

  lemma InjectKeeps(c: Config, n: Net, d: Chan)
    requires Inv(c, n) && c.Has(d) && CanInject(c, n, d)
    ensures Inv(c, InjectPacket(c, n, d))
  {
    hide Credits, Streams, Ownership, Phases, Places, Deliveries, Waiting, InPhases, HistoryOk;
    InputFacts(c, n, d);
    InjectWaiting(c, n, d);
    var m := InjectPacket(c, n, d);
    InjectCredits(c, n, d);
    InjectStreams(c, n, d);
    InjectOwnership(c, n, d);
    InjectPhases(c, n, d);
    InjectPlaces(c, n, d);
    InjectDeliveries(c, n, d);
  }
}
