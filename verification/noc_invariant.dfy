/** What holds of the network in every reachable state. */
module NocInvariant {
  import opened Options
  import opened NocTopology
  import opened NocState

  // ----- credits -----

  function CreditsFor(pending: seq<Credit>, port: nat, vc: nat): nat {
    if pending == [] then 0
    else (if pending[0].port == port && pending[0].vc == vc then 1 else 0) + CreditsFor(pending[1..], port, vc)
  }

  /** The credit equation of one output channel: what the upstream router may still send,
      what waits downstream and what is on its way back add up to the buffer size. */
  ghost predicate CreditOk(c: Config, n: Net, o: Chan) {
    if c.Linked(o) then
      && n.O(o).credit >= 0
      && n.O(o).credit + |n.I(c.Peer(o)).buffer| + CreditsFor(n.N(o.router).pending, o.port, o.vc) == BUFFER_MAX
    else n.O(o).credit == BUFFER_MAX
  }

  ghost predicate PendingOk(c: Config, r: nat, pending: seq<Credit>) {
    forall k :: 0 <= k < |pending| ==> pending[k].vc < c.vcs && c.Linked(Chan(r, pending[k].port, pending[k].vc))
  }

  ghost predicate Credits(c: Config, n: Net) {
    && (forall o :: c.Has(o) ==> CreditOk(c, n, o))
    && (forall r :: 0 <= r < c.routers ==> PendingOk(c, r, n.N(r).pending))
    && (forall d :: c.Has(d) && d.port == LOCAL ==> |n.I(d).buffer| <= BUFFER_MAX)
  }

  // ----- streams -----

  /** The first `k` pieces of `h` end inside a packet. */
  predicate Mid(h: seq<Piece>, k: nat)
    requires k <= |h|
  {
    k > 0 && !h[k - 1].Tail()
  }

  ghost predicate Follows(h: seq<Piece>, k: nat)
    requires k < |h|
  {
    if Mid(h, k) then h[k] == h[k - 1].Next() else h[k].Head()
  }

  /** `h` is a sequence of whole packets, each in flit order, the last possibly unfinished. */
  ghost predicate Stream(h: seq<Piece>) {
    forall k :: 0 <= k < |h| ==> Follows(h, k)
  }

  /** The piece is one of the pieces of a packet that was injected. */
  predicate Known(log: seq<Packet>, p: Piece) {
    p.pkt < |log| && p.id < p.num && p.num == log[p.pkt].num && p.req == log[p.pkt].req
  }

  /** How many flits have left the buffer of a channel. */
  function Gone(buffer: seq<Flit>, h: seq<Piece>): int {
    |h| - |buffer|
  }

  /** The buffer holds the most recent pieces of a well-formed history, in order. */
  ghost predicate HistoryOk(buffer: seq<Flit>, h: seq<Piece>, log: seq<Packet>) {
    && Stream(h) && |buffer| <= |h|
    && (forall k :: 0 <= k < |buffer| ==> buffer[k].piece == h[Gone(buffer, h) + k])
    && (forall k :: 0 <= k < |h| ==> Known(log, h[k]))
  }

  /** Everything that left an output channel has arrived at the other end of the link. */
  ghost predicate LinkFlow(c: Config, n: Net, o: Chan) {
    c.Linked(o) ==>
      && |n.O(o).buffer| <= |n.O(o).switched|
      && n.I(c.Peer(o)).arrived == n.O(o).switched[..Gone(n.O(o).buffer, n.O(o).switched)]
  }

  ghost predicate Streams(c: Config, n: Net) {
    && (forall ch :: c.Has(ch) ==> HistoryOk(n.I(ch).buffer, n.I(ch).arrived, n.log))
    && (forall ch :: c.Has(ch) ==> HistoryOk(n.O(ch).buffer, n.O(ch).switched, n.log))
    && (forall o :: c.Has(o) ==> LinkFlow(c, n, o))
    && (forall d :: c.Has(d) && d.port == LOCAL ==> !Mid(n.I(d).arrived, |n.I(d).arrived|))
    && (forall d :: c.Has(d) && d.port != LOCAL && !c.Linked(d) ==> n.I(d).arrived == [])
  }

  // ----- ownership of output channels -----

  /** The packet at input VC `iv` owns output VC `ov` of channel `o`: its flits enter it
      in order and nothing else does. */
  ghost predicate Owns(iv: InVc, o: Chan, ov: OutVc)
    requires |iv.buffer| <= |iv.arrived|
  {
    var gone := Gone(iv.buffer, iv.arrived);
    if Mid(iv.arrived, gone) then
      ov.switched != [] && ov.switched[|ov.switched| - 1] == iv.arrived[gone - 1]
    else
      && iv.buffer != [] && !Mid(ov.switched, |ov.switched|) && ov.buffer == []
      && (o.port == LOCAL ==> iv.buffer[0].piece.req.dst == o.router)
  }

  /** The input side of a grant. */
  ghost predicate GrantOk(c: Config, n: Net, i: Chan) {
    var iv := n.I(i);
    && |iv.buffer| <= |iv.arrived|
    && match iv.grant
       case Some(o) =>
         && c.Has(o) && o.router == i.router && o.port != i.port && (o.port == LOCAL || c.Linked(o))
         && n.O(o).owner == Some(i)
         && Owns(iv, o, n.O(o))
       case None => !Mid(iv.arrived, Gone(iv.buffer, iv.arrived))
  }

  /** The output side: a channel is free exactly when nobody owns it and it is drained,
      and a tail can only be the last flit, after the owner has let go. */
  ghost predicate OwnerOk(c: Config, n: Net, o: Chan) {
    var ov := n.O(o);
    && ov.avail == (ov.owner.None? && ov.buffer == [])
    && (ov.owner.Some? ==> c.Has(ov.owner.value) && n.I(ov.owner.value).grant == Some(o))
    && (ov.owner.None? ==> !Mid(ov.switched, |ov.switched|))
    && (forall k :: 0 <= k < |ov.buffer| && ov.buffer[k].piece.Tail() ==> k == |ov.buffer| - 1 && ov.owner.None?)
    && (o.port == LOCAL ==> forall k :: 0 <= k < |ov.switched| ==> ov.switched[k].req.dst == o.router)
    && (o.port != LOCAL && !c.Linked(o) ==> ov.switched == [])
  }

  ghost predicate Ownership(c: Config, n: Net) {
    && (forall i :: c.Has(i) ==> GrantOk(c, n, i))
    && (forall o :: c.Has(o) ==> OwnerOk(c, n, o))
  }

  // ----- pipeline phases -----

  /** The routes computed for a packet lead out of the network only at its destination. */
  ghost predicate RoutesOk(c: Config, router: nat, dst: nat, routes: Routes) {
    forall out: Chan :: out.router == router && Offers(c, out, routes, dst) ==>
      if out.port == LOCAL then dst == router else c.Linked(out)
  }

  ghost predicate FrontOk(c: Config, i: Chan, iv: InVc, f: Flit) {
    if iv.grant.Some? then
      f.phase == SA || f.phase == (if f.piece.Head() then VCA else IB)
    else
      f.phase == IB || (f.phase == RC && RoutesOk(c, i.router, f.piece.req.dst, iv.routes))
  }

  ghost predicate InPhases(c: Config, i: Chan, iv: InVc) {
    && (forall k :: 0 < k < |iv.buffer| ==> iv.buffer[k].phase == IB)
    && (forall k :: 0 <= k < |iv.buffer| ==> DirOk(iv.buffer[k].dir))
    && (iv.buffer != [] ==> FrontOk(c, i, iv, iv.buffer[0]))
  }

  ghost predicate OutPhases(buffer: seq<Flit>) {
    forall k :: 0 <= k < |buffer| ==> buffer[k].phase == ST && DirOk(buffer[k].dir)
  }

  ghost predicate Phases(c: Config, n: Net) {
    && (forall i :: c.Has(i) ==> InPhases(c, i, n.I(i)))
    && (forall o :: c.Has(o) ==> OutPhases(n.O(o).buffer))
  }

  // ----- one place for every flit -----

  ghost predicate At(place: map<(nat, nat), Place>, key: (nat, nat), p: Place) {
    key in place && place[key] == p
  }

  /** Each flit in an input buffer is recorded there. */
  ghost predicate InRecorded(place: map<(nat, nat), Place>, ch: Chan, iv: InVc) {
    && |iv.buffer| <= |iv.arrived|
    && forall k :: Gone(iv.buffer, iv.arrived) <= k < |iv.arrived| ==> At(place, iv.arrived[k].Key(), In(ch, k))
  }

  /** Each flit in an output buffer is recorded there, and each flit that left a local
      output buffer is recorded as ejected. */
  ghost predicate OutRecorded(place: map<(nat, nat), Place>, ch: Chan, ov: OutVc) {
    && |ov.buffer| <= |ov.switched|
    && (forall k :: Gone(ov.buffer, ov.switched) <= k < |ov.switched| ==> At(place, ov.switched[k].Key(), Out(ch, k)))
    && (ch.port == LOCAL ==> forall k :: 0 <= k < Gone(ov.buffer, ov.switched) ==>
          At(place, ov.switched[k].Key(), Ejected(ch, k)))
  }

  ghost predicate Holds(h: seq<Piece>, lo: int, k: int, hi: int, key: (nat, nat)) {
    0 <= lo <= k < hi <= |h| && h[k].Key() == key
  }

  /** The recorded place of a flit is where it really is. */
  ghost predicate Present(c: Config, n: Net, key: (nat, nat), p: Place) {
    var iv, ov := n.I(p.chan), n.O(p.chan);
    && c.Has(p.chan)
    && match p
       case In(_, k) => Holds(iv.arrived, Gone(iv.buffer, iv.arrived), k, |iv.arrived|, key)
       case Out(_, k) => Holds(ov.switched, Gone(ov.buffer, ov.switched), k, |ov.switched|, key)
       case Ejected(ch, k) => ch.port == LOCAL && Holds(ov.switched, 0, k, Gone(ov.buffer, ov.switched), key)
  }

  /** Exactly the flits of the injected packets have a place. */
  ghost predicate Places(c: Config, n: Net) {
    && (forall ch :: c.Has(ch) ==> InRecorded(n.place, ch, n.I(ch)))
    && (forall ch :: c.Has(ch) ==> OutRecorded(n.place, ch, n.O(ch)))
    && (forall key :: key in n.place ==> Present(c, n, key, n.place[key]))
    && (forall p: nat, k: nat :: (p, k) in n.place <==> p < |n.log| && k < n.log[p].num)
  }

  // ----- deliveries -----

  ghost predicate TailEjected(place: map<(nat, nat), Place>, log: seq<Packet>, p: nat)
    requires p < |log| && log[p].num > 0
  {
    var tail := (p, log[p].num - 1);
    tail in place && place[tail].Ejected?
  }

  /** A packet is delivered once, when its tail leaves, and `total` counts the others. */
  ghost predicate Deliveries(c: Config, place: map<(nat, nat), Place>, log: seq<Packet>, delivered: seq<nat>, total: int) {
    && (forall p :: 0 <= p < |log| ==> log[p].num > 0 && log[p].req.dst < c.routers)
    && (forall p :: p in delivered ==> p < |log|)
    && (forall p :: 0 <= p < |log| ==> (p in delivered <==> TailEjected(place, log, p)))
    && (forall j, k :: 0 <= j < k < |delivered| ==> delivered[j] != delivered[k])
    && total == |log| - |delivered|
  }

  /** Requests waiting to enter the network are for routers of the network, and those handed over
      are the delivered ones. */
  ghost predicate Waiting(c: Config, n: Net) {
    && (forall r :: 0 <= r < c.routers ==> WaitingOk(c, n.N(r).injection))
    && (forall r: nat :: MailOk(n, r))
  }

  /** The requests of the delivered packets that were bound for router `r`, in order of delivery. */
  function BoundFor(log: seq<Packet>, delivered: seq<nat>, r: nat): seq<Req> {
    if delivered == [] then []
    else
      var p := delivered[|delivered| - 1];
      BoundFor(log, delivered[..|delivered| - 1], r) + if p < |log| && log[p].req.dst == r then [log[p].req] else []
  }

  /** Each router has been handed exactly the requests delivered to it, in order. */
  ghost predicate MailOk(n: Net, r: nat) {
    n.N(r).taken + n.N(r).mailbox == BoundFor(n.log, n.delivered, r)
  }

  /** Later packets do not change what was delivered. */
  lemma {:induction false} BoundForLater(log: seq<Packet>, x: Packet, delivered: seq<nat>, r: nat)
    requires forall p :: p in delivered ==> p < |log|
    ensures BoundFor(log + [x], delivered, r) == BoundFor(log, delivered, r)
  {
    if delivered != [] {
      var n := |delivered| - 1;
      assert delivered[n] in delivered && forall p :: p in delivered[..n] ==> p in delivered;
      BoundForLater(log, x, delivered[..n], r);
    }
  }

  lemma BoundForNext(log: seq<Packet>, delivered: seq<nat>, p: nat, r: nat)
    requires p < |log|
    ensures BoundFor(log, delivered + [p], r) == BoundFor(log, delivered, r) + if log[p].req.dst == r then [log[p].req] else []
  {
    assert (delivered + [p])[..|delivered|] == delivered;
  }

  ghost predicate WaitingOk(c: Config, injection: seq<Req>) {
    forall k :: 0 <= k < |injection| ==> injection[k].dst < c.routers
  }

  ghost predicate Inv(c: Config, n: Net) {
    && c.Valid() && Wired(c)
    && Credits(c, n) && Streams(c, n) && Ownership(c, n) && Phases(c, n) && Places(c, n)
    && Deliveries(c, n.place, n.log, n.delivered, n.total) && Waiting(c, n)
  }

  // ----- facts about credits and streams -----

  lemma {:induction false} CreditsForAppend(s: seq<Credit>, x: Credit, port: nat, vc: nat)
    ensures CreditsFor(s + [x], port, vc) == CreditsFor(s, port, vc) + (if x.port == port && x.vc == vc then 1 else 0)
  {
    if s == [] {
      assert s + [x] == [x];
    } else {
      CreditsForAppend(s[1..], x, port, vc);
      assert (s + [x])[1..] == s[1..] + [x];
    }
  }

  lemma {:induction false} CreditsForRemove(s: seq<Credit>, k: nat, port: nat, vc: nat)
    requires k < |s|
    ensures CreditsFor(s, port, vc)
         == CreditsFor(s[..k] + s[k + 1..], port, vc) + (if s[k].port == port && s[k].vc == vc then 1 else 0)
  {
    if k == 0 {
      assert s[..0] + s[1..] == s[1..];
    } else {
      CreditsForRemove(s[1..], k - 1, port, vc);
      assert (s[..k] + s[k + 1..])[1..] == s[1..][..k - 1] + s[1..][k..];
    }
  }

  lemma StreamAppend(h: seq<Piece>, x: Piece)
    requires Stream(h)
    requires if Mid(h, |h|) then x == h[|h| - 1].Next() else x.Head()
    ensures Stream(h + [x])
  {
    var g := h + [x];
    forall k | 0 <= k < |g|
      ensures Follows(g, k)
    {
      assert k < |h| ==> Follows(h, k);
    }
  }

  lemma StreamAppendPacket(h: seq<Piece>, pkt: nat, num: nat, req: Req)
    requires Stream(h) && !Mid(h, |h|) && num > 0
    ensures Stream(h + PiecesOf(pkt, num, req))
    ensures !Mid(h + PiecesOf(pkt, num, req), |h| + num)
  {
    var ps := PiecesOf(pkt, num, req);
    var g := h + ps;
    forall k | 0 <= k < |g|
      ensures Follows(g, k)
    {
      if k < |h| {
        assert Follows(h, k);
      } else if k > |h| {
        assert g[k - 1] == ps[k - 1 - |h|];
      } else {
        assert g[k] == ps[0] && (k > 0 ==> g[k - 1] == h[k - 1]);
      }
    }
  }

  /** A tail in a stream closes a whole packet: the flits before it are those of the
      same packet, from the head on. */
  lemma {:induction false} WholePacket(h: seq<Piece>, t: nat, back: nat)
    requires Stream(h) && t < |h| && h[t].Tail() && back <= h[t].id
    requires forall k :: 0 <= k < |h| ==> h[k].id < h[k].num
    ensures back <= t
    ensures h[t - back] == Piece(h[t].pkt, h[t].id - back, h[t].num, h[t].req)
  {
    if back > 0 {
      WholePacket(h, t, back - 1);
      var k := t - (back - 1);
      assert !h[k].Head();
      assert Follows(h, k);
    }
  }

  /** A flit leaves the buffer. */
  lemma HistoryPop(buffer: seq<Flit>, h: seq<Piece>, log: seq<Packet>)
    requires HistoryOk(buffer, h, log) && buffer != []
    ensures HistoryOk(buffer[1..], h, log)
    ensures buffer[0].piece == h[Gone(buffer, h)] && Known(log, buffer[0].piece)
  {
  }

  /** A flit that continues the stream enters the buffer. */
  lemma HistoryPush(buffer: seq<Flit>, h: seq<Piece>, log: seq<Packet>, f: Flit)
    requires HistoryOk(buffer, h, log) && Known(log, f.piece)
    requires if Mid(h, |h|) then f.piece == h[|h| - 1].Next() else f.piece.Head()
    ensures HistoryOk(buffer + [f], h + [f.piece], log)
  {
    StreamAppend(h, f.piece);
  }
}
