/** What the invariant means for users of the network, in every reachable state. */
module NocTheorems {
  import opened Lists
  import opened NocTopology
  import opened NocState
  import opened NocInvariant
  import opened NocMoves
  import opened NocStages

  ghost predicate Started(c: Config, events: seq<Event>) {
    Setup(c) && forall e :: e in events ==> EventOk(c, e)
  }

  /** Credit conservation over every link, and what follows from it: no credit counter goes
      negative and no input buffer overflows. */
  lemma CreditConservation(c: Config, events: seq<Event>, o: Chan)
    requires Started(c, events) && c.Has(o) && c.Linked(o)
    ensures var n := Run(c, events);
            && n.O(o).credit + |n.I(c.Peer(o)).buffer| + CreditsFor(n.N(o.router).pending, o.port, o.vc) == BUFFER_MAX
            && 0 <= n.O(o).credit <= BUFFER_MAX && |n.I(c.Peer(o)).buffer| <= BUFFER_MAX
  {
    var n := Run(c, events);
    assert CreditOk(c, n, o);
  }

  /** No input buffer, linked, local or unused, ever exceeds its capacity. */
  lemma BuffersBounded(c: Config, events: seq<Event>, ch: Chan)
    requires Started(c, events) && c.Has(ch)
    ensures |Run(c, events).I(ch).buffer| <= BUFFER_MAX
  {
    var n := Run(c, events);
    if ch.port != LOCAL && c.Linked(ch) {
      PeerSymmetric(c, ch);
      CreditConservation(c, events, c.Peer(ch));
    } else {
      InputFacts(c, n, ch);
    }
  }

  /** An output VC is owned by at most one input VC, and while it is owned it is not on offer. */
  lemma ExclusiveOwner(c: Config, events: seq<Event>, i: Chan, j: Chan)
    requires Started(c, events) && c.Has(i) && c.Has(j)
    requires Run(c, events).I(i).grant.Some? && Run(c, events).I(i).grant == Run(c, events).I(j).grant
    ensures i == j && !Run(c, events).O(Run(c, events).I(i).grant.value).avail
  {
    var n := Run(c, events);
    assert GrantOk(c, n, i) && GrantOk(c, n, j);
    OutputFacts(c, n, n.I(i).grant.value);
  }

  /** Flits of different packets never interleave: in everything that ever entered an input or
      an output VC, a flit that is not a tail is followed by the next flit of its packet, and
      a tail by the head of another. The buffers hold the latest part of it. */
  lemma NoInterleaving(c: Config, events: seq<Event>, ch: Chan, k: nat)
    requires Started(c, events) && c.Has(ch)
    ensures var n := Run(c, events);
            && HistoryOk(n.I(ch).buffer, n.I(ch).arrived, n.log) && HistoryOk(n.O(ch).buffer, n.O(ch).switched, n.log)
            && (k + 1 < |n.I(ch).buffer| ==>
                  var f, g := n.I(ch).buffer[k].piece, n.I(ch).buffer[k + 1].piece;
                  if f.Tail() then g.Head() else g == f.Next())
  {
    var n := Run(c, events);
    InputFacts(c, n, ch);
    OutputFacts(c, n, ch);
    if k + 1 < |n.I(ch).buffer| {
      assert Follows(n.I(ch).arrived, Gone(n.I(ch).buffer, n.I(ch).arrived) + k + 1);
    }
  }

  /** The place of the flit at position `k` of an input or output buffer. */
  lemma BufferedAt(c: Config, n: Net, ch: Chan, k: nat)
    requires Inv(c, n) && c.Has(ch)
    ensures k < |n.I(ch).buffer| ==>
              var at := Gone(n.I(ch).buffer, n.I(ch).arrived) + k;
              at >= 0 && At(n.place, n.I(ch).buffer[k].piece.Key(), In(ch, at))
    ensures k < |n.O(ch).buffer| ==>
              var at := Gone(n.O(ch).buffer, n.O(ch).switched) + k;
              at >= 0 && At(n.place, n.O(ch).buffer[k].piece.Key(), Out(ch, at))
  {
    InputFacts(c, n, ch);
    OutputFacts(c, n, ch);
    assert InRecorded(n.place, ch, n.I(ch)) && OutRecorded(n.place, ch, n.O(ch));
    hide Credits, Streams, Ownership, Phases, Places, Deliveries, Waiting;
    if k < |n.I(ch).buffer| {
      var at := Gone(n.I(ch).buffer, n.I(ch).arrived) + k;
      assert At(n.place, n.I(ch).arrived[at].Key(), In(ch, at));
    }
    if k < |n.O(ch).buffer| {
      var at := Gone(n.O(ch).buffer, n.O(ch).switched) + k;
      assert At(n.place, n.O(ch).switched[at].Key(), Out(ch, at));
    }
  }

  /** No flit is in two buffer positions. */
  lemma OnePlace(c: Config, events: seq<Event>, a: Chan, j: nat, b: Chan, k: nat)
    requires Started(c, events) && c.Has(a) && c.Has(b)
    ensures var n := Run(c, events);
            && (j < |n.I(a).buffer| && k < |n.I(b).buffer| && n.I(b).buffer[k].piece.Key() == n.I(a).buffer[j].piece.Key() ==>
                  a == b && j == k)
            && (j < |n.I(a).buffer| && k < |n.O(b).buffer| ==> n.O(b).buffer[k].piece.Key() != n.I(a).buffer[j].piece.Key())
            && (j < |n.O(a).buffer| && k < |n.O(b).buffer| && n.O(b).buffer[k].piece.Key() == n.O(a).buffer[j].piece.Key() ==>
                  a == b && j == k)
  {
    hide Inv;
    var n := Run(c, events);
    BufferedAt(c, n, a, j);
    BufferedAt(c, n, b, k);
  }

  /** No flit is lost: every flit of every injected packet is in the buffer position where it
      is recorded, or it was ejected. */
  lemma NothingLost(c: Config, events: seq<Event>, p: nat, k: nat)
    requires Started(c, events) && p < |Run(c, events).log| && k < Run(c, events).log[p].num
    ensures var n := Run(c, events);
            (p, k) in n.place && Present(c, n, (p, k), n.place[(p, k)])
  {
    var n := Run(c, events);
    hide Credits, Streams, Ownership, Phases, Deliveries, Waiting, Present;
    assert (p, k) in n.place;
  }

  /** The tail of a delivered packet left through a local channel of the right router. */
  lemma TailLeft(c: Config, n: Net, p: nat)
    requires Inv(c, n) && p in n.delivered
    ensures p < |n.log| && n.log[p].num > 0
    ensures var tail := (p, n.log[p].num - 1);
            && tail in n.place && n.place[tail].Ejected?
            && var o, t := n.place[tail].chan, n.place[tail].pos;
               && c.Has(o) && o.port == LOCAL && HistoryOk(n.O(o).buffer, n.O(o).switched, n.log)
               && OutRecorded(n.place, o, n.O(o)) && t < Gone(n.O(o).buffer, n.O(o).switched) <= |n.O(o).switched|
               && n.O(o).switched[t].Key() == tail && n.O(o).switched[t].req.dst == o.router
  {
    hide Credits, Streams, Ownership, Phases, Waiting;
    assert TailEjected(n.place, n.log, p);
    var tail := (p, n.log[p].num - 1);
    assert Present(c, n, tail, n.place[tail]);
    hide Places, Deliveries;
    OutputFacts(c, n, n.place[tail].chan);
  }

  /** A delivered packet has left the network completely, flit after flit through one channel
      of the router it was bound for. */
  lemma DeliveredWhole(c: Config, events: seq<Event>, p: nat) returns (o: Chan, first: nat)
    requires Started(c, events) && p in Run(c, events).delivered
    ensures var n := Run(c, events);
            && p < |n.log| && c.Has(o) && o.port == LOCAL && o.router == n.log[p].req.dst
            && forall k: nat :: k < n.log[p].num ==> (p, k) in n.place && n.place[(p, k)] == Ejected(o, first + k)
  {
    hide Inv;
    var n := Run(c, events);
    TailLeft(c, n, p);
    var num := n.log[p].num;
    var tail := n.place[(p, num - 1)];
    o := tail.chan;
    PacketLeft(n.place, n.log, o, n.O(o), tail.pos, p);
    first := tail.pos - (num - 1);
  }

  lemma PacketLeft(place: map<(nat, nat), Place>, log: seq<Packet>, o: Chan, ov: OutVc, t: nat, p: nat)
    requires HistoryOk(ov.buffer, ov.switched, log) && OutRecorded(place, o, ov) && o.port == LOCAL
    requires t < Gone(ov.buffer, ov.switched) && p < |log| && log[p].num > 0
    requires ov.switched[t].Key() == (p, log[p].num - 1)
    ensures t >= log[p].num - 1 && ov.switched[t].req == log[p].req
    ensures forall k: nat :: k < log[p].num ==>
              (p, k) in place && place[(p, k)] == Ejected(o, t - (log[p].num - 1) + k)
  {
    var h, num := ov.switched, log[p].num;
    assert Known(log, h[t]);
    forall k | 0 <= k < |h| ensures h[k].id < h[k].num { assert Known(log, h[k]); }
    WholePacket(h, t, num - 1);
    forall k: nat | k < num ensures (p, k) in place && place[(p, k)] == Ejected(o, t - (num - 1) + k) {
      WholePacket(h, t, num - 1 - k);
      assert At(place, h[t - (num - 1) + k].Key(), Ejected(o, t - (num - 1) + k));
    }
  }

  lemma InFlight(packets: nat, delivered: seq<nat>)
    requires NoDup(delivered)
    requires forall p :: p in delivered ==> p < packets
    ensures |Span(0, packets) - Elems(delivered)| == packets - |delivered|
  {
    NoDupCount(delivered);
    assert Elems(delivered) <= Span(0, packets);
  }

  /** No request is handed over twice, and the packet counter is the number of packets whose
      tail has not left the network. */
  lemma DeliveredOnce(c: Config, events: seq<Event>)
    requires Started(c, events)
    ensures var n := Run(c, events);
            && NoDup(n.delivered)
            && n.total == |Span(0, |n.log|) - Elems(n.delivered)|
            && (forall p :: p in Span(0, |n.log|) ==> n.log[p].num > 0 && (p in n.delivered <==> TailEjected(n.place, n.log, p)))
  {
    hide Credits, Streams, Ownership, Phases, Places, Waiting;
    var n := Run(c, events);
    InFlight(|n.log|, n.delivered);
  }

  /** What a router was handed, taken or still in its mailbox, are the requests of the delivered
      packets bound for it, in order of delivery; each of these packets is delivered once. */
  lemma HandedOver(c: Config, events: seq<Event>, r: nat)
    requires Started(c, events)
    ensures var n := Run(c, events);
            n.N(r).taken + n.N(r).mailbox == BoundFor(n.log, n.delivered, r) && NoDup(n.delivered)
  {
    hide Credits, Streams, Ownership, Phases, Places, BoundFor;
    var n := Run(c, events);
    assert MailOk(n, r);
  }
}
