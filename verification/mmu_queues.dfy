/** Where the uops wait that missed the TLB: the walk queue, the two retry queues and the lists of
    the fault buffer. */
module MmuQueues {
  import opened Lists

  /** A memory uop; `page` is the page number of its virtual address. */
  datatype Uop = Uop(id: nat, vaddr: nat, page: nat)

  datatype Spot = Walking | FaultRetrying | Faulted | Processing | Retrying

  /** `walkDue` lists, per ready cycle, the pages whose walk ends then. `where` and `due` are history:
      the place of each waiting uop and the ready cycle of each page being walked. */
  datatype Queues = Queues(
    walkDue: map<nat, seq<nat>>,
    walkUops: map<nat, seq<Uop>>,
    retry: seq<Uop>,
    faultRetry: seq<Uop>,
    faultBuffer: set<nat>,
    faultUops: map<nat, seq<Uop>>,
    processing: seq<nat>,
    processingUops: map<nat, seq<Uop>>,
    where: map<Uop, Spot>,
    due: map<nat, nat>)

  const EMPTY := Queues(map[], map[], [], [], {}, map[], [], map[], map[], map[])

  ghost predicate At(where: map<Uop, Spot>, u: Uop, spot: Spot) {
    u in where && where[u] == spot
  }

  /** Every uop of the list is recorded to be there, and is there once. */
  ghost predicate Listing(where: map<Uop, Spot>, l: seq<Uop>, spot: Spot) {
    NoDup(l) && forall k :: 0 <= k < |l| ==> At(where, l[k], spot)
  }

  ghost predicate PageList(where: map<Uop, Spot>, l: seq<Uop>, spot: Spot, page: nat) {
    l != [] && Listing(where, l, spot) && forall k :: 0 <= k < |l| ==> l[k].page == page
  }

  ghost predicate PageLists(where: map<Uop, Spot>, m: map<nat, seq<Uop>>, spot: Spot) {
    forall p :: p in m ==> PageList(where, m[p], spot, p)
  }

  predicate InPage(m: map<nat, seq<Uop>>, u: Uop) {
    u.page in m && u in m[u.page]
  }

  /** A waiting uop is in the list that its recorded place names. */
  ghost predicate Waits(q: Queues, u: Uop, spot: Spot) {
    match spot
    case Walking => InPage(q.walkUops, u)
    case FaultRetrying => u in q.faultRetry
    case Faulted => InPage(q.faultUops, u)
    case Processing => InPage(q.processingUops, u)
    case Retrying => u in q.retry
  }

  ghost predicate DueOk(due: map<nat, nat>, pages: seq<nat>, cycle: nat) {
    pages != [] && NoDup(pages) && forall k :: 0 <= k < |pages| ==> pages[k] in due && due[pages[k]] == cycle
  }

  /** The pages listed under ready cycles are the pages with waiting walkers, each once. */
  ghost predicate WalkOk(walkDue: map<nat, seq<nat>>, walkPages: set<nat>, due: map<nat, nat>) {
    && due.Keys == walkPages
    && (forall t :: t in walkDue ==> DueOk(due, walkDue[t], t))
    && (forall p :: p in due ==> due[p] in walkDue && p in walkDue[due[p]])
  }

  /** The fault buffer and the batch in process list the pages that have waiting uops. */
  ghost predicate FaultsOk(q: Queues) {
    && q.faultBuffer == q.faultUops.Keys
    && NoDup(q.processing) && (forall p :: p in q.processing <==> p in q.processingUops)
  }

  /** Each waiting uop is in exactly one place. */
  ghost predicate Placed(q: Queues) {
    && PageLists(q.where, q.walkUops, Walking)
    && PageLists(q.where, q.faultUops, Faulted)
    && PageLists(q.where, q.processingUops, Processing)
    && Listing(q.where, q.retry, Retrying)
    && Listing(q.where, q.faultRetry, FaultRetrying)
    && (forall u :: u in q.where ==> Waits(q, u, q.where[u]))
  }

  ghost predicate Tidy(q: Queues) {
    Placed(q) && WalkOk(q.walkDue, q.walkUops.Keys, q.due) && FaultsOk(q)
  }

  // ----- single uops -----

  function Add(m: map<nat, seq<Uop>>, u: Uop): map<nat, seq<Uop>> {
    m[u.page := (if u.page in m then m[u.page] else []) + [u]]
  }

  /** A uop that missed joins the walk of its page, or starts one that ends at `ready`. */
  function Enqueue(q: Queues, u: Uop, ready: nat): Queues {
    var walkUops, where := Add(q.walkUops, u), q.where[u := Walking];
    if u.page in q.walkUops then q.(walkUops := walkUops, where := where)
    else
      var pages := if ready in q.walkDue then q.walkDue[ready] else [];
      q.(walkUops := walkUops, where := where, walkDue := q.walkDue[ready := pages + [u.page]], due := q.due[u.page := ready])
  }

  function ToRetry(q: Queues, u: Uop): Queues {
    q.(retry := q.retry + [u], where := q.where[u := Retrying])
  }

  function ToFaultRetry(q: Queues, u: Uop): Queues {
    q.(faultRetry := q.faultRetry + [u], where := q.where[u := FaultRetrying])
  }

  function ToFault(q: Queues, u: Uop): Queues {
    q.(faultBuffer := q.faultBuffer + {u.page}, faultUops := Add(q.faultUops, u), where := q.where[u := Faulted])
  }

  /** The `k`-th uop leaves the retry queue. */
  function LeaveRetry(q: Queues, k: nat): Queues
    requires k < |q.retry|
  {
    q.(retry := q.retry[..k] + q.retry[k + 1..], where := q.where - {q.retry[k]})
  }

  // A new uop is in no list, so recording it disturbs none of them.

  lemma ListingGrows(where: map<Uop, Spot>, l: seq<Uop>, spot: Spot, u: Uop, to: Spot)
    requires Listing(where, l, spot) && u !in where
    ensures Listing(where[u := to], l, spot) && u !in l
  {
  }

  lemma ListsGrow(where: map<Uop, Spot>, m: map<nat, seq<Uop>>, spot: Spot, u: Uop, to: Spot)
    requires PageLists(where, m, spot) && u !in where
    ensures PageLists(where[u := to], m, spot)
  {
    forall p | p in m ensures PageList(where[u := to], m[p], spot, p) {
      assert PageList(where, m[p], spot, p);
      ListingGrows(where, m[p], spot, u, to);
    }
  }

  lemma AddKeeps(where: map<Uop, Spot>, m: map<nat, seq<Uop>>, spot: Spot, u: Uop)
    requires PageLists(where, m, spot) && u !in where
    ensures PageLists(where[u := spot], Add(m, u), spot)
    ensures InPage(Add(m, u), u) && forall x :: InPage(m, x) ==> InPage(Add(m, u), x)
  {
    ListsGrow(where, m, spot, u, spot);
    var old_ := if u.page in m then m[u.page] else [];
    if u.page in m {
      assert PageList(where, m[u.page], spot, u.page);
      ListingGrows(where, m[u.page], spot, u, spot);
      assert PageList(where[u := spot], m[u.page], spot, u.page);
    }
    assert PageList(where[u := spot], old_ + [u], spot, u.page);
    assert u in old_ + [u];
  }

  /** Recording a new uop leaves all existing lists in order. */
  lemma OthersKeep(q: Queues, u: Uop, to: Spot)
    requires Placed(q) && u !in q.where
    ensures PageLists(q.where[u := to], q.walkUops, Walking)
    ensures PageLists(q.where[u := to], q.faultUops, Faulted)
    ensures PageLists(q.where[u := to], q.processingUops, Processing)
    ensures Listing(q.where[u := to], q.retry, Retrying) && u !in q.retry
    ensures Listing(q.where[u := to], q.faultRetry, FaultRetrying) && u !in q.faultRetry
  {
    ListsGrow(q.where, q.walkUops, Walking, u, to);
    ListsGrow(q.where, q.faultUops, Faulted, u, to);
    ListsGrow(q.where, q.processingUops, Processing, u, to);
    ListingGrows(q.where, q.retry, Retrying, u, to);
    ListingGrows(q.where, q.faultRetry, FaultRetrying, u, to);
  }

  lemma EnqueuePlaced(q: Queues, u: Uop, ready: nat)
    requires Placed(q) && u !in q.where
    ensures Placed(Enqueue(q, u, ready))
  {
    OthersKeep(q, u, Walking);
    AddKeeps(q.where, q.walkUops, Walking, u);
    hide PageLists, Listing, Add;
    var r := Enqueue(q, u, ready);
    forall x | x in r.where ensures Waits(r, x, r.where[x]) {
      if x != u { assert Waits(q, x, q.where[x]); }
    }
  }

  lemma EnqueueWalk(q: Queues, u: Uop, ready: nat)
    requires WalkOk(q.walkDue, q.walkUops.Keys, q.due)
    ensures var r := Enqueue(q, u, ready); WalkOk(r.walkDue, r.walkUops.Keys, r.due)
  {
    var r := Enqueue(q, u, ready);
    if u.page !in q.walkUops {
      var pages := if ready in q.walkDue then q.walkDue[ready] else [];
      assert u.page !in q.due;
      assert DueOk(r.due, pages + [u.page], ready) by {
        if ready in q.walkDue { assert DueOk(q.due, pages, ready); }
      }
      forall t | t in r.walkDue ensures DueOk(r.due, r.walkDue[t], t) {
        if t != ready { assert DueOk(q.due, q.walkDue[t], t); }
      }
      assert u.page in pages + [u.page];
    }
  }

  lemma EnqueueKeeps(q: Queues, u: Uop, ready: nat)
    requires Tidy(q) && u !in q.where
    ensures Tidy(Enqueue(q, u, ready))
  {
    hide Placed, WalkOk;
    EnqueuePlaced(q, u, ready);
    EnqueueWalk(q, u, ready);
  }

  lemma ToRetryKeeps(q: Queues, u: Uop)
    requires Tidy(q) && u !in q.where
    ensures Tidy(ToRetry(q, u))
  {
    OthersKeep(q, u, Retrying);
    assert Listing(q.where[u := Retrying], q.retry + [u], Retrying);
    hide PageLists, Listing, WalkOk;
    var r := ToRetry(q, u);
    forall x | x in r.where ensures Waits(r, x, r.where[x]) {
      if x != u { assert Waits(q, x, q.where[x]); }
    }
  }

  lemma ToFaultRetryKeeps(q: Queues, u: Uop)
    requires Tidy(q) && u !in q.where
    ensures Tidy(ToFaultRetry(q, u))
  {
    OthersKeep(q, u, FaultRetrying);
    assert Listing(q.where[u := FaultRetrying], q.faultRetry + [u], FaultRetrying);
    hide PageLists, Listing, WalkOk;
    var r := ToFaultRetry(q, u);
    forall x | x in r.where ensures Waits(r, x, r.where[x]) {
      if x != u { assert Waits(q, x, q.where[x]); }
    }
  }

  lemma ToFaultKeeps(q: Queues, u: Uop)
    requires Tidy(q) && u !in q.where
    ensures Tidy(ToFault(q, u))
  {
    OthersKeep(q, u, Faulted);
    AddKeeps(q.where, q.faultUops, Faulted, u);
    assert Add(q.faultUops, u).Keys == q.faultUops.Keys + {u.page};
    hide PageLists, Listing, WalkOk, Add;
    var r := ToFault(q, u);
    forall x | x in r.where ensures Waits(r, x, r.where[x]) {
      if x != u { assert Waits(q, x, q.where[x]); }
    }
  }

  // ----- whole lists -----

  /** The first page due at cycle `t` leaves the walk queue together with its uops. */
  function TakePage(q: Queues, t: nat): Queues
    requires t in q.walkDue && q.walkDue[t] != [] && q.walkDue[t][0] in q.walkUops
  {
    var pages := q.walkDue[t];
    var p := pages[0];
    q.(walkDue := if |pages| == 1 then q.walkDue - {t} else q.walkDue[t := pages[1..]],
       walkUops := q.walkUops - {p}, due := q.due - {p}, where := q.where - Elems(q.walkUops[p]))
  }

  function TakeFaultRetry(q: Queues): Queues {
    q.(faultRetry := [], where := q.where - Elems(q.faultRetry))
  }

  function Moved(where: map<Uop, Spot>, from: Spot, to: Spot): map<Uop, Spot> {
    map u | u in where :: if where[u] == from then to else where[u]
  }

  /** The faulted pages, in the given order, become the batch in process. */
  function StartBatch(q: Queues, order: seq<nat>): Queues {
    q.(processing := order, processingUops := q.faultUops, faultBuffer := {}, faultUops := map[],
       where := Moved(q.where, Faulted, Processing))
  }

  function Relocated(where: map<Uop, Spot>, l: seq<Uop>, to: Spot): map<Uop, Spot> {
    map u | u in where :: if u in l then to else where[u]
  }

  /** The uops waiting for the first page in process, in both lists. */
  function Resolved(q: Queues): seq<Uop>
    requires q.processing != [] && q.processing[0] in q.processingUops
  {
    var p := q.processing[0];
    q.processingUops[p] + if p in q.faultUops then q.faultUops[p] else []
  }

  /** The first page in process is resolved: everybody waiting for it may retry. */
  function Resolve(q: Queues): Queues
    requires q.processing != [] && q.processing[0] in q.processingUops
  {
    var p := q.processing[0];
    q.(processing := q.processing[1..], processingUops := q.processingUops - {p},
       faultBuffer := q.faultBuffer - {p}, faultUops := q.faultUops - {p},
       retry := q.retry + Resolved(q), where := Relocated(q.where, Resolved(q), Retrying))
  }

  lemma ListingShrinks(where: map<Uop, Spot>, l: seq<Uop>, spot: Spot, gone: set<Uop>)
    requires Listing(where, l, spot) && forall u :: u in gone ==> u !in l
    ensures Listing(where - gone, l, spot)
  {
  }

  lemma ListsShrink(where: map<Uop, Spot>, m: map<nat, seq<Uop>>, spot: Spot, gone: set<Uop>)
    requires PageLists(where, m, spot) && forall u :: u in gone ==> !InPage(m, u)
    ensures PageLists(where - gone, m, spot)
  {
    forall p | p in m ensures PageList(where - gone, m[p], spot, p) {
      assert PageList(where, m[p], spot, p);
      ListingShrinks(where, m[p], spot, gone);
    }
  }

  /** Uops recorded at one place are in no list of another place. */
  lemma Apart(q: Queues, u: Uop, spot: Spot)
    requires Placed(q) && At(q.where, u, spot)
    ensures spot != Walking ==> !InPage(q.walkUops, u)
    ensures spot != Faulted ==> !InPage(q.faultUops, u)
    ensures spot != Processing ==> !InPage(q.processingUops, u)
    ensures spot != Retrying ==> u !in q.retry
    ensures spot != FaultRetrying ==> u !in q.faultRetry
  {
    if InPage(q.walkUops, u) { assert PageList(q.where, q.walkUops[u.page], Walking, u.page); }
    if InPage(q.faultUops, u) { assert PageList(q.where, q.faultUops[u.page], Faulted, u.page); }
    if InPage(q.processingUops, u) { assert PageList(q.where, q.processingUops[u.page], Processing, u.page); }
  }

  lemma LeaveRetryKeeps(q: Queues, k: nat)
    requires Tidy(q) && k < |q.retry|
    ensures Tidy(LeaveRetry(q, k)) && q.retry[k] in q.where && q.retry[k] !in LeaveRetry(q, k).where
  {
    var u, r := q.retry[k], LeaveRetry(q, k);
    Apart(q, u, Retrying);
    ListsShrink(q.where, q.walkUops, Walking, {u});
    ListsShrink(q.where, q.faultUops, Faulted, {u});
    ListsShrink(q.where, q.processingUops, Processing, {u});
    ListingShrinks(q.where, q.faultRetry, FaultRetrying, {u});
    assert Listing(r.where, r.retry, Retrying);
    hide PageLists, WalkOk;
    forall x | x in r.where ensures Waits(r, x, r.where[x]) {
      assert Waits(q, x, q.where[x]);
      if x in q.retry {
        var j :| 0 <= j < |q.retry| && q.retry[j] == x;
        assert r.retry[if j < k then j else j - 1] == x;
      }
    }
  }

  lemma TakeFaultRetryKeeps(q: Queues)
    requires Tidy(q)
    ensures Tidy(TakeFaultRetry(q)) && NoDup(q.faultRetry)
    ensures forall u :: u in q.faultRetry ==> u in q.where && u !in TakeFaultRetry(q).where
  {
    var gone, r := Elems(q.faultRetry), TakeFaultRetry(q);
    forall u | u in gone ensures !InPage(q.walkUops, u) && !InPage(q.faultUops, u) && !InPage(q.processingUops, u) && u !in q.retry {
      Apart(q, u, FaultRetrying);
    }
    ListsShrink(q.where, q.walkUops, Walking, gone);
    ListsShrink(q.where, q.faultUops, Faulted, gone);
    ListsShrink(q.where, q.processingUops, Processing, gone);
    ListingShrinks(q.where, q.retry, Retrying, gone);
    hide PageLists, WalkOk;
    forall x | x in r.where ensures Waits(r, x, r.where[x]) { assert Waits(q, x, q.where[x]); }
  }

  lemma TakePageWalk(q: Queues, t: nat)
    requires WalkOk(q.walkDue, q.walkUops.Keys, q.due) && t in q.walkDue
    ensures q.walkDue[t] != [] && q.walkDue[t][0] in q.walkUops
    ensures var r := TakePage(q, t); WalkOk(r.walkDue, r.walkUops.Keys, r.due)
  {
    assert DueOk(q.due, q.walkDue[t], t);
    var pages, p, r := q.walkDue[t], q.walkDue[t][0], TakePage(q, t);
    forall x | x in r.walkDue ensures DueOk(r.due, r.walkDue[x], x) {
      assert DueOk(q.due, q.walkDue[x], x);
    }
    forall x | x in r.due ensures r.due[x] in r.walkDue && x in r.walkDue[r.due[x]] {
      assert x in q.walkDue[q.due[x]];
      if q.due[x] == t {
        var j :| 0 <= j < |pages| && pages[j] == x;
        assert pages[1..][j - 1] == x;
      }
    }
  }

  lemma TakePagePlaced(q: Queues, t: nat)
    requires Placed(q) && t in q.walkDue && q.walkDue[t] != [] && q.walkDue[t][0] in q.walkUops
    ensures Placed(TakePage(q, t))
    ensures var l := q.walkUops[q.walkDue[t][0]];
            NoDup(l) && forall u :: u in l ==> u in q.where && u !in TakePage(q, t).where && u.page == q.walkDue[t][0]
  {
    var p, r := q.walkDue[t][0], TakePage(q, t);
    var gone := Elems(q.walkUops[p]);
    assert PageList(q.where, q.walkUops[p], Walking, p);
    forall u | u in gone ensures !InPage(q.walkUops - {p}, u) && !InPage(q.faultUops, u) && !InPage(q.processingUops, u) && u !in q.retry && u !in q.faultRetry {
      Apart(q, u, Walking);
    }
    ListsShrink(q.where, q.walkUops - {p}, Walking, gone);
    ListsShrink(q.where, q.faultUops, Faulted, gone);
    ListsShrink(q.where, q.processingUops, Processing, gone);
    ListingShrinks(q.where, q.retry, Retrying, gone);
    ListingShrinks(q.where, q.faultRetry, FaultRetrying, gone);
    hide PageLists, Listing;
    forall x | x in r.where ensures Waits(r, x, r.where[x]) { assert Waits(q, x, q.where[x]); }
  }

  lemma TakePageKeeps(q: Queues, t: nat)
    requires Tidy(q) && t in q.walkDue
    ensures q.walkDue[t] != [] && q.walkDue[t][0] in q.walkUops && Tidy(TakePage(q, t))
    ensures var l := q.walkUops[q.walkDue[t][0]];
            NoDup(l) && forall u :: u in l ==> u in q.where && u !in TakePage(q, t).where && u.page == q.walkDue[t][0]
  {
    hide Placed, WalkOk;
    TakePageWalk(q, t);
    TakePagePlaced(q, t);
  }

  lemma ListsMoved(where: map<Uop, Spot>, m: map<nat, seq<Uop>>, spot: Spot)
    requires PageLists(where, m, spot)
    ensures PageLists(Moved(where, Faulted, Processing), m, if spot == Faulted then Processing else spot)
  {
    forall p | p in m ensures PageList(Moved(where, Faulted, Processing), m[p], if spot == Faulted then Processing else spot, p) {
      assert PageList(where, m[p], spot, p);
    }
  }

  lemma StartBatchKeeps(q: Queues, order: seq<nat>)
    requires Tidy(q) && q.processing == []
    requires NoDup(order) && forall p :: p in order <==> p in q.faultBuffer
    ensures Tidy(StartBatch(q, order))
  {
    var r := StartBatch(q, order);
    ListsMoved(q.where, q.walkUops, Walking);
    ListsMoved(q.where, q.faultUops, Faulted);
    assert Listing(r.where, r.retry, Retrying) && Listing(r.where, r.faultRetry, FaultRetrying);
    forall x | x in r.where ensures Waits(r, x, r.where[x]) {
      assert Waits(q, x, q.where[x]);
    }
    hide PageLists, WalkOk;
  }

  lemma ListsRelocated(where: map<Uop, Spot>, m: map<nat, seq<Uop>>, spot: Spot, l: seq<Uop>)
    requires PageLists(where, m, spot) && forall u :: u in l ==> !InPage(m, u)
    ensures PageLists(Relocated(where, l, Retrying), m, spot)
  {
    forall p | p in m ensures PageList(Relocated(where, l, Retrying), m[p], spot, p) {
      assert PageList(where, m[p], spot, p);
    }
  }

  /** Who waits for the first page in process, and that nobody is counted twice. */
  lemma ResolvedOk(q: Queues)
    requires Tidy(q) && q.processing != []
    ensures q.processing[0] in q.processingUops && NoDup(Resolved(q))
    ensures forall u :: u in Resolved(q) ==> u in q.where && u.page == q.processing[0] && (q.where[u] == Processing || q.where[u] == Faulted)
  {
    var p := q.processing[0];
    assert p in q.processing;
    assert PageList(q.where, q.processingUops[p], Processing, p);
    if p in q.faultUops { assert PageList(q.where, q.faultUops[p], Faulted, p); }
  }

  lemma ResolveKeeps(q: Queues)
    requires Tidy(q) && q.processing != []
    ensures q.processing[0] in q.processingUops && Tidy(Resolve(q)) && Resolve(q).where.Keys == q.where.Keys
  {
    ResolvedOk(q);
    var p, l, r := q.processing[0], Resolved(q), Resolve(q);
    forall u | u in l
      ensures !InPage(q.walkUops, u) && !InPage(q.faultUops - {p}, u) && !InPage(q.processingUops - {p}, u)
      ensures u !in q.retry && u !in q.faultRetry
    {
      Apart(q, u, q.where[u]);
    }
    ListsRelocated(q.where, q.walkUops, Walking, l);
    ListsRelocated(q.where, q.faultUops - {p}, Faulted, l);
    ListsRelocated(q.where, q.processingUops - {p}, Processing, l);
    assert Listing(r.where, r.faultRetry, FaultRetrying);
    assert Listing(r.where, r.retry, Retrying);
    ResolveWaits(q);
    ResolveFaults(q);
    hide PageLists, Listing, WalkOk;
  }

  lemma ResolveFaults(q: Queues)
    requires FaultsOk(q) && q.processing != [] && q.processing[0] in q.processingUops
    ensures FaultsOk(Resolve(q))
  {
    var r := Resolve(q);
    forall x ensures x in r.processing <==> x in r.processingUops {
      assert x in q.processing <==> x == q.processing[0] || x in q.processing[1..];
    }
  }

  lemma ResolveWaits(q: Queues)
    requires Placed(q) && q.processing != [] && q.processing[0] in q.processingUops
    ensures forall x :: x in Resolve(q).where ==> Waits(Resolve(q), x, Resolve(q).where[x])
  {
    var p, l, r := q.processing[0], Resolved(q), Resolve(q);
    forall x | x in r.where ensures Waits(r, x, r.where[x]) {
      assert Waits(q, x, q.where[x]);
      if x.page == p && InPage(q.processingUops, x) && q.where[x] == Processing { assert x in l; }
      if x.page == p && InPage(q.faultUops, x) && q.where[x] == Faulted { assert x in l; }
    }
  }
}
