/** The recency order kept by the replacement unit and by the TLB: what the doubly linked
    list, the hash table and the pool of free entries stand for. */
module LruOrder {
  /** A page with the frame recorded for it (the replacement unit records none and uses 0). */
  datatype Item = Item(page: nat, frame: nat)

  /** Most recently used first. */
  type Order = seq<Item>

  ghost predicate Distinct(s: Order) {
    forall j, k :: 0 <= j < k < |s| ==> s[j].page != s[k].page
  }

  /** The position of a page, or the length if it is absent. */
  function Find(s: Order, page: nat): (k: nat)
    ensures k <= |s| && (k < |s| ==> s[k].page == page)
    ensures forall j :: 0 <= j < k ==> s[j].page != page
  {
    if s == [] || s[0].page == page then 0 else 1 + Find(s[1..], page)
  }

  predicate Has(s: Order, page: nat) {
    Find(s, page) < |s|
  }

  function Drop(s: Order, page: nat): Order {
    if Has(s, page) then s[..Find(s, page)] + s[Find(s, page) + 1..] else s
  }

  function Touch(s: Order, page: nat): Order {
    if Has(s, page) then [s[Find(s, page)]] + Drop(s, page) else s
  }

  function DropLast(s: Order): Order
    requires s != []
  {
    s[..|s| - 1]
  }

  /** A new page goes to the front; when all `capacity` entries are in use the last one is reused. */
  function Push(s: Order, capacity: nat, x: Item): Order {
    [x] + if |s| < capacity || s == [] then s else DropLast(s)
  }

  lemma FindAt(s: Order, k: nat)
    requires Distinct(s) && k < |s|
    ensures Find(s, s[k].page) == k
  {
  }

  /** Positions after the item at `k` was taken out. */
  lemma FindCut(s: Order, k: nat, page: nat)
    requires Distinct(s) && k < |s|
    ensures var t := s[..k] + s[k + 1..];
            && Distinct(t)
            && (Has(t, page) <==> Has(s, page) && page != s[k].page)
            && (Has(t, page) ==> Find(t, page) == if Find(s, page) < k then Find(s, page) else Find(s, page) - 1)
  {
    var t, j := s[..k] + s[k + 1..], Find(s, page);
    if Has(s, page) && page != s[k].page {
      FindAt(t, if j < k then j else j - 1);
    }
  }

  /** Positions after a new item was put in front. */
  lemma FindPush(s: Order, x: Item, page: nat)
    requires Distinct(s) && !Has(s, x.page)
    ensures Distinct([x] + s)
    ensures Find([x] + s, page) == if page == x.page then 0 else Find(s, page) + 1
  {
    assert ([x] + s)[1..] == s;
  }
}

/** Runs of the replacement unit: its victim is the page that was used least recently. */
module LruHistory {
  import opened LruOrder

  datatype Use = Inserted(page: nat) | Updated(page: nat) | Evicted

  /** The calls the simulator's assertions allow. */
  predicate Legal(s: Order, u: Use) {
    match u
    case Inserted(p) => !Has(s, p)
    case Updated(p) => Has(s, p)
    case Evicted => s != []
  }

  function After(s: Order, capacity: nat, u: Use): Order {
    match u
    case Inserted(p) => Push(s, capacity, Item(p, 0))
    case Updated(p) => Touch(s, p)
    case Evicted => if s == [] then s else DropLast(s)
  }

  function Replay(capacity: nat, run: seq<Use>): Order {
    if run == [] then [] else After(Replay(capacity, run[..|run| - 1]), capacity, run[|run| - 1])
  }

  /** Every call of the run is legal where it happens. */
  predicate LegalRun(capacity: nat, run: seq<Use>) {
    forall k :: 0 <= k < |run| ==> Legal(Replay(capacity, run[..k]), run[k])
  }

  /** When a page was last inserted or updated, counting calls from 1; 0 if never. */
  function LastUse(run: seq<Use>, page: nat): (t: nat)
    ensures t <= |run|
  {
    if run == [] then 0
    else
      var u := run[|run| - 1];
      if !u.Evicted? && u.page == page then |run| else LastUse(run[..|run| - 1], page)
  }

  ghost predicate Descending(s: Order, time: nat -> nat) {
    forall j, k :: 0 <= j < k < |s| ==> time(s[j].page) > time(s[k].page)
  }

  lemma DescendingCut(s: Order, time: nat -> nat, k: nat)
    requires Descending(s, time) && k < |s|
    ensures var t := s[..k] + s[k + 1..];
            Descending(t, time) && forall j :: 0 <= j < |t| ==> t[j].page != s[k].page
  {
    var t := s[..k] + s[k + 1..];
    forall i, j | 0 <= i < j < |t| ensures time(t[i].page) > time(t[j].page) {
      var i', j' := if i < k then i else i + 1, if j < k then j else j + 1;
      assert t[i] == s[i'] && t[j] == s[j'];
    }
  }

  lemma DescendingFront(s: Order, time: nat -> nat, time': nat -> nat, x: Item)
    requires Descending(s, time)
    requires forall j :: 0 <= j < |s| ==> time'(s[j].page) == time(s[j].page) < time'(x.page)
    ensures Descending([x] + s, time')
  {
  }

  /** One call keeps the list in the order of last use. */
  lemma UseKeepsOrder(s: Order, capacity: nat, u: Use, time: nat -> nat, time': nat -> nat, now: nat)
    requires Descending(s, time) && Legal(s, u)
    requires forall p :: time(p) < now && time'(p) == if !u.Evicted? && u.page == p then now else time(p)
    ensures Descending(After(s, capacity, u), time')
  {
    hide Descending;
    assert s != [] ==> s[..|s| - 1] + s[|s|..] == DropLast(s);
    match u
    case Inserted(p) =>
      var rest := if |s| < capacity || s == [] then s else DropLast(s);
      if rest != s { DescendingCut(s, time, |s| - 1); }
      DescendingFront(rest, time, time', Item(p, 0));
    case Updated(p) =>
      var k := Find(s, p);
      DescendingCut(s, time, k);
      DescendingFront(s[..k] + s[k + 1..], time, time', s[k]);
    case Evicted =>
      DescendingCut(s, time, |s| - 1);
      DescendingSame(DropLast(s), time, time');
  }

  lemma DescendingSame(s: Order, time: nat -> nat, time': nat -> nat)
    requires Descending(s, time) && forall p :: time'(p) == time(p)
    ensures Descending(s, time')
  {
  }

  /** The order of the list is the order of last use. */
  lemma {:induction false} OrderedByUse(capacity: nat, run: seq<Use>)
    requires LegalRun(capacity, run)
    ensures Descending(Replay(capacity, run), p => LastUse(run, p))
  {
    if run != [] {
      var before, u := run[..|run| - 1], run[|run| - 1];
      forall k | 0 <= k < |before| ensures Legal(Replay(capacity, before[..k]), before[k]) {
        assert before[..k] == run[..k];
      }
      OrderedByUse(capacity, before);
      UseKeepsOrder(Replay(capacity, before), capacity, u, p => LastUse(before, p), p => LastUse(run, p), |run|);
    }
  }

  /** The page that `getVictim` takes has not been used more recently than any other page. */
  lemma VictimIsLeastRecent(capacity: nat, run: seq<Use>, k: nat)
    requires LegalRun(capacity, run) && k < |Replay(capacity, run)|
    ensures var s := Replay(capacity, run);
            LastUse(run, s[|s| - 1].page) <= LastUse(run, s[k].page)
  {
    OrderedByUse(capacity, run);
  }
}

/** The pointer structure shared by `MMU::ReplacementUnit` and `TLB`: entries linked between two
    sentinels, a hash table from pages to entries, and a stack of free entries. */
module LruTable {
  import opened Lists
  import opened LruOrder

  class Entry {
    var page: nat
    var frame: nat
    var prev: Entry?
    var next: Entry?

    constructor ()
    {
      page, frame, prev, next := 0, 0, null, null;
    }
  }

  /** What the entries of a pool record. */
  type Records = map<Entry, Item>

  /** A list of different entries between two sentinels. */
  ghost predicate Chain(chain: seq<Entry>, pool: set<Entry>) {
    && |chain| >= 2
    && (forall k :: 0 <= k < |chain| ==> chain[k] in pool)
    && (forall j, k :: 0 <= j < k < |chain| ==> chain[j] != chain[k])
  }

  /** The free entries and the linked ones share out the `capacity` entries. */
  ghost predicate Pooled(chain: seq<Entry>, free: seq<Entry>, pool: set<Entry>, capacity: nat) {
    && |free| + |chain| == capacity + 2 == |pool|
    && (forall k :: 0 <= k < |free| ==> free[k] in pool && free[k] !in chain)
    && (forall j, k :: 0 <= j < k < |free| ==> free[j] != free[k])
  }

  /** The abstract order of a chain. */
  ghost function ItemsOf(chain: seq<Entry>, rec: Records): (s: Order)
    requires |chain| >= 2 && forall e :: e in chain ==> e in rec
    ensures |s| == |chain| - 2
    ensures forall k :: 0 <= k < |s| ==> s[k] == rec[chain[k + 1]]
  {
    seq(|chain| - 2, k requires 0 <= k < |chain| - 2 && chain[k + 1] in rec => rec[chain[k + 1]])
  }

  /** The hash table knows whether a page is there, and its entry. */
  ghost predicate Locates(chain: seq<Entry>, table: map<nat, Entry>, s: Order, page: nat)
    requires |chain| == |s| + 2
  {
    && (page in table <==> Has(s, page))
    && (page in table ==> chain[Find(s, page) + 1] == table[page])
  }

  /** The hash table finds exactly the entries between the sentinels, by their different pages. */
  ghost predicate Indexed(chain: seq<Entry>, table: map<nat, Entry>, s: Order) {
    && |chain| == |s| + 2 && Distinct(s)
    && (forall p {:trigger Locates(chain, table, s, p)} :: Locates(chain, table, s, p))
  }

  function Cut(chain: seq<Entry>, k: nat): seq<Entry>
    requires k < |chain|
  {
    chain[..k] + chain[k + 1..]
  }

  function Front(chain: seq<Entry>, node: Entry): seq<Entry>
    requires chain != []
  {
    [chain[0], node] + chain[1..]
  }

  lemma CutChain(chain: seq<Entry>, pool: set<Entry>, rec: Records, k: nat)
    requires Chain(chain, pool) && pool == rec.Keys && 0 < k < |chain| - 1
    ensures Chain(Cut(chain, k), pool) && chain[k] !in Cut(chain, k)
    ensures var s := ItemsOf(chain, rec); ItemsOf(Cut(chain, k), rec) == s[..k - 1] + s[k..]
  {
  }

  /** Taking the `k`-th entry out of the list and its page out of the hash table. */
  lemma CutKeeps(chain: seq<Entry>, table: map<nat, Entry>, s: Order, k: nat)
    requires Indexed(chain, table, s) && 0 < k < |chain| - 1
    ensures Indexed(Cut(chain, k), table - {s[k - 1].page}, s[..k - 1] + s[k..])
  {
    var cut, left, t := Cut(chain, k), table - {s[k - 1].page}, s[..k - 1] + s[k..];
    FindCut(s, k - 1, 0);
    forall p ensures Locates(cut, left, t, p) {
      assert Locates(chain, table, s, p);
      FindCut(s, k - 1, p);
    }
  }

  lemma FrontChain(chain: seq<Entry>, pool: set<Entry>, rec: Records, node: Entry, x: Item)
    requires Chain(chain, pool) && pool == rec.Keys && node in pool && node !in chain
    ensures Chain(Front(chain, node), pool)
    ensures ItemsOf(Front(chain, node), rec[node := x]) == [x] + ItemsOf(chain, rec)
  {
  }

  /** Putting an entry in front, with a page that is not in the table. */
  lemma FrontKeeps(chain: seq<Entry>, table: map<nat, Entry>, s: Order, node: Entry, x: Item)
    requires Indexed(chain, table, s) && x.page !in table
    ensures Indexed(Front(chain, node), table[x.page := node], [x] + s)
  {
    assert Locates(chain, table, s, x.page);
    var front, more, t := Front(chain, node), table[x.page := node], [x] + s;
    FindPush(s, x, 0);
    forall p ensures Locates(front, more, t, p) {
      assert Locates(chain, table, s, p);
      FindPush(s, x, p);
    }
  }

  /** A page found in the table is moved to the front. */
  lemma MoveKeeps(chain: seq<Entry>, table: map<nat, Entry>, s: Order, page: nat)
    requires Indexed(chain, table, s) && page in table
    ensures var k := Find(s, page) + 1;
            && k < |chain| - 1 && chain[k] == table[page]
            && Indexed(Front(Cut(chain, k), chain[k]), table, Touch(s, page))
  {
    assert Locates(chain, table, s, page);
    var k := Find(s, page) + 1;
    CutKeeps(chain, table, s, k);
    FrontKeeps(Cut(chain, k), table - {page}, s[..k - 1] + s[k..], chain[k], s[k - 1]);
    assert (table - {page})[page := chain[k]] == table;
  }

  /** No entry is ever lost: each one is in the list or free, and not both. */
  lemma EntriesPartition(chain: seq<Entry>, free: seq<Entry>, pool: set<Entry>, capacity: nat)
    requires Chain(chain, pool) && Pooled(chain, free, pool, capacity)
    ensures Elems(chain) + Elems(free) == pool && Elems(chain) !! Elems(free)
  {
    NoDupCount(chain);
    NoDupCount(free);
    var both := Elems(chain) + Elems(free);
    assert |both| == |pool|;
    assert both <= pool;
    assert |pool - both| == 0;
  }

  /** The `k`-th entry becomes free. */
  lemma FreeKeeps(chain: seq<Entry>, free: seq<Entry>, pool: set<Entry>, capacity: nat, k: nat)
    requires Chain(chain, pool) && Pooled(chain, free, pool, capacity) && 0 < k < |chain| - 1
    ensures Pooled(Cut(chain, k), free + [chain[k]], pool, capacity)
    ensures Pooled(Front(Cut(chain, k), chain[k]), free, pool, capacity)
  {
    assert forall e :: e in Cut(chain, k) ==> e in chain;
  }

  /** The entry on top of the free ones is linked in front. */
  lemma UseKeeps(chain: seq<Entry>, free: seq<Entry>, pool: set<Entry>, capacity: nat)
    requires Chain(chain, pool) && Pooled(chain, free, pool, capacity) && free != []
    ensures Pooled(Front(chain, free[|free| - 1]), free[..|free| - 1], pool, capacity)
    ensures free[|free| - 1] in pool && free[|free| - 1] !in chain
  {
    assert forall e :: e in Front(chain, free[|free| - 1]) ==> e in chain || e == free[|free| - 1];
  }

  class Table {
    const capacity: nat
    const head: Entry
    const tail: Entry
    var table: map<nat, Entry>
    var free: seq<Entry>

    /** Sentinel, entries from most to least recently used, sentinel. */
    ghost var chain: seq<Entry>
    /** All entries and sentinels this table ever uses. */
    ghost const pool: set<Entry>

    ghost function Rec(): Records
      reads pool
    {
      map e | e in pool :: Item(e.page, e.frame)
    }

    ghost predicate Linked()
      reads this, pool
    {
      && Chain(chain, pool) && chain[0] == head && chain[|chain| - 1] == tail
      && (forall k {:trigger chain[k].next} :: 0 <= k < |chain| - 1 ==> chain[k].next == chain[k + 1])
      && (forall k {:trigger chain[k].prev} :: 0 < k < |chain| ==> chain[k].prev == chain[k - 1])
    }

    ghost predicate Valid()
      reads this, pool
    {
      Linked() && Pooled(chain, free, pool, capacity) && Indexed(chain, table, Items())
    }

    /** The abstract order. */
    ghost function Items(): (s: Order)
      requires Linked()
      reads this, pool
    {
      ItemsOf(chain, Rec())
    }

    /** What users of the table see. */
    ghost function Contents(): (s: Order)
      requires Valid()
      reads this, pool
    {
      Items()
    }

    constructor (n: nat)
      ensures Valid() && capacity == n && Contents() == [] && fresh(pool)
    {
      capacity := n;
      var h := new Entry();
      var t := new Entry();
      head, tail := h, t;
      table := map[];
      var entries := [];
      ghost var all := {h, t};
      for k := 0 to n
        invariant |entries| == k && |all| == k + 2 && fresh(all) && h in all && t in all
        invariant forall j :: 0 <= j < k ==> entries[j] in all && entries[j] != h && entries[j] != t
        invariant forall i, j :: 0 <= i < j < k ==> entries[i] != entries[j]
      {
        var e := new Entry();
        entries := entries + [e];
        all := all + {e};
      }
      free := entries;
      chain := [h, t];
      pool := all;
      new;
      h.prev, h.next, t.prev, t.next := null, t, h, null;
    }

    /** `detach`: the neighbours of the `k`-th entry are joined. */
    method Detach(node: Entry, ghost k: nat)
      requires Linked() && 0 < k < |chain| - 1 && chain[k] == node
      modifies this`chain, pool
      ensures Linked() && chain == Cut(old(chain), k) && Rec() == old(Rec())
    {
      node.prev.next := node.next;
      node.next.prev := node.prev;
      chain := Cut(chain, k);
    }

    /** `attach`: an entry is put right behind the head. */
    method Attach(node: Entry)
      requires Linked() && node in pool && node !in chain
      modifies this`chain, pool
      ensures Linked() && chain == Front(old(chain), node) && Rec() == old(Rec())
    {
      node.next := head.next;
      node.prev := head;
      head.next := node;
      node.next.prev := node;
      chain := Front(chain, node);
    }

    /** `update` of both classes: the page becomes the most recently used. */
    method Update(page: nat)
      requires Valid() && Has(Contents(), page)
      modifies this`chain, pool
      ensures Valid() && Contents() == Touch(old(Contents()), page)
    {
      assert Locates(chain, table, Items(), page);
      ghost var k, rec := Find(Items(), page) + 1, Rec();
      MoveKeeps(chain, table, Items(), page);
      CutChain(chain, pool, rec, k);
      FreeKeeps(chain, free, pool, capacity, k);
      FrontChain(Cut(chain, k), pool, rec, chain[k], rec[chain[k]]);
      assert rec[chain[k] := rec[chain[k]]] == rec;
      hide Indexed, Pooled, Chain;
      var node := table[page];
      Detach(node, k);
      Attach(node);
    }

    /** `insert` of both classes: a free entry is used, or else the least recently used one. */
    method Insert(page: nat, frame: nat)
      requires Valid() && capacity > 0 && !Has(Contents(), page)
      modifies this`chain, this`table, this`free, pool
      ensures Valid() && Contents() == Push(old(Contents()), capacity, Item(page, frame))
    {
      assert Locates(chain, table, Items(), page);
      if free == [] {
        // the entry that is freed here is the one used below
        var victim := GetVictim();
      }
      hide Indexed, Pooled, Chain;
      InsertFree(page, frame);
    }

    method InsertFree(page: nat, frame: nat)
      requires Valid() && free != [] && page !in table
      modifies this`chain, this`table, this`free, pool
      ensures Valid() && Items() == [Item(page, frame)] + old(Items())
    {
      var node, x := free[|free| - 1], Item(page, frame);
      ghost var rec := Rec();
      UseKeeps(chain, free, pool, capacity);
      FrontKeeps(chain, table, Items(), node, x);
      FrontChain(chain, pool, rec, node, x);
      hide Indexed, Pooled, Chain;
      free := free[..|free| - 1];
      Record(node, x);
      table := table[page := node];
      Attach(node);
    }

    method Record(node: Entry, x: Item)
      requires Linked() && node in pool
      modifies node
      ensures Linked() && Rec() == old(Rec())[node := x]
    {
      node.page, node.frame := x.page, x.frame;
    }

    /** `getVictim`: the least recently used page is taken out. */
    method GetVictim() returns (page: nat)
      requires Valid() && Contents() != []
      modifies this`chain, this`table, this`free, pool
      ensures Valid() && page == old(Contents()[|Contents()| - 1].page) && Contents() == DropLast(old(Contents()))
      ensures free != [] && table == old(table) - {page}
    {
      hide Indexed, Pooled;
      var node := tail.prev;
      page := node.page;
      Unlink(node, page, |chain| - 2);
    }

    /** An entry leaves the list and the hash table and becomes free. */
    method Unlink(node: Entry, page: nat, ghost k: nat)
      requires Valid() && 0 < k < |chain| - 1 && chain[k] == node && node.page == page
      modifies this`chain, this`table, this`free, pool
      ensures Valid() && free != [] && table == old(table) - {page}
      ensures var was := old(Items()); Items() == was[..k - 1] + was[k..]
    {
      CutKeeps(chain, table, Items(), k);
      CutChain(chain, pool, Rec(), k);
      FreeKeeps(chain, free, pool, capacity, k);
      hide Indexed, Pooled, Chain;
      Detach(node, k);
      table := table - {page};
      free := free + [node];
    }

    /** `invalidate` of the TLB: the page is taken out if it is there. */
    method Invalidate(page: nat)
      requires Valid()
      modifies this`chain, this`table, this`free, pool
      ensures Valid() && Contents() == Drop(old(Contents()), page)
    {
      assert Locates(chain, table, Items(), page);
      if page in table {
        Unlink(table[page], page, Find(Items(), page) + 1);
      }
    }

    method Lookup(page: nat) returns (found: bool)
      requires Valid()
      ensures found <==> Has(Contents(), page)
    {
      assert Locates(chain, table, Items(), page);
      found := page in table;
    }

    method FrameOf(page: nat) returns (frame: nat)
      requires Valid() && Has(Contents(), page)
      ensures frame == Contents()[Find(Contents(), page)].frame
    {
      assert Locates(chain, table, Items(), page);
      frame := table[page].frame;
    }

    /** `translate` of the TLB: the frame recorded for a page, which becomes the most recently used. */
    method Translate(page: nat) returns (frame: nat)
      requires Valid() && Has(Contents(), page)
      modifies this`chain, pool
      ensures Valid() && frame == old(Contents()[Find(Contents(), page)].frame)
      ensures Contents() == Touch(old(Contents()), page)
    {
      hide Indexed, Pooled, Chain;
      frame := FrameOf(page);
      Update(page);
    }
  }
}
