/** The order in which a bank serves its buffered requests: first come first served, or row hits
    first (FR-FCFS). */
module DramPolicy {
  import opened Options
  import opened DramBank

  const TWO_31: int := 0x8000_0000
  const TWO_32: int := 0x1_0000_0000
  const TWO_64: int := 0x1_0000_0000_0000_0000

  /** The comparator keeps the 64-bit row register in a signed 32-bit variable. */
  function Truncated(row: nat): (r: int)
    ensures -TWO_31 <= r < TWO_31 && (r - row) % TWO_32 == 0
  {
    var low := row % TWO_32;
    if low < TWO_31 then low else low - TWO_32
  }

  /** A comparison with an unsigned 64-bit row widens it again. */
  function Widened(i: int): (r: int)
    requires -TWO_31 <= i < TWO_31
    ensures 0 <= r < TWO_64 && (r - i) % TWO_64 == 0
  {
    if i < 0 then i + TWO_64 else i
  }

  /** The comparator takes the entry for a row hit. */
  predicate Hit(row: nat, e: Entry) {
    e.req.row == Widened(Truncated(row))
  }

  /** The comparator's row test is right for every entry exactly if the row register fits a signed
      32-bit integer, as a row number or as the mark of a closed row. */
  lemma RowTestExact(row: nat)
    requires row <= CLOSED
    ensures (forall e: Entry :: Hit(row, e) <==> e.req.row == row) <==> row < TWO_31 || row >= TWO_64 - TWO_31
  {
    var w := Widened(Truncated(row));
    var e := Entry(0, Request(0, 0, 0, row, Demand, 0, false), 0, Idle);
    assert Hit(row, e) <==> w == row;
    WidenedExact(row);
  }

  lemma WidenedExact(row: nat)
    requires row <= CLOSED
    ensures Widened(Truncated(row)) == row <==> row < TWO_31 || row >= TWO_64 - TWO_31
  {
    var low := row % TWO_32;
    var high := row / TWO_32;
    assert row == high * TWO_32 + low;
  }

  /** With row 2^32 open, a request for row 0 counts as a hit and one for the open row does not. */
  lemma RowTestWrong(a: Entry, b: Entry)
    requires a.req.row == 0 && b.req.row == 0x1_0000_0000
    ensures Hit(0x1_0000_0000, a) && !Hit(0x1_0000_0000, b)
  {
  }

  /** The comparator: demands before prefetches, then row hits before misses, then by age. */
  predicate Before(row: nat, a: Entry, b: Entry) {
    if a.req.kind != Prefetch && b.req.kind == Prefetch then true
    else if a.req.kind == Prefetch && b.req.kind != Prefetch then false
    else if Hit(row, a) && !Hit(row, b) then true
    else if !Hit(row, a) && Hit(row, b) then false
    else a.stamp < b.stamp
  }

  /** The comparator is a strict weak order, whatever the row register holds. */
  lemma StrictWeakOrder(row: nat, a: Entry, b: Entry, c: Entry)
    ensures !Before(row, a, a)
    ensures Before(row, a, b) ==> !Before(row, b, a)
    ensures Before(row, a, b) && Before(row, b, c) ==> Before(row, a, c)
    ensures !Before(row, a, b) && !Before(row, b, c) ==> !Before(row, a, c)
  {
    hide Hit;
  }

  function Place(row: nat, e: Entry, l: seq<Entry>): seq<Entry> {
    if l == [] || !Before(row, l[0], e) then [e] + l else [l[0]] + Place(row, e, l[1..])
  }

  /** The stable sort of the list library. */
  function Sort(row: nat, l: seq<Entry>): seq<Entry> {
    if l == [] then [] else Place(row, l[0], Sort(row, l[1..]))
  }

  ghost predicate Sorted(row: nat, l: seq<Entry>) {
    forall j, k :: 0 <= j < k < |l| ==> !Before(row, l[k], l[j])
  }

  /** The entries that the comparator cannot tell from `x`. */
  function Alike(row: nat, l: seq<Entry>, x: Entry): seq<Entry> {
    if l == [] then []
    else (if Before(row, l[0], x) || Before(row, x, l[0]) then [] else [l[0]]) + Alike(row, l[1..], x)
  }

  lemma {:induction false} PlaceBag(row: nat, e: Entry, l: seq<Entry>)
    ensures multiset(Place(row, e, l)) == multiset(l) + multiset{e}
    ensures SlotBag(Place(row, e, l)) == SlotBag(l) + multiset{e.slot}
    ensures RequestBag(Place(row, e, l)) == RequestBag(l) + multiset{e.req}
  {
    hide SlotBag, RequestBag, Before;
    SingleBags(e);
    if l == [] || !Before(row, l[0], e) {
      SplitBags([e], l, [e] + l);
    } else {
      PlaceBag(row, e, l[1..]);
      assert l == [l[0]] + l[1..];
      SplitBags([l[0]], l[1..], l);
      SplitBags([l[0]], Place(row, e, l[1..]), Place(row, e, l));
    }
  }

  /** Sorting only permutes the buffer. */
  lemma {:induction false} SortBag(row: nat, l: seq<Entry>)
    ensures multiset(Sort(row, l)) == multiset(l)
    ensures SlotBag(Sort(row, l)) == SlotBag(l) && RequestBag(Sort(row, l)) == RequestBag(l)
  {
    hide SlotBag, RequestBag, Before;
    if l != [] {
      SortBag(row, l[1..]);
      PlaceBag(row, l[0], Sort(row, l[1..]));
      assert l == [l[0]] + l[1..];
      SplitBags([l[0]], l[1..], l);
      SingleBags(l[0]);
    }
  }

  lemma SortMembers(row: nat, l: seq<Entry>)
    ensures |Sort(row, l)| == |l| && forall e :: e in Sort(row, l) <==> e in l
  {
    hide Sort;
    SortBag(row, l);
    assert |multiset(Sort(row, l))| == |multiset(l)|;
    forall e ensures e in Sort(row, l) <==> e in l {
      assert e in multiset(Sort(row, l)) <==> e in multiset(l);
    }
  }

  lemma {:induction false} PlaceSorted(row: nat, e: Entry, l: seq<Entry>)
    requires Sorted(row, l)
    ensures Sorted(row, Place(row, e, l))
    ensures forall x :: x in Place(row, e, l) <==> x == e || x in l
  {
    hide Before;
    if l == [] {
    } else if !Before(row, l[0], e) {
      forall k | 0 <= k < |l| ensures !Before(row, l[k], e) {
        StrictWeakOrder(row, l[k], l[0], e);
      }
    } else {
      PlaceSorted(row, e, l[1..]);
      var p := Place(row, e, l[1..]);
      StrictWeakOrder(row, l[0], e, e);
      forall k | 0 <= k < |p| ensures !Before(row, p[k], l[0]) {
        assert p[k] in p;
      }
    }
  }

  lemma {:induction false} SortSorted(row: nat, l: seq<Entry>)
    ensures Sorted(row, Sort(row, l))
  {
    hide Before;
    if l != [] {
      SortSorted(row, l[1..]);
      PlaceSorted(row, l[0], Sort(row, l[1..]));
    }
  }

  lemma {:induction false} PlaceAlike(row: nat, e: Entry, l: seq<Entry>, x: Entry)
    ensures Alike(row, Place(row, e, l), x) == Alike(row, [e], x) + Alike(row, l, x)
  {
    hide Before;
    if l == [] || !Before(row, l[0], e) {
      assert ([e] + l)[1..] == l;
    } else {
      PlaceAlike(row, e, l[1..], x);
      StrictWeakOrder(row, l[0], e, x);
      StrictWeakOrder(row, x, l[0], e);
      StrictWeakOrder(row, l[0], x, e);
      StrictWeakOrder(row, e, x, l[0]);
      assert ([l[0]] + Place(row, e, l[1..]))[1..] == Place(row, e, l[1..]);
    }
  }

  /** Entries that the comparator cannot tell apart keep their order. */
  lemma {:induction false} SortStable(row: nat, l: seq<Entry>, x: Entry)
    ensures Alike(row, Sort(row, l), x) == Alike(row, l, x)
  {
    hide Before;
    if l != [] {
      SortStable(row, l[1..], x);
      PlaceAlike(row, l[0], Sort(row, l[1..]), x);
    }
  }

  /** `schedule`: the buffer in the order of the policy. */
  function Schedule(c: Config, row: nat, buffer: seq<Entry>): seq<Entry> {
    if c.rowsFirst then Sort(row, buffer) else buffer
  }

  lemma SchedulePermutes(c: Config, row: nat, buffer: seq<Entry>)
    ensures |Schedule(c, row, buffer)| == |buffer| && forall e :: e in Schedule(c, row, buffer) <==> e in buffer
    ensures SlotBag(Schedule(c, row, buffer)) == SlotBag(buffer)
    ensures RequestBag(Schedule(c, row, buffer)) == RequestBag(buffer)
  {
    hide SlotBag, RequestBag, Sort;
    if c.rowsFirst {
      SortBag(row, buffer);
      SortMembers(row, buffer);
    }
  }

  /** FR-FCFS never picks a prefetch while a demand waits, nor a row miss while a hit of the same
      class waits, and among equals it picks the oldest. */
  lemma PicksBest(c: Config, row: nat, buffer: seq<Entry>, x: Entry)
    requires c.rowsFirst && x in buffer
    ensures buffer != [] && Schedule(c, row, buffer) != []
    ensures var e := Schedule(c, row, buffer)[0];
            && e in buffer
            && (e.req.kind == Prefetch ==> x.req.kind == Prefetch)
            && ((e.req.kind == Prefetch <==> x.req.kind == Prefetch) ==>
                  && (Hit(row, x) ==> Hit(row, e))
                  && ((Hit(row, x) <==> Hit(row, e)) ==> e.stamp <= x.stamp))
  {
    hide Hit, Sort;
    SortMembers(row, buffer);
    SortSorted(row, buffer);
    var s := Sort(row, buffer);
    assert s[0] in s && x in s;
    var k :| 0 <= k < |s| && s[k] == x;
    StrictWeakOrder(row, x, x, x);
    assert !Before(row, s[k], s[0]);
  }

  /** With a row register that fits 32 bits this is about true row hits. */
  lemma PicksTrueHit(c: Config, row: nat, buffer: seq<Entry>, x: Entry)
    requires c.rowsFirst && x in buffer && row <= CLOSED && (row < TWO_31 || row >= TWO_64 - TWO_31)
    ensures Schedule(c, row, buffer) != []
    ensures var e := Schedule(c, row, buffer)[0];
            (e.req.kind == Prefetch <==> x.req.kind == Prefetch) && x.req.row == row ==> e.req.row == row
  {
    hide Schedule, Hit;
    PicksBest(c, row, buffer, x);
    RowTestExact(row);
    assert Hit(row, x) <==> x.req.row == row;
    assert Hit(row, Schedule(c, row, buffer)[0]) <==> Schedule(c, row, buffer)[0].req.row == row;
  }

  /** With row requests below the mark of a closed row, a request for another row is never picked while
      one of its class for the open row waits. */
  ghost predicate PicksHits(c: Config, row: nat) {
    forall buffer: seq<Entry>, x: Entry {:trigger Schedule(c, row, buffer), x in buffer} ::
      RowsOk(buffer) && x in buffer && x.req.row == row && Schedule(c, row, buffer) != [] ==>
        var e := Schedule(c, row, buffer)[0];
        (e.req.kind == Prefetch <==> x.req.kind == Prefetch) ==> e.req.row == row
  }

  /** That is so exactly if the row register fits a signed 32-bit integer. */
  lemma PickExact(c: Config, row: nat)
    requires c.rowsFirst && row <= CLOSED
    ensures PicksHits(c, row) <==> row < TWO_31 || row >= TWO_64 - TWO_31
  {
    hide Schedule;
    if row < TWO_31 || row >= TWO_64 - TWO_31 {
      forall buffer: seq<Entry>, x: Entry | RowsOk(buffer) && x in buffer && x.req.row == row && Schedule(c, row, buffer) != []
        ensures var e := Schedule(c, row, buffer)[0];
                (e.req.kind == Prefetch <==> x.req.kind == Prefetch) ==> e.req.row == row
      {
        PicksTrueHit(c, row, buffer, x);
      }
    } else {
      MissPicked(c, row);
    }
  }

  /** Otherwise an older miss is picked over a request for the open row. */
  lemma MissPicked(c: Config, row: nat)
    requires c.rowsFirst && TWO_31 <= row < TWO_64 - TWO_31
    ensures var miss := Entry(0, Request(0, 0, 0, 0, Demand, 0, false), 0, Idle);
            var hit := Entry(1, Request(1, 1, 0, row, Demand, 0, false), 1, Idle);
            Schedule(c, row, [miss, hit]) == [miss, hit] && miss.req.row != row && !PicksHits(c, row)
  {
    var miss := Entry(0, Request(0, 0, 0, 0, Demand, 0, false), 0, Idle);
    var hit := Entry(1, Request(1, 1, 0, row, Demand, 0, false), 1, Idle);
    WidenedExact(row);
    assert !Hit(row, hit);
    hide Hit;
    var buffer := [miss, hit];
    assert buffer[1..] == [hit] && [hit][1..] == [] && Sort(row, []) == [];
    assert Sort(row, [hit]) == [hit];
    assert Sort(row, buffer) == Place(row, miss, [hit]) == buffer;
    assert hit in buffer && RowsOk(buffer);
  }
}
