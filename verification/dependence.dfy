/** The store index of the dependence map: for every quadword the youngest in-flight store that
    starts at each of its bytes, with a mask of the bytes in use. It stands in for a scan of all
    in-flight stores when a load looks for the store it depends on. */
module DependenceMask {
  /** Bit `b` of a byte-wide mask. */
  function Bit(b: nat): bv8
    requires b < 8
  {
    match b
    case 0 => 1
    case 1 => 2
    case 2 => 4
    case 3 => 8
    case 4 => 16
    case 5 => 32
    case 6 => 64
    case _ => 128
  }

  function SetBit(m: bv8, b: nat): bv8
    requires b < 8
  {
    m | Bit(b)
  }

  function ClearBit(m: bv8, b: nat): bv8
    requires b < 8
  {
    m & !Bit(b)
  }

  predicate TestBit(m: bv8, b: nat)
    requires b < 8
  {
    m & Bit(b) != 0
  }

  lemma SetTests(m: bv8, b: nat, x: nat)
    requires b < 8 && x < 8
    ensures TestBit(SetBit(m, b), x) <==> x == b || TestBit(m, x)
  {
  }

  lemma ClearTests(m: bv8, b: nat, x: nat)
    requires b < 8 && x < 8
    ensures TestBit(ClearBit(m, b), x) <==> x != b && TestBit(m, x)
  {
  }

  lemma MaskEmpty(m: bv8)
    ensures m == 0 <==> forall b :: 0 <= b < 8 ==> !TestBit(m, b)
  {
    if m != 0 {
      assert TestBit(m, 0) || TestBit(m, 1) || TestBit(m, 2) || TestBit(m, 3)
          || TestBit(m, 4) || TestBit(m, 5) || TestBit(m, 6) || TestBit(m, 7);
    }
  }

  /** The mask is that of a single byte exactly if this bit is set and no other. */
  lemma MaskSingle(m: bv8, b: nat)
    requires b < 8
    ensures m == Bit(b) <==> TestBit(m, b) && forall x :: 0 <= x < 8 && x != b ==> !TestBit(m, x)
  {
    if TestBit(m, b) && forall x :: 0 <= x < 8 && x != b ==> !TestBit(m, x) {
      assert (0 == b || !TestBit(m, 0)) && (1 == b || !TestBit(m, 1)) && (2 == b || !TestBit(m, 2)) && (3 == b || !TestBit(m, 3));
      assert (4 == b || !TestBit(m, 4)) && (5 == b || !TestBit(m, 5)) && (6 == b || !TestBit(m, 6)) && (7 == b || !TestBit(m, 7));
    }
  }
}

module DependenceIndex {
  import opened Options
  import opened DependenceMask

  const TWO_32: nat := 0x1_0000_0000

  /** A memory uop; `num` is its number in program order. */
  datatype Access = Access(num: nat, va: nat, size: nat, offPath: bool)

  /** The slots of a quadword and the mask of those in use. */
  datatype Entry = Entry(slots: seq<Option<Access>>, mask: bv8)

  type Index = map<nat, Entry>

  function Key(u: Access): nat {
    u.va / 8 * 2 + if u.offPath then 1 else 0
  }

  function Byte(u: Access): (b: nat)
    ensures b < 8
  {
    u.va % 8
  }

  /** A key and a byte determine the address and the path. */
  lemma KeyInjective(u: Access, v: Access)
    requires Key(u) == Key(v) && Byte(u) == Byte(v)
    ensures u.va == v.va && u.offPath == v.offPath
  {
  }

  predicate Overlaps(s: Access, l: Access) {
    !(s.va >= l.va + l.size || l.va >= s.va + s.size)
  }

  // ----- the reference: the list of in-flight stores, oldest first -----

  predicate At(s: Access, key: nat, b: nat) {
    Key(s) == key && Byte(s) == b
  }

  /** The youngest in-flight store that starts at the byte. */
  function Youngest(l: seq<Access>, key: nat, b: nat): (r: Option<Access>)
    ensures r.Some? ==> r.value in l && At(r.value, key, b)
  {
    if l == [] then None
    else if At(l[|l| - 1], key, b) then Some(l[|l| - 1])
    else Youngest(l[..|l| - 1], key, b)
  }

  /** The youngest in-flight store that overlaps the load: what it truly depends on. */
  function TrueSource(l: seq<Access>, load: Access): (r: Option<Access>)
    ensures r.Some? ==> r.value in l && Overlaps(r.value, load)
  {
    if l == [] then None
    else if Overlaps(l[|l| - 1], load) then Some(l[|l| - 1])
    else TrueSource(l[..|l| - 1], load)
  }

  ghost predicate InOrder(l: seq<Access>) {
    forall j, k :: 0 <= j < k < |l| ==> l[j].num < l[k].num
  }

  // ----- the index -----

  function Slot(index: Index, key: nat, b: nat): Option<Access>
    requires b < 8
  {
    if key in index && b < |index[key].slots| then index[key].slots[b] else None
  }

  ghost predicate EntryOk(e: Entry) {
    && |e.slots| == 8 && e.mask != 0
    && forall b :: 0 <= b < 8 ==> (TestBit(e.mask, b) <==> e.slots[b].Some?)
  }

  /** Every slot holds the youngest in-flight store at its byte, and there is an entry for a
      quadword only if it has a store. */
  ghost predicate Agrees(index: Index, l: seq<Access>) {
    && (forall key :: key in index ==> EntryOk(index[key]))
    && (forall key: nat, b: nat {:trigger Slot(index, key, b)} :: b < 8 ==> Slot(index, key, b) == Youngest(l, key, b))
  }

  const NoSlots: seq<Option<Access>> := [None, None, None, None, None, None, None, None]

  /** `update_store_hash`. */
  function Update(index: Index, s: Access): Index
    requires Key(s) in index ==> |index[Key(s)].slots| == 8
  {
    var e := if Key(s) in index then index[Key(s)] else Entry(NoSlots, 0);
    index[Key(s) := Entry(e.slots[Byte(s) := Some(s)], SetBit(e.mask, Byte(s)))]
  }

  /** `delete_store_hash_entry`. */
  function Delete(index: Index, s: Access): Index
    requires Key(s) in index ==> |index[Key(s)].slots| == 8
  {
    if Key(s) !in index || index[Key(s)].slots[Byte(s)] != Some(s) then index
    else
      var e := index[Key(s)];
      var mask := ClearBit(e.mask, Byte(s));
      if mask == 0 then index - {Key(s)}
      else index[Key(s) := Entry(e.slots[Byte(s) := None], mask)]
  }

  // ----- the index follows the list -----

  lemma EmptyAgrees()
    ensures Agrees(map[], [])
  {
  }

  lemma UpdateEntry(e: Entry, s: Access)
    requires |e.slots| == 8 && forall b :: 0 <= b < 8 ==> (TestBit(e.mask, b) <==> e.slots[b].Some?)
    ensures EntryOk(Entry(e.slots[Byte(s) := Some(s)], SetBit(e.mask, Byte(s))))
  {
    hide TestBit, SetBit;
    var m := SetBit(e.mask, Byte(s));
    forall b | 0 <= b < 8 ensures TestBit(m, b) <==> b == Byte(s) || TestBit(e.mask, b) {
      SetTests(e.mask, Byte(s), b);
    }
    MaskEmpty(m);
    assert TestBit(m, Byte(s));
  }

  lemma NoTests()
    ensures forall b :: 0 <= b < 8 ==> !TestBit(0, b)
  {
    MaskEmpty(0);
  }

  /** A new store takes its slot. */
  lemma UpdateAgrees(index: Index, l: seq<Access>, s: Access)
    requires Agrees(index, l)
    ensures Key(s) in index ==> |index[Key(s)].slots| == 8
    ensures Agrees(Update(index, s), l + [s])
  {
    hide TestBit, SetBit, Key, Byte;
    var r := Update(index, s);
    NoTests();
    UpdateEntry(if Key(s) in index then index[Key(s)] else Entry(NoSlots, 0), s);
    forall key: nat, b: nat | b < 8 ensures Slot(r, key, b) == Youngest(l + [s], key, b) {
      assert (l + [s])[..|l|] == l;
      assert Slot(index, key, b) == Youngest(l, key, b);
    }
  }

  /** The list without its `i`-th store. */
  function Cut(l: seq<Access>, i: nat): seq<Access>
    requires i < |l|
  {
    l[..i] + l[i + 1..]
  }

  lemma {:induction false} YoungestCut(l: seq<Access>, i: nat, key: nat, b: nat)
    requires i < |l| && InOrder(l)
    ensures Youngest(Cut(l, i), key, b) ==
            if Youngest(l, key, b) == Some(l[i]) then Youngest(l[..i], key, b) else Youngest(l, key, b)
  {
    hide At, Youngest;
    var n := |l| - 1;
    var front := l[..n];
    YoungestStep(front, l[n], key, b);
    assert front + [l[n]] == l;
    if i == n {
      assert Cut(l, i) == front && l[..i] == front;
      YoungestOlder(front, l[n], key, b);
    } else {
      YoungestCut(front, i, key, b);
      assert Cut(l, i) == Cut(front, i) + [l[n]] && front[..i] == l[..i] && front[i] == l[i];
      YoungestStep(Cut(front, i), l[n], key, b);
      assert l[i].num < l[n].num;
    }
  }

  lemma YoungestStep(l: seq<Access>, s: Access, key: nat, b: nat)
    ensures Youngest(l + [s], key, b) == if At(s, key, b) then Some(s) else Youngest(l, key, b)
  {
    assert (l + [s])[..|l|] == l;
  }

  lemma YoungestOlder(l: seq<Access>, s: Access, key: nat, b: nat)
    requires forall k :: 0 <= k < |l| ==> l[k].num < s.num
    ensures Youngest(l, key, b) != Some(s)
  {
  }

  lemma DeleteEntry(e: Entry, b: nat)
    requires EntryOk(e) && b < 8
    ensures ClearBit(e.mask, b) == 0 <==> forall x :: 0 <= x < 8 && x != b ==> e.slots[x].None?
    ensures ClearBit(e.mask, b) != 0 ==> EntryOk(Entry(e.slots[b := None], ClearBit(e.mask, b)))
  {
    hide TestBit, ClearBit;
    var m := ClearBit(e.mask, b);
    forall x | 0 <= x < 8 ensures TestBit(m, x) <==> x != b && TestBit(e.mask, x) {
      ClearTests(e.mask, b, x);
    }
    MaskEmpty(m);
  }

  /** What remains of the slots after a store was deleted. */
  lemma DeleteSlots(index: Index, l: seq<Access>, s: Access, key: nat, b: nat)
    requires Agrees(index, l) && b < 8
    ensures Key(s) in index ==> |index[Key(s)].slots| == 8
    ensures Slot(Delete(index, s), key, b) ==
            if key == Key(s) && b == Byte(s) && Slot(index, key, b) == Some(s) then None else Slot(index, key, b)
  {
    hide TestBit, ClearBit, Key, Byte, Youngest;
    if Key(s) in index { DeleteEntry(index[Key(s)], Byte(s)); }
  }

  lemma DeleteEntries(index: Index, l: seq<Access>, s: Access)
    requires Agrees(index, l)
    ensures Key(s) in index ==> |index[Key(s)].slots| == 8
    ensures forall key :: key in Delete(index, s) ==> EntryOk(Delete(index, s)[key])
  {
    hide TestBit, ClearBit, Key, Byte, Youngest;
    if Key(s) in index { DeleteEntry(index[Key(s)], Byte(s)); }
  }

  /** Deleting a store that left the list keeps the agreement exactly if the store was not the
      youngest at its byte, or was the only one there. */
  lemma DeleteAgrees(index: Index, l: seq<Access>, i: nat)
    requires Agrees(index, l) && InOrder(l) && i < |l|
    ensures Key(l[i]) in index ==> |index[Key(l[i])].slots| == 8
    ensures Agrees(Delete(index, l[i]), Cut(l, i)) <==>
            Youngest(l, Key(l[i]), Byte(l[i])) != Some(l[i]) || Youngest(l[..i], Key(l[i]), Byte(l[i])).None?
  {
    hide TestBit, ClearBit, Key, Byte, Delete, EntryOk;
    var s := l[i];
    DeleteEntries(index, l, s);
    var r := Delete(index, s);
    forall key: nat, b: nat | b < 8
      ensures Slot(r, key, b) == Youngest(Cut(l, i), key, b) <==>
              !(key == Key(s) && b == Byte(s) && Youngest(l, key, b) == Some(s) && Youngest(l[..i], key, b).Some?)
    {
      DeleteSlots(index, l, s, key, b);
      YoungestCut(l, i, key, b);
      assert Slot(index, key, b) == Youngest(l, key, b);
    }
    assert Slot(r, Key(s), Byte(s)) == Youngest(Cut(l, i), Key(s), Byte(s)) || !Agrees(r, Cut(l, i));
  }

  /** Retirement in program order always keeps it. */
  lemma RetireAgrees(index: Index, l: seq<Access>)
    requires Agrees(index, l) && InOrder(l) && l != []
    ensures Key(l[0]) in index ==> |index[Key(l[0])].slots| == 8
    ensures Agrees(Delete(index, l[0]), l[1..])
  {
    hide Agrees, Delete, Key, Byte;
    DeleteAgrees(index, l, 0);
    assert Cut(l, 0) == l[1..];
  }

  /** Retirement out of order can lose a store: of two stores to one address the younger is
      deleted, and with it the slot. */
  lemma OutOfOrderLoses(index: Index, s: Access, t: Access)
    requires s.va == t.va && s.offPath == t.offPath && s.num < t.num && Agrees(index, [s, t])
    ensures (Key(t) in index ==> |index[Key(t)].slots| == 8) && !Agrees(Delete(index, t), [s])
  {
    hide Agrees, Delete;
    var l := [s, t];
    DeleteAgrees(index, l, 1);
    assert Cut(l, 1) == [s] && l[..1] == [s];
  }

  // ----- what a load finds -----

  /** The scan keeps the number of the best store so far in 32 bits. */
  function Low(n: nat): nat {
    n % TWO_32
  }

  /** The scan over the bytes before `n`: the byte found and the 32-bit number of its store. */
  function Scan(e: Entry, load: Access, n: nat): (r: (Option<nat>, nat))
    requires EntryOk(e) && n <= 8
    ensures r.0.Some? ==> r.0.value < n && e.slots[r.0.value].Some? && Overlaps(e.slots[r.0.value].value, load)
  {
    if n == 0 then (None, 0)
    else
      var (best, num) := Scan(e, load, n - 1);
      if TestBit(e.mask, n - 1) && Overlaps(e.slots[n - 1].value, load) && num < e.slots[n - 1].value.num
      then (Some(n - 1), Low(e.slots[n - 1].value.num))
      else (best, num)
  }

  function Scanned(e: Entry, load: Access): Option<Access>
    requires EntryOk(e)
  {
    var best := Scan(e, load, 8).0;
    if best.None? then None else e.slots[best.value]
  }

  /** `add_store_deps`: if the only store of the quadword starts where the load does, it is taken
      without a scan. */
  function Found(index: Index, load: Access): Option<Access>
    requires forall key :: key in index ==> EntryOk(index[key])
  {
    if Key(load) !in index then None
    else assert EntryOk(index[Key(load)]); if index[Key(load)].mask == Bit(Byte(load)) then index[Key(load)].slots[Byte(load)]
    else Scanned(index[Key(load)], load)
  }

  /** `r` is the youngest of the entry's stores that overlap the load. */
  ghost predicate IsYoungest(e: Entry, load: Access, n: nat, r: Option<Access>)
    requires n <= |e.slots|
  {
    && (r.Some? ==> Overlaps(r.value, load) && exists b :: 0 <= b < n && e.slots[b] == r)
    && forall b :: 0 <= b < n && e.slots[b].Some? && Overlaps(e.slots[b].value, load) ==>
         r.Some? && e.slots[b].value.num <= r.value.num
  }

  predicate Hits(e: Entry, load: Access, b: nat)
    requires b < |e.slots|
  {
    e.slots[b].Some? && Overlaps(e.slots[b].value, load)
  }

  ghost predicate Numbered(e: Entry) {
    forall j, k :: 0 <= j < k < |e.slots| && e.slots[j].Some? && e.slots[k].Some? ==>
      e.slots[j].value.num != e.slots[k].value.num
  }

  /** Slot `b` holds the youngest of the overlapping stores. */
  ghost predicate Top(e: Entry, load: Access, b: nat) {
    && b < |e.slots| && Hits(e, load, b)
    && forall x :: 0 <= x < |e.slots| && Hits(e, load, x) ==> e.slots[x].value.num <= e.slots[b].value.num
  }

  /** The store of slot `b` is found and kept: its number is not 0, with which the scan starts, and
      no overlapping store at a higher byte has a number above its lower 32 bits. */
  ghost predicate Kept(e: Entry, load: Access, b: nat, n: nat)
    requires b < n <= |e.slots| && e.slots[b].Some?
  {
    && e.slots[b].value.num > 0
    && forall x :: b < x < n && Hits(e, load, x) ==> e.slots[x].value.num <= Low(e.slots[b].value.num)
  }

  lemma LowBelow(n: nat)
    ensures Low(n) <= n && (n < TWO_32 ==> Low(n) == n)
  {
  }

  /** Until the scan meets the youngest overlapping store, it remembers a smaller number or 0. */
  lemma {:induction false} ScanBefore(e: Entry, load: Access, m: nat, n: nat)
    requires EntryOk(e) && Numbered(e) && Top(e, load, m) && n <= m
    ensures var (best, num) := Scan(e, load, n);
            best != Some(m) && (num == 0 || num < e.slots[m].value.num)
  {
    hide TestBit, Overlaps, Low;
    if n > 0 {
      ScanBefore(e, load, m, n - 1);
      if Hits(e, load, n - 1) {
        assert e.slots[n - 1].value.num < e.slots[m].value.num;
        LowBelow(e.slots[n - 1].value.num);
      }
    }
  }

  lemma {:induction false} ScanAfter(e: Entry, load: Access, m: nat, n: nat)
    requires EntryOk(e) && Numbered(e) && Top(e, load, m) && m < n <= 8
    ensures var (best, num) := Scan(e, load, n);
            && (best == Some(m) <==> Kept(e, load, m, n))
            && (best == Some(m) ==> num == Low(e.slots[m].value.num))
  {
    hide TestBit, Overlaps, Low;
    if n == m + 1 {
      ScanBefore(e, load, m, m);
    } else {
      ScanAfter(e, load, m, n - 1);
    }
  }

  lemma {:induction false} ScanNothing(e: Entry, load: Access, n: nat)
    requires EntryOk(e) && n <= 8 && forall b :: 0 <= b < 8 ==> !Hits(e, load, b)
    ensures Scan(e, load, n).0.None?
  {
    hide TestBit, Overlaps;
    if n > 0 {
      ScanNothing(e, load, n - 1);
      assert !Hits(e, load, n - 1);
    }
  }

  /** One of the overlapping stores has the highest number. */
  lemma {:induction false} TopExists(e: Entry, load: Access, n: nat) returns (b: nat)
    requires |e.slots| == 8 && 0 < n <= 8 && exists x :: 0 <= x < n && Hits(e, load, x)
    ensures b < n && Hits(e, load, b)
    ensures forall x :: 0 <= x < n && Hits(e, load, x) ==> e.slots[x].value.num <= e.slots[b].value.num
  {
    hide Overlaps;
    if n > 1 && exists x :: 0 <= x < n - 1 && Hits(e, load, x) {
      b := TopExists(e, load, n - 1);
      if Hits(e, load, n - 1) && e.slots[b].value.num < e.slots[n - 1].value.num { b := n - 1; }
    } else {
      b := n - 1;
    }
  }

  /** The scan finds the youngest overlapping store of the quadword's slots exactly if that store is
      found and kept. */
  lemma ScannedExact(e: Entry, load: Access)
    requires EntryOk(e) && Numbered(e)
    ensures IsYoungest(e, load, 8, Scanned(e, load)) <==> forall b: nat :: Top(e, load, b) ==> Kept(e, load, b, 8)
    ensures forall b: nat :: Top(e, load, b) ==> (Scanned(e, load) == e.slots[b] <==> Kept(e, load, b, 8))
  {
    hide TestBit, Overlaps, Low, Scan;
    forall b: nat | Top(e, load, b)
      ensures Scan(e, load, 8).0 == Some(b) <==> Kept(e, load, b, 8)
      ensures Scanned(e, load) == e.slots[b] <==> Kept(e, load, b, 8)
      ensures IsYoungest(e, load, 8, Scanned(e, load)) <==> Kept(e, load, b, 8)
    {
      ScanAfter(e, load, b, 8);
    }
    if x :| 0 <= x < 8 && Hits(e, load, x) {
      var b := TopExists(e, load, 8);
      assert Top(e, load, b);
    } else {
      ScanNothing(e, load, 8);
    }
  }

  /** With one store at the load's own byte, the shortcut gives what the scan gives exactly if both
      sizes are positive and the store is not number 0. */
  lemma ShortcutAgrees(index: Index, load: Access)
    requires forall key :: key in index ==> EntryOk(index[key])
    requires Key(load) in index && EntryOk(index[Key(load)]) && index[Key(load)].mask == Bit(Byte(load))
    requires var s := index[Key(load)].slots[Byte(load)]; s.Some? ==> At(s.value, Key(load), Byte(load))
    ensures var s := index[Key(load)].slots[Byte(load)];
            s.Some? && (Found(index, load) == Scanned(index[Key(load)], load)
                        <==> s.value.size > 0 && load.size > 0 && s.value.num > 0)
  {
    var e, b := index[Key(load)], Byte(load);
    MaskSingle(e.mask, b);
    KeyInjective(e.slots[b].value, load);
    hide TestBit, Bit, Key;
    OnlyScan(e, load, b, 8);
  }

  lemma {:induction false} OnlyScan(e: Entry, load: Access, b: nat, n: nat)
    requires EntryOk(e) && n <= 8 && b < 8 && e.slots[b].Some?
    requires forall x :: 0 <= x < 8 && x != b ==> !TestBit(e.mask, x)
    ensures Scan(e, load, n).0 ==
            if b < n && Overlaps(e.slots[b].value, load) && e.slots[b].value.num > 0 then Some(b) else None
    ensures Scan(e, load, n).0.None? ==> Scan(e, load, n).1 == 0
  {
    hide TestBit, Overlaps;
    if n > 0 { OnlyScan(e, load, b, n - 1); }
  }

  // ----- the index against the list -----

  /** The slots hold the youngest stores of the list, with different numbers. */
  lemma SlotsOfList(index: Index, l: seq<Access>, key: nat)
    requires Agrees(index, l) && InOrder(l) && key in index
    ensures EntryOk(index[key]) && Numbered(index[key])
    ensures forall b :: 0 <= b < 8 ==> index[key].slots[b] == Youngest(l, key, b)
  {
    hide Key, Byte;
    var e := index[key];
    forall b | 0 <= b < 8 ensures e.slots[b] == Youngest(l, key, b) {
      assert Slot(index, key, b) == Youngest(l, key, b);
    }
    forall j, k | 0 <= j < k < 8 && e.slots[j].Some? && e.slots[k].Some?
      ensures e.slots[j].value.num != e.slots[k].value.num
    {
      assert At(e.slots[j].value, key, j) && At(e.slots[k].value, key, k);
      if e.slots[j].value.num == e.slots[k].value.num { SameNumber(l, e.slots[j].value, e.slots[k].value); }
    }
  }

  /** The only store slot of the load's quadword is the one at the load's own byte. */
  ghost predicate Alone(l: seq<Access>, load: Access) {
    forall b: nat :: b < 8 ==> (Youngest(l, Key(load), b).Some? <==> b == Byte(load))
  }

  lemma AloneIsShortcut(index: Index, l: seq<Access>, load: Access)
    requires Agrees(index, l) && InOrder(l)
    ensures Alone(l, load) <==> Key(load) in index && index[Key(load)].mask == Bit(Byte(load))
  {
    hide TestBit, Bit, Key, Byte;
    if Key(load) in index {
      SlotsOfList(index, l, Key(load));
      MaskSingle(index[Key(load)].mask, Byte(load));
    } else {
      assert Slot(index, Key(load), Byte(load)) == Youngest(l, Key(load), Byte(load));
    }
  }

  /** What a load finds is the youngest overlapping store among the slots of its quadword exactly if,
      taken without a scan, both sizes are positive, and otherwise that store is found and kept. */
  lemma FoundExact(index: Index, l: seq<Access>, load: Access)
    requires Agrees(index, l) && InOrder(l) && Key(load) in index
    ensures var e := index[Key(load)];
            && EntryOk(e)
            && (IsYoungest(e, load, 8, Found(index, load)) <==>
                if Alone(l, load) then Youngest(l, Key(load), Byte(load)).value.size > 0 && load.size > 0
                else forall b: nat :: Top(e, load, b) ==> Kept(e, load, b, 8))
  {
    var e, b := index[Key(load)], Byte(load);
    AloneIsShortcut(index, l, load);
    SlotsOfList(index, l, Key(load));
    if Alone(l, load) {
      assert e.slots[b] == Youngest(l, Key(load), b);
      KeyInjective(e.slots[b].value, load);
      assert Hits(e, load, b) <==> e.slots[b].value.size > 0 && load.size > 0;
    } else {
      hide Alone, Agrees, Key, Byte, Overlaps, Bit, TestBit;
      ScannedExact(e, load);
    }
  }

  lemma {:induction false} TrueSourceYoungest(l: seq<Access>, load: Access, s: Access)
    requires InOrder(l) && s in l && Overlaps(s, load)
    ensures TrueSource(l, load).Some? && s.num <= TrueSource(l, load).value.num
  {
    hide Overlaps;
    var n := |l| - 1;
    if !Overlaps(l[n], load) {
      assert s in l[..n];
      TrueSourceYoungest(l[..n], load, s);
    }
  }

  lemma SameNumber(l: seq<Access>, s: Access, t: Access)
    requires InOrder(l) && s in l && t in l && s.num == t.num
    ensures s == t
  {
  }

  /** The store is found by a load that scans: it is the youngest at its byte in the load's quadword
      and path, it is not number 0, and no overlapping store at a higher byte has a number above its
      lower 32 bits. */
  ghost predicate Reached(l: seq<Access>, load: Access, t: Access) {
    && t.num > 0
    && forall b: nat :: Byte(t) < b < 8 && Youngest(l, Key(load), b).Some? && Overlaps(Youngest(l, Key(load), b).value, load) ==>
         Youngest(l, Key(load), b).value.num <= Low(t.num)
  }

  /** For all stores and loads: the index gives the store that a scan of all in-flight stores would
      give exactly if there is none and the shortcut is not taken, or that store starts in the load's
      quadword on its path, no younger store starts at its byte, and it is taken by the shortcut or
      reached by the scan. */
  lemma IndexExact(index: Index, l: seq<Access>, load: Access)
    requires Agrees(index, l) && InOrder(l)
    ensures var t := TrueSource(l, load);
            Found(index, load) == t <==>
            if t.None? then !Alone(l, load)
            else && Key(t.value) == Key(load) && Youngest(l, Key(load), Byte(t.value)) == t
                 && (Alone(l, load) || Reached(l, load, t.value))
  {
    var t := TrueSource(l, load);
    AloneIsShortcut(index, l, load);
    if t.None? {
      NoSource(index, l, load);
    } else if Key(t.value) == Key(load) && Youngest(l, Key(load), Byte(t.value)) == t {
      SourceInSlot(index, l, load);
    } else {
      SourceElsewhere(index, l, load);
    }
  }

  lemma NoSource(index: Index, l: seq<Access>, load: Access)
    requires Agrees(index, l) && InOrder(l) && TrueSource(l, load).None?
    ensures Found(index, load).None? <==> !Alone(l, load)
  {
    hide TestBit, Overlaps, Bit, Key, Byte;
    AloneIsShortcut(index, l, load);
    if Key(load) in index {
      var e := index[Key(load)];
      SlotsOfList(index, l, Key(load));
      forall b | 0 <= b < 8 ensures !Hits(e, load, b) {
        assert e.slots[b] == Youngest(l, Key(load), b);
        if Hits(e, load, b) { TrueSourceYoungest(l, load, e.slots[b].value); }
      }
      ScanNothing(e, load, 8);
      assert e.slots[Byte(load)] == Youngest(l, Key(load), Byte(load));
    }
  }

  lemma SourceInSlot(index: Index, l: seq<Access>, load: Access)
    requires Agrees(index, l) && InOrder(l) && TrueSource(l, load).Some?
    requires var t := TrueSource(l, load); Key(t.value) == Key(load) && Youngest(l, Key(load), Byte(t.value)) == t
    ensures Found(index, load) == TrueSource(l, load) <==> Alone(l, load) || Reached(l, load, TrueSource(l, load).value)
  {
    hide TestBit, Overlaps, Bit, Key, Byte, Low;
    var t := TrueSource(l, load);
    var m := Byte(t.value);
    AloneIsShortcut(index, l, load);
    assert Slot(index, Key(load), m) == Youngest(l, Key(load), m);
    var e := index[Key(load)];
    SlotsOfList(index, l, Key(load));
    assert e.slots[m] == t;
    if !Alone(l, load) {
      forall b | 0 <= b < 8 && Hits(e, load, b) ensures e.slots[b].value.num <= t.value.num {
        assert e.slots[b] == Youngest(l, Key(load), b);
        TrueSourceYoungest(l, load, e.slots[b].value);
      }
      assert Top(e, load, m);
      ScannedExact(e, load);
      KeptIsReached(e, l, load, t.value);
    }
  }

  lemma KeptIsReached(e: Entry, l: seq<Access>, load: Access, t: Access)
    requires |e.slots| == 8 && forall b :: 0 <= b < 8 ==> e.slots[b] == Youngest(l, Key(load), b)
    requires e.slots[Byte(t)] == Some(t)
    ensures Kept(e, load, Byte(t), 8) <==> Reached(l, load, t)
  {
    hide Overlaps, Key, Byte, Low, Youngest;
    if Kept(e, load, Byte(t), 8) {
      forall b: nat | Byte(t) < b < 8 && Youngest(l, Key(load), b).Some? && Overlaps(Youngest(l, Key(load), b).value, load)
        ensures Youngest(l, Key(load), b).value.num <= Low(t.num)
      {
        assert Hits(e, load, b);
      }
    }
  }

  lemma SourceElsewhere(index: Index, l: seq<Access>, load: Access)
    requires Agrees(index, l) && InOrder(l) && TrueSource(l, load).Some?
    requires var t := TrueSource(l, load); Key(t.value) != Key(load) || Youngest(l, Key(load), Byte(t.value)) != t
    ensures Found(index, load) != TrueSource(l, load)
  {
    if Found(index, load).Some? { FoundInList(index, l, load); }
  }

  /** With numbers from 1 below 2^32 and positive sizes, nothing but the place of the store matters. */
  ghost predicate Ordinary(l: seq<Access>) {
    InOrder(l) && forall k :: 0 <= k < |l| ==> 0 < l[k].num < TWO_32 && l[k].size > 0
  }

  lemma OrdinaryExact(index: Index, l: seq<Access>, load: Access)
    requires Agrees(index, l) && Ordinary(l) && load.size > 0
    ensures var t := TrueSource(l, load);
            Found(index, load) == t <==>
            t.None? || (Key(t.value) == Key(load) && Youngest(l, Key(load), Byte(t.value)) == t)
  {
    IndexExact(index, l, load);
    var t := TrueSource(l, load);
    if t.None? {
      if Alone(l, load) {
        var s := Youngest(l, Key(load), Byte(load)).value;
        KeyInjective(s, load);
        TrueSourceYoungest(l, load, s);
      }
    } else {
      LowBelow(t.value.num);
      hide Low, Overlaps, Key, Byte;
      forall b: nat | Byte(t.value) < b < 8 && Youngest(l, Key(load), b).Some? && Overlaps(Youngest(l, Key(load), b).value, load)
        ensures Youngest(l, Key(load), b).value.num <= Low(t.value.num)
      {
        TrueSourceYoungest(l, load, Youngest(l, Key(load), b).value);
      }
    }
  }

  // ----- failing cases -----

  /** The first uop of a thread has number 0: a store with that number is not found next to another
      store of the quadword. */
  lemma FirstStoreMissed()
    ensures var s, t, load := Access(0, 0, 1, false), Access(1, 4, 1, false), Access(2, 0, 1, false);
            var index := Update(Update(map[], s), t);
            Agrees(index, [s, t]) && TrueSource([s, t], load) == Some(s) && Found(index, load).None?
  {
    var s, t, load := Access(0, 0, 1, false), Access(1, 4, 1, false), Access(2, 0, 1, false);
    TwoStores(s, t);
    var l, index := [s, t], Update(Update(map[], s), t);
    assert !Overlaps(t, load) && Overlaps(s, load) && l[..1] == [s] && [s][..0] == [];
    assert Key(load) == Key(s) == Key(t) == 0 && Byte(load) == Byte(s) == 0 && Byte(t) == 4;
    assert Youngest(l, 0, 4) == Some(t);
    hide Update, Agrees, SetBit, Key, Byte, Found, Overlaps;
    IndexExact(index, l, load);
    if Found(index, load).Some? { FoundInList(index, l, load); }
  }

  lemma TwoStores(s: Access, t: Access)
    requires s.num < t.num
    ensures Key(t) in Update(map[], s) ==> |Update(map[], s)[Key(t)].slots| == 8
    ensures Agrees(Update(Update(map[], s), t), [s, t]) && InOrder([s, t])
  {
    hide Update, Agrees;
    EmptyAgrees();
    UpdateAgrees(map[], [], s);
    UpdateAgrees(Update(map[], s), [] + [s], t);
    assert [] + [s] + [t] == [s, t];
  }

  /** Beyond 32 bits a load can find an older store: the number of the younger one, at the lower byte,
      looks smaller than it is. */
  lemma ScanWraps(n: nat, m: nat)
    requires Low(m) < n < m
    ensures var t, s, load := Access(n, 1, 1, false), Access(m, 0, 1, false), Access(m + 1, 0, 2, false);
            var index := Update(Update(map[], t), s);
            Agrees(index, [t, s]) && TrueSource([t, s], load) == Some(s) && Found(index, load) == Some(t)
  {
    var t, s, load := Access(n, 1, 1, false), Access(m, 0, 1, false), Access(m + 1, 0, 2, false);
    TwoStores(t, s);
    var l, index := [t, s], Update(Update(map[], t), s);
    assert Overlaps(s, load) && Overlaps(t, load) && Key(load) == Key(s) == Key(t) == 0;
    assert Byte(load) == Byte(s) == 0 && Byte(t) == 1;
    assert l[..1] == [t] && [t][..0] == [];
    hide Update, SetBit, Key, Byte, Low, Overlaps, TestBit, Bit;
    assert Slot(index, 0, 0) == Youngest(l, 0, 0) == Some(s) && Slot(index, 0, 1) == Youngest(l, 0, 1) == Some(t);
    SlotsOfList(index, l, 0);
    AloneIsShortcut(index, l, load);
    var e := index[0];
    assert forall b :: 1 < b < 8 ==> e.slots[b].None?;
    ScanTwo(e, s, t, load, 8);
  }

  lemma {:induction false} ScanTwo(e: Entry, s: Access, t: Access, load: Access, k: nat)
    requires EntryOk(e) && e.slots[0] == Some(s) && e.slots[1] == Some(t) && forall b :: 1 < b < 8 ==> e.slots[b].None?
    requires Overlaps(s, load) && Overlaps(t, load) && s.num > 0 && Low(s.num) < t.num && 2 <= k <= 8
    ensures Scan(e, load, k).0 == Some(1)
  {
    hide TestBit, Overlaps, Low;
    if k > 2 {
      ScanTwo(e, s, t, load, k - 1);
    } else {
      assert Scan(e, load, 0) == (None, 0);
      assert Scan(e, load, 1) == (Some(0), Low(s.num));
    }
  }

  ghost predicate FindsYoungest(index: Index, l: seq<Access>, load: Access)
    requires Agrees(index, l)
  {
    Key(load) in index ==> EntryOk(index[Key(load)]) && IsYoungest(index[Key(load)], load, 8, Found(index, load))
  }

  ghost predicate InRange(l: seq<Access>, lo: nat, hi: nat) {
    forall k :: 0 <= k < |l| ==> lo <= l[k].num < hi && l[k].size > 0
  }

  /** With store numbers from `lo` below `hi` and positive sizes a load always finds the youngest
      overlapping store of its quadword's slots. */
  ghost predicate RightOn(lo: nat, hi: nat) {
    forall index: Index, l: seq<Access>, load: Access {:trigger Agrees(index, l), Key(load)} ::
      Agrees(index, l) && InOrder(l) && InRange(l, lo, hi) && load.size > 0 ==> FindsYoungest(index, l, load)
  }

  /** That is so exactly if there is no number in the range, or 0 is not in it and it lies below 2^32
      or holds a single number. */
  lemma NumbersExact(lo: nat, hi: nat)
    ensures RightOn(lo, hi) <==> hi <= lo || (lo >= 1 && (hi <= TWO_32 || hi == lo + 1))
  {
    if hi <= lo || (lo >= 1 && (hi <= TWO_32 || hi == lo + 1)) {
      forall index: Index, l: seq<Access>, load: Access
        | Agrees(index, l) && InOrder(l) && InRange(l, lo, hi) && load.size > 0
        ensures FindsYoungest(index, l, load)
      {
        RightInRange(index, l, load, lo, hi);
      }
    } else if lo == 0 {
      ZeroWrong(lo, hi);
    } else {
      WrapWrong(lo, hi);
    }
  }

  lemma RightInRange(index: Index, l: seq<Access>, load: Access, lo: nat, hi: nat)
    requires Agrees(index, l) && InOrder(l) && InRange(l, lo, hi) && load.size > 0
    requires hi <= lo || (lo >= 1 && (hi <= TWO_32 || hi == lo + 1))
    ensures FindsYoungest(index, l, load)
  {
    if Key(load) in index {
      hide TestBit, Overlaps, Low, Key, Byte;
      FoundExact(index, l, load);
      SlotsOfList(index, l, Key(load));
      var e := index[Key(load)];
      forall b | 0 <= b < 8 && e.slots[b].Some? ensures lo <= e.slots[b].value.num < hi {
        assert e.slots[b] == Youngest(l, Key(load), b);
      }
      forall b: nat | Top(e, load, b) ensures Kept(e, load, b, 8) {
        LowBelow(e.slots[b].value.num);
      }
    }
  }

  lemma ZeroWrong(lo: nat, hi: nat)
    requires lo == 0 < hi
    ensures !RightOn(lo, hi)
  {
    hide Update, Overlaps, Key, Byte, TestBit, Low, Found, Youngest, Agrees;
    var s, load := Access(0, 4, 1, false), Access(1, 3, 2, false);
    var index, l := Update(map[], s), [s];
    ZeroStore();
    FoundExact(index, l, load);
    SlotsOfList(index, l, 0);
    var e := index[0];
    assert forall b :: 0 <= b < 8 && e.slots[b].Some? ==> e.slots[b].value in l;
    assert Top(e, load, 4) && !Kept(e, load, 4, 8);
    assert !FindsYoungest(index, l, load);
  }

  /** The index with the store of number 0 at byte 4 only, and a load that starts before it. */
  lemma ZeroStore()
    ensures var s, load := Access(0, 4, 1, false), Access(1, 3, 2, false);
            var index := Update(map[], s);
            && Agrees(index, [s]) && InOrder([s]) && 0 in index && Key(load) == 0 && Overlaps(s, load)
            && Youngest([s], 0, 4) == Some(s) && !Alone([s], load)
  {
    var s, load := Access(0, 4, 1, false), Access(1, 3, 2, false);
    EmptyAgrees();
    UpdateAgrees(map[], [], s);
    assert [] + [s] == [s];
    assert Key(load) == Key(s) == 0 && Byte(s) == 4 && Byte(load) == 3;
    assert [s][|[s]| - 1] == s;
    hide Agrees, SetBit;
  }

  lemma WrapWrong(lo: nat, hi: nat)
    requires 1 <= lo && TWO_32 < hi && lo + 1 < hi
    ensures !RightOn(lo, hi)
  {
    var n, m := hi - 2, hi - 1;
    WrapLow(m);
    ScanWraps(n, m);
    var t, s, load := Access(n, 1, 1, false), Access(m, 0, 1, false), Access(m + 1, 0, 2, false);
    TwoStores(t, s);
    var index, l := Update(Update(map[], t), s), [t, s];
    assert Key(load) == 0 && Key(s) == 0 && Byte(s) == 0 && Overlaps(s, load);
    hide Update, Overlaps, Key, Byte, TestBit, Low, Found;
    assert Slot(index, 0, 0) == Youngest(l, 0, 0) == Some(s);
    SlotsOfList(index, l, 0);
    assert Hits(index[0], load, 0);
    assert !FindsYoungest(index, l, load);
  }

  lemma WrapLow(m: nat)
    requires m >= TWO_32
    ensures Low(m) < m - 1
  {
  }

  /** A two-byte store to the last byte of a quadword overlaps a load of the next byte, which does
      not find it. */
  lemma IndexMisses()
    ensures var s, load := Access(1, 7, 2, false), Access(2, 8, 1, false);
            var index := Update(map[], s);
            Agrees(index, [s]) && TrueSource([s], load) == Some(s) && Found(index, load).None?
  {
    var s, load := Access(1, 7, 2, false), Access(2, 8, 1, false);
    EmptyAgrees();
    UpdateAgrees(map[], [], s);
    assert [] + [s] == [s];
    assert Overlaps(s, load) && Key(load) == 2 && Key(s) == 0;
    assert [s][|[s]| - 1] == s;
    hide Update, Agrees, SetBit;
    assert Update(map[], s).Keys == {0} by { UpdateKeys(s); }
  }

  lemma UpdateKeys(s: Access)
    ensures Update(map[], s).Keys == {Key(s)}
  {
  }

  /** A load of no bytes takes the only store at its byte, which the scan would not. */
  lemma ShortcutWrong(index: Index, s: Access, load: Access)
    requires (forall key :: key in index ==> EntryOk(index[key])) && Key(load) in index && EntryOk(index[Key(load)])
    requires index[Key(load)].mask == Bit(Byte(load)) && index[Key(load)].slots[Byte(load)] == Some(s)
    requires At(s, Key(load), Byte(load)) && s.num > 0 && load.size == 0
    ensures Found(index, load) == Some(s) && Scanned(index[Key(load)], load) != Some(s)
  {
    ShortcutAgrees(index, load);
  }

  /** What is found is in flight, in the load's quadword, and the youngest at its byte; found by a
      scan, it overlaps the load. */
  lemma FoundInList(index: Index, l: seq<Access>, load: Access)
    requires Agrees(index, l) && InOrder(l) && Found(index, load).Some?
    ensures var f := Found(index, load);
            && f.value in l && Key(f.value) == Key(load) && Youngest(l, Key(load), Byte(f.value)) == f
            && (!Alone(l, load) ==> Overlaps(f.value, load))
  {
    hide Overlaps, Key, Byte, TestBit, Bit;
    AloneIsShortcut(index, l, load);
    SlotsOfList(index, l, Key(load));
    var e, f := index[Key(load)], Found(index, load);
    var b := if e.mask == Bit(Byte(load)) then Byte(load) else Scan(e, load, 8).0.value;
    assert e.slots[b] == f == Youngest(l, Key(load), b);
  }

  // ----- runs -----

  datatype Event = Issue(store: Access) | Retire

  /** Stores enter in program order and leave oldest first. */
  ghost predicate EventOk(l: seq<Access>, e: Event) {
    match e
    case Issue(s) => forall k :: 0 <= k < |l| ==> l[k].num < s.num
    case Retire => l != []
  }

  ghost predicate IndexStep(index: Index, l: seq<Access>, e: Event, index': Index, l': seq<Access>) {
    match e
    case Issue(s) => (Key(s) in index ==> |index[Key(s)].slots| == 8) && index' == Update(index, s) && l' == l + [s]
    case Retire => l != [] && (Key(l[0]) in index ==> |index[Key(l[0])].slots| == 8) && index' == Delete(index, l[0]) && l' == l[1..]
  }

  ghost predicate IsRun(run: seq<(Index, seq<Access>)>, events: seq<Event>) {
    && |run| == |events| + 1 && run[0] == (map[], [])
    && forall k :: 0 <= k < |events| ==>
         EventOk(run[k].1, events[k]) && IndexStep(run[k].0, run[k].1, events[k], run[k + 1].0, run[k + 1].1)
  }

  /** In every run with in-order retirement the index agrees with the in-flight stores. */
  lemma {:induction false} AlwaysAgrees(run: seq<(Index, seq<Access>)>, events: seq<Event>, k: nat)
    requires IsRun(run, events) && k < |run|
    ensures Agrees(run[k].0, run[k].1) && InOrder(run[k].1)
  {
    hide Agrees, Update, Delete;
    if k == 0 {
      EmptyAgrees();
    } else {
      AlwaysAgrees(run, events, k - 1);
      var (index, l) := run[k - 1];
      assert IndexStep(index, l, events[k - 1], run[k].0, run[k].1) && EventOk(l, events[k - 1]);
      match events[k - 1]
      case Issue(s) => UpdateAgrees(index, l, s);
      case Retire => RetireAgrees(index, l);
    }
  }

  /** An entry exists exactly for the quadwords with an in-flight store, and a mask bit is set
      exactly for the bytes at which one starts. */
  lemma EntriesExact(index: Index, l: seq<Access>, key: nat, b: nat)
    requires Agrees(index, l) && b < 8
    ensures key in index <==> exists s :: s in l && Key(s) == key
    ensures key in index ==> (TestBit(index[key].mask, b) <==> exists s :: s in l && At(s, key, b))
  {
    hide TestBit, Byte, Key;
    forall x: nat | x < 8 ensures Youngest(l, key, x).Some? <==> exists s :: s in l && At(s, key, x) {
      YoungestSome(l, key, x);
    }
    if key in index {
      MaskEmpty(index[key].mask);
      var x :| 0 <= x < 8 && TestBit(index[key].mask, x);
      assert Slot(index, key, x) == Youngest(l, key, x);
      assert Slot(index, key, b) == Youngest(l, key, b);
    }
    if s :| s in l && Key(s) == key {
      assert At(s, key, Byte(s));
      assert Slot(index, key, Byte(s)) == Youngest(l, key, Byte(s));
    }
  }

  lemma {:induction false} YoungestSome(l: seq<Access>, key: nat, b: nat)
    ensures Youngest(l, key, b).Some? <==> exists s :: s in l && At(s, key, b)
  {
    hide At;
    if l != [] {
      var n := |l| - 1;
      YoungestSome(l[..n], key, b);
      assert l[n] in l && forall s :: s in l <==> s == l[n] || s in l[..n] by {
        assert l == l[..n] + [l[n]];
      }
    }
  }

  // ----- the simulator's hash table -----

  class StoreIndex {
    var table: Index
    ghost var inFlight: seq<Access>

    ghost predicate Valid()
      reads this
    {
      Agrees(table, inFlight) && InOrder(inFlight)
    }

    constructor ()
      ensures Valid() && table == map[] && inFlight == []
    {
      table, inFlight := map[], [];
    }

    method UpdateStoreHash(s: Access)
      requires Valid() && forall k :: 0 <= k < |inFlight| ==> inFlight[k].num < s.num
      modifies this
      ensures Valid() && inFlight == old(inFlight) + [s]
      ensures (Key(s) in old(table) ==> |old(table)[Key(s)].slots| == 8) && table == Update(old(table), s)
    {
      hide SetBit, TestBit, Youngest;
      UpdateAgrees(table, inFlight, s);
      var e := if Key(s) in table then table[Key(s)] else Entry(NoSlots, 0);
      table := table[Key(s) := Entry(e.slots[Byte(s) := Some(s)], SetBit(e.mask, Byte(s)))];
      inFlight := inFlight + [s];
    }

    /** The in-flight store at position `i` leaves. The index stays right exactly if it was not the
        youngest at its byte or was the only one there; so it does if the oldest store leaves. */
    method DeleteStoreHashEntry(s: Access, ghost i: nat)
      requires Valid() && i < |inFlight| && s == inFlight[i]
      modifies this
      ensures inFlight == Cut(old(inFlight), i)
      ensures (Key(s) in old(table) ==> |old(table)[Key(s)].slots| == 8) && table == Delete(old(table), s)
      ensures Agrees(table, inFlight) <==>
              Youngest(old(inFlight), Key(s), Byte(s)) != Some(s) || Youngest(old(inFlight)[..i], Key(s), Byte(s)).None?
      ensures i == 0 ==> Valid()
    {
      hide Delete, Agrees, Youngest, Key, Byte;
      DeleteAgrees(table, inFlight, i);
      if i == 0 {
        RetireAgrees(table, inFlight);
        assert Cut(inFlight, 0) == inFlight[1..];
      }
      ClearSlot(s);
      inFlight := Cut(inFlight, i);
    }

    method ClearSlot(s: Access)
      requires Key(s) in table ==> |table[Key(s)].slots| == 8
      modifies this`table
      ensures table == Delete(old(table), s)
    {
      hide ClearBit, Key;
      if Key(s) in table && table[Key(s)].slots[Byte(s)] == Some(s) {
        var e := table[Key(s)];
        var mask := ClearBit(e.mask, Byte(s));
        if mask == 0 {
          table := table - {Key(s)};
        } else {
          table := table[Key(s) := Entry(e.slots[Byte(s) := None], mask)];
        }
      }
    }

    /** The store that the load depends on. */
    method AddStoreDeps(load: Access) returns (r: Option<Access>)
      requires Valid()
      ensures r == Found(table, load)
      ensures var t := TrueSource(inFlight, load);
              r == t <==>
              if t.None? then !Alone(inFlight, load)
              else && Key(t.value) == Key(load) && Youngest(inFlight, Key(load), Byte(t.value)) == t
                   && (Alone(inFlight, load) || Reached(inFlight, load, t.value))
    {
      hide TestBit, Bit, Youngest, TrueSource, Overlaps, Key;
      IndexExact(table, inFlight, load);
      if Key(load) !in table {
        return None;
      }
      var e := table[Key(load)];
      assert EntryOk(e);
      if e.mask == Bit(Byte(load)) {
        return e.slots[Byte(load)];
      }
      var best := ScanSlots(e, load);
      r := if best.None? then None else e.slots[best.value];
    }

    method ScanSlots(e: Entry, load: Access) returns (best: Option<nat>)
      requires EntryOk(e)
      ensures best == Scan(e, load, 8).0
    {
      hide TestBit, Overlaps;
      best := None;
      var num: nat := 0;
      for ii := 0 to 8
        invariant (best, num) == Scan(e, load, ii)
      {
        if TestBit(e.mask, ii) && Overlaps(e.slots[ii].value, load) {
          if num < e.slots[ii].value.num {
            best := Some(ii);
            num := Low(e.slots[ii].value.num);
          }
        }
      }
    }
  }
}
