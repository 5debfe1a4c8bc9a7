/** A set-associative cache: what each set holds and where, over every run of accesses and
    insertions. */
module CacheState {
  import opened Options
  import opened CacheAddress
  import opened CacheSets

  datatype Settings = Settings(shape: CacheAddress.Config, tile: nat, assoc: nat, partitioned: bool, cpuShare: int, pseudo: bool) {
    predicate Valid() {
      assoc > 0 && (partitioned ==> 0 < cpuShare < assoc)
    }
  }

  type Setup = s: Settings | s.Valid() witness Settings(Shape(0, 0, 0, 1, false), 0, 1, false, 0, false)

  /** `cpu` and `gpu` count the valid lines of all sets. */
  datatype Cache = Cache(sets: seq<CacheSet>, cpu: int, gpu: int)

  function SetCount(c: Setup): nat {
    Pow(c.shape.setBits)
  }

  // ----- accesses -----

  /** `access_cache`: the way found, and the cache with its access time updated. */
  function Access(c: Setup, s: Cache, addr: nat, update: bool, now: nat): (Option<nat>, Cache)
    requires |s.sets| == SetCount(c)
  {
    var k := SetOf(c.shape, addr);
    var w := Lookup(s.sets[k].lines, TagOf(c.shape, addr), 0);
    if w.None? || !update then (w, s) else (w, s.(sets := s.sets[k := Touch(s.sets[k], w.value, now)]))
  }

  function Touch(x: CacheSet, w: nat, now: nat): CacheSet
    requires w < |x.lines|
  {
    x.(lines := x.lines[w := x.lines[w].(time := now)])
  }

  /** The way to replace, and the lines with their times as the policy leaves them. */
  function Victim(c: Setup, x: CacheSet, gpu: bool): (Option<nat>, seq<Line>) {
    if c.partitioned then (KindVictim(x, c.cpuShare, gpu), x.lines)
    else if c.pseudo then var (v, aged) := Pseudo(x.lines); (Some(v), aged)
    else (Some(LruVictim(x.lines)), x.lines)
  }

  function NewLine(c: Setup, addr: nat, gpu: bool, now: nat): Line {
    Line(true, TagOf(c.shape, addr), BaseOf(c.shape, addr), now, gpu)
  }

  /** `insert_cache`: the address of the line that was replaced, 0 if none, and the new cache. */
  function Insert(c: Setup, s: Cache, addr: nat, gpu: bool, now: nat): (nat, Cache)
    requires |s.sets| == SetCount(c)
    requires var v := Victim(c, s.sets[SetOf(c.shape, addr)], gpu); v.0.Some? && v.0.value < |v.1|
  {
    var k := SetOf(c.shape, addr);
    var (v, lines) := Victim(c, s.sets[k], gpu);
    var x := s.sets[k].(lines := lines);
    var y := Replace(x, v.value, NewLine(c, addr, gpu, now));
    (if lines[v.value].valid then lines[v.value].base else 0,
     Cache(s.sets[k := y], s.cpu + y.cpu - x.cpu, s.gpu + y.gpu - x.gpu))
  }

  // ----- the invariant -----

  /** A valid line is where its address belongs. */
  ghost predicate AtHome(c: Setup, k: nat, l: Line) {
    && BaseOf(c.shape, l.base) == l.base && TagOf(c.shape, l.base) == l.tag
    && SetOf(c.shape, l.base) == k && TileOf(c.shape, l.base) == c.tile
  }

  ghost predicate Placed(c: Setup, k: nat, lines: seq<Line>) {
    forall j :: 0 <= j < |lines| && lines[j].valid ==> AtHome(c, k, lines[j])
  }

  ghost predicate SetOk(c: Setup, k: nat, x: CacheSet) {
    && |x.lines| == c.assoc && Unique(x.lines) && Counted(x)
    && (c.shape.Whole() ==> Placed(c, k, x.lines))
    && (c.partitioned ==> Divided(x, c.cpuShare))
  }

  function Total(sets: seq<CacheSet>, gpu: bool): int {
    if sets == [] then 0 else Total(sets[..|sets| - 1], gpu) + CountOf(sets[|sets| - 1], gpu)
  }

  ghost predicate Inv(c: Setup, s: Cache) {
    && |s.sets| == SetCount(c) && s.cpu == Total(s.sets, false) && s.gpu == Total(s.sets, true)
    && forall k :: 0 <= k < |s.sets| ==> SetOk(c, k, s.sets[k])
  }

  lemma {:induction false} TotalUpdate(sets: seq<CacheSet>, k: nat, x: CacheSet, gpu: bool)
    requires k < |sets|
    ensures Total(sets[k := x], gpu) == Total(sets, gpu) - CountOf(sets[k], gpu) + CountOf(x, gpu)
  {
    var n := |sets| - 1;
    if k == n {
      assert sets[k := x][..n] == sets[..n];
    } else {
      TotalUpdate(sets[..n], k, x, gpu);
      assert sets[k := x][..n] == sets[..n][k := x];
    }
  }

  lemma UpdateSet(c: Setup, s: Cache, k: nat, x: CacheSet)
    requires Inv(c, s) && k < |s.sets| && SetOk(c, k, x)
    ensures Inv(c, Cache(s.sets[k := x], s.cpu + x.cpu - s.sets[k].cpu, s.gpu + x.gpu - s.sets[k].gpu))
  {
    hide SetOk, SetCount, Total;
    TotalUpdate(s.sets, k, x, false);
    TotalUpdate(s.sets, k, x, true);
  }

  // ----- accesses keep it -----

  /** Changing access times changes nothing that the invariant speaks of. */
  ghost predicate SameButTimes(a: seq<Line>, b: seq<Line>) {
    |a| == |b| && forall k :: 0 <= k < |a| ==> b[k] == a[k].(time := b[k].time)
  }

  lemma {:induction false} TimesCount(a: seq<Line>, b: seq<Line>, gpu: bool)
    requires SameButTimes(a, b)
    ensures Count(b, gpu) == Count(a, gpu)
  {
    if a != [] {
      var n := |a| - 1;
      assert a[n].valid == b[n].valid && a[n].gpu == b[n].gpu;
      TimesCount(a[..n], b[..n], gpu);
    }
  }

  lemma TimesOk(c: Setup, k: nat, x: CacheSet, lines: seq<Line>)
    requires SetOk(c, k, x) && SameButTimes(x.lines, lines)
    ensures SetOk(c, k, x.(lines := lines))
  {
    TimesCount(x.lines, lines, false);
    TimesCount(x.lines, lines, true);
    hide Count;
  }

  lemma AccessKeeps(c: Setup, s: Cache, addr: nat, update: bool, now: nat)
    requires Inv(c, s)
    ensures Inv(c, Access(c, s, addr, update, now).1)
  {
    hide SetOk, SetOf, TagOf, SetCount, Total;
    var k := SetOf(c.shape, addr);
    SetIndex(c, addr);
    var w := Lookup(s.sets[k].lines, TagOf(c.shape, addr), 0);
    if w.Some? {
      var x := Touch(s.sets[k], w.value, now);
      TimesOk(c, k, s.sets[k], x.lines);
      UpdateSet(c, s, k, x);
    }
  }

  lemma SetIndex(c: Setup, addr: nat)
    ensures SetOf(c.shape, addr) < SetCount(c)
  {
  }

  // ----- insertions keep it -----

  lemma LruBound(lines: seq<Line>)
    requires lines != []
    ensures LruVictim(lines) < |lines|
  {
    if AllValid(lines, 0) { LruLeast(lines, 0, 0, MAX_INT); } else { LruInvalid(lines, 0, 0, MAX_INT); }
  }

  /** A way is found for every line: the assertion of the partitioned search cannot fail. */
  lemma VictimFound(c: Setup, k: nat, x: CacheSet, gpu: bool)
    requires SetOk(c, k, x)
    ensures var (v, lines) := Victim(c, x, gpu);
            v.Some? && v.value < |lines| && SameButTimes(x.lines, lines)
  {
    hide Placed, Unique, Count;
    if c.partitioned {
      KindVictimExact(x, c.cpuShare, gpu);
    } else if !c.pseudo {
      LruBound(x.lines);
    }
  }

  lemma NewLineHome(c: Setup, addr: nat, gpu: bool, now: nat)
    requires TileOf(c.shape, addr) == c.tile && c.shape.Whole()
    ensures AtHome(c, SetOf(c.shape, addr), NewLine(c, addr, gpu, now))
  {
    hide TagOf, SetOf, TileOf, LineOf, BaseOf;
    BaseLine(c.shape, addr);
    SplitByLine(c.shape, BaseOf(c.shape, addr), addr);
  }

  /** The set after an insertion, and how its tags changed. */
  lemma InsertSet(c: Setup, k: nat, x: CacheSet, l: Line)
    requires SetOk(c, k, x) && l.valid && (c.shape.Whole() ==> AtHome(c, k, l)) && Lookup(x.lines, l.tag, 0).None?
    ensures var (v, lines) := Victim(c, x, l.gpu);
            && v.Some? && v.value < |lines|
            && SetOk(c, k, Replace(x.(lines := lines), v.value, l))
  {
    VictimFound(c, k, x, l.gpu);
    var (v, lines) := Victim(c, x, l.gpu);
    var aged := x.(lines := lines);
    TimesOk(c, k, x, lines);
    SameLookup(x.lines, lines, l.tag);
    ReplaceUnique(lines, v.value, l);
    ReplaceCounted(aged, v.value, l);
    if c.partitioned { KindInsertDivided(x, c.cpuShare, l); }
    hide Victim, Unique, Counted, AtHome, Divided;
  }

  lemma SameLookup(a: seq<Line>, b: seq<Line>, tag: nat)
    requires SameButTimes(a, b)
    ensures Lookup(a, tag, 0).None? <==> Lookup(b, tag, 0).None?
  {
    if w :| 0 <= w < |a| && (Holds(a[w], tag) || Holds(b[w], tag)) {
      assert Holds(a[w], tag) && Holds(b[w], tag);
    }
  }

  /** An insertion after an access that found nothing. */
  lemma InsertKeeps(c: Setup, s: Cache, addr: nat, gpu: bool, now: nat)
    requires Inv(c, s) && (c.shape.Whole() ==> TileOf(c.shape, addr) == c.tile) && Access(c, s, addr, false, now).0.None?
    ensures SetOf(c.shape, addr) < |s.sets|
    ensures var v := Victim(c, s.sets[SetOf(c.shape, addr)], gpu); v.0.Some? && v.0.value < |v.1|
    ensures Inv(c, Insert(c, s, addr, gpu, now).1)
  {
    hide SetOk, SetOf, TagOf, TileOf, BaseOf, SetCount, Total, Victim, AtHome;
    SetIndex(c, addr);
    var k, l := SetOf(c.shape, addr), NewLine(c, addr, gpu, now);
    if c.shape.Whole() { NewLineHome(c, addr, gpu, now); }
    InsertSet(c, k, s.sets[k], l);
    var (v, lines) := Victim(c, s.sets[k], gpu);
    UpdateSet(c, s, k, Replace(s.sets[k].(lines := lines), v.value, l));
  }

  // ----- what an access finds -----

  /** Some way of some set holds the line of the address. */
  ghost predicate Resident(c: Setup, s: Cache, addr: nat) {
    exists k, j :: 0 <= k < |s.sets| && 0 <= j < |s.sets[k].lines| && s.sets[k].lines[j].valid
                   && s.sets[k].lines[j].base == BaseOf(c.shape, addr)
  }

  /** An access hits exactly if the address's own line is in the cache, and then it finds that
      line and no other. */
  lemma HitExact(c: Setup, s: Cache, addr: nat, now: nat)
    requires Inv(c, s) && TileOf(c.shape, addr) == c.tile && c.shape.Whole()
    ensures Access(c, s, addr, false, now).0.Some? <==> Resident(c, s, addr)
    ensures var w := Access(c, s, addr, false, now).0;
            w.Some? ==> s.sets[SetOf(c.shape, addr)].lines[w.value].base == BaseOf(c.shape, addr)
  {
    hide SetOf, TagOf, TileOf, LineOf, BaseOf, SetCount, Total, Unique, Counted, Divided;
    SetIndex(c, addr);
    var k := SetOf(c.shape, addr);
    var w := Lookup(s.sets[k].lines, TagOf(c.shape, addr), 0);
    if w.Some? {
      assert AtHome(c, k, s.sets[k].lines[w.value]);
      HomeLine(c, s.sets[k].lines[w.value], addr);
    }
    if Resident(c, s, addr) {
      var k', j :| 0 <= k' < |s.sets| && 0 <= j < |s.sets[k'].lines| && s.sets[k'].lines[j].valid
                   && s.sets[k'].lines[j].base == BaseOf(c.shape, addr);
      assert SetOk(c, k', s.sets[k']) && AtHome(c, k', s.sets[k'].lines[j]);
      BaseLine(c.shape, addr);
      SplitByLine(c.shape, BaseOf(c.shape, addr), addr);
      assert Holds(s.sets[k].lines[j], TagOf(c.shape, addr));
    }
  }

  lemma HomeLine(c: Setup, l: Line, addr: nat)
    requires AtHome(c, SetOf(c.shape, addr), l) && TileOf(c.shape, addr) == c.tile && l.tag == TagOf(c.shape, addr) && c.shape.Whole()
    ensures l.base == BaseOf(c.shape, addr)
  {
    LosslessExact(c.shape);
    hide SetOf, TagOf, TileOf, LineOf, BaseOf;
    assert LineOf(c.shape, l.base) == LineOf(c.shape, addr);
    SameBase(c.shape, l.base, addr);
  }

  // ----- runs -----

  datatype Event =
    | Read(addr: nat, update: bool, now: nat)
    | Fill(addr: nat, gpu: bool, now: nat)

  /** Addresses belong to the cache's tile (which matters only where tile, tag and set determine the
      line), and an insertion follows an access that found nothing. */
  ghost predicate EventOk(c: Setup, s: Cache, e: Event) {
    && (c.shape.Whole() ==> TileOf(c.shape, e.addr) == c.tile) && |s.sets| == SetCount(c)
    && (e.Fill? ==> Access(c, s, e.addr, false, e.now).0.None?)
  }

  ghost predicate Steps(c: Setup, s: Cache, e: Event, t: Cache) {
    && EventOk(c, s, e)
    && (Inv(c, s) ==>
         match e
         case Read(addr, update, now) => t == Access(c, s, addr, update, now).1
         case Fill(addr, gpu, now) => InsertKeeps(c, s, addr, gpu, now); t == Insert(c, s, addr, gpu, now).1)
  }

  function EmptySet(assoc: nat): CacheSet {
    CacheSet(seq(assoc, _ => Line(false, 0, 0, 0, false)), 0, 0)
  }

  function Init(c: Setup): Cache {
    Cache(seq(SetCount(c), _ => EmptySet(c.assoc)), 0, 0)
  }

  lemma {:induction false} TotalNone(sets: seq<CacheSet>, gpu: bool)
    requires forall k :: 0 <= k < |sets| ==> CountOf(sets[k], gpu) == 0
    ensures Total(sets, gpu) == 0
  {
    if sets != [] { TotalNone(sets[..|sets| - 1], gpu); }
  }

  lemma EmptySetOk(c: Setup, k: nat)
    ensures SetOk(c, k, EmptySet(c.assoc))
  {
    hide AtHome;
    CountNone(EmptySet(c.assoc).lines, false);
    CountNone(EmptySet(c.assoc).lines, true);
  }

  lemma InitKeeps(c: Setup)
    ensures Inv(c, Init(c))
  {
    hide SetOk, SetCount;
    var s := Init(c);
    forall k | 0 <= k < |s.sets| ensures SetOk(c, k, s.sets[k]) { EmptySetOk(c, k); }
    TotalNone(s.sets, false);
    TotalNone(s.sets, true);
  }

  ghost predicate IsRun(c: Setup, run: seq<Cache>, events: seq<Event>) {
    && |run| == |events| + 1 && run[0] == Init(c)
    && forall k :: 0 <= k < |events| ==> Steps(c, run[k], events[k], run[k + 1])
  }

  /** In every run no set holds a tag twice, the counters are exact, every line is where its
      address belongs and the partition is kept. */
  lemma {:induction false} AlwaysInv(c: Setup, run: seq<Cache>, events: seq<Event>, k: nat)
    requires IsRun(c, run, events) && k < |run|
    ensures Inv(c, run[k])
  {
    hide Inv, Access, Insert;
    if k == 0 {
      InitKeeps(c);
    } else {
      AlwaysInv(c, run, events, k - 1);
      var s, e := run[k - 1], events[k - 1];
      assert Steps(c, s, e, run[k]);
      match e
      case Read(addr, update, now) => AccessKeeps(c, s, addr, update, now);
      case Fill(addr, gpu, now) => InsertKeeps(c, s, addr, gpu, now);
    }
  }

  /** Under the partition neither kind ever has more lines in a set than its share, and the
      counters say how many it has. */
  lemma PartitionKept(c: Setup, run: seq<Cache>, events: seq<Event>, k: nat, set': nat)
    requires IsRun(c, run, events) && k < |run| && c.partitioned && set' < |run[k].sets|
    ensures var x := run[k].sets[set'];
            && x.cpu == Count(x.lines, false) <= c.cpuShare
            && x.gpu == Count(x.lines, true) <= c.assoc - c.cpuShare
  {
    hide IsRun, Count, AtHome, Total;
    AlwaysInv(c, run, events, k);
    assert SetOk(c, set', run[k].sets[set']);
  }

  /** Where two lines of a tile share tag and set, an access finds the wrong one. */
  lemma FalseHit(c: Setup, a: nat, b: nat, gpu: bool, now: nat)
    requires TileOf(c.shape, a) == TileOf(c.shape, b) == c.tile && LineOf(c.shape, a) != LineOf(c.shape, b)
    requires TagOf(c.shape, a) == TagOf(c.shape, b) && SetOf(c.shape, a) == SetOf(c.shape, b)
    ensures |Init(c).sets| == SetCount(c) && SetOf(c.shape, a) < SetCount(c)
    ensures var v := Victim(c, Init(c).sets[SetOf(c.shape, a)], gpu); v.0.Some? && v.0.value < |v.1|
    ensures var s := Insert(c, Init(c), a, gpu, now).1;
            |s.sets| == SetCount(c) && Access(c, s, b, false, now).0.Some? && !Resident(c, s, b)
  {
    InitKeeps(c);
    SetIndex(c, a);
    hide SetOf, TagOf, TileOf, LineOf, BaseOf, SetCount, Inv, Victim, SetOk;
    InsertKeeps(c, Init(c), a, gpu, now);
    var k := SetOf(c.shape, a);
    var (v, lines) := Victim(c, Init(c).sets[k], gpu);
    EmptySetOk(c, k);
    VictimFound(c, k, Init(c).sets[k], gpu);
    var s := Insert(c, Init(c), a, gpu, now).1;
    assert Holds(s.sets[k].lines[v.value], TagOf(c.shape, b));
    SameBase(c.shape, a, b);
    forall k', j | 0 <= k' < |s.sets| && 0 <= j < |s.sets[k'].lines| && s.sets[k'].lines[j].valid
      ensures s.sets[k'].lines[j].base == BaseOf(c.shape, a)
    {
    }
  }

  /** Over every run, an access hits exactly if the address's own line is resident. */
  lemma AlwaysHitExact(c: Setup, run: seq<Cache>, events: seq<Event>, k: nat, addr: nat, now: nat)
    requires IsRun(c, run, events) && k < |run| && TileOf(c.shape, addr) == c.tile && c.shape.Whole()
    ensures |run[k].sets| == SetCount(c)
    ensures Access(c, run[k], addr, false, now).0.Some? <==> Resident(c, run[k], addr)
  {
    hide IsRun, Inv, TileOf, Resident;
    AlwaysInv(c, run, events, k);
    SizeOf(c, run[k]);
    HitExact(c, run[k], addr, now);
  }

  ghost predicate HitsRight(c: Setup) {
    forall run: seq<Cache>, events: seq<Event>, k: nat, addr: nat {:trigger IsRun(c, run, events), run[k], TileOf(c.shape, addr)} ::
      IsRun(c, run, events) && k < |run| && TileOf(c.shape, addr) == c.tile ==>
        |run[k].sets| == SetCount(c) && (Access(c, run[k], addr, false, 0).0.Some? <==> Resident(c, run[k], addr))
  }

  /** Accesses hit exactly the resident lines, in every run of the caches of all tiles, if and only if
      tile, tag and set determine the line. */
  lemma HitsRightExact(c: Setup)
    ensures (forall tile: nat :: HitsRight(c.(tile := tile))) <==> c.shape.Whole()
  {
    hide IsRun, Resident, TileOf, TagOf, SetOf, LineOf, Access;
    LosslessExact(c.shape);
    if c.shape.Whole() {
      forall tile: nat ensures HitsRight(c.(tile := tile)) {
        var d: Setup := c.(tile := tile);
        forall run: seq<Cache>, events: seq<Event>, k: nat, addr: nat
          | IsRun(d, run, events) && k < |run| && TileOf(d.shape, addr) == d.tile
          ensures |run[k].sets| == SetCount(d) && (Access(d, run[k], addr, false, 0).0.Some? <==> Resident(d, run[k], addr))
        {
          AlwaysHitExact(d, run, events, k, addr, 0);
        }
      }
    } else {
      var a: nat, b: nat :| TileOf(c.shape, a) == TileOf(c.shape, b) && TagOf(c.shape, a) == TagOf(c.shape, b)
                            && SetOf(c.shape, a) == SetOf(c.shape, b) && LineOf(c.shape, a) != LineOf(c.shape, b);
      WrongRun(c.(tile := TileOf(c.shape, a)), a, b);
      assert !HitsRight(c.(tile := TileOf(c.shape, a)));
    }
  }

  /** The run in which one line is inserted and then another is accessed. */
  lemma WrongRun(c: Setup, a: nat, b: nat)
    requires TileOf(c.shape, a) == TileOf(c.shape, b) == c.tile && LineOf(c.shape, a) != LineOf(c.shape, b)
    requires TagOf(c.shape, a) == TagOf(c.shape, b) && SetOf(c.shape, a) == SetOf(c.shape, b)
    ensures !HitsRight(c)
  {
    FalseHit(c, a, b, false, 0);
    InitKeeps(c);
    EmptyMisses(c, a);
    hide TileOf, TagOf, SetOf, LineOf, Access, Insert, Resident, Inv, Init;
    var s := Insert(c, Init(c), a, false, 0).1;
    var run, events := [Init(c), s], [Fill(a, false, 0)];
    assert Steps(c, run[0], events[0], run[1]);
    assert IsRun(c, run, events);
    assert run[1] == s;
  }

  lemma EmptyMisses(c: Setup, addr: nat)
    ensures |Init(c).sets| == SetCount(c) && Access(c, Init(c), addr, false, 0).0.None?
  {
    hide TagOf, SetOf, SetCount;
    SetIndex(c, addr);
    var lines := Init(c).sets[SetOf(c.shape, addr)].lines;
    assert forall j :: 0 <= j < |lines| ==> !lines[j].valid;
  }

  lemma SizeOf(c: Setup, s: Cache)
    requires Inv(c, s)
    ensures |s.sets| == SetCount(c)
  {
  }

  // ----- the simulator's cache -----

  class CacheUnit {
    const c: Setup
    const sets: array<CacheSet>
    var cpu: int
    var gpu: int

    ghost function State(): Cache
      reads this, sets
    {
      Cache(sets[..], cpu, gpu)
    }

    ghost predicate Valid()
      reads this, sets
    {
      Inv(c, State())
    }

    constructor (setup: Setup)
      ensures c == setup && fresh(sets) && Valid() && State() == Init(setup)
    {
      c := setup;
      sets := new CacheSet[SetCount(setup)](_ => EmptySet(setup.assoc));
      cpu, gpu := 0, 0;
      new;
      hide Inv, SetCount;
      assert sets[..] == Init(c).sets;
      InitKeeps(c);
    }

    method AccessCache(addr: nat, update: bool, now: nat) returns (way: Option<nat>)
      requires Valid()
      modifies sets
      ensures Valid() && (way, State()) == Access(c, old(State()), addr, update, now)
    {
      hide SetOf, TagOf, SetOk, SetCount, Total;
      AccessKeeps(c, State(), addr, update, now);
      SetIndex(c, addr);
      var tag, k := TagOf(c.shape, addr), SetOf(c.shape, addr);
      ghost var was := sets[..];
      way := FindWay(sets[k].lines, tag);
      if way.Some? && update {
        sets[k] := Touch(sets[k], way.value, now);
        assert sets[..] == was[k := sets[k]];
      }
    }

    static method FindWay(lines: seq<Line>, tag: nat) returns (way: Option<nat>)
      ensures way == Lookup(lines, tag, 0)
    {
      for ii := 0 to |lines|
        invariant Lookup(lines, tag, ii) == Lookup(lines, tag, 0)
      {
        if lines[ii].valid && lines[ii].tag == tag {
          return Some(ii);
        }
      }
      return None;
    }

    method FindReplacementLine(k: nat, forGpu: bool) returns (v: nat, lines: seq<Line>)
      requires Valid() && k < sets.Length
      ensures (Some(v), lines) == Victim(c, sets[k], forGpu)
    {
      var x := sets[k];
      assert SetOk(c, k, x);
      hide Inv, Total, AtHome, Placed, Unique;
      VictimFound(c, k, x, forGpu);
      lines := x.lines;
      if c.partitioned {
        var found := FindSameKind(x, c.cpuShare, forGpu);
        v := found.value;
      } else if c.pseudo {
        v, lines := FindPseudo(x.lines);
      } else {
        v := FindLru(x.lines);
      }
    }

    /** An insertion, allowed only after an access that found nothing. */
    method InsertCache(addr: nat, forGpu: bool, now: nat) returns (replaced: nat)
      requires Valid() && (c.shape.Whole() ==> TileOf(c.shape, addr) == c.tile) && Access(c, State(), addr, false, now).0.None?
      modifies this, sets
      ensures Valid()
      ensures var v := Victim(c, old(State()).sets[SetOf(c.shape, addr)], forGpu);
              v.0.Some? && v.0.value < |v.1| && (replaced, State()) == Insert(c, old(State()), addr, forGpu, now)
    {
      hide SetOf, TagOf, TileOf, BaseOf, SetOk, SetCount, Total, Victim;
      InsertKeeps(c, State(), addr, forGpu, now);
      var k := SetOf(c.shape, addr);
      ghost var was := sets[..];
      var v, lines := FindReplacementLine(k, forGpu);
      var x := sets[k].(lines := lines);
      replaced := if lines[v].valid then lines[v].base else 0;
      var y := Replace(x, v, NewLine(c, addr, forGpu, now));
      sets[k] := y;
      cpu, gpu := cpu + y.cpu - x.cpu, gpu + y.gpu - x.gpu;
      assert sets[..] == was[k := y];
    }
  }
}
