/** The access times of a cache over whole runs, read off the events, and so which line a new one
    replaces; and what leaves and enters with an insertion. */
module CacheHistory {
  import opened Options
  import opened CacheAddress
  import opened CacheSets
  import opened CacheState

  /** The policies that go by access times: all but pseudo-LRU. */
  predicate ByTime(c: Setup) {
    c.partitioned || !c.pseudo
  }

  /** Event `m` of a run uses the line with this tag in this set: it brings the line in, or it is an
      access that finds a line and updates it. */
  ghost predicate UsesLine(c: Setup, run: seq<Cache>, events: seq<Event>, m: nat, set': nat, tag: nat)
    requires m < |events| && m < |run|
  {
    var e := events[m];
    && SetOf(c.shape, e.addr) == set' && TagOf(c.shape, e.addr) == tag
    && (e.Read? ==> e.update && |run[m].sets| == SetCount(c) && Access(c, run[m], e.addr, false, e.now).0.Some?)
  }

  /** The last of the first `k` events that uses the line. */
  ghost function LastUse(c: Setup, run: seq<Cache>, events: seq<Event>, k: nat, set': nat, tag: nat): (m: Option<nat>)
    requires k <= |events| < |run|
    ensures m.Some? ==> m.value < k && UsesLine(c, run, events, m.value, set', tag)
    ensures forall n :: (if m.Some? then m.value + 1 else 0) <= n < k ==> !UsesLine(c, run, events, n, set', tag)
  {
    if k == 0 then None
    else if UsesLine(c, run, events, k - 1, set', tag) then Some(k - 1)
    else LastUse(c, run, events, k - 1, set', tag)
  }

  /** The time of a valid line is that of its last use. */
  ghost predicate TimeOk(c: Setup, run: seq<Cache>, events: seq<Event>, k: nat, set': nat, l: Line)
    requires k <= |events| < |run|
  {
    l.valid ==>
      var m := LastUse(c, run, events, k, set', l.tag);
      m.Some? && l.time == events[m.value].now
  }

  ghost predicate TimesOk(c: Setup, run: seq<Cache>, events: seq<Event>, k: nat, set': nat, lines: seq<Line>)
    requires k <= |events| < |run|
  {
    forall j :: 0 <= j < |lines| ==> TimeOk(c, run, events, k, set', lines[j])
  }

  /** A line that event `k` does not use keeps its last use. */
  lemma NotUsed(c: Setup, run: seq<Cache>, events: seq<Event>, k: nat, set': nat, l: Line)
    requires k < |events| < |run| && TimeOk(c, run, events, k, set', l)
    requires !UsesLine(c, run, events, k, set', l.tag)
    ensures TimeOk(c, run, events, k + 1, set', l)
  {
    hide UsesLine;
  }

  lemma Used(c: Setup, run: seq<Cache>, events: seq<Event>, k: nat, set': nat, l: Line)
    requires k < |events| < |run| && UsesLine(c, run, events, k, set', l.tag) && l.time == events[k].now
    ensures TimeOk(c, run, events, k + 1, set', l)
  {
    hide UsesLine;
  }

  lemma ReadTimes(c: Setup, run: seq<Cache>, events: seq<Event>, k: nat, set': nat)
    requires k < |events| < |run| && events[k].Read? && Inv(c, run[k]) && set' < |run[k].sets|
    requires TimesOk(c, run, events, k, set', run[k].sets[set'].lines)
    requires run[k + 1] == Access(c, run[k], events[k].addr, events[k].update, events[k].now).1
    ensures set' < |run[k + 1].sets| && TimesOk(c, run, events, k + 1, set', run[k + 1].sets[set'].lines)
  {
    hide SetOf, TagOf, Total, Counted, Divided, LastUse, TimeOk, AtHome;
    var s, e := run[k], events[k];
    var lines, after := s.sets[set'].lines, run[k + 1].sets[set'].lines;
    assert SetOk(c, set', s.sets[set']);
    forall j | 0 <= j < |after| ensures TimeOk(c, run, events, k + 1, set', after[j]) {
      if SetOf(c.shape, e.addr) == set' && Holds(lines[j], TagOf(c.shape, e.addr)) {
        AnyOrder(lines, TagOf(c.shape, e.addr), j);
        if e.update {
          Used(c, run, events, k, set', after[j]);
        } else {
          NotUsed(c, run, events, k, set', lines[j]);
        }
      } else {
        assert after[j] == lines[j];
        if lines[j].valid {
          NotUsed(c, run, events, k, set', lines[j]);
        } else {
          Unused(c, run, events, k + 1, set', lines[j]);
        }
      }
    }
  }

  lemma Unused(c: Setup, run: seq<Cache>, events: seq<Event>, k: nat, set': nat, l: Line)
    requires k <= |events| < |run| && !l.valid
    ensures TimeOk(c, run, events, k, set', l)
  {
  }

  lemma FillTimes(c: Setup, run: seq<Cache>, events: seq<Event>, k: nat, set': nat)
    requires ByTime(c) && k < |events| < |run| && events[k].Fill? && Inv(c, run[k]) && set' < |run[k].sets|
    requires EventOk(c, run[k], events[k])
    requires TimesOk(c, run, events, k, set', run[k].sets[set'].lines)
    requires SetOf(c.shape, events[k].addr) < |run[k].sets|
    requires var v := Victim(c, run[k].sets[SetOf(c.shape, events[k].addr)], events[k].gpu); v.0.Some? && v.0.value < |v.1|
    requires run[k + 1] == Insert(c, run[k], events[k].addr, events[k].gpu, events[k].now).1
    ensures set' < |run[k + 1].sets| && TimesOk(c, run, events, k + 1, set', run[k + 1].sets[set'].lines)
  {
    hide SetOf, TagOf, BaseOf, TileOf, SetOk, Inv, SetCount, LastUse, TimeOk;
    var s, e := run[k], events[k];
    var lines, after := s.sets[set'].lines, run[k + 1].sets[set'].lines;
    forall j | 0 <= j < |after| ensures TimeOk(c, run, events, k + 1, set', after[j]) {
      if after[j] == lines[j] && !(SetOf(c.shape, e.addr) == set' && Holds(lines[j], TagOf(c.shape, e.addr))) {
        if lines[j].valid {
          NotUsed(c, run, events, k, set', lines[j]);
        } else {
          Unused(c, run, events, k + 1, set', lines[j]);
        }
      } else {
        assert !(SetOf(c.shape, e.addr) == set' && Holds(lines[j], TagOf(c.shape, e.addr)));
        Used(c, run, events, k, set', after[j]);
      }
    }
  }

  /** Without pseudo-LRU the time of every valid line, in every state of every run, is the time of the
      last event that brought it in or hit and updated it. */
  lemma {:induction false} TimesAreUses(c: Setup, run: seq<Cache>, events: seq<Event>, k: nat, set': nat)
    requires ByTime(c) && IsRun(c, run, events) && |events| < |run| && k <= |events| && set' < |run[k].sets|
    ensures TimesOk(c, run, events, k, set', run[k].sets[set'].lines)
  {
    hide Inv, Access, Insert, TimesOk, SetOf;
    if k == 0 {
      FirstTimes(c, run, events, set');
    } else {
      AlwaysInv(c, run, events, k - 1);
      AlwaysInv(c, run, events, k);
      SizeOf(c, run[k - 1]);
      SizeOf(c, run[k]);
      TimesAreUses(c, run, events, k - 1, set');
      var s, e := run[k - 1], events[k - 1];
      assert Steps(c, s, e, run[k]);
      if e.Read? {
        ReadTimes(c, run, events, k - 1, set');
      } else {
        InsertKeeps(c, s, e.addr, e.gpu, e.now);
        FillTimes(c, run, events, k - 1, set');
      }
    }
  }

  lemma FirstTimes(c: Setup, run: seq<Cache>, events: seq<Event>, set': nat)
    requires IsRun(c, run, events) && |events| < |run| && set' < |run[0].sets|
    ensures TimesOk(c, run, events, 0, set', run[0].sets[set'].lines)
  {
  }

  // ----- which line is replaced -----

  /** An insertion puts the new line into way `v` of its set, and nothing else changes but, with
      pseudo-LRU, times; the address returned is that of the line that was there. */
  ghost predicate PutInto(c: Setup, s: Cache, t: Cache, old': nat, addr: nat, gpu: bool, now: nat, v: nat) {
    var k := SetOf(c.shape, addr);
    && k < |s.sets| && |t.sets| == |s.sets| && (forall i :: 0 <= i < |s.sets| && i != k ==> t.sets[i] == s.sets[i])
    && var a, b := s.sets[k].lines, t.sets[k].lines;
       && v < |a| == |b| && b[v] == Line(true, TagOf(c.shape, addr), BaseOf(c.shape, addr), now, gpu)
       && (forall j :: 0 <= j < |a| && j != v ==> b[j] == if ByTime(c) then a[j] else a[j].(time := b[j].time))
       && old' == if a[v].valid then a[v].base else 0
  }

  lemma InsertPuts(c: Setup, s: Cache, addr: nat, gpu: bool, now: nat)
    requires Inv(c, s) && (c.shape.Whole() ==> TileOf(c.shape, addr) == c.tile) && Access(c, s, addr, false, now).0.None?
    ensures SetOf(c.shape, addr) < |s.sets|
    ensures var v := Victim(c, s.sets[SetOf(c.shape, addr)], gpu);
            && v.0.Some? && v.0.value < |v.1| == |s.sets[SetOf(c.shape, addr)].lines|
            && var (old', t) := Insert(c, s, addr, gpu, now); PutInto(c, s, t, old', addr, gpu, now, v.0.value)
  {
    InsertKeeps(c, s, addr, gpu, now);
    VictimFound(c, SetOf(c.shape, addr), s.sets[SetOf(c.shape, addr)], gpu);
    hide SetOf, TagOf, BaseOf, TileOf, Inv, SetCount;
  }

  /** After an insertion the line of the address is in the cache, and of the others those that were there
      before, except the one whose address is returned. */
  lemma InsertResident(c: Setup, s: Cache, addr: nat, gpu: bool, now: nat, x: nat)
    requires Inv(c, s) && TileOf(c.shape, addr) == c.tile == TileOf(c.shape, x) && c.shape.Whole() && Access(c, s, addr, false, now).0.None?
    ensures SetOf(c.shape, addr) < |s.sets|
    ensures var v := Victim(c, s.sets[SetOf(c.shape, addr)], gpu);
            && v.0.Some? && v.0.value < |v.1| == |s.sets[SetOf(c.shape, addr)].lines|
            && var (old', t) := Insert(c, s, addr, gpu, now);
               var gone := s.sets[SetOf(c.shape, addr)].lines[v.0.value].valid;
               && Inv(c, t)
               && (Resident(c, t, x) <==>
                     BaseOf(c.shape, x) == BaseOf(c.shape, addr) ||
                     (Resident(c, s, x) && !(gone && BaseOf(c.shape, x) == old')))
  {
    hide Victim, Insert, SetOf, TagOf, BaseOf, TileOf, Inv, SetCount, Shape.Whole;
    SizeOf(c, s);
    InsertKeeps(c, s, addr, gpu, now);
    InsertPuts(c, s, addr, gpu, now);
    var k := SetOf(c.shape, addr);
    var v := Victim(c, s.sets[k], gpu).0.value;
    var (old', t) := Insert(c, s, addr, gpu, now);
    var l := s.sets[k].lines[v];
    if Resident(c, t, x) {
      var k', j :| 0 <= k' < |t.sets| && 0 <= j < |t.sets[k'].lines| && t.sets[k'].lines[j].valid && t.sets[k'].lines[j].base == BaseOf(c.shape, x);
      if !(k' == k && j == v) {
        assert s.sets[k'].lines[j].valid && s.sets[k'].lines[j].base == BaseOf(c.shape, x);
        if l.valid && l.base == BaseOf(c.shape, x) { OnePlace(c, s, k, v, k', j); }
      }
    }
    if BaseOf(c.shape, x) == BaseOf(c.shape, addr) {
      assert t.sets[k].lines[v].base == BaseOf(c.shape, x);
    } else if Resident(c, s, x) && !(l.valid && BaseOf(c.shape, x) == old') {
      var k', j :| 0 <= k' < |s.sets| && 0 <= j < |s.sets[k'].lines| && s.sets[k'].lines[j].valid && s.sets[k'].lines[j].base == BaseOf(c.shape, x);
      assert t.sets[k'].lines[j].valid && t.sets[k'].lines[j].base == BaseOf(c.shape, x);
    }
  }

  /** A line is in one way of one set. */
  lemma OnePlace(c: Setup, s: Cache, k: nat, v: nat, k': nat, j: nat)
    requires Inv(c, s) && c.shape.Whole() && k < |s.sets| && k' < |s.sets| && v < |s.sets[k].lines| && j < |s.sets[k'].lines|
    requires s.sets[k].lines[v].valid && s.sets[k'].lines[j].valid && s.sets[k].lines[v].base == s.sets[k'].lines[j].base
    ensures k == k' && v == j
  {
    hide SetOf, TagOf, BaseOf, TileOf, SetCount, Shape.Whole, Counted, Divided, Total;
    assert SetOk(c, k, s.sets[k]) && SetOk(c, k', s.sets[k']);
    assert AtHome(c, k, s.sets[k].lines[v]) && AtHome(c, k', s.sets[k'].lines[j]);
  }

  /** The search by access times is sound for this set: some way is unused or was last used before the largest
      time it compares with, or way 0 happens to be the least recently used. The partition needs none of this. */
  predicate Comparable(c: Setup, lines: seq<Line>)
    requires lines != []
  {
    || c.partitioned
    || (exists j :: 0 <= j < |lines| && (!lines[j].valid || lines[j].time < MAX_INT))
    || (forall j :: 0 <= j < |lines| ==> lines[0].time <= lines[j].time)
  }

  /** The victim, if it is a line, is the least recently used one, of its kind if the cache is partitioned. */
  lemma VictimByTime(c: Setup, k: nat, x: CacheSet, gpu: bool, i: nat)
    requires SetOk(c, k, x) && ByTime(c) && Comparable(c, x.lines) && i < |x.lines| && x.lines[i].valid
    ensures var v := Victim(c, x, gpu).0;
            && v.Some? && v.value < |x.lines|
            && (x.lines[v.value].valid && (c.partitioned ==> x.lines[i].gpu == gpu) ==> x.lines[v.value].time <= x.lines[i].time)
            && (x.lines[v.value].valid && c.partitioned ==> x.lines[v.value].gpu == gpu)
  {
    hide AtHome, Unique, Count;
    if c.partitioned {
      KindVictimExact(x, c.cpuShare, gpu);
    } else {
      LruExact(x.lines);
      LruBound(x.lines);
    }
  }

  ghost predicate Ordered(events: seq<Event>) {
    forall m, n :: 0 <= m < n < |events| ==> events[m].now <= events[n].now
  }

  /** Without pseudo-LRU a line that is replaced was last used, by the events of the run, no later than any
      other line of the set, or of its kind in the set if the cache is partitioned. */
  lemma ReplacedLeastUsed(c: Setup, run: seq<Cache>, events: seq<Event>, k: nat, set': nat, j: nat, i: nat)
    requires ByTime(c) && IsRun(c, run, events) && |run| == |events| + 1 && k < |events| && events[k].Fill?
    requires set' < |run[k].sets| && set' < |run[k + 1].sets| && |run[k + 1].sets[set'].lines| == |run[k].sets[set'].lines|
    requires j < |run[k].sets[set'].lines| && i < |run[k].sets[set'].lines| && i != j
    requires run[k].sets[set'].lines[j].valid && run[k + 1].sets[set'].lines[j] != run[k].sets[set'].lines[j]
    requires run[k].sets[set'].lines[i].valid && Comparable(c, run[k].sets[set'].lines)
    requires c.partitioned ==> run[k].sets[set'].lines[i].gpu == run[k].sets[set'].lines[j].gpu
    ensures var lines := run[k].sets[set'].lines;
            var a, b := LastUse(c, run, events, k, set', lines[j].tag), LastUse(c, run, events, k, set', lines[i].tag);
            && a.Some? && b.Some? && events[a.value].now <= events[b.value].now
            && (Ordered(events) ==> a.value < b.value || events[a.value].now == events[b.value].now)
            && (c.partitioned ==> lines[j].gpu == events[k].gpu)
  {
    hide Access, Insert, LastUse, Victim, Comparable, SetOk, SetOf, TagOf, BaseOf, Total;
    AlwaysInv(c, run, events, k);
    var s, e := run[k], events[k];
    assert Steps(c, s, e, run[k + 1]);
    InsertPuts(c, s, e.addr, e.gpu, e.now);
    TimesAreUses(c, run, events, k, set');
    assert SetOk(c, set', s.sets[set']);
    VictimByTime(c, set', s.sets[set'], e.gpu, i);
    var lines := s.sets[set'].lines;
    assert TimeOk(c, run, events, k, set', lines[j]) && TimeOk(c, run, events, k, set', lines[i]);
  }

  /** With pseudo-LRU the first way is taken that is unused or has not been used since all times were last
      reset; if there is none, all times are reset and it is the first way. */
  lemma PseudoLaw(lines: seq<Line>)
    requires lines != []
    ensures var (v, aged) := Pseudo(lines);
            && v < |aged| == |lines|
            && (!aged[v].valid || aged[v].time == 0) && (forall j :: 0 <= j < v ==> aged[j].valid && aged[j].time != 0)
            && (forall j :: 0 <= j < |lines| ==> aged[j] == lines[j].(time := aged[j].time))
            && (aged != lines ==> forall j :: 0 <= j < |lines| ==> lines[j].valid && lines[j].time != 0 && aged[j].time == 0)
  {
    FirstIsFirst(lines, 0);
  }

  lemma {:induction false} FirstIsFirst(lines: seq<Line>, k: nat)
    requires k <= |lines|
    ensures var r := FirstStale(lines, k);
            r.Some? ==> forall j :: k <= j < r.value ==> !Stale(lines[j])
    decreases |lines| - k
  {
    if k < |lines| && !Stale(lines[k]) { FirstIsFirst(lines, k + 1); }
  }
}
