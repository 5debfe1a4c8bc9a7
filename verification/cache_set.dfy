/** One set of a set-associative cache: lookup, the replacement policies and the static division of
    the ways between CPU and GPU lines. */
module CacheSets {
  import opened Options

  /** The starting value of the search for the least recently used line. */
  const MAX_INT: nat := 0x7fff_ffff

  datatype Line = Line(valid: bool, tag: nat, base: nat, time: nat, gpu: bool)

  /** `cpu` and `gpu` count the valid lines of either kind. */
  datatype CacheSet = CacheSet(lines: seq<Line>, cpu: int, gpu: int)

  // ----- lookup -----

  predicate Holds(l: Line, tag: nat) {
    l.valid && l.tag == tag
  }

  /** The first way from `k` on that holds the tag. */
  function Lookup(lines: seq<Line>, tag: nat, k: nat): (r: Option<nat>)
    requires k <= |lines|
    ensures r.Some? ==> k <= r.value < |lines| && Holds(lines[r.value], tag)
    ensures r.None? ==> forall j :: k <= j < |lines| ==> !Holds(lines[j], tag)
    decreases |lines| - k
  {
    if k == |lines| then None else if Holds(lines[k], tag) then Some(k) else Lookup(lines, tag, k + 1)
  }

  /** No tag is held twice. */
  ghost predicate Unique(lines: seq<Line>) {
    forall i, j :: 0 <= i < j < |lines| && lines[i].valid && lines[j].valid ==> lines[i].tag != lines[j].tag
  }

  /** In whatever order the ways are searched, the same one is found. */
  lemma AnyOrder(lines: seq<Line>, tag: nat, k: nat)
    requires Unique(lines) && k < |lines| && Holds(lines[k], tag)
    ensures Lookup(lines, tag, 0) == Some(k)
  {
  }

  function TagsOf(lines: seq<Line>): set<nat> {
    set k | 0 <= k < |lines| && lines[k].valid :: lines[k].tag
  }

  // ----- least recently used -----

  /** The search from way `k` on, with the best way and time so far. */
  function LruFrom(lines: seq<Line>, k: nat, ind: nat, time: nat): nat
    requires k <= |lines|
    decreases |lines| - k
  {
    if k == |lines| then ind
    else if !lines[k].valid then k
    else if lines[k].time < time then LruFrom(lines, k + 1, k, lines[k].time)
    else LruFrom(lines, k + 1, ind, time)
  }

  function LruVictim(lines: seq<Line>): nat {
    LruFrom(lines, 0, 0, MAX_INT)
  }

  /** An unused way, or, if all are used, one with the least access time. */
  ghost predicate GoodVictim(lines: seq<Line>, v: nat) {
    && v < |lines|
    && (lines[v].valid ==> forall j :: 0 <= j < |lines| ==> lines[j].valid && lines[v].time <= lines[j].time)
  }

  ghost predicate AllValid(lines: seq<Line>, k: nat) {
    forall j :: k <= j < |lines| ==> lines[j].valid
  }

  lemma {:induction false} LruInvalid(lines: seq<Line>, k: nat, ind: nat, time: nat)
    requires k <= |lines| && !AllValid(lines, k)
    ensures k <= LruFrom(lines, k, ind, time) < |lines| && !lines[LruFrom(lines, k, ind, time)].valid
    decreases |lines| - k
  {
    if lines[k].valid {
      if lines[k].time < time { LruInvalid(lines, k + 1, k, lines[k].time); } else { LruInvalid(lines, k + 1, ind, time); }
    }
  }

  lemma {:induction false} LruLeast(lines: seq<Line>, k: nat, ind: nat, time: nat)
    requires k <= |lines| && AllValid(lines, k)
    ensures var r := LruFrom(lines, k, ind, time);
            if exists j :: k <= j < |lines| && lines[j].time < time
            then k <= r < |lines| && lines[r].time < time && forall j :: k <= j < |lines| ==> lines[r].time <= lines[j].time
            else r == ind
    decreases |lines| - k
  {
    if k < |lines| {
      if lines[k].time < time { LruLeast(lines, k + 1, k, lines[k].time); } else { LruLeast(lines, k + 1, ind, time); }
    }
  }

  /** The search finds a good victim exactly if there is an unused way, or an access time below the
      starting value, or way 0 happens to be one. */
  lemma LruExact(lines: seq<Line>)
    requires lines != []
    ensures GoodVictim(lines, LruVictim(lines)) <==>
            || !AllValid(lines, 0)
            || (exists j :: 0 <= j < |lines| && lines[j].time < MAX_INT)
            || (forall j :: 0 <= j < |lines| ==> lines[0].time <= lines[j].time)
  {
    if !AllValid(lines, 0) {
      LruInvalid(lines, 0, 0, MAX_INT);
    } else {
      LruLeast(lines, 0, 0, MAX_INT);
    }
  }

  /** Two lines, both last used after the starting value: the more recent one is replaced. */
  lemma LruWrong(longAgo: Line, recent: Line)
    requires longAgo.valid && recent.valid && MAX_INT <= longAgo.time < recent.time
    ensures LruVictim([recent, longAgo]) == 0 && !GoodVictim([recent, longAgo], LruVictim([recent, longAgo]))
  {
    var lines := [recent, longAgo];
    assert LruFrom(lines, 2, 0, MAX_INT) == 0;
    assert LruFrom(lines, 1, 0, MAX_INT) == 0;
    assert lines[1].time < lines[0].time;
  }

  method FindLru(lines: seq<Line>) returns (v: nat)
    ensures v == LruVictim(lines)
  {
    v := 0;
    var time := MAX_INT;
    var i := 0;
    while i < |lines|
      invariant i <= |lines| && LruFrom(lines, i, v, time) == LruVictim(lines)
    {
      if !lines[i].valid {
        v := i;
        break;
      }
      if lines[i].time < time {
        v, time := i, lines[i].time;
      }
      i := i + 1;
    }
  }

  // ----- pseudo LRU -----

  predicate Stale(l: Line) {
    !l.valid || l.time == 0
  }

  function FirstStale(lines: seq<Line>, k: nat): (r: Option<nat>)
    requires k <= |lines|
    ensures r.Some? ==> k <= r.value < |lines| && Stale(lines[r.value])
    ensures r.None? ==> forall j :: k <= j < |lines| ==> !Stale(lines[j])
    decreases |lines| - k
  {
    if k == |lines| then None else if Stale(lines[k]) then Some(k) else FirstStale(lines, k + 1)
  }

  function Aged(lines: seq<Line>): (r: seq<Line>)
    ensures |r| == |lines| && forall k :: 0 <= k < |r| ==> r[k] == lines[k].(time := 0)
  {
    seq(|lines|, k requires 0 <= k < |lines| => lines[k].(time := 0))
  }

  /** The first way that is unused or whose time is zero; if there is none, all times become zero
      and it is way 0. */
  function Pseudo(lines: seq<Line>): (nat, seq<Line>) {
    var v := FirstStale(lines, 0);
    if v.Some? then (v.value, lines) else (0, Aged(lines))
  }

  /** The endless loop of the search ends in its second round at the latest. */
  method FindPseudo(lines: seq<Line>) returns (v: nat, aged: seq<Line>)
    requires lines != []
    ensures (v, aged) == Pseudo(lines)
  {
    aged := lines;
    ghost var rounds := 0;
    while true
      invariant rounds <= 1 && aged == if rounds == 0 then lines else Aged(lines)
      invariant rounds == 1 ==> FirstStale(lines, 0).None?
      decreases 1 - rounds
    {
      for ii := 0 to |aged|
        invariant FirstStale(aged, 0) == FirstStale(aged, ii)
      {
        if Stale(aged[ii]) {
          return ii, aged;
        }
      }
      var next := aged;
      for ii := 0 to |aged|
        invariant |next| == |aged| && forall k :: 0 <= k < |aged| ==> next[k] == if k < ii then aged[k].(time := 0) else aged[k]
      {
        next := next[ii := next[ii].(time := 0)];
      }
      assert rounds == 0;
      aged := next;
      rounds := rounds + 1;
    }
  }

  // ----- the static partition -----

  function Count(lines: seq<Line>, gpu: bool): nat {
    if lines == [] then 0
    else Count(lines[..|lines| - 1], gpu) + if lines[|lines| - 1].valid && lines[|lines| - 1].gpu == gpu then 1 else 0
  }

  lemma {:induction false} CountUpdate(lines: seq<Line>, k: nat, l: Line, gpu: bool)
    requires k < |lines|
    ensures Count(lines[k := l], gpu) + (if lines[k].valid && lines[k].gpu == gpu then 1 else 0)
         == Count(lines, gpu) + (if l.valid && l.gpu == gpu then 1 else 0)
  {
    var n := |lines| - 1;
    if k == n {
      assert lines[k := l][..n] == lines[..n];
    } else {
      CountUpdate(lines[..n], k, l, gpu);
      assert lines[k := l][..n] == lines[..n][k := l];
    }
  }

  /** Valid lines are of one kind or the other. */
  lemma {:induction false} CountBoth(lines: seq<Line>)
    ensures Count(lines, false) + Count(lines, true) <= |lines|
    ensures AllValid(lines, 0) ==> Count(lines, false) + Count(lines, true) == |lines|
  {
    if lines != [] { CountBoth(lines[..|lines| - 1]); }
  }

  lemma {:induction false} CountPositive(lines: seq<Line>, gpu: bool)
    ensures Count(lines, gpu) > 0 <==> exists k :: 0 <= k < |lines| && lines[k].valid && lines[k].gpu == gpu
  {
    if lines != [] {
      var n := |lines| - 1;
      CountPositive(lines[..n], gpu);
      if k :| 0 <= k < n && lines[..n][k].valid && lines[..n][k].gpu == gpu {
        assert lines[k].valid && lines[k].gpu == gpu;
      }
      if k :| 0 <= k < |lines| && lines[k].valid && lines[k].gpu == gpu && k < n {
        assert lines[..n][k] == lines[k];
      }
    }
  }

  lemma {:induction false} CountNone(lines: seq<Line>, gpu: bool)
    requires forall k :: 0 <= k < |lines| ==> !lines[k].valid
    ensures Count(lines, gpu) == 0
  {
    if lines != [] { CountNone(lines[..|lines| - 1], gpu); }
  }

  /** The search for a way for a line of one kind, from way `k` on: an unused way if the kind has
      room, else the least recently used line of the same kind. */
  function SameKindFrom(lines: seq<Line>, gpu: bool, room: bool, k: nat, ind: Option<nat>): Option<nat>
    requires k <= |lines| && (ind.Some? ==> ind.value < |lines|)
    decreases |lines| - k
  {
    if k == |lines| then ind
    else if !lines[k].valid && room then Some(k)
    else if lines[k].valid && lines[k].gpu == gpu && (ind.None? || lines[k].time < lines[ind.value].time)
    then SameKindFrom(lines, gpu, room, k + 1, Some(k))
    else SameKindFrom(lines, gpu, room, k + 1, ind)
  }

  function SameKind(lines: seq<Line>, gpu: bool, room: bool): Option<nat> {
    SameKindFrom(lines, gpu, room, 0, None)
  }

  lemma {:induction false} SameKindInvalid(lines: seq<Line>, gpu: bool, k: nat, ind: Option<nat>)
    requires k <= |lines| && (ind.Some? ==> ind.value < |lines|) && !AllValid(lines, k)
    ensures var r := SameKindFrom(lines, gpu, true, k, ind);
            r.Some? && k <= r.value < |lines| && !lines[r.value].valid
    decreases |lines| - k
  {
    if lines[k].valid {
      if lines[k].gpu == gpu && (ind.None? || lines[k].time < lines[ind.value].time) {
        SameKindInvalid(lines, gpu, k + 1, Some(k));
      } else {
        SameKindInvalid(lines, gpu, k + 1, ind);
      }
    }
  }

  /** `r` is the least recently used line of the kind among the ways before `k` . */
  ghost predicate LeastOfKind(lines: seq<Line>, gpu: bool, k: nat, r: Option<nat>)
    requires k <= |lines|
  {
    && (r.Some? ==> r.value < k && lines[r.value].valid && lines[r.value].gpu == gpu)
    && forall j :: 0 <= j < k && lines[j].valid && lines[j].gpu == gpu ==> r.Some? && lines[r.value].time <= lines[j].time
  }

  lemma {:induction false} SameKindLeast(lines: seq<Line>, gpu: bool, room: bool, k: nat, ind: Option<nat>)
    requires k <= |lines| && LeastOfKind(lines, gpu, k, ind) && (room ==> AllValid(lines, k))
    ensures LeastOfKind(lines, gpu, |lines|, SameKindFrom(lines, gpu, room, k, ind))
    decreases |lines| - k
  {
    if k < |lines| {
      if lines[k].valid && lines[k].gpu == gpu && (ind.None? || lines[k].time < lines[ind.value].time) {
        SameKindLeast(lines, gpu, room, k + 1, Some(k));
      } else {
        SameKindLeast(lines, gpu, room, k + 1, ind);
      }
    }
  }

  /** The most lines of a kind that a set may hold. */
  function Share(assoc: nat, cpuShare: int, gpu: bool): int {
    if gpu then assoc - cpuShare else cpuShare
  }

  function CountOf(s: CacheSet, gpu: bool): int {
    if gpu then s.gpu else s.cpu
  }

  ghost predicate Counted(s: CacheSet) {
    s.cpu == Count(s.lines, false) && s.gpu == Count(s.lines, true)
  }

  /** Each kind keeps to its share. */
  ghost predicate Divided(s: CacheSet, cpuShare: int) {
    Counted(s) && s.cpu <= cpuShare && s.gpu <= |s.lines| - cpuShare
  }

  function KindVictim(s: CacheSet, cpuShare: int, gpu: bool): Option<nat> {
    SameKind(s.lines, gpu, CountOf(s, gpu) < Share(|s.lines|, cpuShare, gpu))
  }

  /** What the search finds: an unused way, if the kind has room, else the least recently used line
      of the kind. It fails exactly if the kind has no share at all. */
  lemma KindVictimExact(s: CacheSet, cpuShare: int, gpu: bool)
    requires Divided(s, cpuShare)
    ensures KindVictim(s, cpuShare, gpu).Some? <==> Share(|s.lines|, cpuShare, gpu) > 0
    ensures var v := KindVictim(s, cpuShare, gpu);
            v.Some? ==>
              && v.value < |s.lines|
              && (CountOf(s, gpu) < Share(|s.lines|, cpuShare, gpu) ==> !s.lines[v.value].valid)
              && (CountOf(s, gpu) == Share(|s.lines|, cpuShare, gpu) ==> LeastOfKind(s.lines, gpu, |s.lines|, v))
  {
    CountBoth(s.lines);
    CountPositive(s.lines, gpu);
    hide Count;
    if CountOf(s, gpu) < Share(|s.lines|, cpuShare, gpu) {
      SameKindInvalid(s.lines, gpu, 0, None);
    } else {
      SameKindLeast(s.lines, gpu, false, 0, None);
    }
  }

  /** With all ways given to the GPU, an empty set has no way for a CPU line. */
  lemma NoShareFails(assoc: nat)
    requires assoc > 0
    ensures var s := CacheSet(seq(assoc, _ => Line(false, 0, 0, 0, false)), 0, 0);
            Divided(s, 0) && KindVictim(s, 0, false).None?
  {
    var s := CacheSet(seq(assoc, _ => Line(false, 0, 0, 0, false)), 0, 0);
    CountNone(s.lines, false);
    CountNone(s.lines, true);
    KindVictimExact(s, 0, false);
  }

  method FindSameKind(s: CacheSet, cpuShare: int, gpu: bool) returns (v: Option<nat>)
    ensures v == KindVictim(s, cpuShare, gpu)
  {
    var room := CountOf(s, gpu) < Share(|s.lines|, cpuShare, gpu);
    v := None;
    for ii := 0 to |s.lines|
      invariant (v.Some? ==> v.value < |s.lines|) && SameKindFrom(s.lines, gpu, room, ii, v) == SameKind(s.lines, gpu, room)
    {
      if !s.lines[ii].valid && room {
        v := Some(ii);
        return;
      }
      if s.lines[ii].valid && s.lines[ii].gpu == gpu && (v.None? || s.lines[ii].time < s.lines[v.value].time) {
        v := Some(ii);
      }
    }
  }

  // ----- replacement -----

  /** The victim's line is replaced and the counters follow. */
  function Replace(s: CacheSet, v: nat, l: Line): CacheSet
    requires v < |s.lines|
  {
    var was := s.lines[v];
    CacheSet(s.lines[v := l],
             s.cpu - (if was.valid && !was.gpu then 1 else 0) + (if l.gpu then 0 else 1),
             s.gpu - (if was.valid && was.gpu then 1 else 0) + (if l.gpu then 1 else 0))
  }

  /** The counters stay exact, whichever way is replaced. */
  lemma ReplaceCounted(s: CacheSet, v: nat, l: Line)
    requires Counted(s) && v < |s.lines| && l.valid
    ensures Counted(Replace(s, v, l))
  {
    CountUpdate(s.lines, v, l, false);
    CountUpdate(s.lines, v, l, true);
  }

  /** A tag that was not held is held once, and every other way is as it was. */
  lemma ReplaceUnique(lines: seq<Line>, v: nat, l: Line)
    requires Unique(lines) && v < |lines| && l.valid && Lookup(lines, l.tag, 0).None?
    ensures Unique(lines[v := l])
    ensures TagsOf(lines[v := l]) == TagsOf(lines) - (if lines[v].valid then {lines[v].tag} else {}) + {l.tag}
    ensures forall k :: 0 <= k < |lines| && k != v ==> lines[v := l][k] == lines[k]
  {
    var r := lines[v := l];
    forall t ensures t in TagsOf(r) <==> t in TagsOf(lines) - (if lines[v].valid then {lines[v].tag} else {}) + {l.tag} {
      if t in TagsOf(lines) && !(lines[v].valid && lines[v].tag == t) {
        var k :| 0 <= k < |lines| && lines[k].valid && lines[k].tag == t;
        assert r[k] == lines[k];
      }
      if t == l.tag { assert r[v].valid && r[v].tag == t; }
    }
  }

  /** An insertion under the partition keeps both kinds within their shares. */
  lemma KindInsertDivided(s: CacheSet, cpuShare: int, l: Line)
    requires Divided(s, cpuShare) && l.valid && KindVictim(s, cpuShare, l.gpu).Some?
    ensures KindVictim(s, cpuShare, l.gpu).value < |s.lines|
    ensures Divided(Replace(s, KindVictim(s, cpuShare, l.gpu).value, l), cpuShare)
  {
    hide Count;
    KindVictimExact(s, cpuShare, l.gpu);
    ReplaceCounted(s, KindVictim(s, cpuShare, l.gpu).value, l);
  }
}
