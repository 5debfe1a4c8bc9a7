/** Greatest common divisor and least common multiple, as the simulator computes them. */
module ClockMath {
  import opened Arithmetic

  lemma PositiveFactor(w: nat, f: nat, n: nat)
    requires n == w * f && n > 0
    ensures w > 0 && f > 0
  {
  }

  /** `get_gcd`. */
  function GetGcd(a: nat, b: nat): (g: nat)
    ensures a > 0 || b > 0 ==> g > 0
    decreases b
  {
    if b == 0 then a else GetGcd(b, a % b)
  }

  lemma DividesCombination(d: int, a: int, b: int, k: int)
    requires d > 0 && a % d == 0 && b % d == 0
    ensures (a * k + b) % d == 0
  {
    var p, q := a / d, b / d;
    assert a == p * d && b == q * d;
    assert a * k + b == (p * k + q) * d;
    QuotientOf(p * k + q, d, a * k + b);
  }

  /** The greatest common divisor divides both numbers. */
  lemma {:induction false} GcdDivides(a: nat, b: nat)
    requires a > 0 || b > 0
    ensures GetGcd(a, b) > 0 && a % GetGcd(a, b) == 0 && b % GetGcd(a, b) == 0
    decreases b
  {
    if b > 0 {
      GcdDivides(b, a % b);
      DividesCombination(GetGcd(a, b), b, a % b, a / b);
      assert a == b * (a / b) + a % b;
    } else {
      QuotientOf(1, a, a);
    }
  }

  /** It is a combination of them, so every common divisor divides it. */
  lemma {:induction false} Bezout(a: nat, b: nat) returns (x: int, y: int)
    ensures GetGcd(a, b) == a * x + b * y
    decreases b
  {
    if b == 0 {
      x, y := 1, 0;
    } else {
      var x', y' := Bezout(b, a % b);
      x, y := y', x' - a / b * y';
      BezoutStep(a, b, a / b, a % b, x', y');
    }
  }

  lemma BezoutStep(a: int, b: int, q: int, r: int, x: int, y: int)
    requires a == b * q + r
    ensures b * x + r * y == a * y + b * (x - q * y)
  {
    assert a * y == b * q * y + r * y;
    assert b * (x - q * y) == b * x - b * q * y;
  }

  lemma GcdGreatest(a: nat, b: nat, d: nat)
    requires d > 0 && a % d == 0 && b % d == 0
    ensures GetGcd(a, b) % d == 0
  {
    var x, y := Bezout(a, b);
    DividesCombination(d, b, 0, y);
    DividesCombination(d, a, b * y, x);
  }

  /** The iterative form. */
  method Gcd(a: nat, b: nat) returns (g: nat)
    requires b > 0
    ensures g == GetGcd(a, b)
  {
    var x: nat, y: nat := b, a % b;
    while y != 0
      invariant GetGcd(x, y) == GetGcd(a, b)
      decreases y
    {
      x, y := y, x % y;
    }
    g := x;
  }

  /** `lcm`, which divides before it multiplies. */
  function LcmOf(a: nat, b: nat): nat
    requires a > 0 && b > 0
  {
    a / GetGcd(a, b) * b
  }

  method Lcm(a: nat, b: nat) returns (r: nat)
    requires a > 0 && b > 0
    ensures r == LcmOf(a, b)
  {
    var g := Gcd(a, b);
    r := a / g;
    r := r * b;
  }

  lemma Regroup(p: int, g: int, b: int)
    ensures (p * g) * b == (p * b) * g
  {
  }

  /** `get_lcm`, which multiplies first, gives the same. */
  lemma LcmForms(a: nat, b: nat)
    requires a > 0 && b > 0
    ensures a * b / GetGcd(a, b) == LcmOf(a, b)
  {
    GcdDivides(a, b);
    var g := GetGcd(a, b);
    var p := a / g;
    assert a == p * g;
    Regroup(p, g, b);
    QuotientOf(p * b, g, a * b);
  }

  /** It is a common multiple. */
  lemma LcmMultiple(a: nat, b: nat)
    requires a > 0 && b > 0
    ensures LcmOf(a, b) > 0 && LcmOf(a, b) % a == 0 && LcmOf(a, b) % b == 0
  {
    GcdDivides(a, b);
    var g := GetGcd(a, b);
    var p, q := a / g, b / g;
    assert a == p * g && b == q * g && p > 0;
    QuotientOf(p, b, p * b);
    assert p * b == q * a by { assert p * b == p * (q * g) && q * a == q * (p * g); }
    QuotientOf(q, a, p * b);
    assert p * b >= b by { ScaleLess(1, p, b); }
  }

  /** And it divides every common multiple. */
  lemma LcmLeast(a: nat, b: nat, m: nat)
    requires a > 0 && b > 0 && m % a == 0 && m % b == 0
    ensures LcmOf(a, b) > 0 && m % LcmOf(a, b) == 0
  {
    LcmMultiple(a, b);
    GcdDivides(a, b);
    var x, y := Bezout(a, b);
    var g, p, q := GetGcd(a, b), m / a, m / b;
    var u := a / g;
    hide GetGcd;
    Product(m, q, b, a, u, g, x);
    Product'(m, p, a, b, u, g, y);
    Distribute(m, a * x, b * y);
    Collect(q * x, p * y, u * b, g);
    SameFactor(m, (q * x + p * y) * (u * b), g);
    QuotientOf(q * x + p * y, u * b, m);
  }

  lemma Product(m: int, q: int, b: int, a: int, u: int, g: int, x: int)
    requires m == q * b && a == u * g
    ensures m * (a * x) == ((q * x) * (u * b)) * g
  {
    Reorder(q, b, u, g, x);
  }

  lemma Product'(m: int, p: int, a: int, b: int, u: int, g: int, y: int)
    requires m == p * a && a == u * g
    ensures m * (b * y) == ((p * y) * (u * b)) * g
  {
    Gather(p, y, u, b, g);
  }

  lemma Distribute(m: int, a: int, b: int)
    ensures m * (a + b) == m * a + m * b
  {
  }

  lemma Reorder(q: int, b: int, u: int, g: int, x: int)
    ensures (q * b) * ((u * g) * x) == ((q * x) * (u * b)) * g
  {
  }

  lemma Gather(p: int, y: int, u: int, b: int, g: int)
    ensures (p * (u * g)) * (b * y) == ((p * y) * (u * b)) * g
  {
  }

  lemma Collect(s: int, t: int, l: int, g: int)
    ensures (s + t) * l * g == s * l * g + t * l * g
  {
  }

  lemma SameFactor(a: int, b: int, g: int)
    requires g > 0 && a * g == b * g
    ensures a == b
  {
    ScaleLess(a, b, g);
    ScaleLess(b, a, g);
  }

  lemma MultipleOfMultiple(a: nat, b: nat, c: nat)
    requires a > 0 && b > 0 && b % a == 0 && c % b == 0
    ensures c % a == 0
  {
    var p, q := b / a, c / b;
    assert b == p * a && c == q * b;
    assert c == (q * p) * a;
    QuotientOf(q * p, a, c);
  }

  predicate AllPositive(freqs: seq<nat>) {
    forall k :: 0 <= k < |freqs| ==> freqs[k] > 0
  }

  /** The period of the internal clock: the frequencies' least common multiple, by pairs. */
  function LcmAll(freqs: seq<nat>): (r: nat)
    requires freqs != [] && AllPositive(freqs)
    ensures r > 0
  {
    var n := |freqs| - 1;
    if n == 0 then freqs[0]
    else
      LcmMultiple(LcmAll(freqs[..n]), freqs[n]);
      LcmOf(LcmAll(freqs[..n]), freqs[n])
  }

  lemma {:induction false} LcmAllMultiple(freqs: seq<nat>, k: nat)
    requires freqs != [] && AllPositive(freqs) && k < |freqs|
    ensures LcmAll(freqs) % freqs[k] == 0
  {
    var n := |freqs| - 1;
    if n == 0 {
      QuotientOf(1, freqs[0], freqs[0]);
    } else {
      var l := LcmAll(freqs[..n]);
      LcmMultiple(l, freqs[n]);
      if k < n {
        LcmAllMultiple(freqs[..n], k);
        MultipleOfMultiple(freqs[k], l, LcmAll(freqs));
      }
    }
  }

  /** No shorter period would do. */
  lemma {:induction false} LcmAllLeast(freqs: seq<nat>, m: nat)
    requires freqs != [] && AllPositive(freqs) && forall k :: 0 <= k < |freqs| ==> m % freqs[k] == 0
    ensures m % LcmAll(freqs) == 0
  {
    var n := |freqs| - 1;
    if n > 0 {
      assert forall k :: 0 <= k < n ==> m % freqs[..n][k] == 0 by {
        forall k | 0 <= k < n ensures m % freqs[..n][k] == 0 { assert freqs[..n][k] == freqs[k]; }
      }
      LcmAllLeast(freqs[..n], m);
      LcmLeast(LcmAll(freqs[..n]), freqs[n], m);
    }
  }
}

/** Clock domains of different frequency, interleaved on one internal clock. */
module ClockDomains {
  import opened Arithmetic
  import opened ClockMath

  /** `ticks` is history: how often the domain has run. */
  datatype Domain = Domain(freq: nat, count: nat, next: nat, ticks: nat)

  /** `time` is history: how many internal cycles have passed. */
  datatype Clock = Clock(period: nat, internal: nat, domains: seq<Domain>, time: nat)

  function NextTime(period: nat, count: nat, freq: nat): nat
    requires freq > 0
  {
    period * count / freq
  }

  /** A domain whose time has come runs, and the time of its next run is computed. */
  function Advance(period: nat, internal: nat, d: Domain): Domain
    requires d.freq > 0
  {
    if d.next != internal then d
    else d.(count := d.count + 1, next := NextTime(period, d.count + 1, d.freq), ticks := d.ticks + 1)
  }

  /** At the end of a period all domains start anew. */
  function Restart(d: Domain): Domain {
    d.(count := 0, next := 0)
  }

  predicate Runnable(s: Clock) {
    s.period > 0 && forall k :: 0 <= k < |s.domains| ==> s.domains[k].freq > 0
  }

  function StepDomain(s: Clock, k: nat): Domain
    requires Runnable(s) && k < |s.domains|
  {
    var d := Advance(s.period, s.internal, s.domains[k]);
    if s.internal + 1 == s.period then Restart(d) else d
  }

  /** One internal cycle. */
  function Step(s: Clock): (r: Clock)
    requires Runnable(s)
  {
    Clock(s.period, if s.internal + 1 == s.period then 0 else s.internal + 1,
          seq(|s.domains|, k requires 0 <= k < |s.domains| => StepDomain(s, k)), s.time + 1)
  }

  // ----- the invariant -----

  /** The distance between two runs of a domain. */
  function Spacing(period: nat, freq: nat): nat
    requires freq > 0
  {
    period / freq
  }

  /** The domain has run at every multiple of its spacing before `internal` and will next run at the
      first one not before it. */
  ghost predicate Paced(period: nat, internal: nat, periods: nat, d: Domain) {
    && d.freq > 0 && Spacing(period, d.freq) > 0 && period == Spacing(period, d.freq) * d.freq
    && d.next == d.count * Spacing(period, d.freq)
    && internal <= d.next && (d.next - Spacing(period, d.freq) < internal || d.next == 0)
    && d.ticks == periods * d.freq + d.count
  }

  ghost predicate Inv(s: Clock, periods: nat) {
    && s.internal < s.period && s.time == periods * s.period + s.internal
    && forall k :: 0 <= k < |s.domains| ==> Paced(s.period, s.internal, periods, s.domains[k])
  }

  lemma NextMultiple(period: nat, count: nat, freq: nat)
    requires freq > 0 && period == Spacing(period, freq) * freq
    ensures NextTime(period, count, freq) == count * Spacing(period, freq)
  {
    var w := Spacing(period, freq);
    assert period * count == (count * w) * freq;
    QuotientOf(count * w, freq, period * count);
  }

  /** Within a period: a domain is never skipped. */
  lemma AdvanceKeeps(period: nat, internal: nat, periods: nat, d: Domain)
    requires Paced(period, internal, periods, d)
    ensures Paced(period, internal + 1, periods, Advance(period, internal, d))
  {
    NextMultiple(period, d.count + 1, d.freq);
    var w := Spacing(period, d.freq);
    assert (d.count + 1) * w == d.count * w + w;
    if d.count == 0 { assert d.next == 0; }
    hide Spacing;
  }

  /** At the end of a period the domain has run exactly `freq` times in it. */
  lemma PeriodComplete(period: nat, periods: nat, d: Domain)
    requires Paced(period, period, periods, d) && period > 0
    ensures d.count == d.freq && d.ticks == (periods + 1) * d.freq
  {
    var w := Spacing(period, d.freq);
    assert d.next > 0;
    assert (d.count - 1) * w == d.next - w;
    assert w * d.freq == d.freq * w;
    hide Spacing;
    ScaleLess(d.count - 1, d.freq, w);
    ScaleLess(d.count, d.freq, w);
    assert (periods + 1) * d.freq == periods * d.freq + d.freq;
  }

  lemma RestartKeeps(period: nat, periods: nat, d: Domain)
    requires Paced(period, period, periods, d) && period > 0
    ensures Paced(period, 0, periods + 1, Restart(d))
  {
    PeriodComplete(period, periods, d);
  }

  lemma StepKeeps(s: Clock, periods: nat)
    requires Inv(s, periods)
    ensures Runnable(s) && Inv(Step(s), if s.internal + 1 == s.period then periods + 1 else periods)
  {
    var wrap := s.internal + 1 == s.period;
    var r, p := Step(s), if wrap then periods + 1 else periods;
    assert wrap ==> (periods + 1) * s.period == periods * s.period + s.period;
    forall k | 0 <= k < |s.domains| ensures Paced(r.period, r.internal, p, r.domains[k]) {
      var d := s.domains[k];
      AdvanceKeeps(s.period, s.internal, periods, d);
      if wrap { RestartKeeps(s.period, periods, Advance(s.period, s.internal, d)); }
    }
  }

  // ----- runs -----

  function Start(freqs: seq<nat>): Clock
    requires freqs != [] && AllPositive(freqs)
  {
    Clock(LcmAll(freqs), 0, seq(|freqs|, k requires 0 <= k < |freqs| => Domain(freqs[k], 0, 0, 0)), 0)
  }

  lemma StartKeeps(freqs: seq<nat>)
    requires freqs != [] && AllPositive(freqs)
    ensures Inv(Start(freqs), 0) && Start(freqs).period == LcmAll(freqs)
  {
    var s := Start(freqs);
    forall k | 0 <= k < |freqs| ensures Paced(s.period, 0, 0, s.domains[k]) {
      LcmAllMultiple(freqs, k);
      hide LcmAll;
      var w := Spacing(s.period, freqs[k]);
      assert s.period == w * freqs[k];
      PositiveFactor(w, freqs[k], s.period);
    }
  }

  /** The clock after `n` internal cycles. */
  function After(freqs: seq<nat>, n: nat): (r: Clock)
    requires freqs != [] && AllPositive(freqs)
    ensures r.period == LcmAll(freqs) && |r.domains| == |freqs| && Runnable(r)
    ensures forall k :: 0 <= k < |freqs| ==> r.domains[k].freq == freqs[k]
  {
    if n == 0 then Start(freqs) else Step(After(freqs, n - 1))
  }

  lemma {:induction false} AfterInv(freqs: seq<nat>, n: nat) returns (periods: nat)
    requires freqs != [] && AllPositive(freqs)
    ensures Inv(After(freqs, n), periods) && After(freqs, n).time == n
  {
    if n == 0 {
      StartKeeps(freqs);
      periods := 0;
    } else {
      var before := AfterInv(freqs, n - 1);
      var s := After(freqs, n - 1);
      StepKeeps(s, before);
      periods := if s.internal + 1 == s.period then before + 1 else before;
    }
  }

  /** After `n` whole periods a domain of frequency `f` has run exactly `n * f` times. */
  lemma ExactTicks(freqs: seq<nat>, n: nat, k: nat)
    requires freqs != [] && AllPositive(freqs) && k < |freqs|
    ensures After(freqs, n * LcmAll(freqs)).internal == 0
    ensures After(freqs, n * LcmAll(freqs)).domains[k].ticks == n * freqs[k]
  {
    var s := After(freqs, n * LcmAll(freqs));
    var periods := AfterInv(freqs, n * LcmAll(freqs));
    hide After, LcmAll;
    SplitTime(periods, s.internal, n, s.period);
    assert Paced(s.period, 0, periods, s.domains[k]);
    FreshCount(s.period, periods, s.domains[k]);
  }

  lemma SplitTime(periods: nat, internal: nat, n: nat, period: nat)
    requires periods * period + internal == n * period && internal < period
    ensures periods == n && internal == 0
  {
    ScaleLess(periods, n, period);
    ScaleLess(n, periods, period);
  }

  lemma FreshCount(period: nat, periods: nat, d: Domain)
    requires Paced(period, 0, periods, d)
    ensures d.count == 0
  {
    var w := Spacing(period, d.freq);
    hide Spacing;
    if d.count > 0 {
      ScaleLess(1, d.count, w);
    }
  }

  /** At every moment a domain has run `time * freq / period` times, rounded up: domains never
      drift apart. */
  lemma NoDrift(freqs: seq<nat>, n: nat, k: nat)
    requires freqs != [] && AllPositive(freqs) && k < |freqs|
    ensures var s := After(freqs, n); var d := s.domains[k];
            d.ticks * s.period - s.period < n * freqs[k] <= d.ticks * s.period
  {
    var periods := AfterInv(freqs, n);
    var s := After(freqs, n);
    hide After;
    assert Paced(s.period, s.internal, periods, s.domains[k]);
    Proportional(s.period, s.internal, periods, s.domains[k]);
  }

  lemma Proportional(period: nat, internal: nat, periods: nat, d: Domain)
    requires Paced(period, internal, periods, d) && internal < period
    ensures var time := periods * period + internal;
            d.ticks * period - period < time * d.freq <= d.ticks * period
  {
    var w, f := Spacing(period, d.freq), d.freq;
    hide Spacing;
    CountSpan(d.count, w, f, period, d.next);
    Window(internal, d.next, w, f);
    TickSpan(periods, f, d.count, period, d.ticks);
    TimeSpan(periods, period, internal, f);
  }

  lemma CountSpan(count: int, w: int, f: int, period: int, next: int)
    requires period == w * f && next == count * w
    ensures next * f == count * period
  {
    assert (count * w) * f == count * (w * f);
  }

  lemma Window(internal: int, next: int, w: int, f: int)
    requires f > 0 && internal <= next && (next - w < internal || next == 0) && internal >= 0 && w > 0
    ensures next * f - w * f < internal * f <= next * f
  {
    ScaleLess(internal, next, f);
    ScaleLess(next - w, internal, f);
    assert (next - w) * f == next * f - w * f;
    ScaleLess(0, w, f);
  }

  lemma TickSpan(periods: int, f: int, count: int, period: int, ticks: int)
    requires ticks == periods * f + count
    ensures ticks * period == periods * f * period + count * period
  {
  }

  lemma TimeSpan(periods: int, period: int, internal: int, f: int)
    ensures (periods * period + internal) * f == periods * f * period + internal * f
  {
  }

  /** The domain runs in a cycle exactly if the internal clock is at a multiple of its spacing. */
  lemma EvenlySpaced(freqs: seq<nat>, n: nat, k: nat)
    requires freqs != [] && AllPositive(freqs) && k < |freqs|
    ensures var s := After(freqs, n); var d := s.domains[k];
            && d.freq == freqs[k] && Spacing(s.period, d.freq) > 0 && s.internal <= d.next
            && (Step(s).domains[k].ticks == d.ticks + 1 <==> s.internal % Spacing(s.period, d.freq) == 0)
            && (Step(s).domains[k].ticks == d.ticks <==> s.internal % Spacing(s.period, d.freq) != 0)
  {
    var periods := AfterInv(freqs, n);
    var s := After(freqs, n);
    hide After;
    assert Paced(s.period, s.internal, periods, s.domains[k]);
    DueAtMultiples(s.period, s.internal, periods, s.domains[k]);
    assert Step(s).domains[k] == StepDomain(s, k);
  }

  lemma DueAtMultiples(period: nat, internal: nat, periods: nat, d: Domain)
    requires Paced(period, internal, periods, d)
    ensures d.next == internal <==> internal % Spacing(period, d.freq) == 0
  {
    var w := Spacing(period, d.freq);
    hide Spacing;
    if d.next == internal {
      QuotientOf(d.count, w, internal);
    } else if internal % w == 0 {
      var q := internal / w;
      assert internal == q * w;
      assert d.next - w == (d.count - 1) * w;
      ScaleLess(q, d.count, w);
      ScaleLess(d.count - 1, q, w);
    }
  }

  // ----- the simulator's loop -----

  class Clocks {
    const cores: nat
    const freq: seq<nat>
    const count: array<nat>
    const next: array<nat>
    const period: nat
    var internal: nat
    ghost var ticks: seq<nat>
    ghost var time: nat

    ghost predicate Shaped()
      reads this
    {
      && |freq| == cores + 3 && AllPositive(freq) && period > 0
      && count != next && count.Length == next.Length == |ticks| == |freq|
    }

    ghost function DomainAt(k: nat): Domain
      requires Shaped() && k < |freq|
      reads this, count, next
    {
      Domain(freq[k], count[k], next[k], ticks[k])
    }

    ghost function State(): Clock
      requires Shaped()
      reads this, count, next
    {
      Clock(period, internal, seq(|freq|, k requires Shaped() && 0 <= k < |freq| reads this, count, next => DomainAt(k)), time)
    }

    /** `init_clock_domain`: the frequencies of the cores, then of cache, network and memory. */
    constructor (cores: nat, freqs: seq<nat>)
      requires |freqs| == cores + 3 && AllPositive(freqs)
      ensures Shaped() && fresh(count) && fresh(next) && this.cores == cores && freq == freqs
      ensures State() == Start(freqs)
    {
      this.cores := cores;
      freq := freqs;
      count := new nat[|freqs|](_ => 0);
      next := new nat[|freqs|](_ => 0);
      internal := 0;
      ticks, time := seq(|freqs|, _ => 0), 0;
      var l := ComputePeriod(freqs);
      period := l;
      new;
      hide LcmAll;
      assert State().domains == Start(freqs).domains;
    }

    static method ComputePeriod(freqs: seq<nat>) returns (l: nat)
      requires freqs != [] && AllPositive(freqs)
      ensures l == LcmAll(freqs)
    {
      hide LcmOf;
      l := freqs[0];
      for k := 1 to |freqs|
        invariant AllPositive(freqs[..k]) && l == LcmAll(freqs[..k])
      {
        assert freqs[..k + 1][..k] == freqs[..k];
        l := Lcm(l, freqs[k]);
      }
      assert freqs[..|freqs|] == freqs;
    }

    /** A domain runs if its time has come. */
    method Try(k: nat) returns (ran: bool)
      requires Shaped() && k < |freq|
      modifies count, next, this`ticks
      ensures Shaped() && ran == (old(next[k]) == internal)
      ensures DomainAt(k) == Advance(period, internal, old(DomainAt(k)))
      ensures forall j :: 0 <= j < |freq| && j != k ==> DomainAt(j) == old(DomainAt(j))
    {
      ran := internal == next[k];
      if ran {
        count[k] := count[k] + 1;
        next[k] := period * count[k] / freq[k];
        ticks := ticks[k := ticks[k] + 1];
      }
    }

    /** The clock part of `run_a_cycle`: network, cache and memory, then the cores, starting with
        one that rotates. */
    method RunACycle(pivot: nat)
      requires Shaped() && Runnable(State()) && cores > 0
      modifies this, count, next
      ensures Shaped() && State() == Step(old(State()))
    {
      ghost var was := State();
      var _ := Try(cores + 1);
      var _ := Try(cores);
      var _ := Try(cores + 2);
      RunCores(pivot);
      internal := internal + 1;
      time := time + 1;
      if internal == period {
        RestartAll();
      }
      assert forall k :: 0 <= k < |freq| ==> was.domains[k] == old(DomainAt(k));
      assert State().domains == Step(was).domains;
    }

    method RunCores(pivot: nat)
      requires Shaped() && cores > 0
      modifies count, next, this`ticks
      ensures Shaped()
      ensures forall j :: 0 <= j < cores ==> DomainAt(j) == Advance(period, internal, old(DomainAt(j)))
      ensures forall j :: cores <= j < |freq| ==> DomainAt(j) == old(DomainAt(j))
    {
      ghost var visited: set<nat> := {};
      for kk := 0 to cores
        invariant Shaped()
        invariant forall j :: j in visited <==> 0 <= j < cores && exists i :: 0 <= i < kk && j == Turn(i, pivot, cores)
        invariant forall j :: 0 <= j < |freq| ==> DomainAt(j) == if j in visited then Advance(period, internal, old(DomainAt(j))) else old(DomainAt(j))
      {
        var k := Turn(kk, pivot, cores);
        if k in visited {
          var i :| 0 <= i < kk && k == Turn(i, pivot, cores);
          TurnOnce(i, kk, pivot, cores);
        }
        var _ := Try(k);
        visited := visited + {k};
      }
      forall j | 0 <= j < cores ensures j in visited {
        var i := TurnAll(j, pivot, cores);
        assert j == Turn(i, pivot, cores);
      }
    }

    method RestartAll()
      requires Shaped()
      modifies count, next, this`internal
      ensures Shaped() && internal == 0
      ensures forall j :: 0 <= j < |freq| ==> DomainAt(j) == Restart(old(DomainAt(j)))
    {
      internal := 0;
      for k := 0 to |freq|
        invariant internal == 0
        invariant forall j :: 0 <= j < k ==> count[j] == 0 && next[j] == 0
      {
        count[k], next[k] := 0, 0;
      }
    }
  }
}
