/** How a cache splits an address into tile, tag and set. Shifts by `k` bits are written as
    multiplication and division by `Pow(k)`. */
module CacheAddress {
  import opened Arithmetic

  function Pow(k: nat): (r: nat)
    ensures r > 0
  {
    if k == 0 then 1 else 2 * Pow(k - 1)
  }

  lemma {:induction false} PowSum(a: nat, b: nat)
    ensures Pow(a + b) == Pow(a) * Pow(b)
  {
    if a > 0 {
      PowSum(a - 1, b);
      assert 2 * (Pow(a - 1) * Pow(b)) == 2 * Pow(a - 1) * Pow(b);
    }
  }

  /** `log2_int`. */
  function Log2(n: nat): nat {
    if n <= 1 then 0 else 1 + Log2(n / 2)
  }

  lemma {:induction false} Log2Bounds(n: nat)
    requires n > 0
    ensures Pow(Log2(n)) <= n < 2 * Pow(Log2(n))
  {
    if n > 1 { Log2Bounds(n / 2); }
  }

  predicate IsPower(n: nat) {
    n == Pow(Log2(n))
  }

  /** `byRemainder` says how the memory system finds the tile of an address: as a remainder, or with
      a mask of as many bits as the number of tiles has. */
  datatype Shape = Shape(lineBits: nat, setBits: nat, interleaveBits: nat, tiles: nat, byRemainder: bool) {
    predicate Valid() {
      tiles > 0
    }

    /** Tile, tag and set determine the line. */
    predicate Whole() {
      tiles == 1 || (interleaveBits >= lineBits && (byRemainder || IsPower(tiles)))
    }
  }

  type Config = s: Shape | s.Valid() witness Shape(0, 0, 0, 1, false)

  /** The number of the address's line. */
  function LineOf(c: Config, a: nat): nat {
    hide Pow;
    a / Pow(c.lineBits)
  }

  /** The interleaving unit of the address. */
  function UnitOf(c: Config, a: nat): nat {
    hide Pow;
    a / Pow(c.interleaveBits)
  }

  function Modulus(c: Config): (m: nat)
    ensures m > 0
  {
    if c.byRemainder then c.tiles else Pow(Log2(c.tiles))
  }

  /** The tile to which the memory system sends the address. */
  function TileOf(c: Config, a: nat): nat {
    hide Pow, Modulus;
    UnitOf(c, a) % Modulus(c)
  }

  function ByDivision(c: Config, a: nat): nat {
    hide Pow;
    UnitOf(c, a) / c.tiles * Pow(c.interleaveBits) + a % Pow(c.interleaveBits)
  }

  function ByShift(c: Config, a: nat): nat {
    hide Pow;
    a / Pow(c.interleaveBits + Log2(c.tiles)) * Pow(c.interleaveBits) + a % Pow(c.interleaveBits)
  }

  /** The address with the tile taken out of it. */
  function Folded(c: Config, a: nat): nat {
    if c.tiles == 1 then a
    else if IsPower(c.tiles) then ByShift(c, a)
    else ByDivision(c, a)
  }

  /** The folded line number without its set bits. */
  function TagOf(c: Config, a: nat): nat {
    hide Pow;
    Folded(c, a) / Pow(c.lineBits) / Pow(c.setBits) * Pow(c.setBits)
  }

  function SetOf(c: Config, a: nat): (r: nat)
    ensures r < Pow(c.setBits)
  {
    hide Pow;
    Folded(c, a) / Pow(c.lineBits) % Pow(c.setBits)
  }

  lemma TagAndSet(c: Config, a: nat)
    ensures TagOf(c, a) + SetOf(c, a) == Folded(c, a) / Pow(c.lineBits)
  {
    hide Pow;
  }

  lemma DivTwice(a: nat, u: nat, v: nat)
    requires u > 0 && v > 0
    ensures u * v > 0 && a / (u * v) == a / u / v
  {
    var p, r := a / u, a % u;
    var q, s := p / v, p % v;
    assert a == p * u + r && p == q * v + s;
    ScaleLess(0, v, u);
    ScaleLess(s, v, u);
    assert a == q * (u * v) + (s * u + r) by { assert (q * v + s) * u == q * (u * v) + s * u; }
    assert 0 <= s * u;
    DivModOf(q, u * v, s * u + r);
  }

  /** For a power-of-two number of tiles the shift form is the division form. */
  lemma ShiftIsDivision(c: Config, a: nat)
    requires IsPower(c.tiles)
    ensures ByShift(c, a) == ByDivision(c, a)
  {
    hide Pow;
    PowSum(c.interleaveBits, Log2(c.tiles));
    DivTwice(a, Pow(c.interleaveBits), c.tiles);
  }

  /** Without tiles nothing is folded. */
  lemma OneTile(c: Config, a: nat)
    requires c.tiles == 1
    ensures ByDivision(c, a) == a == Folded(c, a)
  {
    hide Pow;
  }

  lemma FoldedIsDivision(c: Config, a: nat)
    ensures Folded(c, a) == ByDivision(c, a)
  {
    hide Pow;
    if c.tiles == 1 {
      OneTile(c, a);
    } else if IsPower(c.tiles) {
      ShiftIsDivision(c, a);
    }
  }

  // ----- nothing is lost when a unit holds whole lines -----

  /** Lines per interleaving unit. */
  function PerUnit(c: Config): (r: nat)
    requires c.interleaveBits >= c.lineBits
    ensures r > 0
  {
    Pow(c.interleaveBits - c.lineBits)
  }

  /** A number whose units of `unit * k` are counted by `u`, in units of `unit`. */
  lemma UnitLines(u: nat, unit: nat, k: nat, r: nat)
    requires unit > 0 && k > 0 && r < unit * k
    ensures (u * (unit * k) + r) / unit == u * k + r / unit && r / unit < k
  {
    var q, s := r / unit, r % unit;
    assert r == q * unit + s;
    ScaleLess(q, k, unit);
    assert k * unit == unit * k;
    assert u * (unit * k) + r == (u * k + q) * unit + s by { assert (u * k + q) * unit == u * (unit * k) + q * unit; }
    DivModOf(u * k + q, unit, s);
  }

  /** The line's number within its unit. */
  function InUnit(c: Config, a: nat): nat {
    hide Pow;
    a % Pow(c.interleaveBits) / Pow(c.lineBits)
  }

  /** The folded line number holds the unit's number in its tile and the line within the unit. */
  lemma FoldedLine(c: Config, a: nat)
    requires c.interleaveBits >= c.lineBits
    ensures var k := PerUnit(c);
            && InUnit(c, a) < k
            && Folded(c, a) / Pow(c.lineBits) == UnitOf(c, a) / c.tiles * k + InUnit(c, a)
            && LineOf(c, a) == UnitOf(c, a) * k + InUnit(c, a)
  {
    hide Pow;
    FoldedIsDivision(c, a);
    var unit, line, k := Pow(c.interleaveBits), Pow(c.lineBits), PerUnit(c);
    PowSum(c.lineBits, c.interleaveBits - c.lineBits);
    var r := a % unit;
    UnitLines(UnitOf(c, a) / c.tiles, line, k, r);
    UnitLines(UnitOf(c, a), line, k, r);
    assert a == UnitOf(c, a) * unit + r;
  }

  /** Tile (by remainder), tag and set determine the line, for every number of tiles. */
  lemma SplitLossless(c: Config, a: nat, b: nat)
    requires c.interleaveBits >= c.lineBits
    requires UnitOf(c, a) % c.tiles == UnitOf(c, b) % c.tiles && TagOf(c, a) == TagOf(c, b) && SetOf(c, a) == SetOf(c, b)
    ensures LineOf(c, a) == LineOf(c, b)
  {
    hide Pow, TagOf, SetOf, Folded, LineOf, UnitOf, InUnit;
    TagAndSet(c, a);
    TagAndSet(c, b);
    FoldedLine(c, a);
    FoldedLine(c, b);
    SameSum(UnitOf(c, a) / c.tiles, UnitOf(c, b) / c.tiles, PerUnit(c), InUnit(c, a), InUnit(c, b));
    SameParts(UnitOf(c, a), UnitOf(c, b), c.tiles);
  }

  lemma SameSum(u: nat, v: nat, k: nat, i: nat, j: nat)
    requires u * k + i == v * k + j && i < k && j < k
    ensures u == v && i == j
  {
    DivModOf(u, k, i);
    DivModOf(v, k, j);
  }

  lemma SameParts(a: nat, b: nat, w: nat)
    requires w > 0 && a / w == b / w && a % w == b % w
    ensures a == b
  {
    assert a == a / w * w + a % w;
  }

  /** Tile, tag and set determine the line of every address. */
  ghost predicate Lossless(c: Config) {
    forall a: nat, b: nat {:trigger TagOf(c, a), TagOf(c, b)} ::
      TileOf(c, a) == TileOf(c, b) && TagOf(c, a) == TagOf(c, b) && SetOf(c, a) == SetOf(c, b) ==> LineOf(c, a) == LineOf(c, b)
  }

  /** The split is lossless exactly if there is one tile, or a unit holds whole lines and the tile is
      found as a remainder or the number of tiles is a power of two. */
  lemma LosslessExact(c: Config)
    ensures Lossless(c) <==> c.Whole()
  {
    hide Pow;
    if c.tiles == 1 {
      OneTileLossless(c);
    } else if c.interleaveBits < c.lineBits {
      SmallUnitCollision(c);
    } else if !c.byRemainder && !IsPower(c.tiles) {
      MaskCollision(c);
    } else {
      UnitsLossless(c);
    }
  }

  lemma OneTileLossless(c: Config)
    requires c.tiles == 1
    ensures Lossless(c)
  {
    hide Pow;
    forall a: nat, b: nat | TagOf(c, a) == TagOf(c, b) && SetOf(c, a) == SetOf(c, b) ensures LineOf(c, a) == LineOf(c, b) {
      TagAndSet(c, a);
      TagAndSet(c, b);
      hide TagOf, SetOf;
    }
  }

  lemma UnitsLossless(c: Config)
    requires c.interleaveBits >= c.lineBits && (c.byRemainder || IsPower(c.tiles))
    ensures Lossless(c)
  {
    hide Pow, TagOf, SetOf, LineOf, UnitOf;
    forall a: nat, b: nat | TileOf(c, a) == TileOf(c, b) && TagOf(c, a) == TagOf(c, b) && SetOf(c, a) == SetOf(c, b)
      ensures LineOf(c, a) == LineOf(c, b)
    {
      SplitLossless(c, a, b);
    }
  }

  /** Address `u * unit` is the first of unit `u`. */
  lemma UnitStart(c: Config, u: nat)
    ensures UnitOf(c, u * Pow(c.interleaveBits)) == u
    ensures ByDivision(c, u * Pow(c.interleaveBits)) == u / c.tiles * Pow(c.interleaveBits)
  {
    hide Pow;
    DivModOf(u, Pow(c.interleaveBits), 0);
  }

  /** Two addresses with the same tile and the same folded line. */
  lemma Collision(c: Config, a: nat, b: nat)
    requires TileOf(c, a) == TileOf(c, b) && LineOf(c, a) != LineOf(c, b)
    requires Folded(c, a) / Pow(c.lineBits) == Folded(c, b) / Pow(c.lineBits)
    ensures !Lossless(c)
  {
    hide Pow;
    assert TagOf(c, a) == TagOf(c, b) && SetOf(c, a) == SetOf(c, b);
  }

  /** With three tiles, say, units 0 and 2 have the same tile bits and the same folded address. */
  lemma MaskCollision(c: Config)
    requires !c.byRemainder && !IsPower(c.tiles) && c.interleaveBits >= c.lineBits
    ensures !Lossless(c)
  {
    hide Pow;
    var m := Pow(Log2(c.tiles));
    Log2Bounds(c.tiles);
    var b := m * Pow(c.interleaveBits);
    UnitStart(c, 0);
    UnitStart(c, m);
    FoldedLine(c, 0);
    FoldedLine(c, b);
    QuotientOf(1, m, m);
    hide Folded, TagOf, SetOf, Lossless, UnitOf;
    assert m / c.tiles == 0;
    assert LineOf(c, b) >= 1 by { ScaleLess(1, m, PerUnit(c)); }
    Collision(c, 0, b);
  }

  /** Units smaller than a line: units of one tile fall into the same folded line. */
  lemma SmallUnitCollision(c: Config)
    requires c.tiles > 1 && c.interleaveBits < c.lineBits
    ensures !Lossless(c)
  {
    hide Pow, Log2, Modulus, Folded, TagOf, SetOf, LineOf, TileOf, UnitOf, Lossless;
    var k := Pow(c.lineBits - c.interleaveBits);
    PowSum(c.interleaveBits, c.lineBits - c.interleaveBits);
    var u := SharedUnit(c);
    FoldedUnit(c, 0, k);
    FoldedUnit(c, u, k);
    QuotientBelow(u / c.tiles, k);
    QuotientBelow(0, k);
    QuotientBelow(0, c.tiles);
    FirstTile(c, 0);
    FirstTile(c, u);
    Collision(c, 0 * Pow(c.interleaveBits), u * Pow(c.interleaveBits));
  }

  lemma FirstTile(c: Config, u: nat)
    requires u == 0 || u % Modulus(c) == 0
    ensures TileOf(c, u * Pow(c.interleaveBits)) == 0
  {
    hide Pow, UnitOf, Modulus;
    UnitStart(c, u);
    QuotientBelow(0, Modulus(c));
  }

  lemma QuotientBelow(q: nat, k: nat)
    requires q < k
    ensures q / k == 0
  {
    DivModOf(0, k, q);
  }

  /** The first address of unit `u`, when a line is `k` units. */
  lemma FoldedUnit(c: Config, u: nat, k: nat)
    requires c.interleaveBits < c.lineBits && k > 0 && Pow(c.lineBits) == Pow(c.interleaveBits) * k
    ensures Folded(c, u * Pow(c.interleaveBits)) / Pow(c.lineBits) == u / c.tiles / k
    ensures LineOf(c, u * Pow(c.interleaveBits)) == u / k
  {
    hide Pow;
    var unit := Pow(c.interleaveBits);
    FoldedIsDivision(c, u * unit);
    UnitStart(c, u);
    hide Folded;
    DivTwice(u / c.tiles * unit, unit, k);
    DivModOf(u / c.tiles, unit, 0);
    DivTwice(u * unit, unit, k);
    DivModOf(u, unit, 0);
  }

  /** A unit of tile 0 that lies in another line but is folded into the first. */
  lemma SharedUnit(c: Config) returns (u: nat)
    requires c.tiles > 1 && c.interleaveBits < c.lineBits
    ensures var k := Pow(c.lineBits - c.interleaveBits);
            u / k >= 1 && u / c.tiles < k && u % Modulus(c) == 0
  {
    hide Pow, Log2;
    if c.byRemainder {
      u := LastUnit(c);
    } else {
      u := MaskedUnit(c);
    }
  }

  lemma LastUnit(c: Config) returns (u: nat)
    requires c.tiles > 1 && c.interleaveBits < c.lineBits
    ensures var k := Pow(c.lineBits - c.interleaveBits);
            u / k >= 1 && u / c.tiles < k && u % c.tiles == 0
  {
    var k := Pow(c.lineBits - c.interleaveBits);
    assert k >= 2;
    hide Pow;
    u := (k - 1) * c.tiles;
    QuotientOf(k - 1, c.tiles, u);
    assert u >= k by { ScaleLess(2, c.tiles, k - 1); assert c.tiles * (k - 1) == u; }
    var q := u / k;
    assert u == q * k + u % k;
    if q < 1 { ScaleLess(q, 1, k); }
  }

  lemma MaskedUnit(c: Config) returns (u: nat)
    requires c.tiles > 1 && c.interleaveBits < c.lineBits
    ensures var k := Pow(c.lineBits - c.interleaveBits);
            u / k >= 1 && u / c.tiles < k && u % Pow(Log2(c.tiles)) == 0
  {
    var kb, mb := c.lineBits - c.interleaveBits, Log2(c.tiles);
    var k, m := Pow(kb), Pow(mb);
    Log2Bounds(c.tiles);
    if kb >= mb {
      u := k;
      PowSum(kb - mb, mb);
      QuotientOf(Pow(kb - mb), m, k);
      QuotientOf(1, k, k);
      assert u / c.tiles < k by { Halves(k, c.tiles); }
    } else {
      u := m;
      QuotientOf(1, m, m);
      PowSum(mb - kb, kb);
      QuotientOf(Pow(mb - kb), k, m);
      assert u / c.tiles <= 1 by { Once(m, c.tiles); }
      assert k >= 2;
    }
  }

  lemma Halves(k: nat, t: nat)
    requires k > 0 && t > 1
    ensures k / t < k
  {
    var q := k / t;
    assert k == q * t + k % t;
    assert q * t >= q by { if q > 0 { ScaleLess(1, t, q); } }
    assert q * t >= q + q by { if q > 0 { ScaleLess(1, t, q); } }
  }

  lemma Once(m: nat, t: nat)
    requires 0 < m <= t
    ensures m / t <= 1
  {
    var q := m / t;
    assert m == q * t + m % t;
    ScaleLess(1, q, t);
  }

  /** The line's first address, kept with the line. */
  function BaseOf(c: Config, a: nat): nat {
    LineOf(c, a) * Pow(c.lineBits)
  }

  lemma SameBase(c: Config, a: nat, b: nat)
    ensures BaseOf(c, a) == BaseOf(c, b) <==> LineOf(c, a) == LineOf(c, b)
  {
    hide Pow;
    ScaleLess(LineOf(c, a), LineOf(c, b), Pow(c.lineBits));
    ScaleLess(LineOf(c, b), LineOf(c, a), Pow(c.lineBits));
  }

  /** Addresses of one line have the same tile, tag and set. */
  lemma SplitByLine(c: Config, a: nat, b: nat)
    requires LineOf(c, a) == LineOf(c, b) && (c.tiles == 1 || c.interleaveBits >= c.lineBits)
    ensures TileOf(c, a) == TileOf(c, b) && TagOf(c, a) == TagOf(c, b) && SetOf(c, a) == SetOf(c, b)
  {
    if c.tiles == 1 {
      assert Modulus(c) == 1;
      assert TileOf(c, a) == 0 == TileOf(c, b);
      hide Pow, Log2;
      assert Folded(c, a) == a && Folded(c, b) == b;
    } else {
      SameUnit(c, a, b);
      FoldedLine(c, a);
      FoldedLine(c, b);
      hide Pow, Log2, Folded, LineOf, UnitOf, InUnit;
    }
  }

  lemma SameUnit(c: Config, a: nat, b: nat)
    requires LineOf(c, a) == LineOf(c, b) && c.interleaveBits >= c.lineBits
    ensures UnitOf(c, a) == UnitOf(c, b) && InUnit(c, a) == InUnit(c, b)
  {
    hide Pow, LineOf, UnitOf, Folded, InUnit;
    FoldedLine(c, a);
    FoldedLine(c, b);
    SameSum(UnitOf(c, a), UnitOf(c, b), PerUnit(c), InUnit(c, a), InUnit(c, b));
  }

  lemma BaseLine(c: Config, a: nat)
    ensures LineOf(c, BaseOf(c, a)) == LineOf(c, a) && BaseOf(c, BaseOf(c, a)) == BaseOf(c, a)
  {
    hide Pow;
    DivModOf(LineOf(c, a), Pow(c.lineBits), 0);
  }
}
