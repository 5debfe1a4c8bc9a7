/** Facts about products, quotients and remainders that several components need. */
module Arithmetic {
  lemma MultiplesApart(a: int, b: int, w: int)
    requires a < b && w > 0
    ensures a * w + w <= b * w
  {
    var gap := b - a - 1;
    assert b * w == a * w + w + gap * w;
    assert gap * w >= 0;
  }

  lemma ScaleLess(a: int, b: int, w: int)
    requires w > 0
    ensures a < b ==> a * w + w <= b * w
    ensures a <= b ==> a * w <= b * w
    ensures a * w < b * w ==> a < b
  {
    if a < b {
      MultiplesApart(a, b, w);
    } else if b < a {
      MultiplesApart(b, a, w);
    }
  }

  lemma DivModOf(q: int, w: int, r: int)
    requires 0 <= r < w
    ensures (q * w + r) / w == q && (q * w + r) % w == r
  {
    var n := q * w + r;
    var q', r' := n / w, n % w;
    assert n == q' * w + r';
    ScaleLess(q, q', w);
    ScaleLess(q', q, w);
  }

  lemma QuotientOf(q: int, w: int, n: int)
    requires w > 0 && n == q * w
    ensures n / w == q && n % w == 0
  {
    DivModOf(q, w, 0);
  }

  /** What a loop over `n` things visits at step `i` if it starts at `pivot` and goes round. */
  function Turn(i: nat, pivot: nat, n: nat): (k: nat)
    requires n > 0
    ensures k < n
  {
    (i + pivot) % n
  }

  /** The rotation visits nothing twice. */
  lemma TurnOnce(i: nat, j: nat, pivot: nat, n: nat)
    requires i < j < n
    ensures Turn(i, pivot, n) != Turn(j, pivot, n)
  {
    var p, q := (i + pivot) / n, (j + pivot) / n;
    assert i + pivot == p * n + Turn(i, pivot, n);
    assert j + pivot == q * n + Turn(j, pivot, n);
    ScaleLess(p, q, n);
    ScaleLess(q, p, n);
  }

  /** And it visits everything. */
  lemma TurnAll(k: nat, pivot: nat, n: nat) returns (i: nat)
    requires k < n
    ensures i < n && Turn(i, pivot, n) == k
  {
    var r, p := pivot % n, pivot / n;
    assert pivot == p * n + r;
    i := if k >= r then k - r else k + n - r;
    if k >= r {
      assert i + pivot == p * n + k;
      DivModOf(p, n, k);
    } else {
      assert i + pivot == (p + 1) * n + k;
      DivModOf(p + 1, n, k);
    }
  }
}
