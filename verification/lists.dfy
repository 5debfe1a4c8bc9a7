/** Lists as the simulator's queues use them. */
module Lists {
  ghost predicate NoDup<T>(s: seq<T>) {
    forall j, k :: 0 <= j < k < |s| ==> s[j] != s[k]
  }

  function Elems<T(==)>(l: seq<T>): set<T> {
    set x | x in l
  }

  /** The list library's `remove`, for all of the given elements. */
  function Without<T(==)>(l: seq<T>, gone: set<T>): seq<T> {
    if l == [] then []
    else (if l[0] in gone then [] else [l[0]]) + Without(l[1..], gone)
  }

  lemma {:induction false} WithoutNone<T>(l: seq<T>)
    ensures Without(l, {}) == l
  {
    if l != [] { WithoutNone(l[1..]); }
  }

  /** Removing one after the other is removing all. */
  lemma {:induction false} WithoutTwice<T>(l: seq<T>, gone: set<T>, x: T)
    ensures Without(Without(l, gone), {x}) == Without(l, gone + {x})
  {
    if l != [] {
      var tail := Without(l[1..], gone);
      WithoutTwice(l[1..], gone, x);
      assert ([l[0]] + tail)[1..] == tail;
      if l[0] in gone { assert Without(l, gone) == tail; }
    }
  }

  lemma {:induction false} NoDupCount<T>(s: seq<T>)
    requires NoDup(s)
    ensures |Elems(s)| == |s|
  {
    if s != [] {
      var t := s[1..];
      NoDupCount(t);
      assert s[0] !in t;
      assert Elems(s) == Elems(t) + {s[0]};
    }
  }

  /** The `n` numbers from `lo` on. */
  function Span(lo: nat, n: nat): (r: set<nat>)
    ensures |r| == n && forall j: nat :: j in r <==> lo <= j < lo + n
  {
    if n == 0 then {} else Span(lo, n - 1) + {lo + n - 1}
  }
}
