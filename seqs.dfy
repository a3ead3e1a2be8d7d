/** Sequence operations the source performs with Array.prototype methods. */
module Seqs {
  import opened Wrappers

  /** `s.filter(p)`: the elements of `s` that satisfy `p`, in their original order. */
  function Filter<T>(s: seq<T>, p: T -> bool): (r: seq<T>)
    ensures |r| <= |s|
    ensures forall x :: x in r ==> x in s && p(x)
    ensures forall x :: x in s && p(x) ==> x in r
    ensures multiset(r) <= multiset(s)
  {
    if s == [] then []
    else
      assert s == [s[0]] + s[1..];
      (if p(s[0]) then [s[0]] else []) + Filter(s[1..], p)
  }

  /** The end index JavaScript's `s.slice(0, k)` uses for a whole number `k`:
      a negative `k` counts back from the end. */
  function SliceEnd(n: nat, k: int): (e: nat)
    ensures e <= n
    ensures 0 <= k ==> e == Min(k, n)
    ensures k < 0 ==> e == Max(0, n + k)
  {
    if k >= 0 then Min(k, n) else Max(0, n + k)
  }

  /** `s.slice(0, k)`. */
  function Slice0<T>(s: seq<T>, k: int): (r: seq<T>)
    ensures |r| == SliceEnd(|s|, k)
    ensures r == s[..|r|]
    ensures multiset(r) <= multiset(s)
  {
    var e := SliceEnd(|s|, k);
    assert s == s[..e] + s[e..];
    s[..e]
  }

  /** No element occurs twice. */
  ghost predicate Distinct<T>(s: seq<T>) {
    forall x | x in multiset(s) :: multiset(s)[x] <= 1
  }

  /** A sequence whose elements each occur at most as often as in a
      duplicate-free sequence is itself duplicate-free. */
  lemma DistinctSub<T>(small: seq<T>, big: seq<T>)
    requires Distinct(big)
    requires multiset(small) <= multiset(big)
    ensures Distinct(small)
  {
    forall x | x in multiset(small) ensures multiset(small)[x] <= 1 {
      assert multiset(small)[x] <= multiset(big)[x];
    }
  }

  /** `Distinct` in terms of positions: two different positions hold different elements. */
  lemma DistinctPositions<T>(s: seq<T>, i: int, j: int)
    requires Distinct(s)
    requires 0 <= i < j < |s|
    ensures s[i] != s[j]
  {
    assert s == s[..j] + s[j..];
    assert s[i] in multiset(s[..j]);
    assert s[j] in multiset(s[j..]);
    assert multiset(s)[s[i]] == multiset(s[..j])[s[i]] + multiset(s[j..])[s[i]];
  }

  /** `Filter` keeps every occurrence of a satisfying element and none of the others. */
  lemma {:induction false} FilterMultiplicity<T>(s: seq<T>, p: T -> bool, x: T)
    ensures multiset(Filter(s, p))[x] == if p(x) then multiset(s)[x] else 0
  {
    if s != [] {
      var h := if p(s[0]) then [s[0]] else [];
      FilterMultiplicity(s[1..], p, x);
      assert s == [s[0]] + s[1..];
      assert Filter(s, p) == h + Filter(s[1..], p);
      assert multiset(Filter(s, p)) == multiset(h) + multiset(Filter(s[1..], p));
      assert multiset(s) == multiset([s[0]]) + multiset(s[1..]);
    }
  }

  /** Filtering a rearrangement of `yes + no`, where `p` holds of every element of
      `yes` and of none of `no`, keeps exactly the elements of `yes`. */
  lemma FilterSplit<T>(s: seq<T>, p: T -> bool, yes: seq<T>, no: seq<T>)
    requires multiset(s) == multiset(yes) + multiset(no)
    requires forall x :: x in yes ==> p(x)
    requires forall x :: x in no ==> !p(x)
    ensures multiset(Filter(s, p)) == multiset(yes)
    ensures |Filter(s, p)| == |yes|
  {
    forall x ensures multiset(Filter(s, p))[x] == multiset(yes)[x] {
      FilterMultiplicity(s, p, x);
      if p(x) {
        assert x !in multiset(no);
      } else {
        assert x !in multiset(yes);
      }
    }
    assert multiset(Filter(s, p)) == multiset(yes);
    assert |multiset(Filter(s, p))| == |multiset(yes)|;
  }

  /** Filtering a concatenation filters each part. */
  lemma {:induction false} FilterConcat<T>(a: seq<T>, b: seq<T>, p: T -> bool)
    ensures Filter(a + b, p) == Filter(a, p) + Filter(b, p)
  {
    if a == [] {
      assert a + b == b;
    } else {
      var h := if p(a[0]) then [a[0]] else [];
      var rest, fb := Filter(a[1..], p), Filter(b, p);
      FilterConcat(a[1..], b, p);
      assert (a + b)[0] == a[0] && (a + b)[1..] == a[1..] + b;
      calc {
        Filter(a + b, p);
        h + Filter(a[1..] + b, p);
        h + (rest + fb);
        (h + rest) + fb;
        Filter(a, p) + fb;
      }
    }
  }

  /** Filtering keeps a list whose elements all pass and empties one whose
      elements all fail. */
  lemma {:induction false} FilterAllOrNone<T>(s: seq<T>, p: T -> bool)
    ensures (forall x :: x in s ==> p(x)) ==> Filter(s, p) == s
    ensures (forall x :: x in s ==> !p(x)) ==> Filter(s, p) == []
  {
    if s != [] {
      FilterAllOrNone(s[1..], p);
      assert forall x :: x in s[1..] ==> x in s;
      assert s == [s[0]] + s[1..];
    }
  }
}
