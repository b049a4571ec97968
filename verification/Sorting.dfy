/** What the relay needs of Go's `sort.Slice`: a sorted rearrangement, nothing more. Callers see
    only this contract, so they cannot depend on how equal elements end up. */
module Sorting {

  ghost predicate TotalPreorder<T(!new)>(le: (T, T) -> bool) {
    (forall x, y :: le(x, y) || le(y, x)) &&
    (forall x, y, z :: le(x, y) && le(y, z) ==> le(x, z))
  }

  ghost predicate SortedBy<T>(s: seq<T>, le: (T, T) -> bool) {
    forall i, j | 0 <= i < j < |s| :: le(s[i], s[j])
  }

  method SortSlice<T(==, !new)>(s: seq<T>, le: (T, T) -> bool) returns (r: seq<T>)
    requires TotalPreorder(le)
    ensures SortedBy(r, le) && multiset(r) == multiset(s)
  {
    r := [];
    for i := 0 to |s|
      invariant SortedBy(r, le) && multiset(r) == multiset(s[..i])
    {
      var k := 0;
      while k < |r| && le(r[k], s[i])
        invariant 0 <= k <= |r| && forall j | 0 <= j < k :: le(r[j], s[i])
      {
        k := k + 1;
      }
      assert s[..i + 1] == s[..i] + [s[i]];
      Insert(r, k, s[i], le);
      r := r[..k] + [s[i]] + r[k..];
    }
    assert s[..|s|] == s;
  }

  lemma Insert<T(!new)>(r: seq<T>, k: nat, x: T, le: (T, T) -> bool)
    requires TotalPreorder(le) && SortedBy(r, le) && k <= |r|
    requires (forall j | 0 <= j < k :: le(r[j], x)) && (k < |r| ==> !le(r[k], x))
    ensures SortedBy(r[..k] + [x] + r[k..], le)
    ensures multiset(r[..k] + [x] + r[k..]) == multiset(r) + multiset{x}
  {
    assert r == r[..k] + r[k..];
    var t := r[..k] + [x] + r[k..];
    forall i, j | 0 <= i < j < |t| ensures le(t[i], t[j]) {
      if i == k {
        assert le(x, r[k]);
        if j - 1 > k { assert le(r[k], r[j - 1]); }
      }
    }
  }

  lemma {:induction false} SameElements<T>(a: seq<T>, b: seq<T>)
    requires multiset(a) == multiset(b)
    ensures |a| == |b| && forall x :: x in a <==> x in b
  {
    assert |multiset(a)| == |a| && |multiset(b)| == |b|;
    forall x ensures x in a <==> x in b {
      assert x in a <==> x in multiset(a);
      assert x in b <==> x in multiset(b);
    }
  }

  /** Without repetition before, without repetition after. */
  lemma SameDistinct<T>(a: seq<T>, b: seq<T>)
    requires multiset(a) == multiset(b)
    requires forall i, j | 0 <= i < j < |a| :: a[i] != a[j]
    ensures forall i, j | 0 <= i < j < |b| :: b[i] != b[j]
  {
    forall i, j | 0 <= i < j < |b| ensures b[i] != b[j] {
      if b[i] == b[j] {
        assert b == b[..i] + [b[i]] + b[i + 1..j] + [b[j]] + b[j + 1..];
        assert multiset(b)[b[i]] >= 2;
        CountAtMostOne(a, b[i]);
      }
    }
  }

  lemma {:induction false} CountAtMostOne<T>(a: seq<T>, x: T)
    requires forall i, j | 0 <= i < j < |a| :: a[i] != a[j]
    ensures multiset(a)[x] <= 1
  {
    if a != [] {
      var front, last := a[..|a| - 1], a[|a| - 1];
      assert a == front + [last];
      CountAtMostOne(front, x);
      if x == last {
        assert x !in front;
        assert x !in multiset(front);
      }
    }
  }
}
