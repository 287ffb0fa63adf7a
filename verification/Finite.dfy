/** Small facts about finite sets and maps shared by the other modules. */
module Finite {

  datatype Option<+T> = None | Some(value: T)

  lemma {:induction false} SubsetCard<T>(a: set<T>, b: set<T>)
    requires a <= b
    ensures |a| <= |b|
    ensures |a| == |b| ==> a == b
    decreases a
  {
    if a == {} {
    } else {
      var x :| x in a;
      SubsetCard(a - {x}, b - {x});
    }
  }

  lemma SplitCard<T>(a: set<T>, b: set<T>)
    ensures |a| == |a - b| + |a * b|
  {
    assert a == (a - b) + (a * b);
  }

  /** The numbers below `n`. */
  ghost function Below(n: nat): (r: set<nat>)
    ensures |r| == n
    ensures forall v: nat :: v in r <==> v < n
  {
    if n == 0 then {} else Below(n - 1) + {n - 1}
  }

  ghost predicate InjectiveMap<X, Y>(f: map<X, Y>) {
    forall x, y :: x in f && y in f && f[x] == f[y] ==> x == y
  }

  /** A one-to-one map into `b` has at most `|b|` keys. */
  lemma {:induction false} InjectionBounds<X, Y>(f: map<X, Y>, b: set<Y>)
    requires InjectiveMap(f)
    requires forall x :: x in f ==> f[x] in b
    ensures |f| <= |b|
    decreases |f|
  {
    if f.Keys == {} {
      assert |f| == |f.Keys|;
    } else {
      var x :| x in f;
      var g := f - {x};
      assert g.Keys == f.Keys - {x};
      InjectionBounds(g, b - {f[x]});
      assert |f| == |f.Keys| && |g| == |g.Keys|;
    }
  }

  ghost predicate Distinct<T>(s: seq<T>) {
    forall i, j :: 0 <= i < j < |s| ==> s[i] != s[j]
  }

  lemma {:induction false} DistinctIsMultiplicityOne<T>(s: seq<T>)
    ensures Distinct(s) <==> forall x :: x in s ==> multiset(s)[x] == 1
  {
    if s != [] {
      var t := s[1..];
      assert s == [s[0]] + t;
      DistinctIsMultiplicityOne(t);
      assert Distinct(s) <==> Distinct(t) && s[0] !in t by {
        if Distinct(s) {
          assert forall j :: 0 <= j < |t| ==> t[j] == s[j + 1];
        }
      }
      assert forall x :: x in s <==> x == s[0] || x in t;
    }
  }

  lemma SamePermutation<T>(s: seq<T>, t: seq<T>)
    requires multiset(s) == multiset(t)
    ensures |s| == |t| && (Distinct(s) <==> Distinct(t))
    ensures forall x :: x in s <==> x in t
  {
    DistinctIsMultiplicityOne(s);
    DistinctIsMultiplicityOne(t);
    assert |multiset(s)| == |s| && |multiset(t)| == |t|;
    forall x
      ensures x in s <==> x in t
    {
      assert x in s <==> x in multiset(s);
      assert x in t <==> x in multiset(t);
    }
  }
}
