/** Facts about lists without duplicates, reordered lists and subsets. */
module Collections {
  predicate NoDup(s: seq<string>) {
    forall i, j :: 0 <= i < j < |s| ==> s[i] != s[j]
  }

  lemma {:induction false} NoDupCounts(s: seq<string>)
    ensures NoDup(s) <==> forall x :: multiset(s)[x] <= 1
  {
    if s != [] {
      var n := |s| - 1;
      NoDupCounts(s[..n]);
      assert s == s[..n] + [s[n]];
      var m, init := multiset(s), multiset(s[..n]);
      assert m == init[s[n] := init[s[n]] + 1];
      if NoDup(s) {
        assert s[n] !in init;
      } else {
        assert s[n] in s[..n] || !NoDup(s[..n]);
        assert exists x :: m[x] > 1 by {
          if s[n] in s[..n] {
            assert s[n] in init;
            assert m[s[n]] > 1;
          } else {
            var x :| init[x] > 1;
            assert m[x] > 1;
          }
        }
      }
    }
  }

  /** Being free of duplicates and a set of elements carry over to any reordering. */
  lemma Reordered(s: seq<string>, t: seq<string>)
    requires multiset(s) == multiset(t)
    ensures NoDup(s) == NoDup(t)
    ensures forall x :: x in s <==> x in t
  {
    NoDupCounts(s);
    NoDupCounts(t);
    SameElements(s, t);
  }

  lemma SameElements<T>(s: seq<T>, t: seq<T>)
    requires multiset(s) == multiset(t)
    ensures forall x :: x in s <==> x in t
  {
    forall x ensures x in s <==> x in t {
      assert x in s <==> x in multiset(s);
      assert x in t <==> x in multiset(t);
    }
  }

  lemma SubsetSize<T>(a: set<T>, b: set<T>)
    requires a <= b
    ensures |a| <= |b|
  {
    assert b == a + (b - a);
  }
}
