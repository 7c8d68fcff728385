/** Python's `sorted`, and the order of strings it uses by default. */
module Sorting {

  ghost predicate IsOrder<T(!new)>(leq: (T, T) -> bool) {
    && (forall a, b :: leq(a, b) || leq(b, a))
    && (forall a, b, c :: leq(a, b) && leq(b, c) ==> leq(a, c))
  }

  ghost predicate Ordered<T>(s: seq<T>, leq: (T, T) -> bool) {
    forall i, j :: 0 <= i < j < |s| ==> leq(s[i], s[j])
  }

  function Insert<T>(x: T, s: seq<T>, leq: (T, T) -> bool): (r: seq<T>)
    ensures multiset(r) == multiset{x} + multiset(s)
  {
    if s == [] then [x]
    else if leq(x, s[0]) then [x] + s
    else
      assert s == [s[0]] + s[1..];
      [s[0]] + Insert(x, s[1..], leq)
  }

  function Sort<T>(s: seq<T>, leq: (T, T) -> bool): (r: seq<T>)
    ensures multiset(r) == multiset(s) && |r| == |s|
  {
    if s == [] then []
    else
      assert s == [s[0]] + s[1..];
      var r := Insert(s[0], Sort(s[1..], leq), leq);
      assert |multiset(r)| == |multiset(s)|;
      r
  }

  lemma {:induction false} InsertOrders<T(!new)>(x: T, s: seq<T>, leq: (T, T) -> bool)
    requires IsOrder(leq) && Ordered(s, leq)
    ensures Ordered(Insert(x, s, leq), leq)
  {
    if s != [] && leq(x, s[0]) {
      assert forall j :: 0 < j < |s| ==> leq(s[0], s[j]);
    } else if s != [] {
      var r := Insert(x, s[1..], leq);
      InsertOrders(x, s[1..], leq);
      forall j | 0 <= j < |r| ensures leq(s[0], r[j]) {
        assert r[j] in multiset(r);
        assert r[j] == x || r[j] in s[1..];
      }
    }
  }

  lemma {:induction false} SortOrders<T(!new)>(s: seq<T>, leq: (T, T) -> bool)
    requires IsOrder(leq)
    ensures Ordered(Sort(s, leq), leq)
  {
    if s != [] {
      SortOrders(s[1..], leq);
      InsertOrders(s[0], Sort(s[1..], leq), leq);
    }
  }

  /** Two ordered arrangements of the same elements are the same list, if ties are equal. */
  lemma {:induction false} OrderedIsUnique<T(!new)>(s: seq<T>, t: seq<T>, leq: (T, T) -> bool)
    requires Ordered(s, leq) && Ordered(t, leq) && multiset(s) == multiset(t)
    requires forall a, b :: a in s && b in s && leq(a, b) && leq(b, a) ==> a == b
    ensures s == t
  {
    if s == [] {
      assert |multiset(t)| == 0;
    } else {
      SameHead(s, t, leq);
      TailElements(s);
      TailElements(t);
      OrderedIsUnique(s[1..], t[1..], leq);
    }
  }

  lemma TailElements<T>(s: seq<T>)
    requires s != []
    ensures multiset(s[1..]) == multiset(s) - multiset{s[0]}
    ensures s == [s[0]] + s[1..]
  {
    assert s == [s[0]] + s[1..];
  }

  lemma SameHead<T(!new)>(s: seq<T>, t: seq<T>, leq: (T, T) -> bool)
    requires Ordered(s, leq) && Ordered(t, leq) && multiset(s) == multiset(t) && s != []
    requires forall a, b :: a in s && b in s && leq(a, b) && leq(b, a) ==> a == b
    ensures t != [] && s[0] == t[0]
  {
    assert s[0] in multiset(t);
    assert t[0] in multiset(s);
    LeastComesFirst(s, t[0], leq);
    LeastComesFirst(t, s[0], leq);
  }

  lemma LeastComesFirst<T>(s: seq<T>, x: T, leq: (T, T) -> bool)
    requires Ordered(s, leq) && x in s
    ensures s[0] == x || leq(s[0], x)
  {
  }

  /** The order of two strings, character by character. */
  predicate StringLeq(a: string, b: string) {
    a == "" || (b != "" && (a[0] < b[0] || (a[0] == b[0] && StringLeq(a[1..], b[1..]))))
  }

  lemma {:induction false} StringLeqTotal(a: string, b: string)
    ensures StringLeq(a, b) || StringLeq(b, a)
  {
    if a != "" && b != "" && a[0] == b[0] {
      StringLeqTotal(a[1..], b[1..]);
    }
  }

  lemma {:induction false} StringLeqTransitive(a: string, b: string, c: string)
    requires StringLeq(a, b) && StringLeq(b, c)
    ensures StringLeq(a, c)
  {
    if a != "" && a[0] == b[0] && b[0] == c[0] {
      StringLeqTransitive(a[1..], b[1..], c[1..]);
    }
  }

  lemma {:induction false} StringLeqAntisymmetric(a: string, b: string)
    requires StringLeq(a, b) && StringLeq(b, a)
    ensures a == b
  {
    if a != "" {
      StringLeqAntisymmetric(a[1..], b[1..]);
      assert a == [a[0]] + a[1..] && b == [b[0]] + b[1..];
    }
  }

  lemma StringsAreOrdered()
    ensures IsOrder(StringLeq)
  {
    forall a, b ensures StringLeq(a, b) || StringLeq(b, a) {
      StringLeqTotal(a, b);
    }
    forall a, b, c ensures StringLeq(a, b) && StringLeq(b, c) ==> StringLeq(a, c) {
      if StringLeq(a, b) && StringLeq(b, c) {
        StringLeqTransitive(a, b, c);
      }
    }
  }
}
