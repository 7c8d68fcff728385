/** price_api/core/selection.py: the order in which providers are listed, and the result that is
    selected from it. */
module Selection {
  import opened Options
  import opened ProviderModels
  import opened Collections
  import opened Sorting

  /** The fields of a price or quote result that are read after the fan-out. */
  datatype Outcome = Outcome(provider: string, status: Status, amountOut: Option<int>)

  function Providers(results: seq<Outcome>): seq<string> {
    seq(|results|, i requires 0 <= i < |results| => results[i].provider)
  }

  /** The loop that appends available ids it has not seen. */
  function Picked(start: seq<string>, candidates: seq<string>, available: set<string>): seq<string> {
    if candidates == [] then start
    else
      var picked, last := Picked(start, candidates[..|candidates| - 1], available), candidates[|candidates| - 1];
      if last in available && last !in picked then picked + [last] else picked
  }

  function Preferred(requested: Option<seq<string>>, defaults: seq<string>): seq<string> {
    if requested.Some? then requested.value else defaults
  }

  function ProviderOrder(available: seq<string>, preferred: seq<string>): seq<string> {
    var ids := set id <- available;
    Picked(Picked([], preferred, ids), Sort(available, StringLeq), ids)
  }

  method BuildProviderOrder(available: seq<string>, requested: Option<seq<string>>, defaults: seq<string>)
    returns (ordered: seq<string>)
    ensures requested.Some? ==> ordered == ProviderOrder(available, requested.value)
    ensures requested.None? ==> ordered == ProviderOrder(available, defaults)
  {
    var ids := set id <- available;
    ordered := [];
    var seen: set<string> := {};
    if requested.Some? {
      ordered, seen := PickMore(ordered, seen, requested.value, ids);
    } else {
      ordered, seen := PickMore(ordered, seen, defaults, ids);
    }
    var rest := Sort(available, StringLeq);
    SameElements(available, rest);
    ordered, seen := PickMore(ordered, seen, rest, ids);
  }

  method PickMore(start: seq<string>, startSeen: set<string>, candidates: seq<string>, available: set<string>)
    returns (ordered: seq<string>, seen: set<string>)
    requires startSeen == set id <- start
    ensures ordered == Picked(start, candidates, available) && seen == set id <- ordered
  {
    ordered, seen := start, startSeen;
    for i := 0 to |candidates|
      invariant ordered == Picked(start, candidates[..i], available)
      invariant seen == set id <- ordered
    {
      assert candidates[..i + 1][..i] == candidates[..i];
      if candidates[i] in available && candidates[i] !in seen {
        ordered := ordered + [candidates[i]];
        seen := seen + {candidates[i]};
      }
    }
    assert candidates[..|candidates|] == candidates;
  }

  // ---- what the order is

  function Position(s: seq<string>, x: string): (r: nat)
    ensures r <= |s| && (r < |s| <==> x in s)
    ensures r < |s| ==> s[r] == x
    ensures forall k :: 0 <= k < r ==> s[k] != x
  {
    if s == [] then 0 else if s[0] == x then 0 else 1 + Position(s[1..], x)
  }

  /** Preferred providers come in the order of preference, the others after them alphabetically. */
  predicate Before(preferred: seq<string>, a: string, b: string) {
    var i, j := Position(preferred, a), Position(preferred, b);
    i < j || (i == j && StringLeq(a, b))
  }

  lemma BeforeIsAnOrder(preferred: seq<string>)
    ensures IsOrder((a, b) => Before(preferred, a, b))
    ensures forall a, b :: Before(preferred, a, b) && Before(preferred, b, a) ==> a == b
  {
    StringsAreOrdered();
    forall a, b | Before(preferred, a, b) && Before(preferred, b, a) ensures a == b {
      StringLeqAntisymmetric(a, b);
    }
  }

  lemma {:induction false} PickedElements(start: seq<string>, candidates: seq<string>, available: set<string>)
    requires NoDup(start)
    ensures var r := Picked(start, candidates, available);
            NoDup(r) && start <= r && forall x :: x in r <==> x in start || (x in candidates && x in available)
  {
    if candidates != [] {
      var init := candidates[..|candidates| - 1];
      PickedElements(start, init, available);
      assert candidates == init + [candidates[|candidates| - 1]];
    }
  }

  lemma {:induction false} PreferredInOrder(preferred: seq<string>, n: nat, available: set<string>)
    requires n <= |preferred|
    ensures var r := Picked([], preferred[..n], available);
            && (forall x <- r :: Position(preferred, x) < n)
            && forall i, j :: 0 <= i < j < |r| ==> Position(preferred, r[i]) < Position(preferred, r[j])
  {
    if n > 0 {
      PreferredInOrder(preferred, n - 1, available);
      assert preferred[..n][..n - 1] == preferred[..n - 1];
      var x := preferred[n - 1];
      PickedElements([], preferred[..n - 1], available);
      var k := Position(preferred, x);
      assert k < n - 1 ==> preferred[..n - 1][k] == x;
    }
  }

  lemma {:induction false} RestInOrder(
    preferred: seq<string>, head: seq<string>, sorted: seq<string>, n: nat, available: set<string>)
    requires n <= |sorted| && Ordered(sorted, StringLeq) && NoDup(head)
    requires forall i, j :: 0 <= i < j < |head| ==> Before(preferred, head[i], head[j])
    requires forall x :: x in head <==> x in preferred && x in available
    ensures Ordered(Picked(head, sorted[..n], available), (a, b) => Before(preferred, a, b))
  {
    if n > 0 {
      var init := sorted[..n - 1];
      RestInOrder(preferred, head, sorted, n - 1, available);
      assert sorted[..n][..n - 1] == init;
      PickedElements(head, init, available);
      var picked, x := Picked(head, init, available), sorted[n - 1];
      if x in available && x !in picked {
        forall y <- picked ensures Before(preferred, y, x) {
          if y in init {
            var k :| 0 <= k < n - 1 && init[k] == y;
            assert StringLeq(sorted[k], sorted[n - 1]);
          }
        }
      }
    }
  }

  /** The order lists every available provider once, preferred ones first. */
  lemma OrderIsRanked(available: seq<string>, preferred: seq<string>)
    ensures var order := ProviderOrder(available, preferred);
            && NoDup(order)
            && (forall x :: x in order <==> x in available)
            && Ordered(order, (a, b) => Before(preferred, a, b))
  {
    var ids := set id <- available;
    var head, sorted := Picked([], preferred, ids), Sort(available, StringLeq);
    SameElements(available, sorted);
    StringsAreOrdered();
    SortOrders(available, StringLeq);
    PickedElements([], preferred, ids);
    PickedElements(head, sorted, ids);
    PreferredInOrder(preferred, |preferred|, ids);
    assert preferred[..|preferred|] == preferred && sorted[..|sorted|] == sorted;
    RestInOrder(preferred, head, sorted, |sorted|, ids);
  }

  /** For distinct providers the two loops are one stable sort. */
  lemma OrderIsSort(available: seq<string>, preferred: seq<string>)
    requires NoDup(available)
    ensures ProviderOrder(available, preferred) == Sort(available, (a, b) => Before(preferred, a, b))
    ensures multiset(ProviderOrder(available, preferred)) == multiset(available)
  {
    var order, leq := ProviderOrder(available, preferred), (a, b) => Before(preferred, a, b);
    OrderIsRanked(available, preferred);
    BeforeIsAnOrder(preferred);
    SortOrders(available, leq);
    SameBag(order, available);
    OrderedIsUnique(order, Sort(available, leq), leq);
  }

  lemma SameBag(s: seq<string>, t: seq<string>)
    requires NoDup(s) && NoDup(t) && forall x :: x in s <==> x in t
    ensures multiset(s) == multiset(t)
  {
    NoDupCounts(s);
    NoDupCounts(t);
    forall x ensures multiset(s)[x] == multiset(t)[x] {
      assert x in s <==> x in multiset(s);
      assert x in t <==> x in multiset(t);
    }
  }

  // ---- selection

  function Index(results: seq<Outcome>): map<string, Outcome> {
    if results == [] then map[]
    else
      var last := results[|results| - 1];
      Index(results[..|results| - 1])[last.provider := last]
  }

  predicate IsOk(byProvider: map<string, Outcome>, id: string) {
    id in byProvider && byProvider[id].status.StatusOk?
  }

  method SelectResult(order: seq<string>, byProvider: map<string, Outcome>) returns (r: Option<Outcome>)
    ensures r.None? <==> forall id <- order :: !IsOk(byProvider, id)
    ensures r.Some? ==>
              exists i | 0 <= i < |order| ::
                IsOk(byProvider, order[i]) && r.value == byProvider[order[i]]
                && forall k :: 0 <= k < i ==> !IsOk(byProvider, order[k])
  {
    for i := 0 to |order|
      invariant forall k :: 0 <= k < i ==> !IsOk(byProvider, order[k])
    {
      if order[i] !in byProvider {
        continue;
      }
      var result := byProvider[order[i]];
      if result.status.StatusOk? {
        assert IsOk(byProvider, order[i]);
        return Some(result);
      }
    }
    return None;
  }

  lemma {:induction false} IndexFinds(results: seq<Outcome>)
    requires NoDup(Providers(results))
    ensures forall i :: 0 <= i < |results| ==>
              results[i].provider in Index(results) && Index(results)[results[i].provider] == results[i]
    ensures forall id :: id in Index(results) ==> id in Providers(results) && Index(results)[id] in results
  {
    if results != [] {
      var n := |results| - 1;
      assert Providers(results[..n]) == Providers(results)[..n];
      IndexFinds(results[..n]);
      assert results == results[..n] + [results[n]];
      forall i | 0 <= i < n
        ensures results[i].provider in Index(results) && Index(results)[results[i].provider] == results[i]
      {
        assert results[..n][i] == results[i] && Providers(results)[i] != Providers(results)[n];
      }
      forall id | id in Index(results) ensures id in Providers(results) && Index(results)[id] in results {
        if id == results[n].provider {
          assert Providers(results)[n] == id;
        } else {
          assert Index(results)[id] in results[..n];
        }
      }
    }
  }

  /** Of several results of one provider the last is found. */
  lemma {:induction false} IndexFindsLast(results: seq<Outcome>, i: nat)
    requires i < |results| && forall j :: i < j < |results| ==> results[j].provider != results[i].provider
    ensures results[i].provider in Index(results) && Index(results)[results[i].provider] == results[i]
  {
    var n := |results| - 1;
    if i < n {
      IndexFindsLast(results[..n], i);
    }
  }

  /** The first success in the order of the results' own providers: the best of all successes. */
  predicate IsSelected(results: seq<Outcome>, preferred: seq<string>, r: Option<Outcome>) {
    if r.None? then forall o <- results :: !o.status.StatusOk?
    else
      && r.value in results && r.value.status.StatusOk?
      && forall o <- results :: o.status.StatusOk? ==> Before(preferred, r.value.provider, o.provider)
  }

  /** The path of an aggregate request from its results to the order it lists and the result it picks. */
  method OrderAndSelect(results: seq<Outcome>, requested: Option<seq<string>>, defaults: seq<string>)
    returns (order: seq<string>, selected: Option<Outcome>)
    requires NoDup(Providers(results))
    ensures requested.Some? ==>
              && order == Sort(Providers(results), (a, b) => Before(requested.value, a, b))
              && IsSelected(results, requested.value, selected)
    ensures requested.None? ==>
              && order == Sort(Providers(results), (a, b) => Before(defaults, a, b))
              && IsSelected(results, defaults, selected)
  {
    ghost var preferred := Preferred(requested, defaults);
    order := BuildProviderOrder(Providers(results), requested, defaults);
    OrderIsSort(Providers(results), preferred);
    OrderIsRanked(Providers(results), preferred);
    IndexFinds(results);
    selected := SelectResult(order, Index(results));
    assert IsSelected(results, preferred, selected) by {
      FirstIsBest(results, preferred, order, selected);
    }
  }

  lemma FirstIsBest(results: seq<Outcome>, preferred: seq<string>, order: seq<string>, r: Option<Outcome>)
    requires NoDup(Providers(results))
    requires forall x :: x in order <==> x in Providers(results)
    requires Ordered(order, (a, b) => Before(preferred, a, b))
    requires r.None? ==> forall id <- order :: !IsOk(Index(results), id)
    requires r.Some? ==>
               exists i | 0 <= i < |order| ::
                 IsOk(Index(results), order[i]) && r.value == Index(results)[order[i]]
                 && forall k :: 0 <= k < i ==> !IsOk(Index(results), order[k])
    ensures IsSelected(results, preferred, r)
  {
    IndexFinds(results);
    forall o <- results | o.status.StatusOk?
      ensures r.Some? && Before(preferred, r.value.provider, o.provider)
    {
      Listed(results, order, o);
      if r.Some? {
        var i :| 0 <= i < |order| && IsOk(Index(results), order[i]) && r.value == Index(results)[order[i]]
          && forall k :: 0 <= k < i ==> !IsOk(Index(results), order[k]);
        ComesFirst(preferred, order, Index(results), i, o.provider);
      }
    }
  }

  lemma Listed(results: seq<Outcome>, order: seq<string>, o: Outcome)
    requires NoDup(Providers(results)) && forall x :: x in order <==> x in Providers(results)
    requires o in results && o.status.StatusOk?
    ensures o.provider in order && IsOk(Index(results), o.provider)
  {
    IndexFinds(results);
    var k :| 0 <= k < |results| && results[k] == o;
    assert Providers(results)[k] == o.provider;
  }

  lemma ComesFirst(preferred: seq<string>, order: seq<string>, byProvider: map<string, Outcome>, i: nat, id: string)
    requires i < |order| && id in order && IsOk(byProvider, id)
    requires Ordered(order, (a, b) => Before(preferred, a, b))
    requires forall k :: 0 <= k < i ==> !IsOk(byProvider, order[k])
    ensures Before(preferred, order[i], id)
  {
    var j :| 0 <= j < |order| && order[j] == id;
    StringLeqTotal(id, id);
  }

  /** Order and selection do not depend on the order in which results came in. */
  lemma SelectionIgnoresArrival(
    results: seq<Outcome>, other: seq<Outcome>, preferred: seq<string>, r: Option<Outcome>, s: Option<Outcome>)
    requires multiset(results) == multiset(other) && NoDup(Providers(results)) && NoDup(Providers(other))
    requires IsSelected(results, preferred, r) && IsSelected(other, preferred, s)
    ensures r == s
    ensures ProviderOrder(Providers(results), preferred) == ProviderOrder(Providers(other), preferred)
  {
    forall o ensures o in results <==> o in other {
      assert o in results <==> o in multiset(results);
      assert o in other <==> o in multiset(other);
    }
    BeforeIsAnOrder(preferred);
    if r.Some? && s.Some? {
      assert r.value.provider == s.value.provider;
      IndexFinds(results);
    }
    var mine, theirs := Providers(results), Providers(other);
    forall x ensures x in mine <==> x in theirs {
      ProvidersFollow(results, other, x);
      ProvidersFollow(other, results, x);
    }
    OrderIsRanked(mine, preferred);
    OrderIsRanked(theirs, preferred);
    var a, b := ProviderOrder(mine, preferred), ProviderOrder(theirs, preferred);
    SameBag(a, b);
    OrderedIsUnique(a, b, (x, y) => Before(preferred, x, y));
  }

  lemma ProvidersFollow(results: seq<Outcome>, other: seq<Outcome>, x: string)
    requires forall o <- results :: o in other
    ensures x in Providers(results) ==> x in Providers(other)
  {
    if x in Providers(results) {
      var k :| 0 <= k < |results| && Providers(results)[k] == x;
      assert results[k] in other;
      var j :| 0 <= j < |other| && other[j] == results[k];
      assert Providers(other)[j] == x;
    }
  }
}
