/** price_api/core/normalizer.py: the sorted results and the summary of a quote request. */
module QuoteSummary {
  import opened Options
  import opened Collections
  import opened Sorting
  import opened Selection

  datatype Summary = Summary(
    requested: int, successful: int, failed: int, high: Option<int>, low: Option<int>, median: Option<int>)

  function Successful(results: seq<Outcome>): seq<Outcome> {
    if results == [] then []
    else if results[0].status.StatusOk? then [results[0]] + Successful(results[1..])
    else Successful(results[1..])
  }

  function Amounts(results: seq<Outcome>): seq<int> {
    if results == [] then []
    else if results[0].amountOut.Some? then [results[0].amountOut.value] + Amounts(results[1..])
    else Amounts(results[1..])
  }

  function Highest(s: seq<int>): (r: int)
    requires s != []
    ensures r in s && forall x <- s :: x <= r
  {
    assert s == [s[0]] + s[1..];
    if |s| == 1 then s[0] else Max(s[0], Highest(s[1..]))
  }

  function Lowest(s: seq<int>): (r: int)
    requires s != []
    ensures r in s && forall x <- s :: r <= x
  {
    assert s == [s[0]] + s[1..];
    if |s| == 1 then s[0] else Min(s[0], Lowest(s[1..]))
  }

  function AtMost(): (int, int) -> bool {
    (a, b) => a <= b
  }

  function Middle(sorted: seq<int>): int
    requires sorted != []
  {
    var mid := |sorted| / 2;
    if |sorted| % 2 == 1 then sorted[mid] else (sorted[mid - 1] + sorted[mid]) / 2
  }

  function BuildQuoteSummary(results: seq<Outcome>): Summary {
    var successful := Successful(results);
    var amounts := Sort(Amounts(successful), AtMost());
    Summary(
      |results|, |successful|, |results| - |successful|,
      if amounts == [] then None else Some(Highest(amounts)),
      if amounts == [] then None else Some(Lowest(amounts)),
      if amounts == [] then None else Some(Middle(amounts)))
  }

  predicate ResultLeq(a: Outcome, b: Outcome) {
    if a.status.StatusOk? != b.status.StatusOk? then a.status.StatusOk? else StringLeq(a.provider, b.provider)
  }

  function SortResults(results: seq<Outcome>): seq<Outcome> {
    Sort(results, ResultLeq)
  }

  // ---- bags


  lemma {:induction false} SuccessfulCounts(results: seq<Outcome>, o: Outcome)
    ensures multiset(Successful(results))[o] == if o.status.StatusOk? then multiset(results)[o] else 0
  {
    if results != [] {
      SuccessfulCounts(results[1..], o);
      assert results == [results[0]] + results[1..];
    }
  }

  lemma SuccessfulIsABag(results: seq<Outcome>, other: seq<Outcome>)
    requires multiset(results) == multiset(other)
    ensures multiset(Successful(results)) == multiset(Successful(other))
  {
    forall o ensures multiset(Successful(results))[o] == multiset(Successful(other))[o] {
      SuccessfulCounts(results, o);
      SuccessfulCounts(other, o);
    }
  }

  lemma {:induction false} AmountsWithout(results: seq<Outcome>, k: nat)
    requires k < |results|
    ensures multiset(Amounts(results))
            == multiset(Amounts(results[..k] + results[k + 1..]))
             + (if results[k].amountOut.Some? then multiset{results[k].amountOut.value} else multiset{})
  {
    var rest := results[..k] + results[k + 1..];
    if k == 0 {
      assert rest == results[1..];
    } else {
      AmountsWithout(results[1..], k - 1);
      assert rest[1..] == results[1..][..k - 1] + results[1..][k..];
    }
  }

  lemma {:induction false} AmountsAreABag(results: seq<Outcome>, other: seq<Outcome>)
    requires multiset(results) == multiset(other)
    ensures multiset(Amounts(results)) == multiset(Amounts(other))
  {
    if results == [] {
      assert |multiset(other)| == 0;
    } else {
      assert results[0] in multiset(other);
      var k :| 0 <= k < |other| && other[k] == results[0];
      var rest := other[..k] + other[k + 1..];
      assert other == other[..k] + [other[k]] + other[k + 1..];
      assert multiset(rest) == multiset(other) - multiset{results[0]};
      TailElements(results);
      AmountsAreABag(results[1..], rest);
      AmountsWithout(results, 0);
      AmountsWithout(other, k);
      assert results[..0] + results[0 + 1..] == results[1..];
    }
  }

  lemma IntsAreOrdered()
    ensures IsOrder(AtMost())
  {
  }

  // ---- theorems

  /** The summary, and the sorted list of distinct providers, do not depend on the order of arrival. */
  lemma SummaryIgnoresArrival(results: seq<Outcome>, other: seq<Outcome>)
    requires multiset(results) == multiset(other)
    ensures BuildQuoteSummary(results) == BuildQuoteSummary(other)
    ensures NoDup(Providers(results)) ==> SortResults(results) == SortResults(other)
  {
    SuccessfulIsABag(results, other);
    var mine, theirs := Successful(results), Successful(other);
    AmountsAreABag(mine, theirs);
    assert |multiset(mine)| == |multiset(theirs)| && |multiset(results)| == |multiset(other)|;
    IntsAreOrdered();
    SortOrders(Amounts(mine), AtMost());
    SortOrders(Amounts(theirs), AtMost());
    OrderedIsUnique(Sort(Amounts(mine), AtMost()), Sort(Amounts(theirs), AtMost()), AtMost());
    if NoDup(Providers(results)) {
      SortedResultsAgree(results, other);
    }
  }

  lemma ResultsAreOrdered()
    ensures IsOrder(ResultLeq)
  {
    StringsAreOrdered();
  }

  lemma SortedResultsAgree(results: seq<Outcome>, other: seq<Outcome>)
    requires multiset(results) == multiset(other) && NoDup(Providers(results))
    ensures SortResults(results) == SortResults(other)
  {
    ResultsAreOrdered();
    SortOrders(results, ResultLeq);
    SortOrders(other, ResultLeq);
    var s := SortResults(results);
    forall a, b | a in s && b in s && ResultLeq(a, b) && ResultLeq(b, a) ensures a == b {
      assert a in multiset(results) && b in multiset(results);
      TiesAreEqual(results, a, b);
    }
    OrderedIsUnique(s, SortResults(other), ResultLeq);
  }

  lemma TiesAreEqual(results: seq<Outcome>, a: Outcome, b: Outcome)
    requires NoDup(Providers(results)) && a in results && b in results
    requires ResultLeq(a, b) && ResultLeq(b, a)
    ensures a == b
  {
    StringLeqAntisymmetric(a.provider, b.provider);
    var i :| 0 <= i < |results| && results[i] == a;
    var j :| 0 <= j < |results| && results[j] == b;
    assert Providers(results)[i] == Providers(results)[j];
  }

  lemma {:induction false} AmountsOfOk(results: seq<Outcome>)
    requires forall o <- results :: o.amountOut.Some?
    ensures |Amounts(results)| == |results|
    ensures forall o <- results :: o.amountOut.value in Amounts(results)
    ensures forall x <- Amounts(results) :: exists o <- results :: o.amountOut == Some(x)
  {
    if results != [] {
      AmountsOfOk(results[1..]);
      assert results == [results[0]] + results[1..];
      var amounts := Amounts(results);
      forall x <- amounts ensures exists o <- results :: o.amountOut == Some(x) {
        if x != results[0].amountOut.value {
          assert x in Amounts(results[1..]);
          var o :| o in results[1..] && o.amountOut == Some(x);
          assert o in results;
        } else {
          assert results[0] in results;
        }
      }
    }
  }

  /** Every success has an amount, which the result's own validator demands. */
  predicate Quoted(results: seq<Outcome>) {
    forall o <- results :: o.status.StatusOk? ==> o.amountOut.Some?
  }

  lemma {:induction false} SuccessfulAreOk(results: seq<Outcome>)
    ensures |Successful(results)| <= |results|
    ensures forall o :: o in Successful(results) <==> o in results && o.status.StatusOk?
  {
    if results != [] {
      SuccessfulAreOk(results[1..]);
      assert results == [results[0]] + results[1..];
    }
  }

  predicate Within(results: seq<Outcome>, low: int, high: int) {
    forall o <- results :: o.status.StatusOk? && o.amountOut.Some? ==> low <= o.amountOut.value <= high
  }

  predicate Attained(results: seq<Outcome>, amount: int) {
    exists o <- results :: o.status.StatusOk? && o.amountOut == Some(amount)
  }

  /** The places of the results that are successes, and of those that are not. */
  function Places(results: seq<Outcome>, ok: bool): set<int> {
    set i | 0 <= i < |results| && results[i].status.StatusOk? == ok
  }

  lemma {:induction false} SuccessfulIsPlaces(results: seq<Outcome>)
    ensures |Successful(results)| == |Places(results, true)|
    ensures |Places(results, true)| + |Places(results, false)| == |results|
  {
    if results != [] {
      var n := |results| - 1;
      var init := results[..n];
      SuccessfulIsPlaces(init);
      SuccessfulOfLonger(init, results[n]);
      assert results == init + [results[n]];
      PlacesOfLonger(results, true);
      PlacesOfLonger(results, false);
    } else {
      assert Places(results, true) == {} && Places(results, false) == {};
    }
  }

  lemma PlacesOfLonger(results: seq<Outcome>, ok: bool)
    requires results != []
    ensures var n := |results| - 1;
            |Places(results, ok)| == |Places(results[..n], ok)| + if results[n].status.StatusOk? == ok then 1 else 0
  {
    var n := |results| - 1;
    var before := Places(results[..n], ok);
    if results[n].status.StatusOk? == ok {
      assert Places(results, ok) == before + {n};
    } else {
      assert Places(results, ok) == before;
    }
  }

  lemma {:induction false} SuccessfulOfLonger(results: seq<Outcome>, o: Outcome)
    ensures Successful(results + [o]) == Successful(results) + if o.status.StatusOk? then [o] else []
  {
    if results == [] {
      assert results + [o] == [o] && [o][1..] == [];
    } else {
      SuccessfulOfLonger(results[1..], o);
      assert (results + [o])[0] == results[0] && (results + [o])[1..] == results[1..] + [o];
    }
  }

  /** The counts are those of the results that are OK and of those that are not. */
  lemma CountsAreExact(results: seq<Outcome>)
    ensures var s := BuildQuoteSummary(results);
            && s.requested == |results|
            && s.successful == |set i | 0 <= i < |results| && results[i].status.StatusOk?|
            && s.failed == |set i | 0 <= i < |results| && !results[i].status.StatusOk?|
  {
    SuccessfulIsPlaces(results);
    assert Places(results, true) == set i | 0 <= i < |results| && results[i].status.StatusOk?;
    assert Places(results, false) == set i | 0 <= i < |results| && !results[i].status.StatusOk?;
  }

  /** The list of results has the successes first, and within each kind goes by provider. */
  lemma SortedResults(results: seq<Outcome>)
    ensures var sorted := SortResults(results);
            && multiset(sorted) == multiset(results)
            && forall i, j :: 0 <= i < j < |sorted| ==>
                 && (sorted[j].status.StatusOk? ==> sorted[i].status.StatusOk?)
                 && ((sorted[i].status.StatusOk? == sorted[j].status.StatusOk?) ==>
                       StringLeq(sorted[i].provider, sorted[j].provider))
  {
    ResultsAreOrdered();
    SortOrders(results, ResultLeq);
  }

  /** The counts of a price or quote summary: they add up, and none succeeded exactly if none is OK. */
  lemma CountsAddUp(results: seq<Outcome>)
    ensures var s := BuildQuoteSummary(results);
            && s.requested == |results| && s.successful + s.failed == s.requested
            && 0 <= s.failed && 0 <= s.successful
            && (s.successful == 0 <==> forall o <- results :: !o.status.StatusOk?)
  {
    SuccessfulAreOk(results);
    if Successful(results) != [] {
      assert Successful(results)[0] in Successful(results);
    }
  }

  /** Counts add up, and there is a low, a median and a high exactly when something succeeded. */
  lemma SummaryCounts(results: seq<Outcome>)
    requires Quoted(results)
    ensures var s := BuildQuoteSummary(results);
            && s.requested == |results| && s.successful + s.failed == s.requested && 0 <= s.failed
            && (s.successful == 0 <==> forall o <- results :: !o.status.StatusOk?)
            && (s.low.Some? <==> s.successful > 0) && s.high.Some? == s.median.Some? == s.low.Some?
  {
    CountsAddUp(results);
    SuccessfulAreOk(results);
    AmountsOfOk(Successful(results));
  }

  /** The low and the high are amounts of successes, all of which lie between them, and the median
      splits them. */
  lemma SummaryBounds(results: seq<Outcome>)
    requires Quoted(results) && Successful(results) != []
    ensures var s := BuildQuoteSummary(results);
            && s.low.Some? && s.median.Some? && s.high.Some?
            && s.low.value <= s.median.value <= s.high.value
            && Attained(results, s.low.value) && Attained(results, s.high.value)
            && Within(results, s.low.value, s.high.value)
            && Splits(Sort(Amounts(Successful(results)), AtMost()), s.median.value)
  {
    var ok := Successful(results);
    SuccessfulAreOk(results);
    AmountsOfOk(ok);
    var sorted := Sort(Amounts(ok), AtMost());
    SortRises(Amounts(ok));
    MedianSplits(sorted);
    SameElements(sorted, Amounts(ok));
    AmountsReach(results, Lowest(sorted));
    AmountsReach(results, Highest(sorted));
    forall o <- results | o.status.StatusOk? ensures Lowest(sorted) <= o.amountOut.value <= Highest(sorted) {
      SuccessfulAreOk(results);
      assert o in ok;
    }
  }

  lemma AmountsReach(results: seq<Outcome>, amount: int)
    requires Quoted(results) && amount in Amounts(Successful(results))
    ensures Attained(results, amount)
  {
    SuccessfulAreOk(results);
    AmountsOfOk(Successful(results));
  }

  ghost predicate Rising(s: seq<int>) {
    forall i, j :: 0 <= i <= j < |s| ==> s[i] <= s[j]
  }

  /** What makes a number a median of a rising list: the first ceil(n/2) are no more, the last
      ceil(n/2) are no less. */
  ghost predicate Splits(sorted: seq<int>, m: int) {
    && (forall i :: 0 <= i < |sorted| && 2 * i < |sorted| ==> sorted[i] <= m)
    && (forall i :: 0 <= i < |sorted| && |sorted| <= 2 * i + 1 ==> m <= sorted[i])
  }

  lemma MiddleSplits(sorted: seq<int>)
    requires sorted != [] && Rising(sorted)
    ensures Splits(sorted, Middle(sorted)) && sorted[0] <= Middle(sorted) <= sorted[|sorted| - 1]
    ensures |sorted| % 2 == 0 ==>
              var a, b := sorted[|sorted| / 2 - 1], sorted[|sorted| / 2];
              2 * Middle(sorted) <= a + b <= 2 * Middle(sorted) + 1
  {
    var mid, m := |sorted| / 2, Middle(sorted);
    if |sorted| % 2 == 1 {
      assert m == sorted[mid];
    } else {
      assert sorted[mid - 1] <= m <= sorted[mid];
    }
  }

  lemma SortRises(amounts: seq<int>)
    ensures Rising(Sort(amounts, AtMost()))
  {
    IntsAreOrdered();
    SortOrders(amounts, AtMost());
  }

  lemma MedianSplits(sorted: seq<int>)
    requires sorted != [] && Rising(sorted)
    ensures Splits(sorted, Middle(sorted)) && Lowest(sorted) <= Middle(sorted) <= Highest(sorted)
  {
    MiddleSplits(sorted);
    assert sorted[0] in sorted && sorted[|sorted| - 1] in sorted;
  }
}
