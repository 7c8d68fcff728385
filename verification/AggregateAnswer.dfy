/** price_api/core/aggregator.py and price_api/api/routes/aggregate_utils.py: what a run of the
    providers, the order of its results, the selection and the summary say together. */
module AggregateAnswer {
  import opened Options
  import opened Collections
  import opened Sorting
  import opened Selection
  import opened QuoteSummary
  import opened VaultMath
  import opened QuoteResolution
  import ProviderRunner
  import RunnerTheorems

  /** Whatever resolution does to the results of a run, it leaves each under its provider. The answer
      then lists every plugin of the run exactly once, summarises all of them, and selects a result
      exactly when the summary counts a success. */
  lemma AnswerCoversThePlugins(
    c: ProviderRunner.Config, steps: seq<ProviderRunner.Step>, r: nat,
    outcomes: seq<Outcome>, preferred: seq<string>, selected: Option<Outcome>)
    requires c.Valid() && ProviderRunner.Feasible(c, steps) && r in ProviderRunner.Exec(c, steps).runs
    requires var phase := ProviderRunner.Exec(c, steps).runs[r].phase; phase.Ended? && phase.ending.Returned?
    requires Providers(outcomes) == ProviderRunner.Ids(ProviderRunner.Exec(c, steps).runs[r].phase.ending.results)
    requires IsSelected(outcomes, preferred, selected)
    ensures var plugins := ProviderRunner.PluginIds(ProviderRunner.Exec(c, steps).runs[r].plugins);
            var order := ProviderOrder(Providers(outcomes), preferred);
            && multiset(order) == multiset(plugins) && NoDup(order)
            && order == Sort(Providers(outcomes), (a, b) => Before(preferred, a, b))
            && BuildQuoteSummary(outcomes).requested == |plugins|
            && (selected.None? <==> BuildQuoteSummary(outcomes).successful == 0)
  {
    RunnerTheorems.OneResultPerPlugin(c, steps, r);
    var plugins := ProviderRunner.PluginIds(ProviderRunner.Exec(c, steps).runs[r].plugins);
    OrderIsSort(Providers(outcomes), preferred);
    OrderIsRanked(Providers(outcomes), preferred);
    CountsAddUp(outcomes);
    assert |multiset(plugins)| == |multiset(Providers(outcomes))|;
  }

  /** The quotes of one request, each under its provider. */
  type Quotes = seq<(string, QuoteFields)>

  function Resolved(quotes: Quotes, amountIn: int, r: Option<Resolution>): Quotes {
    seq(|quotes|, i requires 0 <= i < |quotes| =>
      (quotes[i].0, if r.None? then quotes[i].1 else ResolvedQuote(quotes[i].1, amountIn, r.value)))
  }

  function Outcomes(quotes: Quotes): seq<Outcome> {
    seq(|quotes|, i requires 0 <= i < |quotes| =>
      Outcome(quotes[i].0, quotes[i].1.status, quotes[i].1.amountOut))
  }

  /** Whatever converter resolution is given, it keeps every quote under its provider, no success loses
      its amount, and the summary's amounts are positive uint256 values with the low at most the
      median at most the high. */
  lemma ResolvedQuotesSummarise(quotes: Quotes, amountIn: nat, r: Option<Resolution>)
    requires amountIn <= MAX_UINT256 && forall i :: 0 <= i < |quotes| ==> Delivered(quotes[i].1)
    ensures var outcomes := Outcomes(Resolved(quotes, amountIn, r));
            && Providers(outcomes) == Providers(Outcomes(quotes))
            && Quoted(outcomes)
            && BuildQuoteSummary(outcomes).successful <= BuildQuoteSummary(Outcomes(quotes)).successful
            && (BuildQuoteSummary(outcomes).successful > 0 ==>
                  var s := BuildQuoteSummary(outcomes);
                  && s.low.Some? && s.median.Some? && s.high.Some?
                  && 0 < s.low.value <= s.median.value <= s.high.value <= MAX_UINT256)
  {
    var outcomes := Outcomes(Resolved(quotes, amountIn, r));
    forall i | 0 <= i < |quotes|
      ensures Priced(outcomes[i])
      ensures outcomes[i].status.StatusOk? ==> Outcomes(quotes)[i].status.StatusOk?
    {
      if r.Some? {
        AnyConversionStaysDelivered(quotes[i].1, amountIn, r.value);
      }
    }
    FewerSucceed(outcomes, Outcomes(quotes));
    if Successful(outcomes) != [] {
      SummaryBounds(outcomes);
    }
  }

  /** A success with a positive uint256 amount, or a failure. */
  predicate Priced(o: Outcome) {
    o.status.StatusOk? ==> o.amountOut.Some? && 0 < o.amountOut.value <= MAX_UINT256
  }

  lemma {:induction false} FewerSucceed(a: seq<Outcome>, b: seq<Outcome>)
    requires |a| == |b| && forall i :: 0 <= i < |a| && a[i].status.StatusOk? ==> b[i].status.StatusOk?
    ensures |Successful(a)| <= |Successful(b)|
  {
    if a != [] {
      FewerSucceed(a[1..], b[1..]);
    }
  }
}
