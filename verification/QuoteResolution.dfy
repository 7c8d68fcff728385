/** price_api/core/vault_underlying.py: turning the quotes of an underlying token back into quotes of
    the vault share that was asked for, in place, result by result. */
module QuoteResolution {
  import opened Options
  import opened ProviderModels
  import opened VaultMath

  datatype VaultType = Erc4626 | YearnV2

  /** A price per share, as assets over the underlying unit. */
  datatype Rate = Rate(assets: nat, unit: nat)

  datatype VaultContext = VaultContext(
    vaultType: Option<VaultType>,
    underlying: Option<string>, underlyingIn: Option<string>, underlyingOut: Option<string>,
    rate: Option<Rate>, rateIn: Option<Rate>, rateOut: Option<Rate>,
    block: nat)

  /** A converter either answers or raises. */
  type Converter = int -> Option<int>

  datatype Resolution = Resolution(
    input: Option<VaultContext>, output: Option<VaultContext>, converter: Option<Converter>)

  /** The fields of a quote result that resolution reads or writes. */
  datatype QuoteFields = QuoteFields(
    status: Status, amountIn: Option<int>, amountOut: Option<int>, amountOutMin: Option<int>,
    error: Option<ErrorInfo>, context: Option<VaultContext>)

  predicate ValidConverted(value: int, allowZero: bool) {
    (if allowZero then value >= 0 else value > 0) && value <= MAX_UINT256
  }

  /** None when the conversion fails for any reason. */
  function ConvertedAmounts(out: Option<int>, outMin: Option<int>, convert: Converter): Option<(int, Option<int>)> {
    if out.None? then None
    else
      var converted := convert(out.value);
      var convertedMin := if outMin.Some? then convert(outMin.value) else Some(0);
      if converted.None? || convertedMin.None? then None
      else if !ValidConverted(converted.value, false) then None
      else if outMin.Some? && !(ValidConverted(convertedMin.value, true) && convertedMin.value <= converted.value)
      then None
      else Some((converted.value, if outMin.Some? then convertedMin else None))
  }

  function QuoteContext(input: Option<VaultContext>, output: Option<VaultContext>): (context: Option<VaultContext>)
    ensures context.Some? <==> input.Some? || output.Some?
    ensures context.Some? ==>
              && context.value.underlying.None? && context.value.rate.None?
              && context.value.underlyingIn == (if input.Some? then input.value.underlying else None)
              && context.value.underlyingOut == (if output.Some? then output.value.underlying else None)
              && context.value.rateIn == (if input.Some? then input.value.rate else None)
              && context.value.rateOut == (if output.Some? then output.value.rate else None)
              && context.value.block == (if input.Some? then input.value.block else output.value.block)
              && context.value.vaultType == (
                    if input.None? then output.value.vaultType
                    else if output.None? || input.value.vaultType == output.value.vaultType then input.value.vaultType
                    else None)
  {
    if input.None? && output.None? then None
    else if output.None? then
      Some(input.value.(underlying := None, underlyingIn := input.value.underlying, underlyingOut := None,
                        rate := None, rateIn := input.value.rate, rateOut := None))
    else if input.None? then
      Some(output.value.(underlying := None, underlyingIn := None, underlyingOut := output.value.underlying,
                         rate := None, rateIn := None, rateOut := output.value.rate))
    else
      Some(VaultContext(
        if input.value.vaultType == output.value.vaultType then input.value.vaultType else None,
        None, input.value.underlying, output.value.underlying,
        None, input.value.rate, output.value.rate,
        input.value.block))
  }

  function FailedQuote(q: QuoteFields): QuoteFields {
    q.(status := StatusError, amountOut := None, amountOutMin := None,
       error := Some(ErrorInfo(InvalidVaultConversion, None)))
  }

  /** What resolution makes of one result, given the caller's original amount. */
  function ResolvedQuote(q: QuoteFields, amountIn: int, r: Resolution): QuoteFields {
    if !q.status.StatusOk? then q
    else
      var own := q.(amountIn := Some(amountIn));
      if r.output.None? then own.(context := QuoteContext(r.input, r.output))
      else if r.converter.None? then FailedQuote(own)
      else
        var amounts := ConvertedAmounts(q.amountOut, q.amountOutMin, r.converter.value);
        if amounts.None? then FailedQuote(own)
        else
          own.(amountOut := Some(amounts.value.0), amountOutMin := amounts.value.1,
               context := QuoteContext(r.input, r.output))
  }

  class QuoteResult {
    var status: Status
    var amountIn: Option<int>
    var amountOut: Option<int>
    var amountOutMin: Option<int>
    var error: Option<ErrorInfo>
    var context: Option<VaultContext>

    function Snapshot(): QuoteFields
      reads this
    {
      QuoteFields(status, amountIn, amountOut, amountOutMin, error, context)
    }

    constructor (q: QuoteFields)
      ensures Snapshot() == q
    {
      status, amountIn, amountOut := q.status, q.amountIn, q.amountOut;
      amountOutMin, error, context := q.amountOutMin, q.error, q.context;
    }

    method MarkConversionFailure()
      modifies this
      ensures Snapshot() == FailedQuote(old(Snapshot()))
    {
      status := StatusError;
      amountOut := None;
      amountOutMin := None;
      error := Some(ErrorInfo(InvalidVaultConversion, None));
    }

    method Resolve(newAmountIn: int, r: Resolution)
      modifies this
      ensures Snapshot() == ResolvedQuote(old(Snapshot()), newAmountIn, r)
    {
      if !status.StatusOk? {
        return;
      }
      amountIn := Some(newAmountIn);
      if r.output.Some? && r.converter.None? {
        MarkConversionFailure();
        return;
      }
      if r.output.Some? {
        var amounts := ConvertedAmounts(amountOut, amountOutMin, r.converter.value);
        if amounts.None? {
          MarkConversionFailure();
          return;
        }
        amountOut := Some(amounts.value.0);
        amountOutMin := amounts.value.1;
      }
      context := QuoteContext(r.input, r.output);
    }
  }

  /** The loop over the results: each is resolved for itself, whatever the others hold. */
  method ApplyQuoteResolution(results: seq<QuoteResult>, amountIn: int, r: Option<Resolution>)
    requires forall i, j :: 0 <= i < j < |results| ==> results[i] != results[j]
    modifies results
    ensures forall i :: 0 <= i < |results| ==>
              results[i].Snapshot() == var was := old(results[i].Snapshot());
                                       if r.None? then was else ResolvedQuote(was, amountIn, r.value)
  {
    if r.None? {
      return;
    }
    for n := 0 to |results|
      invariant forall i :: 0 <= i < n ==>
          results[i].Snapshot() == ResolvedQuote(old(results[i].Snapshot()), amountIn, r.value)
      invariant forall i :: n <= i < |results| ==> results[i].Snapshot() == old(results[i].Snapshot())
    {
      results[n].Resolve(amountIn, r.value);
    }
  }

  /** The resolver's own converter for a vault. */
  function OwnConverter(v: VaultInfo): Converter {
    (assets: int) => if assets < 0 then None else v.AssetsToShares(assets)
  }

  /** A quote as providers deliver it. */
  predicate Delivered(q: QuoteFields) {
    && (q.amountIn.Some? ==> 0 <= q.amountIn.value <= MAX_UINT256)
    && (q.amountOut.Some? ==> 0 <= q.amountOut.value <= MAX_UINT256)
    && (q.amountOutMin.Some? ==> 0 <= q.amountOutMin.value <= MAX_UINT256)
    && (q.amountOut.Some? && q.amountOutMin.Some? ==> q.amountOutMin.value <= q.amountOut.value)
    && (q.status.StatusOk? ==> q.amountOut.Some? && q.amountOut.value > 0 && q.error.None?)
  }

  /** Whatever a converter answers, a successful result stays within the bounds of a quote, or fails. */
  lemma AnyConversionStaysDelivered(q: QuoteFields, amountIn: nat, r: Resolution)
    requires Delivered(q) && amountIn <= MAX_UINT256
    ensures var after := ResolvedQuote(q, amountIn, r);
            && Delivered(after)
            && (after.status.StatusOk? ==> q.status.StatusOk? && after.amountIn == Some(amountIn))
            && (q.status.StatusOk? && !after.status.StatusOk? <==>
                  q.status.StatusOk? && r.output.Some?
                  && (r.converter.None? || ConvertedAmounts(q.amountOut, q.amountOutMin, r.converter.value).None?))
  {
  }

  /** With the resolver's own converter at a positive rate, a successful quote fails exactly when its
      output converts to zero shares or beyond a uint256; the minimum is never what fails it. Every
      other successful quote keeps 0 <= min <= out <= 2^256 - 1, states the caller's own amount, and
      gives up less than one share to rounding. Any other result is left alone. */
  lemma OwnConversionKeepsQuotes(q: QuoteFields, amountIn: nat, r: Resolution, v: VaultInfo)
    requires Delivered(q) && amountIn <= MAX_UINT256
    requires v.assetsPerShareUnit > 0
    requires r.output.Some? ==> r.converter == Some(OwnConverter(v))
    ensures var after := ResolvedQuote(q, amountIn, r);
            && Delivered(after)
            && (!q.status.StatusOk? ==> after == q)
            && (q.status.StatusOk? ==>
                  var shares := FloorMul(q.amountOut.value, v.ShareUnit(), v.assetsPerShareUnit);
                  && after.amountIn == Some(amountIn)
                  && (after.status.StatusOk? <==> r.output.None? || 0 < shares <= MAX_UINT256)
                  && (!after.status.StatusOk? ==>
                        after.status.StatusError? && after.amountOut.None? && after.amountOutMin.None?
                        && after.error == Some(ErrorInfo(InvalidVaultConversion, None)))
                  && (after.status.StatusOk? && r.output.None? ==>
                        after.amountOut == q.amountOut && after.amountOutMin == q.amountOutMin)
                  && (after.status.StatusOk? && r.output.Some? ==>
                        && after.amountOut == Some(shares)
                        && after.amountOutMin == (if q.amountOutMin.None? then None else
                              Some(FloorMul(q.amountOutMin.value, v.ShareUnit(), v.assetsPerShareUnit)))
                        && v.SharesToAssets(shares) <= q.amountOut.value)
                  && (after.status.StatusOk? ==> after.context == QuoteContext(r.input, r.output)))
  {
    if q.status.StatusOk? && r.output.Some? {
      if q.amountOutMin.Some? {
        FloorMulMonotone(q.amountOutMin.value, q.amountOut.value, v.ShareUnit(), v.assetsPerShareUnit);
      }
      RoundTripLoss(q.amountOut.value, v.ShareUnit(), v.assetsPerShareUnit);
    }
  }
}
