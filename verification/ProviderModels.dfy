/** The parts of provider results that the runner, the breaker and the summaries read. */
module ProviderModels {
  import opened Options

  datatype Status = StatusOk | NoRoute | StatusError | BadRequest

  datatype ErrorType =
    | Timeout | RateLimited | UpstreamHttp | UpstreamParse | TransportTimeout | NoRouteFound
    | UnsupportedOperation | UnsupportedChain | ProviderUnavailable | DeadlineExceeded | Internal
    | VaultResolutionFailed | InvalidVaultConversion

  datatype ErrorInfo = ErrorInfo(kind: ErrorType, retryAfterMs: Option<int>)

  datatype Operation = Price | Quote
}
