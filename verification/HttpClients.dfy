/** price_api/providers/clients/http.py: the transport that replaces its pooled client when it is old,
    has served its share of requests, or times out too often. A client is identified by the order of
    its creation. */
module HttpClients {
  import opened Options
  import opened SlidingWindow

  datatype Reason = TtlExpired | RequestsSpent | PoolTimeouts | Asked(reason: string)

  datatype Transport = Transport(ttlMs: int, maxRequests: int, threshold: int, windowMs: int, attempts: int)
  {
    /** Settings are positive, and there is at least one attempt. */
    predicate Valid() {
      ttlMs >= 1 && maxRequests >= 1 && threshold >= 1 && windowMs >= 1 && attempts >= 1
    }
  }

  datatype Pool = Pool(
    client: nat, created: nat, createdAt: int, requestCount: int, events: seq<int>,
    waiting: set<nat>, lastRecycle: Option<(Reason, int)>)

  function Replaced(p: Pool, reason: Reason, now: int): Pool {
    p.(client := p.created, created := p.created + 1, createdAt := now, requestCount := 0,
       waiting := p.waiting + {p.client}, lastRecycle := Some((reason, now)))
  }

  function RecycledIfNeeded(c: Transport, p: Pool, now: int): Pool {
    if now - p.createdAt >= c.ttlMs then Replaced(p, TtlExpired, now)
    else if p.requestCount >= c.maxRequests then Replaced(p, RequestsSpent, now)
    else p
  }

  function Requested(c: Transport, p: Pool, now: int): Pool {
    var q := RecycledIfNeeded(c, p, now);
    q.(requestCount := q.requestCount + 1)
  }

  function TimedOut(c: Transport, p: Pool, now: int): Pool {
    var kept := DropBefore(p.events + [now], now - c.windowMs);
    if |kept| >= c.threshold then Replaced(p.(events := []), PoolTimeouts, now) else p.(events := kept)
  }

  class HttpClient {
    const config: Transport
    var client: nat
    var created: nat
    var createdAt: int
    var requestCount: int
    var poolTimeoutEvents: seq<int>
    var backgroundTasks: set<nat>
    var lastRecycle: Option<(Reason, int)>

    function State(): Pool
      reads this
    {
      Pool(client, created, createdAt, requestCount, poolTimeoutEvents, backgroundTasks, lastRecycle)
    }

    constructor (config: Transport, now: int)
      ensures this.config == config && State() == Pool(0, 1, now, 0, [], {}, None)
    {
      this.config := config;
      client, created, createdAt, requestCount := 0, 1, now, 0;
      poolTimeoutEvents, backgroundTasks, lastRecycle := [], {}, None;
    }

    method ReplaceClient(reason: Reason, now: int)
      modifies this
      ensures State() == Replaced(old(State()), reason, now)
      ensures client == old(created) && created == old(created) + 1 && createdAt == now && requestCount == 0
      ensures backgroundTasks == old(backgroundTasks) + {old(client)} && lastRecycle == Some((reason, now))
      ensures poolTimeoutEvents == old(poolTimeoutEvents)
    {
      var oldClient := client;
      client := created;
      created := created + 1;
      createdAt := now;
      requestCount := 0;
      lastRecycle := Some((reason, now));
      backgroundTasks := backgroundTasks + {oldClient};
    }

    method RecycleIfNeeded(now: int)
      modifies this
      ensures State() == RecycledIfNeeded(config, old(State()), now)
    {
      if now - createdAt >= config.ttlMs {
        ReplaceClient(TtlExpired, now);
        return;
      }
      if requestCount >= config.maxRequests {
        ReplaceClient(RequestsSpent, now);
      }
    }

    /** The client that a request goes out on is fresh and has requests to spare. */
    method TakeClient(now: int) returns (taken: nat)
      requires config.Valid()
      modifies this
      ensures State() == Requested(config, old(State()), now)
      ensures taken == client && now - createdAt < config.ttlMs && requestCount <= config.maxRequests
      ensures var aged, spent := now - old(createdAt) >= config.ttlMs, old(requestCount) >= config.maxRequests;
              && poolTimeoutEvents == old(poolTimeoutEvents)
              && if aged || spent then
                   && client == old(created) && created == old(created) + 1
                   && createdAt == now && requestCount == 1
                   && backgroundTasks == old(backgroundTasks) + {old(client)}
                   && lastRecycle == Some((if aged then TtlExpired else RequestsSpent, now))
                 else
                   && client == old(client) && created == old(created)
                   && createdAt == old(createdAt) && requestCount == old(requestCount) + 1
                   && backgroundTasks == old(backgroundTasks) && lastRecycle == old(lastRecycle)
    {
      RecycleIfNeeded(now);
      taken := client;
      requestCount := requestCount + 1;
    }

    method RecordPoolTimeout(now: int)
      modifies this
      ensures State() == TimedOut(config, old(State()), now)
    {
      poolTimeoutEvents := poolTimeoutEvents + [now];
      var cutoff := now - config.windowMs;
      while poolTimeoutEvents != [] && poolTimeoutEvents[0] < cutoff
        invariant State() == old(State()).(events := poolTimeoutEvents)
        invariant DropBefore(old(poolTimeoutEvents) + [now], cutoff) == DropBefore(poolTimeoutEvents, cutoff)
        decreases |poolTimeoutEvents|
      {
        poolTimeoutEvents := poolTimeoutEvents[1..];
      }
      if |poolTimeoutEvents| >= config.threshold {
        poolTimeoutEvents := [];
        ReplaceClient(PoolTimeouts, now);
      }
    }

    method CloseAfterGrace(client: nat)
      modifies this`backgroundTasks
      ensures State() == old(State()).(waiting := old(State()).waiting - {client})
    {
      backgroundTasks := backgroundTasks - {client};
    }

    method RecentPoolTimeoutCount(now: int) returns (count: nat)
      ensures count == |Recent(poolTimeoutEvents, now - config.windowMs)|
    {
      count := 0;
      var cutoff := now - config.windowMs;
      for i := 0 to |poolTimeoutEvents|
        invariant count + |Recent(poolTimeoutEvents[i..], cutoff)| == |Recent(poolTimeoutEvents, cutoff)|
      {
        assert poolTimeoutEvents[i..][1..] == poolTimeoutEvents[i + 1..];
        if poolTimeoutEvents[i] >= cutoff {
          count := count + 1;
        }
      }
    }
  }
}
