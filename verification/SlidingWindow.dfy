/** The `append, then popleft while too old` deque of time stamps that the circuit breaker and
    the HTTP client both keep. The reference is a log that is never pruned and is filtered by
    age when it is read. */
module SlidingWindow {

  ghost predicate Ascending(s: seq<int>) {
    forall i, j :: 0 <= i < j < |s| ==> s[i] <= s[j]
  }

  lemma AscendingAppend(log: seq<int>, now: int)
    requires Ascending(log)
    requires log != [] ==> log[|log| - 1] <= now
    ensures Ascending(log + [now])
  {
  }

  /** What the popleft loop leaves. */
  function DropBefore(s: seq<int>, cutoff: int): seq<int> {
    if s != [] && s[0] < cutoff then DropBefore(s[1..], cutoff) else s
  }

  /** The entries of a log that are no older than the cutoff. */
  function Recent(s: seq<int>, cutoff: int): (r: seq<int>)
    ensures |r| <= |s|
    ensures forall i :: 0 <= i < |r| ==> cutoff <= r[i]
  {
    if s == [] then []
    else if s[0] < cutoff then Recent(s[1..], cutoff)
    else [s[0]] + Recent(s[1..], cutoff)
  }

  lemma {:induction false} RecentKeepsAll(s: seq<int>, cutoff: int)
    requires forall i :: 0 <= i < |s| ==> cutoff <= s[i]
    ensures Recent(s, cutoff) == s
  {
    if s != [] {
      RecentKeepsAll(s[1..], cutoff);
    }
  }

  /** On a log in time order, dropping from the front is filtering. */
  lemma {:induction false} DropIsFilter(s: seq<int>, cutoff: int)
    requires Ascending(s)
    ensures DropBefore(s, cutoff) == Recent(s, cutoff)
  {
    if s == [] {
    } else if s[0] < cutoff {
      DropIsFilter(s[1..], cutoff);
    } else {
      RecentKeepsAll(s, cutoff);
    }
  }

  lemma {:induction false} DropTwice(s: seq<int>, x: int, older: int, newer: int)
    requires older <= newer
    ensures DropBefore(DropBefore(s, older) + [x], newer) == DropBefore(s + [x], newer)
  {
    if s != [] && s[0] < older {
      DropTwice(s[1..], x, older, newer);
      assert (s + [x])[1..] == s[1..] + [x];
    }
  }

  /** One append-and-prune of a deque that is the filter of a log gives the filter of the longer
      log: the pruned deque never forgets a time stamp that still matters. */
  lemma PruneRefinesLog(log: seq<int>, deque: seq<int>, older: int, now: int, newer: int)
    requires Ascending(log + [now])
    requires deque == Recent(log, older) && older <= newer
    ensures DropBefore(deque + [now], newer) == Recent(log + [now], newer)
  {
    assert log == (log + [now])[..|log|];
    DropIsFilter(log, older);
    DropTwice(log, now, older, newer);
    DropIsFilter(log + [now], newer);
  }

  /** The newest entry is never dropped. */
  lemma {:induction false} LastIsKept(log: seq<int>, now: int, cutoff: int)
    requires cutoff <= now
    ensures var r := Recent(log + [now], cutoff); r != [] && r[|r| - 1] == now
  {
    if log != [] {
      LastIsKept(log[1..], now, cutoff);
      assert (log + [now])[1..] == log[1..] + [now];
    } else {
      assert [] + [now] == [now];
    }
  }
}
