/** A bounded, expiring, least-recently-used map, kept as the entries of an ordered dictionary from
    the least to the most recently used, against a map that keeps every key's latest entry. */
module LruTtl {
  import opened Options
  import opened Collections

  datatype Entry<K, V> = Entry(key: K, value: V, expiresAt: int)

  function Without<K(==), V>(c: seq<Entry<K, V>>, k: K): (r: seq<Entry<K, V>>)
    ensures |r| <= |c|
  {
    if c == [] then []
    else if c[0].key == k then Without(c[1..], k)
    else [c[0]] + Without(c[1..], k)
  }

  function Unexpired<K, V>(c: seq<Entry<K, V>>, now: int): (r: seq<Entry<K, V>>)
    ensures |r| <= |c|
  {
    if c == [] then []
    else if c[0].expiresAt <= now then Unexpired(c[1..], now)
    else [c[0]] + Unexpired(c[1..], now)
  }

  function Trimmed<K, V>(c: seq<Entry<K, V>>, limit: nat): seq<Entry<K, V>> {
    if |c| <= limit then c else c[|c| - limit..]
  }

  function Stored<K(==), V>(c: seq<Entry<K, V>>, e: Entry<K, V>, limit: nat): seq<Entry<K, V>> {
    Trimmed(Without(c, e.key) + [e], limit)
  }

  function Lookup<K(==), V>(c: seq<Entry<K, V>>, k: K): (e: Option<Entry<K, V>>)
    ensures e.Some? ==> e.value in c && e.value.key == k
    ensures e.None? ==> forall x <- c :: x.key != k
  {
    if c == [] then None else if c[0].key == k then Some(c[0]) else Lookup(c[1..], k)
  }

  lemma {:induction false} WithoutMembers<K, V>(c: seq<Entry<K, V>>, k: K, e: Entry<K, V>)
    ensures e in Without(c, k) <==> e in c && e.key != k
  {
    if c != [] {
      WithoutMembers(c[1..], k, e);
    }
  }

  lemma {:induction false} UnexpiredMembers<K, V>(c: seq<Entry<K, V>>, now: int, e: Entry<K, V>)
    ensures e in Unexpired(c, now) <==> e in c && now < e.expiresAt
  {
    if c != [] {
      UnexpiredMembers(c[1..], now, e);
    }
  }

  // ---- the reference

  /** Every key's latest stored value and expiry; nothing is evicted. */
  type Reference<!K, V> = map<K, (V, int)>

  /** The distinct other keys stored or hit since k was last stored or hit. */
  function Since<K(==)>(touches: seq<K>, k: K): (others: set<K>)
    ensures k !in others
  {
    if touches == [] then {}
    else
      var last := touches[|touches| - 1];
      if last == k then {} else Since(touches[..|touches| - 1], k) + {last}
  }

  lemma SinceTouch<K>(touches: seq<K>, x: K, k: K)
    ensures Since(touches + [x], k) == if x == k then {} else Since(touches, k) + {x}
  {
    assert (touches + [x])[..|touches|] == touches;
  }

  /** The entries are in the order of use: whatever comes later was used later. */
  ghost predicate Ordered<K, V>(c: seq<Entry<K, V>>, touches: seq<K>) {
    c == [] || ((forall e <- c[1..] :: e.key in Since(touches, c[0].key)) && Ordered(c[1..], touches))
  }

  ghost predicate Present<K, V>(c: seq<Entry<K, V>>, k: K) {
    exists e <- c :: e.key == k
  }

  /** Every entry is the reference's latest; whatever is missing has expired or was displaced by
      `limit` distinct other keys. */
  ghost predicate Refines<K, V>(
      c: seq<Entry<K, V>>, ref: Reference<K, V>, touches: seq<K>, now: int, limit: nat) {
    && |c| <= limit
    && Ordered(c, touches)
    && (forall e <- c :: e.key in ref && ref[e.key] == (e.value, e.expiresAt))
    && (forall k <- ref :: Present(c, k) || ref[k].1 <= now || |Since(touches, k)| >= limit)
  }

  lemma {:induction false} WithoutOrdered<K, V>(c: seq<Entry<K, V>>, k: K, touches: seq<K>)
    requires Ordered(c, touches)
    ensures Ordered(Without(c, k), touches)
  {
    if c != [] {
      WithoutOrdered(c[1..], k, touches);
      forall e <- Without(c[1..], k) ensures e in c[1..] {
        WithoutMembers(c[1..], k, e);
      }
      if c[0].key != k {
        assert Without(c, k)[1..] == Without(c[1..], k);
      }
    }
  }

  lemma {:induction false} UnexpiredOrdered<K, V>(c: seq<Entry<K, V>>, now: int, touches: seq<K>)
    requires Ordered(c, touches)
    ensures Ordered(Unexpired(c, now), touches)
  {
    if c != [] {
      UnexpiredOrdered(c[1..], now, touches);
      forall e <- Unexpired(c[1..], now) ensures e in c[1..] {
        UnexpiredMembers(c[1..], now, e);
      }
      if now < c[0].expiresAt {
        assert Unexpired(c, now)[1..] == Unexpired(c[1..], now);
      }
    }
  }

  /** Using a key puts it behind all others. */
  lemma {:induction false} AppendOrdered<K, V>(c: seq<Entry<K, V>>, e: Entry<K, V>, touches: seq<K>)
    requires Ordered(c, touches) && forall x <- c :: x.key != e.key
    ensures Ordered(c + [e], touches + [e.key])
  {
    if c != [] {
      AppendOrdered(c[1..], e, touches);
      assert (c + [e])[1..] == c[1..] + [e];
      SinceTouch(touches, e.key, c[0].key);
    } else {
      assert c + [e] == [e];
    }
  }

  lemma {:induction false} KeySetSize<K, V>(c: seq<Entry<K, V>>, touches: seq<K>)
    requires Ordered(c, touches)
    ensures |set e | e in c :: e.key| == |c|
  {
    if c != [] {
      KeySetSize(c[1..], touches);
      assert (set e | e in c :: e.key) == {c[0].key} + set e | e in c[1..] :: e.key;
    }
  }

  // ---- what the operations keep

  lemma TimeRefines<K, V>(
      c: seq<Entry<K, V>>, ref: Reference<K, V>, touches: seq<K>, now: int, later: int, limit: nat)
    requires Refines(c, ref, touches, now, limit) && now <= later
    ensures Refines(c, ref, touches, later, limit)
  {
  }

  /** Dropping expired entries loses nothing the reference still answers with. */
  lemma PruneRefines<K, V>(c: seq<Entry<K, V>>, ref: Reference<K, V>, touches: seq<K>, now: int, limit: nat)
    requires Refines(c, ref, touches, now, limit)
    ensures Refines(Unexpired(c, now), ref, touches, now, limit)
  {
    var s := Unexpired(c, now);
    UnexpiredOrdered(c, now, touches);
    forall e <- s ensures e in c {
      UnexpiredMembers(c, now, e);
    }
    forall k <- ref | Present(c, k) && now < ref[k].1 ensures Present(s, k) {
      var e :| e in c && e.key == k;
      UnexpiredMembers(c, now, e);
    }
  }

  lemma ExpireRefines<K, V>(c: seq<Entry<K, V>>, ref: Reference<K, V>, touches: seq<K>, now: int, limit: nat, k: K)
    requires Refines(c, ref, touches, now, limit) && k in ref && ref[k].1 <= now
    ensures Refines(Without(c, k), ref, touches, now, limit)
  {
    WithoutOrdered(c, k, touches);
    WithoutRest(c, k);
  }

  lemma WithoutRest<K, V>(c: seq<Entry<K, V>>, k: K)
    ensures forall e <- Without(c, k) :: e in c && e.key != k
    ensures forall j :: j != k && Present(c, j) ==> Present(Without(c, k), j)
  {
    forall e ensures e in Without(c, k) <==> e in c && e.key != k {
      WithoutMembers(c, k, e);
    }
    forall j | j != k && Present(c, j) ensures Present(Without(c, k), j) {
      var e :| e in c && e.key == j;
    }
  }

  /** Forgetting a key in both. */
  lemma ForgetRefines<K, V>(c: seq<Entry<K, V>>, ref: Reference<K, V>, touches: seq<K>, now: int, limit: nat, k: K)
    requires Refines(c, ref, touches, now, limit)
    ensures Refines(Without(c, k), ref - {k}, touches, now, limit)
  {
    WithoutOrdered(c, k, touches);
    WithoutRest(c, k);
  }

  /** Moving a used entry to the end, or storing a new one, before the cache is trimmed. */
  lemma UseRefines<K, V>(
      c: seq<Entry<K, V>>, ref: Reference<K, V>, touches: seq<K>, now: int, limit: nat, e: Entry<K, V>)
    requires Refines(c, ref, touches, now, limit)
    ensures var s, ref' := Without(c, e.key) + [e], ref[e.key := (e.value, e.expiresAt)];
            && Ordered(s, touches + [e.key])
            && (forall x <- s :: x.key in ref' && ref'[x.key] == (x.value, x.expiresAt))
            && (forall k <- ref' :: Present(s, k) || ref'[k].1 <= now || |Since(touches + [e.key], k)| >= limit)
  {
    var s, ref' := Without(c, e.key) + [e], ref[e.key := (e.value, e.expiresAt)];
    WithoutOrdered(c, e.key, touches);
    WithoutRest(c, e.key);
    AppendOrdered(Without(c, e.key), e, touches);
    assert s[|s| - 1] == e;
    forall k <- ref' ensures Present(s, k) || ref'[k].1 <= now || |Since(touches + [e.key], k)| >= limit {
      if k != e.key {
        if Present(c, k) {
          var x :| x in Without(c, e.key) && x.key == k;
          assert x in s;
        }
        SinceTouch(touches, e.key, k);
        SubsetSize(Since(touches, k), Since(touches + [e.key], k));
      }
    }
  }

  lemma HitRefines<K, V>(
      c: seq<Entry<K, V>>, ref: Reference<K, V>, touches: seq<K>, now: int, limit: nat, e: Entry<K, V>)
    requires Refines(c, ref, touches, now, limit) && e in c
    ensures Refines(Without(c, e.key) + [e], ref, touches + [e.key], now, limit)
  {
    UseRefines(c, ref, touches, now, limit, e);
    assert ref[e.key := (e.value, e.expiresAt)] == ref;
    WithoutShorter(c, e);
  }

  lemma {:induction false} WithoutShorter<K, V>(c: seq<Entry<K, V>>, e: Entry<K, V>)
    requires e in c
    ensures |Without(c, e.key)| < |c|
  {
    if c[0].key != e.key {
      WithoutShorter(c[1..], e);
    }
  }

  /** Storing evicts at most the least recently used entry, and only behind `limit` other keys. */
  lemma StoreRefines<K, V>(
      c: seq<Entry<K, V>>, ref: Reference<K, V>, touches: seq<K>, now: int, limit: nat, e: Entry<K, V>)
    requires Refines(c, ref, touches, now, limit) && limit > 0
    ensures Refines(Stored(c, e, limit), ref[e.key := (e.value, e.expiresAt)], touches + [e.key], now, limit)
  {
    var s, ts := Without(c, e.key) + [e], touches + [e.key];
    UseRefines(c, ref, touches, now, limit, e);
    if |s| > limit {
      var rest := s[1..];
      assert Stored(c, e, limit) == rest;
      KeySetSize(rest, ts);
      SubsetSize(set x | x in rest :: x.key, Since(ts, s[0].key));
      forall k | Present(s, k) && k != s[0].key ensures Present(rest, k) {
        var x :| x in s && x.key == k;
        assert x in rest;
      }
    }
  }
}
