/** price_api/vault/resolver.py: the positive and negative detection caches. Any number of detections
    interleave; what they do to the caches between two suspension points is one event. */
module VaultCache {
  import opened LruTtl

  const PRUNE_INTERVAL_MS := 1000

  datatype VaultKey = VaultKey(chainId: int, address: string)

  datatype Settings = Settings(positiveTtlMs: int, negativeTtlMs: int, maxEntries: nat)
  {
    predicate Valid() {
      positiveTtlMs > 0 && negativeTtlMs > 0 && maxEntries > 0
    }
  }

  type Positive<V> = seq<Entry<VaultKey, V>>
  type Negative = seq<Entry<VaultKey, ()>>

  datatype Caches<V> = Caches(positive: Positive<V>, negative: Negative, nextPruneAt: int)

  /** `_cached_vault` answers with a vault, with "known not to be a vault", or not at all. */
  datatype Answer<V> = Vault(vault: V) | NotAVault | Miss

  function Pruned<V>(c: Caches<V>, now: int): Caches<V> {
    if now < c.nextPruneAt then c
    else Caches(Unexpired(c.positive, now), Unexpired(c.negative, now), now + PRUNE_INTERVAL_MS)
  }

  function Cached<V>(c: Caches<V>, key: VaultKey, now: int): (Caches<V>, Answer<V>) {
    var p := Pruned(c, now);
    var positive := Lookup(p.positive, key);
    if positive.Some? && now < positive.value.expiresAt then
      (p.(positive := Without(p.positive, key) + [positive.value]), Vault(positive.value.value))
    else
      CachedNegative(p.(positive := Without(p.positive, key)), key, now)
  }

  function CachedNegative<V>(p: Caches<V>, key: VaultKey, now: int): (Caches<V>, Answer<V>) {
    var negative := Lookup(p.negative, key);
    if negative.Some? && now < negative.value.expiresAt then
      (p.(negative := Without(p.negative, key) + [negative.value]), NotAVault)
    else
      (p.(negative := Without(p.negative, key)), Miss)
  }

  function FoundVault<V>(s: Settings, c: Caches<V>, key: VaultKey, vault: V, now: int): Caches<V> {
    c.(positive := Stored(c.positive, Entry(key, vault, now + s.positiveTtlMs), s.maxEntries),
       negative := Without(c.negative, key))
  }

  function FoundNone<V>(s: Settings, c: Caches<V>, key: VaultKey, now: int): Caches<V> {
    c.(negative := Stored(c.negative, Entry(key, (), now + s.negativeTtlMs), s.maxEntries))
  }

  // ---- the object

  class VaultResolver<V> {
    const settings: Settings
    var positive: Positive<V>
    var negative: Negative
    var nextPruneAt: int

    ghost function State(): Caches<V>
      reads this
    {
      Caches(positive, negative, nextPruneAt)
    }

    constructor (settings: Settings)
      requires settings.Valid()
      ensures State() == Caches([], [], 0) && this.settings == settings
    {
      this.settings := settings;
      positive, negative, nextPruneAt := [], [], 0;
    }

    method CachedVault(key: VaultKey, now: int) returns (answer: Answer<V>)
      modifies this
      ensures (State(), answer) == Cached(old(State()), key, now)
    {
      PruneExpiredIfDue(now);
      var cached := Lookup(positive, key);
      if cached.Some? && now < cached.value.expiresAt {
        positive := Without(positive, key) + [cached.value];
        return Vault(cached.value.value);
      }
      positive := Without(positive, key);
      var absent := Lookup(negative, key);
      if absent.Some? && now < absent.value.expiresAt {
        negative := Without(negative, key) + [absent.value];
        return NotAVault;
      }
      negative := Without(negative, key);
      return Miss;
    }

    method StorePositive(key: VaultKey, vault: V, now: int)
      modifies this
      ensures State() == FoundVault(settings, old(State()), key, vault, now)
    {
      positive := Without(positive, key) + [Entry(key, vault, now + settings.positiveTtlMs)];
      positive := TrimCache(positive, settings.maxEntries);
      negative := Without(negative, key);
    }

    method StoreNegative(key: VaultKey, now: int)
      modifies this
      ensures State() == FoundNone(settings, old(State()), key, now)
    {
      negative := Without(negative, key) + [Entry(key, (), now + settings.negativeTtlMs)];
      negative := TrimCache(negative, settings.maxEntries);
    }

    method PruneExpiredIfDue(now: int)
      modifies this
      ensures State() == Pruned(old(State()), now)
      ensures forall e :: e in positive <==> e in old(positive) && (now < old(nextPruneAt) || now < e.expiresAt)
      ensures forall e :: e in negative <==> e in old(negative) && (now < old(nextPruneAt) || now < e.expiresAt)
      ensures nextPruneAt == if now < old(nextPruneAt) then old(nextPruneAt) else now + 1000
    {
      if now < nextPruneAt {
        return;
      }
      nextPruneAt := now + PRUNE_INTERVAL_MS;
      positive := PruneExpired(positive, now);
      negative := PruneExpired(negative, now);
      forall e ensures e in positive <==> e in old(positive) && now < e.expiresAt {
        UnexpiredMembers(old(positive), now, e);
      }
      forall e ensures e in negative <==> e in old(negative) && now < e.expiresAt {
        UnexpiredMembers(old(negative), now, e);
      }
    }
  }

  /** Walks over the entries and drops the expired ones. */
  method PruneExpired<V>(c: seq<Entry<VaultKey, V>>, now: int) returns (r: seq<Entry<VaultKey, V>>)
    ensures r == Unexpired(c, now)
  {
    r := [];
    for i := 0 to |c|
      invariant r + Unexpired(c[i..], now) == Unexpired(c, now)
    {
      assert c[i..][1..] == c[i + 1..];
      if now < c[i].expiresAt {
        r := r + [c[i]];
      }
    }
  }

  /** Pops the least recently used entries while there are too many. */
  method TrimCache<V>(c: seq<Entry<VaultKey, V>>, limit: nat) returns (r: seq<Entry<VaultKey, V>>)
    ensures r == Trimmed(c, limit)
  {
    r := c;
    while |r| > limit
      invariant |r| <= |c| && r == c[|c| - |r|..]
      invariant r == c || limit <= |r|
    {
      assert c[|c| - |r|..][1..] == c[|c| - |r| + 1..];
      r := r[1..];
    }
  }

  // ---- histories

  datatype Event<V> =
    | Ask(key: VaultKey, now: int)
    | Detected(key: VaultKey, vault: V, now: int)
    | Refuted(key: VaultKey, now: int)

  function Step<V>(s: Settings, c: Caches<V>, e: Event<V>): Caches<V> {
    match e
    case Ask(key, now) => Cached(c, key, now).0
    case Detected(key, vault, now) => FoundVault(s, c, key, vault, now)
    case Refuted(key, now) => FoundNone(s, c, key, now)
  }

  function Run<V>(s: Settings, es: seq<Event<V>>): Caches<V> {
    if es == [] then Caches([], [], 0) else Step(s, Run(s, es[..|es| - 1]), es[|es| - 1])
  }

  ghost predicate InOrder<V>(es: seq<Event<V>>) {
    forall i, j :: 0 <= i < j < |es| ==> es[i].now <= es[j].now
  }

  /** The unbounded memory: every detection's latest outcome per key, and the keys used per map. */
  datatype Memory<V> = Memory(
    vaults: Reference<VaultKey, V>, absent: Reference<VaultKey, ()>,
    vaultUses: seq<VaultKey>, absentUses: seq<VaultKey>)

  function Remember<V>(s: Settings, m: Memory<V>, e: Event<V>, answer: Answer<V>): Memory<V> {
    match e
    case Ask(key, _) =>
      if answer.Vault? then m.(vaultUses := m.vaultUses + [key])
      else if answer.NotAVault? then m.(absentUses := m.absentUses + [key])
      else m
    case Detected(key, vault, now) =>
      m.(vaults := m.vaults[key := (vault, now + s.positiveTtlMs)], vaultUses := m.vaultUses + [key],
         absent := m.absent - {key})
    case Refuted(key, now) =>
      m.(absent := m.absent[key := ((), now + s.negativeTtlMs)], absentUses := m.absentUses + [key])
  }

  function AnswerTo<V>(c: Caches<V>, e: Event<V>): Answer<V> {
    if e.Ask? then Cached(c, e.key, e.now).1 else Miss
  }

  function Recall<V>(s: Settings, es: seq<Event<V>>): Memory<V> {
    if es == [] then Memory(map[], map[], [], [])
    else
      var init, last := es[..|es| - 1], es[|es| - 1];
      Remember(s, Recall(s, init), last, AnswerTo(Run(s, init), last))
  }

  ghost predicate Consistent<V>(s: Settings, c: Caches<V>, m: Memory<V>, now: int) {
    && Refines(c.positive, m.vaults, m.vaultUses, now, s.maxEntries)
    && Refines(c.negative, m.absent, m.absentUses, now, s.maxEntries)
  }

  lemma PrunedConsistent<V>(s: Settings, c: Caches<V>, m: Memory<V>, now: int)
    requires Consistent(s, c, m, now)
    ensures Consistent(s, Pruned(c, now), m, now)
  {
    PruneRefines(c.positive, m.vaults, m.vaultUses, now, s.maxEntries);
    PruneRefines(c.negative, m.absent, m.absentUses, now, s.maxEntries);
  }

  /** Looking a key up moves a live entry to the end or drops an expired one. */
  lemma LookupRefines<V>(c: seq<Entry<VaultKey, V>>, ref: Reference<VaultKey, V>, uses: seq<VaultKey>, now: int,
                         limit: nat, key: VaultKey)
    requires Refines(c, ref, uses, now, limit)
    ensures var e := Lookup(c, key);
            if e.Some? && now < e.value.expiresAt then
              Refines(Without(c, key) + [e.value], ref, uses + [key], now, limit)
            else Refines(Without(c, key), ref, uses, now, limit)
  {
    var e := Lookup(c, key);
    if e.Some? && now < e.value.expiresAt {
      HitRefines(c, ref, uses, now, limit, e.value);
    } else if e.Some? {
      ExpireRefines(c, ref, uses, now, limit, key);
    } else {
      WithoutAbsent(c, key);
    }
  }

  lemma {:induction false} WithoutAbsent<V>(c: seq<Entry<VaultKey, V>>, key: VaultKey)
    requires forall e <- c :: e.key != key
    ensures Without(c, key) == c
  {
    if c != [] {
      WithoutAbsent(c[1..], key);
    }
  }

  lemma AskConsistent<V>(s: Settings, c: Caches<V>, m: Memory<V>, key: VaultKey, now: int)
    requires Consistent(s, c, m, now)
    ensures var (c', answer) := Cached(c, key, now);
            Consistent(s, c', Remember(s, m, Ask(key, now), answer), now)
  {
    var p := Pruned(c, now);
    PrunedConsistent(s, c, m, now);
    LookupRefines(p.positive, m.vaults, m.vaultUses, now, s.maxEntries, key);
    LookupRefines(p.negative, m.absent, m.absentUses, now, s.maxEntries, key);
  }

  lemma DetectedConsistent<V>(s: Settings, c: Caches<V>, m: Memory<V>, key: VaultKey, vault: V, now: int)
    requires s.Valid() && Consistent(s, c, m, now)
    ensures Consistent(s, FoundVault(s, c, key, vault, now), Remember(s, m, Detected(key, vault, now), Miss), now)
  {
    StoreRefines(c.positive, m.vaults, m.vaultUses, now, s.maxEntries, Entry(key, vault, now + s.positiveTtlMs));
    ForgetRefines(c.negative, m.absent, m.absentUses, now, s.maxEntries, key);
  }

  lemma RefutedConsistent<V>(s: Settings, c: Caches<V>, m: Memory<V>, key: VaultKey, now: int)
    requires s.Valid() && Consistent(s, c, m, now)
    ensures Consistent(s, FoundNone(s, c, key, now), Remember(s, m, Refuted(key, now), Miss), now)
  {
    StoreRefines(c.negative, m.absent, m.absentUses, now, s.maxEntries, Entry(key, (), now + s.negativeTtlMs));
  }

  lemma StepConsistent<V>(s: Settings, c: Caches<V>, m: Memory<V>, e: Event<V>)
    requires s.Valid() && Consistent(s, c, m, e.now)
    ensures Consistent(s, Step(s, c, e), Remember(s, m, e, AnswerTo(c, e)), e.now)
  {
    match e
    case Ask(key, now) => AskConsistent(s, c, m, key, now);
    case Detected(key, vault, now) => DetectedConsistent(s, c, m, key, vault, now);
    case Refuted(key, now) => RefutedConsistent(s, c, m, key, now);
  }

  lemma {:induction false} CachesRefineMemory<V>(s: Settings, es: seq<Event<V>>, now: int)
    requires s.Valid() && InOrder(es) && (es != [] ==> es[|es| - 1].now <= now)
    ensures Consistent(s, Run(s, es), Recall(s, es), now)
  {
    if es != [] {
      var init, last := es[..|es| - 1], es[|es| - 1];
      CachesRefineMemory(s, init, last.now);
      StepConsistent(s, Run(s, init), Recall(s, init), last);
      var c, m := Run(s, es), Recall(s, es);
      TimeRefines(c.positive, m.vaults, m.vaultUses, last.now, now, s.maxEntries);
      TimeRefines(c.negative, m.absent, m.absentUses, last.now, now, s.maxEntries);
    }
  }

  /** After any interleaving of detections: a hit is the latest stored value of the key and has not
      expired; neither map outgrows its limit; and a value that has not expired can only be missing
      if at least `maxEntries` distinct other keys were stored or hit in that map since its last
      use, whatever the throttled pruning did. */
  lemma DetectionCacheIsSound<V>(s: Settings, es: seq<Event<V>>, key: VaultKey, now: int)
    requires s.Valid() && InOrder(es) && (es != [] ==> es[|es| - 1].now <= now)
    ensures var (c, m) := (Run(s, es), Recall(s, es));
            var answer := Cached(c, key, now).1;
            && |c.positive| <= s.maxEntries && |c.negative| <= s.maxEntries
            && (answer.Vault? ==> key in m.vaults && m.vaults[key].0 == answer.vault && now < m.vaults[key].1)
            && (answer.NotAVault? ==> key in m.absent && now < m.absent[key].1)
            && (key in m.vaults && now < m.vaults[key].1 && !answer.Vault? ==>
                  |Since(m.vaultUses, key)| >= s.maxEntries)
            && (key in m.absent && now < m.absent[key].1 && answer.Miss? ==>
                  |Since(m.absentUses, key)| >= s.maxEntries)
  {
    var c, m := Run(s, es), Recall(s, es);
    CachesRefineMemory(s, es, now);
    PrunedConsistent(s, c, m, now);
  }

  // ---- no key in both maps

  ghost predicate Disjoint<V>(c: Caches<V>) {
    forall p <- c.positive, n <- c.negative :: p.key != n.key
  }

  lemma AskKeepsDisjoint<V>(c: Caches<V>, key: VaultKey, now: int)
    requires Disjoint(c)
    ensures Disjoint(Cached(c, key, now).0)
    ensures Cached(c, key, now).1.Miss? ==> !Present(Cached(c, key, now).0.positive, key)
  {
    var p := Pruned(c, now);
    UnexpiredWithin(c.positive, now);
    UnexpiredWithin(c.negative, now);
    assert Disjoint(p);
    WithoutRest(p.positive, key);
    WithoutRest(p.negative, key);
  }

  lemma {:induction false} StoredMembers<V>(c: seq<Entry<VaultKey, V>>, e: Entry<VaultKey, V>, limit: nat)
    requires limit > 0
    ensures e in Stored(c, e, limit)
    ensures forall x <- Stored(c, e, limit) :: x == e || (x in c && x.key != e.key)
  {
    var whole := Without(c, e.key) + [e];
    WithoutRest(c, e.key);
    assert Stored(c, e, limit)[|Stored(c, e, limit)| - 1] == e;
    forall x <- Stored(c, e, limit) ensures x in whole {
    }
  }

  lemma DetectedKeepsDisjoint<V>(s: Settings, c: Caches<V>, key: VaultKey, vault: V, now: int)
    requires s.Valid() && Disjoint(c)
    ensures Disjoint(FoundVault(s, c, key, vault, now))
  {
    StoredMembers(c.positive, Entry(key, vault, now + s.positiveTtlMs), s.maxEntries);
    WithoutRest(c.negative, key);
  }

  /** Storing "not a vault" keeps the maps disjoint exactly if no vault is stored under the key. */
  lemma RefutedKeepsDisjointIff<V>(s: Settings, c: Caches<V>, key: VaultKey, now: int)
    requires s.Valid() && Disjoint(c)
    ensures Disjoint(FoundNone(s, c, key, now)) <==> !Present(c.positive, key)
  {
    StoredMembers(c.negative, Entry(key, (), now + s.negativeTtlMs), s.maxEntries);
  }

  /** Every "not a vault" arrives while no vault is stored under its key. */
  ghost predicate Harmless<V>(s: Settings, es: seq<Event<V>>) {
    es == [] || (
      var init, last := es[..|es| - 1], es[|es| - 1];
      Harmless(s, init) && (last.Refuted? ==> !Present(Run(s, init).positive, last.key)))
  }

  ghost predicate AlwaysDisjoint<V>(s: Settings, es: seq<Event<V>>) {
    Disjoint(Run(s, es)) && (es == [] || AlwaysDisjoint(s, es[..|es| - 1]))
  }

  /** Under any interleaving, the two maps never hold the same key exactly if the history is harmless. */
  lemma {:induction false} DisjointExactlyIfHarmless<V>(s: Settings, es: seq<Event<V>>)
    requires s.Valid()
    ensures AlwaysDisjoint(s, es) <==> Harmless(s, es)
  {
    if es != [] {
      var init, last := es[..|es| - 1], es[|es| - 1];
      DisjointExactlyIfHarmless(s, init);
      if AlwaysDisjoint(s, init) {
        assert Disjoint(Run(s, init));
        StepDisjointIff(s, Run(s, init), last);
      }
    }
  }

  lemma StepDisjointIff<V>(s: Settings, c: Caches<V>, e: Event<V>)
    requires s.Valid() && Disjoint(c)
    ensures Disjoint(Step(s, c, e)) <==> (e.Refuted? ==> !Present(c.positive, e.key))
  {
    match e
    case Ask(key, now) => AskKeepsDisjoint(c, key, now);
    case Detected(key, vault, now) => DetectedKeepsDisjoint(s, c, key, vault, now);
    case Refuted(key, now) => RefutedKeepsDisjointIff(s, c, key, now);
  }

  /** One detection after the other: every outcome follows at once on the question that missed. */
  ghost predicate Sequential<V>(s: Settings, es: seq<Event<V>>) {
    es == [] || (
      var n := |es| - 1;
      && Sequential(s, es[..n])
      && (!es[n].Ask? ==>
            n > 0 && es[n - 1].Ask? && es[n - 1].key == es[n].key
            && AnswerTo(Run(s, es[..n - 1]), es[n - 1]).Miss?))
  }

  lemma {:induction false} SequentialDetectionKeepsDisjoint<V>(s: Settings, es: seq<Event<V>>)
    requires s.Valid() && Sequential(s, es)
    ensures Harmless(s, es) && AlwaysDisjoint(s, es)
  {
    DisjointExactlyIfHarmless(s, es);
    if es != [] {
      var n := |es| - 1;
      SequentialDetectionKeepsDisjoint(s, es[..n]);
      if es[n].Refuted? {
        var before := es[..n - 1];
        assert es[..n][..n - 1] == before;
        assert AlwaysDisjoint(s, es[..n]) && AlwaysDisjoint(s, before);
        AskKeepsDisjoint(Run(s, before), es[n].key, es[n - 1].now);
      }
    }
  }

  /** Two detections of one key that overlap can leave it in both maps. */
  lemma OverlapPutsKeyInBoth<V>(s: Settings, key: VaultKey, vault: V)
    requires s.Valid()
    ensures var es := [Ask(key, 0), Ask(key, 0), Detected(key, vault, 0), Refuted(key, 0)];
            InOrder(es) && !Disjoint(Run(s, es))
  {
    var es := [Ask(key, 0), Ask(key, 0), Detected(key, vault, 0), Refuted(key, 0)];
    assert es[..4] == es && es[..4][..3] == es[..3] && es[..3][..2] == es[..2] && es[..2][..1] == es[..1];
    assert es[..1][..0] == [];
    var empty := Run(s, es[..2]);
    assert Run(s, es[..1]) == Cached(Caches([], [], 0), key, 0).0 == Caches([], [], PRUNE_INTERVAL_MS);
    assert empty == Cached(Run(s, es[..1]), key, 0).0 == Caches([], [], PRUNE_INTERVAL_MS);
    StoredMembers(empty.positive, Entry(key, vault, s.positiveTtlMs), s.maxEntries);
    var found := Run(s, es[..3]);
    assert Entry(key, vault, s.positiveTtlMs) in found.positive;
    StoredMembers(found.negative, Entry(key, (), s.negativeTtlMs), s.maxEntries);
    assert Entry(key, (), s.negativeTtlMs) in Run(s, es).negative;
  }

  lemma UnexpiredWithin<V>(c: seq<Entry<VaultKey, V>>, now: int)
    ensures forall e <- Unexpired(c, now) :: e in c
  {
    forall e <- Unexpired(c, now) ensures e in c {
      UnexpiredMembers(c, now, e);
    }
  }
}
