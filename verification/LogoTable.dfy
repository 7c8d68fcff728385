/** price_api/token_metadata/cache.py: the token_logos table and the logo source lists, and the
    operations that write them. Image bytes, addresses and hashes are opaque values. */
module LogoTable {
  import opened Options

  datatype Key = Key(chainId: int, address: int)

  datatype Outcome = Success | Unavailable | Transient

  /** The MIME types that the table takes, or any other text. */
  datatype Mime = Png | Jpeg | Webp | OtherMime(name: string)

  /** A row of token_logos. */
  datatype Row = Row(
    imageBytes: Option<seq<int>>,
    contentHash: Option<string>,
    mimeType: Option<Mime>,
    source: Option<string>,
    lastSuccessAt: Option<int>,
    lastAttemptAt: Option<int>,
    nextAttemptAt: Option<int>,
    lastOutcome: Option<Outcome>,
    failureCount: int,
    lastHttpStatus: Option<int>,
    lastErrorCode: Option<string>)

  const NEW_ROW := Row(None, None, None, None, None, None, Some(0), None, 0, None, None)

  type Logos = map<Key, Row>

  /** The image columns are all NULL or all set. */
  predicate WholeImage(row: Row) {
    if row.imageBytes.None? then
      row.contentHash.None? && row.mimeType.None? && row.source.None? && row.lastSuccessAt.None?
    else
      row.contentHash.Some? && row.mimeType.Some? && row.source.Some? && row.lastSuccessAt.Some?
  }

  /** The CHECK constraints of the table; a write that breaks one is rolled back. */
  predicate Checks(row: Row) {
    && WholeImage(row)
    && (row.imageBytes.Some? ==> 1 <= |row.imageBytes.value| <= 262144)
    && (row.contentHash.Some? ==> |row.contentHash.value| == 64)
    && (row.mimeType.Some? ==> !row.mimeType.value.OtherMime?)
    && (row.source.Some? ==> 1 <= |row.source.value| <= 64)
    && row.failureCount >= 0
    && (row.lastHttpStatus.Some? ==> 100 <= row.lastHttpStatus.value <= 599)
    && (row.lastErrorCode.Some? ==> 1 <= |row.lastErrorCode.value| <= 64)
  }

  // ---- enrolment

  function Observed(t: Logos, k: Key): Logos {
    if k in t then t else t[k := NEW_ROW]
  }

  function MadeDue(row: Row, force: bool): Row {
    if force || row.imageBytes.None? then row.(nextAttemptAt := Some(0)) else row
  }

  function Identified(t: Logos, k: Key, force: bool): Logos {
    t[k := if k in t then MadeDue(t[k], force) else NEW_ROW]
  }

  /** What a source list change does to the rows of its chain. */
  function Redriven(t: Logos, chainId: int): Logos {
    map k | k in t :: if k.chainId == chainId then MadeDue(t[k], false) else t[k]
  }

  /** What being made due means, column by column: a row without an image, or any row that is forced, is
      due at once; nothing else of it changes, and no other row changes at all. */
  lemma WhatIsMadeDue(t: Logos, k: Key, force: bool, chainId: int)
    ensures k in t ==>
              var row := Identified(t, k, force)[k];
              row == if force || t[k].imageBytes.None? then t[k].(nextAttemptAt := Some(0)) else t[k]
    ensures k !in t ==> Identified(t, k, force)[k] == Observed(t, k)[k]
                        == Row(None, None, None, None, None, None, Some(0), None, 0, None, None)
    ensures k in t ==> Observed(t, k) == t
    ensures forall j :: j != k ==> (j in Identified(t, k, force) <==> j in t)
                                   && (j in t ==> Identified(t, k, force)[j] == t[j] == Observed(t, k)[j])
    ensures Redriven(t, chainId).Keys == t.Keys
    ensures forall j <- t :: Redriven(t, chainId)[j] == if j.chainId == chainId && t[j].imageBytes.None?
                                                        then t[j].(nextAttemptAt := Some(0)) else t[j]
  {
  }

  // ---- results

  datatype Asset = Asset(imageBytes: seq<int>, contentHash: string, mimeType: Mime)

  /** The full upsert: every column comes from the result. */
  function SuccessRow(asset: Asset, source: string, at: int, httpStatus: Option<int>): Row {
    Row(Some(asset.imageBytes), Some(asset.contentHash), Some(asset.mimeType), Some(source),
        Some(at), Some(at), None, Some(Success), 0, httpStatus, None)
  }

  /** The UPDATE used when the stored hash is already the new one: it leaves the image alone. */
  function SameHashRow(row: Row, asset: Asset, source: string, at: int, httpStatus: Option<int>): Row {
    row.(mimeType := Some(asset.mimeType), source := Some(source), lastSuccessAt := Some(at), lastAttemptAt := Some(at),
         nextAttemptAt := None, lastOutcome := Some(Success), failureCount := 0,
         lastHttpStatus := httpStatus, lastErrorCode := None)
  }

  function AfterSuccess(t: Logos, k: Key, asset: Asset, source: string, at: int, httpStatus: Option<int>): Row {
    if k in t && t[k].contentHash == Some(asset.contentHash) then SameHashRow(t[k], asset, source, at, httpStatus)
    else SuccessRow(asset, source, at, httpStatus)
  }

  function AfterFailure(
      t: Logos, k: Key, outcome: Outcome, at: int, next: int, count: int, httpStatus: Option<int>, code: string): Row {
    (if k in t then t[k] else NEW_ROW).(
      lastAttemptAt := Some(at), nextAttemptAt := Some(next), lastOutcome := Some(outcome),
      failureCount := count, lastHttpStatus := httpStatus, lastErrorCode := Some(code))
  }

  function Written(t: Logos, k: Key, row: Row): Logos {
    if Checks(row) then t[k := row] else t
  }

  // ---- the due queue

  predicate Due(t: Logos, k: Key, now: int) {
    k in t && t[k].nextAttemptAt.Some? && t[k].nextAttemptAt.value <= now
  }

  /** The queue's order: next attempt, then chain, then address. */
  predicate Before(t: Logos, a: Key, b: Key) {
    && a in t && b in t && t[a].nextAttemptAt.Some? && t[b].nextAttemptAt.Some?
    && var (x, y) := (t[a].nextAttemptAt.value, t[b].nextAttemptAt.value);
       x < y || (x == y && (a.chainId < b.chainId || (a.chainId == b.chainId && a.address < b.address)))
  }

  /** The first `limit` due rows, in order. */
  ghost predicate IsBatch(t: Logos, now: int, limit: nat, batch: seq<Key>) {
    && |batch| <= limit
    && (forall i :: 0 <= i < |batch| ==> Due(t, batch[i], now))
    && (forall i, j :: 0 <= i < j < |batch| ==> Before(t, batch[i], batch[j]))
    && (forall k :: Due(t, k, now) && k !in batch ==>
          |batch| == limit && forall i :: 0 <= i < |batch| ==> Before(t, batch[i], k))
  }

  predicate IsFirst(t: Logos, ks: set<Key>, f: Key) {
    f in ks && forall k <- ks :: k == f || Before(t, f, k)
  }

  lemma {:induction false} FirstExists(t: Logos, ks: set<Key>, now: int) returns (f: Key)
    requires ks != {} && forall k <- ks :: Due(t, k, now)
    ensures IsFirst(t, ks, f)
  {
    var x :| x in ks;
    f := x;
    if ks != {x} {
      f := FirstExists(t, ks - {x}, now);
      f := FirstOfMore(t, ks - {x}, f, x, now);
      assert ks - {x} + {x} == ks;
    } else {
      assert forall k <- ks :: k == x;
    }
  }

  lemma FirstOfMore(t: Logos, ks: set<Key>, f: Key, x: Key, now: int) returns (g: Key)
    requires IsFirst(t, ks, f) && Due(t, f, now) && Due(t, x, now)
    ensures IsFirst(t, ks + {x}, g)
  {
    g := if Before(t, x, f) then x else f;
    forall k <- ks + {x} ensures k == g || Before(t, g, k) {
      BeforeIsAnOrder(t, x, f, k);
      BeforeIsAnOrder(t, f, x, k);
    }
  }

  lemma BeforeIsAnOrder(t: Logos, a: Key, b: Key, c: Key)
    ensures Before(t, a, b) && Before(t, b, c) ==> Before(t, a, c)
    ensures a in t && b in t && t[a].nextAttemptAt.Some? && t[b].nextAttemptAt.Some? && a != b
            ==> Before(t, a, b) || Before(t, b, a)
  {
  }

  // ---- source lists

  datatype EntryKey = EntryKey(source: string, chainId: int, address: int)

  datatype Entry = Entry(url: string, updatedAt: int)

  datatype SourceKey = SourceKey(source: string, chainId: int)

  datatype Sync = Sync(syncedAt: int, revision: string)

  /** What a source published for one address. */
  datatype Published = Published(source: string, chainId: int, address: int, url: string)

  type Entries = map<EntryKey, Entry>

  /** The pairs the database holds for one source and chain. */
  function StoredList(es: Entries, s: SourceKey): set<(int, string)> {
    set k | k in es && Owned(k, s) :: (k.address, es[k].url)
  }

  function PublishedList(published: seq<Published>, s: SourceKey): set<(int, string)> {
    set e | e in published && e.source == s.source && e.chainId == s.chainId :: (e.address, e.url)
  }

  predicate OneUrlPerAddress(rows: set<(int, string)>) {
    forall a <- rows, b <- rows :: a.0 == b.0 ==> a == b
  }

  /** The database after deleting the old list of one source and chain and inserting the new. */
  ghost predicate IsReplaced(es: Entries, es': Entries, s: SourceKey, rows: set<(int, string)>, at: int) {
    && (forall k :: !Owned(k, s) ==> (k in es' <==> k in es) && (k in es ==> es'[k] == es[k]))
    && (forall k :: Owned(k, s) && k in es' ==> (k.address, es'[k].url) in rows && es'[k].updatedAt == at)
    && (forall r :: r in rows ==> EntryKey(s.source, s.chainId, r.0) in es'
                                  && es'[EntryKey(s.source, s.chainId, r.0)].url == r.1)
  }

  /** A replaced list, entry by entry: every published address has its URL, and there is no other. */
  lemma WhatIsReplaced(es: Entries, es': Entries, s: SourceKey, published: seq<Published>, at: int)
    requires IsReplaced(es, es', s, PublishedList(published, s), at)
    ensures forall p <- published :: p.source == s.source && p.chainId == s.chainId ==>
              var k := EntryKey(s.source, s.chainId, p.address); k in es' && es'[k] == Entry(p.url, at)
    ensures forall k <- es' :: k.source == s.source && k.chainId == s.chainId ==>
              exists p <- published :: p.source == s.source && p.chainId == s.chainId
                                       && p.address == k.address && p.url == es'[k].url
  {
    var rows := PublishedList(published, s);
    forall p <- published | p.source == s.source && p.chainId == s.chainId
      ensures var k := EntryKey(s.source, s.chainId, p.address); k in es' && es'[k] == Entry(p.url, at)
    {
      assert (p.address, p.url) in rows;
      assert Owned(EntryKey(s.source, s.chainId, p.address), s);
    }
    forall k <- es' | k.source == s.source && k.chainId == s.chainId
      ensures exists p <- published :: p.source == s.source && p.chainId == s.chainId
                                       && p.address == k.address && p.url == es'[k].url
    {
      assert Owned(k, s) && (k.address, es'[k].url) in rows;
      var p :| p in published && p.source == s.source && p.chainId == s.chainId
               && (p.address, p.url) == (k.address, es'[k].url);
    }
  }

  predicate Owned(k: EntryKey, s: SourceKey) {
    k.source == s.source && k.chainId == s.chainId
  }
}
