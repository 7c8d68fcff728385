/** The two "skip the write if the hash is unchanged" shortcuts of the logo store do what the plain
    write would do, for an injective hash. */
module LogoShortcuts {
  import opened Options
  import opened LogoTable
  import opened LogoCache
  import opened LogoScheduler

  ghost predicate Injective<A(!new), B(!new)>(f: A -> B) {
    forall a, b :: f(a) == f(b) ==> a == b
  }

  // ---- the image of a success

  type ImageHash = seq<int> -> string

  /** The stored hash is the hash of the stored bytes. */
  ghost predicate Faithful(t: Logos, hash: ImageHash) {
    forall k <- t ::
      && WholeImage(t[k])
      && (t[k].imageBytes.Some? ==> t[k].contentHash == Some(hash(t[k].imageBytes.value)))
  }

  /** Leaving the image alone when the hash is unchanged gives the row of the full upsert. */
  lemma SameHashIsPlainUpsert(
      t: Logos, k: Key, asset: Asset, source: string, at: int, httpStatus: Option<int>, hash: ImageHash)
    requires Injective(hash) && Faithful(t, hash) && asset.contentHash == hash(asset.imageBytes)
    ensures AfterSuccess(t, k, asset, source, at, httpStatus) == SuccessRow(asset, source, at, httpStatus)
  {
    if k in t && t[k].contentHash == Some(asset.contentHash) {
      assert hash(t[k].imageBytes.value) == hash(asset.imageBytes);
    }
  }

  /** The acquirer hashes what it hands over. */
  predicate Hashed(step: Step, hash: ImageHash) {
    step.Process? && step.result.Acquired? ==> step.result.asset.contentHash == hash(step.result.asset.imageBytes)
  }

  /** The premise of the shortcut holds in every history of the table. */
  lemma {:induction false} TableStaysFaithful(steps: seq<Step>, hash: ImageHash)
    requires Feasible(steps) && forall i :: 0 <= i < |steps| ==> Hashed(steps[i], hash)
    ensures Faithful(Exec(steps).logos, hash)
  {
    if steps != [] {
      var n := |steps| - 1;
      TableStaysFaithful(steps[..n], hash);
      RowsStaySound(steps[..n]);
      assert Hashed(steps[n], hash);
      StepStaysFaithful(Exec(steps[..n]), steps[n], hash);
    }
  }

  lemma StepStaysFaithful(s: State, step: Step, hash: ImageHash)
    requires Enabled(s, step) && Hashed(step, hash) && TableSound(s) && Faithful(s.logos, hash)
    ensures Faithful(Apply(s, step).logos, hash)
  {
    if Stores(s, step) {
      assert s.inflight[step.i] in s.inflight;
      assert WholeImage(s.logos[s.inflight[step.i].key]);
    }
  }

  // ---- the list of a source

  type Revision = set<(int, string)> -> string

  datatype Db = Db(logos: Logos, entries: Entries, sync: map<SourceKey, Sync>)

  /** What one call of `replace_logo_source_entries` does. */
  ghost predicate Synced(
      db: Db, db': Db, s: SourceKey, published: seq<Published>, at: int, revision: Revision,
      changed: Result<bool, WriteError>) {
    var rows := PublishedList(published, s);
    var differs := s !in db.sync || db.sync[s].revision != revision(rows);
    && changed == (if differs && !OneUrlPerAddress(rows) then Err(Integrity) else Ok(differs))
    && (changed.Err? ==> db' == db)
    && (changed.Ok? ==> db'.sync == db.sync[s := Sync(at, revision(rows))])
    && (changed == Ok(false) ==> db'.logos == db.logos && db'.entries == db.entries)
    && (changed == Ok(true) ==> db'.logos == Redriven(db.logos, s.chainId)
                                && IsReplaced(db.entries, db'.entries, s, rows, at))
  }

  /** The recorded revision of a source is the revision of the list that is stored for it. */
  ghost predicate SyncFaithful(db: Db, revision: Revision) {
    && (forall s <- db.sync :: db.sync[s].revision == revision(StoredList(db.entries, s)))
    && (forall k <- db.entries :: SourceKey(k.source, k.chainId) in db.sync)
  }

  lemma ReplacedList(es: Entries, es': Entries, s: SourceKey, rows: set<(int, string)>, at: int)
    requires IsReplaced(es, es', s, rows, at)
    ensures StoredList(es', s) == rows
    ensures forall o :: o != s ==> StoredList(es', o) == StoredList(es, o)
  {
    forall r ensures r in StoredList(es', s) <==> r in rows {
      if r in rows {
        assert EntryKey(s.source, s.chainId, r.0) in es';
      }
    }
    forall o | o != s ensures StoredList(es', o) == StoredList(es, o) {
      forall k | Owned(k, o) ensures !Owned(k, s) {
      }
    }
  }

  lemma StoredListHasOneUrl(es: Entries, s: SourceKey)
    ensures OneUrlPerAddress(StoredList(es, s))
  {
    forall a <- StoredList(es, s), b <- StoredList(es, s) | a.0 == b.0 ensures a == b {
      var k :| k in es && Owned(k, s) && a == (k.address, es[k].url);
      var l :| l in es && Owned(l, s) && b == (l.address, es[l].url);
      assert k == l;
    }
  }

  /** A sync fails exactly when the new list gives one address two URLs, and then changes nothing.
      Otherwise the stored list of that source and chain is the new list, the lists of all other
      sources are as before, and the rows without an image are made due exactly when the source was
      never synced or its list changed. */
  lemma SyncIsPlainReplace(
      db: Db, db': Db, s: SourceKey, published: seq<Published>, at: int, revision: Revision,
      changed: Result<bool, WriteError>)
    requires Injective(revision) && SyncFaithful(db, revision)
    requires Synced(db, db', s, published, at, revision, changed)
    ensures var rows := PublishedList(published, s);
            var news := s !in db.sync || StoredList(db.entries, s) != rows;
            && SyncFaithful(db', revision)
            && (changed.Err? <==> !OneUrlPerAddress(rows))
            && (changed.Err? ==> db' == db)
            && (changed.Ok? ==>
                  && changed.value == news
                  && StoredList(db'.entries, s) == rows
                  && (forall o :: o != s ==> StoredList(db'.entries, o) == StoredList(db.entries, o))
                  && db'.logos.Keys == db.logos.Keys
                  && (forall k <- db.logos ::
                        db'.logos[k] == if news && k.chainId == s.chainId && db.logos[k].imageBytes.None?
                                        then db.logos[k].(nextAttemptAt := Some(0)) else db.logos[k]))
  {
    var rows := PublishedList(published, s);
    StoredListHasOneUrl(db.entries, s);
    if s in db.sync {
      assert db.sync[s].revision == revision(rows) ==> StoredList(db.entries, s) == rows;
    }
    if changed == Ok(true) {
      ReplacedList(db.entries, db'.entries, s, rows, at);
      forall k <- db'.entries ensures SourceKey(k.source, k.chainId) in db'.sync {
        if !Owned(k, s) {
          assert k in db.entries;
        }
      }
    }
  }

  /** Over any history of syncs of any sources the stored list of a source is the list of its last
      successful sync. */
  datatype Call = Call(s: SourceKey, published: seq<Published>, at: int, changed: Result<bool, WriteError>)

  ghost predicate History(dbs: seq<Db>, calls: seq<Call>, revision: Revision) {
    && |dbs| == |calls| + 1
    && dbs[0].entries == map[] && dbs[0].sync == map[]
    && forall i :: 0 <= i < |calls| ==>
         Synced(dbs[i], dbs[i + 1], calls[i].s, calls[i].published, calls[i].at, revision, calls[i].changed)
  }

  function Latest(calls: seq<Call>, s: SourceKey): set<(int, string)> {
    if calls == [] then {}
    else
      var last := calls[|calls| - 1];
      if last.s == s && last.changed.Ok? then PublishedList(last.published, s) else Latest(calls[..|calls| - 1], s)
  }

  lemma {:induction false} StoredListIsLatest(dbs: seq<Db>, calls: seq<Call>, revision: Revision, s: SourceKey)
    requires Injective(revision) && History(dbs, calls, revision)
    ensures StoredList(dbs[|calls|].entries, s) == Latest(calls, s) && SyncFaithful(dbs[|calls|], revision)
  {
    if calls != [] {
      var n := |calls| - 1;
      StoredListIsLatest(dbs[..n + 1], calls[..n], revision, s);
      var call := calls[n];
      SyncIsPlainReplace(dbs[n], dbs[n + 1], call.s, call.published, call.at, revision, call.changed);
    }
  }
}
