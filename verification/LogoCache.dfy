/** price_api/token_metadata/cache.py: the store as an object whose methods rewrite its tables. Each
    method is one transaction: it either commits the state its contract names or changes nothing. */
module LogoCache {
  import opened Options
  import opened LogoTable

  datatype WriteError = InvalidChain | Integrity | InvalidOutcome

  datatype DueLogo = DueLogo(key: Key, failureCount: int)

  class TokenMetadataCache {
    var logos: Logos
    var entries: Entries
    var sync: map<SourceKey, Sync>

    constructor ()
      ensures logos == map[] && entries == map[] && sync == map[]
    {
      logos, entries, sync := map[], map[], map[];
    }

    /** New addresses get a row that is due at once; known rows stay as they are. */
    method EnrollObserved(chainId: int, addresses: seq<int>)
      modifies this`logos
      ensures forall k :: k in logos <==> k in old(logos) || (k.chainId == chainId && k.address in addresses)
      ensures forall k <- logos :: logos[k] == if k in old(logos) then old(logos)[k] else NEW_ROW
    {
      for i := 0 to |addresses|
        invariant forall k :: k in logos <==> k in old(logos) || (k.chainId == chainId && k.address in addresses[..i])
        invariant forall k <- logos :: logos[k] == if k in old(logos) then old(logos)[k] else NEW_ROW
      {
        logos := Observed(logos, Key(chainId, addresses[i]));
      }
    }

    /** New identities get a row that is due at once; known ones are made due if forced or without an
        image; all other rows stay as they are. One bad chain id refuses the whole list. */
    method EnrollIdentities(identities: seq<Key>, force: bool) returns (error: Option<WriteError>)
      modifies this`logos
      ensures error.Some? <==> exists k <- identities :: k.chainId <= 0
      ensures error.Some? ==> logos == old(logos)
      ensures error.None? ==>
                && (forall k :: k in logos <==> k in old(logos) || k in identities)
                && (forall k <- logos :: k !in old(logos) ==> logos[k] == NEW_ROW)
                && (forall k <- old(logos) :: k !in identities ==> logos[k] == old(logos)[k])
                && (forall k <- old(logos) :: k in identities && (force || old(logos)[k].imageBytes.None?) ==>
                      logos[k] == old(logos)[k].(nextAttemptAt := Some(0)))
                && (forall k <- old(logos) :: k in identities && !force && old(logos)[k].imageBytes.Some? ==>
                      logos[k] == old(logos)[k])
    {
      if exists k <- identities :: k.chainId <= 0 {
        return Some(InvalidChain);
      }
      for i := 0 to |identities|
        invariant forall k :: k in logos <==> k in old(logos) || k in identities[..i]
        invariant forall k <- logos :: k !in old(logos) ==> logos[k] == NEW_ROW
        invariant forall k <- old(logos) :: k !in identities[..i] ==> logos[k] == old(logos)[k]
        invariant forall k <- old(logos) :: k in identities[..i] && (force || old(logos)[k].imageBytes.None?) ==>
            logos[k] == old(logos)[k].(nextAttemptAt := Some(0))
        invariant forall k <- old(logos) :: k in identities[..i] && !force && old(logos)[k].imageBytes.Some? ==>
            logos[k] == old(logos)[k]
      {
        assert identities[..i + 1] == identities[..i] + [identities[i]];
        logos := Identified(logos, identities[i], force);
      }
      assert identities[..|identities|] == identities;
      return None;
    }

    method GetDueLogos(now: int, limit: nat) returns (due: seq<DueLogo>)
      ensures IsBatch(logos, now, limit, Keys(due))
      ensures forall d <- due :: d.key in logos && d.failureCount == logos[d.key].failureCount
      ensures forall d <- due :: logos[d.key].nextAttemptAt.Some? && logos[d.key].nextAttemptAt.value <= now
      ensures forall i, j :: 0 <= i < j < |due| ==>
                var (x, y) := (logos[due[i].key].nextAttemptAt.GetOr(0), logos[due[j].key].nextAttemptAt.GetOr(0));
                var (k, l) := (due[i].key, due[j].key);
                x < y || (x == y && (k.chainId < l.chainId || (k.chainId == l.chainId && k.address < l.address)))
    {
      var rest := set k | k in logos && Due(logos, k, now);
      due := [];
      while rest != {} && |due| < limit
        invariant |due| <= limit
        invariant forall k :: Due(logos, k, now) <==> k in rest || k in Keys(due)
        invariant forall i, j :: 0 <= i < j < |due| ==> Before(logos, due[i].key, due[j].key)
        invariant forall i, k :: 0 <= i < |due| && k in rest ==> Before(logos, due[i].key, k)
        invariant forall d <- due :: d.key in logos && d.failureCount == logos[d.key].failureCount
        decreases limit - |due|
      {
        ghost var least := FirstExists(logos, rest, now);
        var first :| first in rest && forall k <- rest :: k == first || Before(logos, first, k);
        ghost var before := Keys(due);
        due := due + [DueLogo(first, logos[first].failureCount)];
        rest := rest - {first};
        assert Keys(due) == before + [first];
      }
      BatchInOrder(logos, now, limit, due);
    }

    method CountDueLogos(now: int) returns (n: nat)
      ensures n == |set k | k in logos && Due(logos, k, now)|
    {
      n := |set k | k in logos && Due(logos, k, now)|;
    }

    method RecordLogoSuccess(key: Key, asset: Asset, source: string, at: int, httpStatus: Option<int>)
      returns (error: Option<WriteError>)
      modifies this`logos
      ensures var row := AfterSuccess(old(logos), key, asset, source, at, httpStatus);
              logos == Written(old(logos), key, row) && (error.None? <==> Checks(row))
      ensures error.None? ==>
                && key in logos && logos == old(logos)[key := logos[key]]
                && logos[key].contentHash == Some(asset.contentHash)
                && logos[key].mimeType == Some(asset.mimeType) && logos[key].source == Some(source)
                && logos[key].lastSuccessAt == Some(at) && logos[key].lastAttemptAt == Some(at)
                && logos[key].nextAttemptAt == None && logos[key].lastOutcome == Some(Success)
                && logos[key].failureCount == 0
                && logos[key].lastHttpStatus == httpStatus && logos[key].lastErrorCode == None
                && logos[key].imageBytes ==
                     (if key in old(logos) && old(logos)[key].contentHash == Some(asset.contentHash)
                      then old(logos)[key].imageBytes else Some(asset.imageBytes))
      ensures error.Some? ==> logos == old(logos)
    {
      var row;
      if key in logos && logos[key].contentHash == Some(asset.contentHash) {
        row := SameHashRow(logos[key], asset, source, at, httpStatus);
      } else {
        row := SuccessRow(asset, source, at, httpStatus);
      }
      if !Checks(row) {
        return Some(Integrity);
      }
      logos := logos[key := row];
      return None;
    }

    method RecordLogoFailure(
        key: Key, outcome: Outcome, at: int, next: int, count: int, httpStatus: Option<int>, code: string)
      returns (error: Option<WriteError>)
      modifies this`logos
      ensures outcome.Success? ==> error.Some? && logos == old(logos)
      ensures var row := AfterFailure(old(logos), key, outcome, at, next, count, httpStatus, code);
              !outcome.Success? ==> logos == Written(old(logos), key, row) && (error.None? <==> Checks(row))
      ensures error.None? ==>
                && key in logos && logos == old(logos)[key := logos[key]]
                && logos[key].lastAttemptAt == Some(at) && logos[key].nextAttemptAt == Some(next)
                && logos[key].lastOutcome == Some(outcome) && logos[key].failureCount == count
                && logos[key].lastHttpStatus == httpStatus && logos[key].lastErrorCode == Some(code)
                && var was := if key in old(logos) then old(logos)[key] else NEW_ROW;
                   && logos[key].imageBytes == was.imageBytes && logos[key].contentHash == was.contentHash
                   && logos[key].mimeType == was.mimeType && logos[key].source == was.source
                   && logos[key].lastSuccessAt == was.lastSuccessAt
      ensures error.Some? ==> logos == old(logos)
    {
      if outcome.Success? {
        return Some(InvalidOutcome);
      }
      var row := AfterFailure(logos, key, outcome, at, next, count, httpStatus, code);
      if !Checks(row) {
        return Some(Integrity);
      }
      logos := logos[key := row];
      return None;
    }

    /** The list is rewritten only when its hash differs from the one of the last sync; two URLs for
        one address break the primary key, and the transaction is rolled back. */
    method ReplaceLogoSourceEntries(
        s: SourceKey, published: seq<Published>, at: int, revision: set<(int, string)> -> string)
      returns (changed: Result<bool, WriteError>)
      modifies this
      ensures var rows := PublishedList(published, s);
              var differs := s !in old(sync) || old(sync)[s].revision != revision(rows);
              && changed == (if differs && !OneUrlPerAddress(rows) then Err(Integrity) else Ok(differs))
              && (changed.Err? ==> logos == old(logos) && entries == old(entries) && sync == old(sync))
              && (changed.Ok? ==> sync == old(sync)[s := Sync(at, revision(rows))])
              && (changed == Ok(false) ==> logos == old(logos) && entries == old(entries))
              && (changed == Ok(true) ==> logos == Redriven(old(logos), s.chainId)
                                          && IsReplaced(old(entries), entries, s, rows, at))
      ensures changed == Ok(true) ==>
                && logos.Keys == old(logos).Keys
                && (forall k <- logos :: k.chainId == s.chainId && old(logos)[k].imageBytes.None? ==>
                      logos[k] == old(logos)[k].(nextAttemptAt := Some(0)))
                && (forall k <- logos :: k.chainId != s.chainId || old(logos)[k].imageBytes.Some? ==>
                      logos[k] == old(logos)[k])
                && (forall p <- published :: p.source == s.source && p.chainId == s.chainId ==>
                      var k := EntryKey(s.source, s.chainId, p.address);
                      k in entries && entries[k] == Entry(p.url, at))
                && (forall k <- entries :: k.source == s.source && k.chainId == s.chainId ==>
                      exists p <- published :: p.source == s.source && p.chainId == s.chainId
                                               && p.address == k.address && p.url == entries[k].url)
    {
      var rows := PublishedList(published, s);
      var differs := s !in sync || sync[s].revision != revision(rows);
      if differs {
        var inserted := InsertList(map k | k in entries && !Owned(k, s) :: entries[k], s, rows, at);
        if inserted.None? {
          return Err(Integrity);
        }
        ghost var before := entries;
        entries := inserted.value;
        ReplacedFrom(before, entries, s, rows, at);
        WhatIsReplaced(before, entries, s, published, at);
        logos := Redriven(logos, s.chainId);
      }
      sync := sync[s := Sync(at, revision(rows))];
      return Ok(differs);
    }
  }

  /** A batch is due and in order of next attempt, chain and address. */
  lemma BatchInOrder(t: Logos, now: int, limit: nat, due: seq<DueLogo>)
    requires IsBatch(t, now, limit, Keys(due))
    ensures forall d <- due :: d.key in t && t[d.key].nextAttemptAt.Some? && t[d.key].nextAttemptAt.value <= now
    ensures forall i, j :: 0 <= i < j < |due| ==>
              var (x, y) := (t[due[i].key].nextAttemptAt.GetOr(0), t[due[j].key].nextAttemptAt.GetOr(0));
              var (k, l) := (due[i].key, due[j].key);
              x < y || (x == y && (k.chainId < l.chainId || (k.chainId == l.chainId && k.address < l.address)))
  {
    forall d <- due ensures Due(t, d.key, now) {
      var i :| 0 <= i < |due| && due[i] == d;
      assert Keys(due)[i] == d.key;
    }
    forall i, j | 0 <= i < j < |due| ensures Before(t, due[i].key, due[j].key) {
      assert Before(t, Keys(due)[i], Keys(due)[j]);
    }
  }

  /** Deleting the old list first changes nothing about what is left alone. */
  lemma ReplacedFrom(es: Entries, es': Entries, s: SourceKey, rows: set<(int, string)>, at: int)
    requires IsReplaced(map k | k in es && !Owned(k, s) :: es[k], es', s, rows, at)
    ensures IsReplaced(es, es', s, rows, at)
  {
  }

  /** Inserts row by row; a key that is already there breaks the primary key. */
  method InsertList(kept: Entries, s: SourceKey, rows: set<(int, string)>, at: int) returns (r: Option<Entries>)
    requires forall k <- kept :: !Owned(k, s)
    ensures r.Some? <==> OneUrlPerAddress(rows)
    ensures r.Some? ==> IsReplaced(kept, r.value, s, rows, at)
  {
    var es, todo := kept, rows;
    while todo != {}
      invariant todo <= rows && IsReplaced(kept, es, s, rows - todo, at)
      invariant OneUrlPerAddress(rows - todo)
    {
      var row :| row in todo;
      var key := EntryKey(s.source, s.chainId, row.0);
      if key in es {
        assert (row.0, es[key].url) in rows - todo;
        return None;
      }
      es := es[key := Entry(row.1, at)];
      todo := todo - {row};
    }
    assert rows - todo == rows;
    return Some(es);
  }

  function Keys(due: seq<DueLogo>): seq<Key> {
    seq(|due|, i requires 0 <= i < |due| => due[i].key)
  }
}
