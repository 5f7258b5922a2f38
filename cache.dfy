/**
 * The semantic answer cache: answers keyed by `(tenant, query)`, each with
 * the query's embedding and the time it was stored. A lookup evicts the
 * tenant's expired entries and returns the answer of the most similar live
 * entry when that similarity reaches the threshold.
 */
module Cache {
  import opened Wrappers
  import opened PyDict
  import opened Documents

  /** Entries older than this many seconds are evicted. */
  const TTL_SECONDS: int := 1800
  /** The least cosine similarity that counts as a hit. */
  const SIM_THRESHOLD: real := 0.92

  type Key = (string, string)

  /** `(answer, embedding, timestamp)` */
  datatype Entry = Entry(answer: string, vec: Vec, ts: int)

  /** An entry of the tenant old enough to be evicted (strictly older than the TTL). */
  predicate Stale(d: PDict<Key, Entry>, k: Key, tenant: string, now: int) {
    k in d.entries && k.0 == tenant && now - d.entries[k].ts > TTL_SECONDS
  }

  /** An entry of the tenant that survives eviction. */
  predicate Live(d: PDict<Key, Entry>, k: Key, tenant: string, now: int) {
    k in d.entries && k.0 == tenant && now - d.entries[k].ts <= TTL_SECONDS
  }

  function SimOf(d: PDict<Key, Entry>, k: Key, qv: Vec): real
    requires k in d.entries
  {
    Dot(qv, d.entries[k].vec)
  }

  // ---------------------------------------------------------------------------
  // The scan of `get`, as values
  // ---------------------------------------------------------------------------

  /** The cache after the scan has visited the keys `ks` of the snapshot `d`. */
  function Evicted(d: PDict<Key, Entry>, ks: seq<Key>, tenant: string, now: int): PDict<Key, Entry> {
    if ks == [] then d
    else
      var n := |ks|;
      var prev := Evicted(d, ks[..n - 1], tenant, now);
      if Stale(d, ks[n - 1], tenant, now) then Remove(prev, ks[n - 1]) else prev
  }

  /**
   * Eviction deletes exactly the visited entries of the queried tenant that
   * are strictly older than the TTL; every other entry, of this tenant or
   * another, is kept with its value (and its timestamp) unchanged.
   */
  lemma {:induction false} EvictedFacts(d: PDict<Key, Entry>, ks: seq<Key>, tenant: string, now: int)
    ensures var r := Evicted(d, ks, tenant, now);
      && (forall k :: k in r.entries <==> k in d.entries && !(k in ks && Stale(d, k, tenant, now)))
      && (forall k :: k in r.entries ==> r.entries[k] == d.entries[k])
  {
    if ks != [] {
      var n := |ks|;
      var prefix := ks[..n - 1];
      EvictedFacts(d, prefix, tenant, now);
      assert forall k :: k in ks <==> k in prefix || k == ks[n - 1] by {
        assert ks == prefix + [ks[n - 1]];
      }
    }
  }

  /** The best similarity seen so far and its answer (None before any live entry beats -1). */
  datatype Best = Best(sim: real, answer: Option<string>)

  /** The best-match tracking of the scan over the keys `ks` of the snapshot `d`. */
  function Scan(d: PDict<Key, Entry>, ks: seq<Key>, tenant: string, qv: Vec, now: int): Best {
    if ks == [] then Best(-1.0, None)
    else
      var n := |ks|;
      var prev := Scan(d, ks[..n - 1], tenant, qv, now);
      var k := ks[n - 1];
      if Live(d, k, tenant, now) && SimOf(d, k, qv) > prev.sim then Best(SimOf(d, k, qv), Some(d.entries[k].answer))
      else prev
  }

  /** Position j holds a live entry with the best similarity, and no earlier live entry reaches it. */
  predicate FirstBestAt(d: PDict<Key, Entry>, ks: seq<Key>, tenant: string, qv: Vec, now: int, j: int, b: Best)
    requires 0 <= j < |ks|
  {
    && Live(d, ks[j], tenant, now)
    && SimOf(d, ks[j], qv) == b.sim
    && b.answer == Some(d.entries[ks[j]].answer)
    && forall i :: 0 <= i < j && Live(d, ks[i], tenant, now) ==> SimOf(d, ks[i], qv) < b.sim
  }

  /**
   * The scan finds the maximum similarity over the visited live entries of
   * the tenant; its answer is that of the FIRST entry reaching the maximum;
   * with no live entry above -1 it has no answer and similarity -1.
   */
  lemma {:induction false} ScanFacts(d: PDict<Key, Entry>, ks: seq<Key>, tenant: string, qv: Vec, now: int)
    ensures var b := Scan(d, ks, tenant, qv, now);
      && (forall i :: 0 <= i < |ks| && Live(d, ks[i], tenant, now) ==> SimOf(d, ks[i], qv) <= b.sim)
      && (b.answer.None? ==> b.sim == -1.0)
      && (b.answer.Some? ==> exists j :: 0 <= j < |ks| && FirstBestAt(d, ks, tenant, qv, now, j, b))
  {
    if ks != [] {
      var n := |ks|;
      var prefix := ks[..n - 1];
      ScanFacts(d, prefix, tenant, qv, now);
      var prev := Scan(d, prefix, tenant, qv, now);
      var b := Scan(d, ks, tenant, qv, now);
      forall i | 0 <= i < n - 1 ensures ks[i] == prefix[i] {
      }
      if b != prev {
        assert FirstBestAt(d, ks, tenant, qv, now, n - 1, b);
      } else if b.answer.Some? {
        var j :| 0 <= j < n - 1 && FirstBestAt(d, prefix, tenant, qv, now, j, b);
        assert FirstBestAt(d, ks, tenant, qv, now, j, b);
      }
    }
  }

  /** What `get` returns for a query embedded as `qv`, over the cache `d`. */
  function Lookup(d: PDict<Key, Entry>, tenant: string, qv: Vec, now: int): Option<string> {
    var b := Scan(d, d.keys, tenant, qv, now);
    if b.sim >= SIM_THRESHOLD then b.answer else None
  }

  /**
   * `get` answers iff some live entry of the tenant is at least
   * `SIM_THRESHOLD` similar to the query, and the answer is then that of the
   * first live entry of greatest similarity.
   */
  lemma LookupFacts(d: PDict<Key, Entry>, tenant: string, qv: Vec, now: int)
    ensures Lookup(d, tenant, qv, now).Some?
            <==> exists k :: Live(d, k, tenant, now) && SimOf(d, k, qv) >= SIM_THRESHOLD
    ensures var b := Scan(d, d.keys, tenant, qv, now);
      Lookup(d, tenant, qv, now).Some? ==>
        b.sim >= SIM_THRESHOLD && exists j :: 0 <= j < |d.keys| && FirstBestAt(d, d.keys, tenant, qv, now, j, b)
  {
    ScanFacts(d, d.keys, tenant, qv, now);
    var b := Scan(d, d.keys, tenant, qv, now);
    if exists k :: Live(d, k, tenant, now) && SimOf(d, k, qv) >= SIM_THRESHOLD {
      var k :| Live(d, k, tenant, now) && SimOf(d, k, qv) >= SIM_THRESHOLD;
      var i :| 0 <= i < |d.keys| && d.keys[i] == k;
      assert SimOf(d, d.keys[i], qv) <= b.sim;
    }
    if Lookup(d, tenant, qv, now).Some? {
      var j :| 0 <= j < |d.keys| && FirstBestAt(d, d.keys, tenant, qv, now, j, b);
      assert Live(d, d.keys[j], tenant, now);
    }
  }

  /**
   * A query stored with a unit embedding is answered from the cache when it
   * is asked again, by the same tenant, within the TTL.
   */
  lemma RepeatQueryHits(d: PDict<Key, Entry>, tenant: string, query: string, answer: string,
                        v: Vec, stored: int, now: int)
    requires Normalised(v)
    requires now - stored <= TTL_SECONDS
    ensures Lookup(Set(d, (tenant, query), Entry(answer, v, stored)), tenant, v, now).Some?
  {
    var d' := Set(d, (tenant, query), Entry(answer, v, stored));
    assert Live(d', (tenant, query), tenant, now) && SimOf(d', (tenant, query), v) >= SIM_THRESHOLD;
    LookupFacts(d', tenant, v, now);
  }

  // ---------------------------------------------------------------------------
  // The module-level cache
  // ---------------------------------------------------------------------------

  /** Why a lookup raised. */
  datatype CacheError = EmbeddingFailed

  /** The module-level `_cache` dict. */
  class SemanticCache {
    var store: PDict<Key, Entry>

    constructor ()
      ensures store == Empty()
    {
      store := Empty();
    }

    /**
     * `get(tenant_id, query)` at time `now`: an encoder failure propagates
     * with the cache untouched; otherwise the tenant's expired entries are
     * deleted and the lookup's answer is returned.
     */
    method Get(tenant: string, query: string, now: int, embed: Encoder) returns (r: Result<Option<string>, CacheError>)
      modifies this
      ensures embed(query).None? ==> r == Failure(EmbeddingFailed) && store == old(store)
      ensures embed(query).Some? ==>
        && r == Success(Lookup(old(store), tenant, embed(query).value, now))
        && store == Evicted(old(store), old(store).keys, tenant, now)
    {
      var qv := embed(query);
      if qv.None? {
        return Failure(EmbeddingFailed);
      }
      var items := store;
      var keys := items.keys;
      var best, bestAns := -1.0, None;
      for i := 0 to |keys|
        invariant store == Evicted(items, keys[..i], tenant, now)
        invariant Best(best, bestAns) == Scan(items, keys[..i], tenant, qv.value, now)
      {
        assert keys[..i + 1][..i] == keys[..i];
        var k := keys[i];
        var e := items.entries[k];
        if k.0 != tenant {
          continue;
        }
        if now - e.ts > TTL_SECONDS {
          store := Remove(store, k);
          continue;
        }
        var sim := Dot(qv.value, e.vec);
        if sim > best {
          best, bestAns := sim, Some(e.answer);
        }
      }
      assert keys[..|keys|] == keys;
      if best >= SIM_THRESHOLD {
        return Success(bestAns);
      }
      return Success(None);
    }

    /**
     * `put(tenant_id, query, answer)` at time `now`: the entry for exactly
     * this tenant and query text is set (overwriting, keeping its position),
     * and an encoder failure is swallowed with the cache unchanged.
     */
    method Put(tenant: string, query: string, answer: string, now: int, embed: Encoder)
      modifies this
      ensures embed(query).None? ==> store == old(store)
      ensures embed(query).Some? ==> store == Set(old(store), (tenant, query), Entry(answer, embed(query).value, now))
    {
      var v := embed(query);
      if v.Some? {
        store := Set(store, (tenant, query), Entry(answer, v.value, now));
      }
    }
  }
}
