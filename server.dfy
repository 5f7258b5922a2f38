/**
 * The sidecar's HTTP handlers: `/query` (cache, then retrieval, generation
 * and a cache store), `/ingest`, `/delete/{tenant}`, and the per-document
 * `/list` and `/delete` handlers.
 */
module Server {
  import opened Wrappers
  import opened PyDict
  import opened Documents
  import opened Artifacts
  import opened Ingestion
  import opened Retrieval
  import opened Cache
  import opened Generation

  /** The external models the handlers reach: both embedders, the index search, the LLM, and the two renderings. */
  datatype Backends = Backends(
    cacheEmbed: Encoder,
    indexEmbed: Encoder,
    searcher: Searcher,
    llm: LanguageModel,
    fmt: ScoreFormat,
    repr: DocRepr)

  datatype QueryRequest = QueryRequest(tenant: string, query: string, topK: int)

  /** The collaborator calls a query makes, in order. */
  datatype Step = CacheLookup | Retrieve | Generate | CacheStore

  const QUERY_FAILED: string := "query_failed"
  const INGEST_FAILED: string := "ingest_failed"

  /** A `QueryResponse` (latency aside) or the error body. */
  datatype QueryReply =
    | Answered(answer: string, strategy: string, context: seq<SearchResult>)
    | QueryError(error: string)

  /** The reply, the cache afterwards, and the calls made. */
  datatype Served = Served(reply: QueryReply, store: PDict<Key, Entry>, calls: seq<Step>)

  /**
   * What `query(req)` does, given the cache, the tenant's files, and the
   * clock readings of the cache lookup and the cache store.
   */
  function Serve(store: PDict<Key, Entry>, files: TenantFiles, req: QueryRequest, b: Backends,
                 tGet: int, tPut: int): Served
  {
    match b.cacheEmbed(req.query)
    case None => Served(QueryError(QUERY_FAILED), store, [CacheLookup])
    case Some(qv) =>
      var cached := Lookup(store, req.tenant, qv, tGet);
      var store1 := Evicted(store, store.keys, req.tenant, tGet);
      if Truthy(cached) then Served(Answered(cached.value, "cache", []), store1, [CacheLookup])
      else ServeMiss(store1, files, req, b, tPut)
  }

  /** The rest of `query(req)` after a miss, from the cache as the lookup left it. */
  function ServeMiss(store1: PDict<Key, Entry>, files: TenantFiles, req: QueryRequest, b: Backends, tPut: int): Served {
    match Retrieved(files, req.query, req.topK, b.indexEmbed, b.searcher)
    case Failure(_) => Served(QueryError(QUERY_FAILED), store1, [CacheLookup, Retrieve])
    case Success(ctx) =>
      match Generated(req.query, ctx, b.llm, b.fmt, b.repr)
      case Failure(_) => Served(QueryError(QUERY_FAILED), store1, [CacheLookup, Retrieve, Generate])
      case Success(answer) =>
        var store2 := match b.cacheEmbed(req.query)
          case Some(v) => Set(store1, (req.tenant, req.query), Entry(answer, v, tPut))
          case None => store1;
        Served(Answered(answer, "rag", ctx), store2, [CacheLookup, Retrieve, Generate, CacheStore])
  }

  /**
   * A truthy cached answer is returned with strategy "cache" and no context,
   * and neither the index nor the model is consulted.
   */
  lemma CacheHitShortCircuits(store: PDict<Key, Entry>, files: TenantFiles, req: QueryRequest, b: Backends,
                              tGet: int, tPut: int)
    requires b.cacheEmbed(req.query).Some?
    requires Truthy(Lookup(store, req.tenant, b.cacheEmbed(req.query).value, tGet))
    ensures var s := Serve(store, files, req, b, tGet, tPut);
      && s.reply == Answered(Lookup(store, req.tenant, b.cacheEmbed(req.query).value, tGet).value, "cache", [])
      && s.calls == [CacheLookup]
      && s.reply.answer != ""
  {
  }

  /**
   * On a miss (including a cached empty answer), a successful query searches
   * with the request's `top_k`, generates from the results, stores the answer
   * under the literal query, and answers with strategy "rag" and the search
   * results as context.
   */
  lemma MissRunsPipeline(store: PDict<Key, Entry>, files: TenantFiles, req: QueryRequest, b: Backends,
                         tGet: int, tPut: int)
    requires b.cacheEmbed(req.query).Some?
    requires !Truthy(Lookup(store, req.tenant, b.cacheEmbed(req.query).value, tGet))
    requires Retrieved(files, req.query, req.topK, b.indexEmbed, b.searcher).Success?
    requires Generated(req.query, Retrieved(files, req.query, req.topK, b.indexEmbed, b.searcher).value,
                       b.llm, b.fmt, b.repr).Success?
    ensures var s := Serve(store, files, req, b, tGet, tPut);
      var ctx := Retrieved(files, req.query, req.topK, b.indexEmbed, b.searcher).value;
      var answer := Generated(req.query, ctx, b.llm, b.fmt, b.repr).value;
      && s.reply == Answered(answer, "rag", ctx)
      && s.calls == [CacheLookup, Retrieve, Generate, CacheStore]
      && |ctx| <= req.topK
      && !Text.Contains(answer, END_TAG)
      && (req.tenant, req.query) in s.store.entries
      && s.store.entries[(req.tenant, req.query)] == Entry(answer, b.cacheEmbed(req.query).value, tPut)
  {
    RetrievedFacts(files, req.query, req.topK, b.indexEmbed, b.searcher);
  }

  /**
   * A failed query answers "query_failed", never reaches the cache store, and
   * leaves every remaining cache entry as it was (only expired entries of the
   * tenant may have gone).
   */
  lemma FailureWritesNothing(store: PDict<Key, Entry>, files: TenantFiles, req: QueryRequest, b: Backends,
                             tGet: int, tPut: int)
    requires Serve(store, files, req, b, tGet, tPut).reply.QueryError?
    ensures var s := Serve(store, files, req, b, tGet, tPut);
      && s.reply.error == QUERY_FAILED
      && CacheStore !in s.calls
      && forall k :: k in s.store.entries ==> k in store.entries && s.store.entries[k] == store.entries[k]
  {
    if b.cacheEmbed(req.query).Some? {
      var qv := b.cacheEmbed(req.query).value;
      var store1 := Evicted(store, store.keys, req.tenant, tGet);
      assert !Truthy(Lookup(store, req.tenant, qv, tGet));
      MissFailureKeepsStore(store1, files, req, b, tPut);
      EvictedFacts(store, store.keys, req.tenant, tGet);
    }
  }

  /** A failed retrieval or generation answers "query_failed" and leaves the cache as the lookup left it. */
  lemma MissFailureKeepsStore(store1: PDict<Key, Entry>, files: TenantFiles, req: QueryRequest, b: Backends, tPut: int)
    requires ServeMiss(store1, files, req, b, tPut).reply.QueryError?
    ensures var s := ServeMiss(store1, files, req, b, tPut);
      s.reply.error == QUERY_FAILED && CacheStore !in s.calls && s.store == store1
  {
  }

  /**
   * After a "rag" answer, asking the same question again within the TTL is
   * answered from the cache (provided the stored answer is non-empty).
   */
  lemma RagAnswerIsCached(store: PDict<Key, Entry>, files: TenantFiles, req: QueryRequest, b: Backends,
                          tGet: int, tPut: int, later: int)
    requires Serve(store, files, req, b, tGet, tPut).reply.Answered?
    requires Serve(store, files, req, b, tGet, tPut).reply.strategy == "rag"
    requires later - tPut <= TTL_SECONDS
    ensures var s := Serve(store, files, req, b, tGet, tPut);
      Lookup(s.store, req.tenant, b.cacheEmbed(req.query).value, later).Some?
  {
    var qv := b.cacheEmbed(req.query).value;
    var store1 := Evicted(store, store.keys, req.tenant, tGet);
    var s := Serve(store, files, req, b, tGet, tPut);
    assert s.store == Set(store1, (req.tenant, req.query), Entry(s.reply.answer, qv, tPut));
    RepeatQueryHits(store1, req.tenant, req.query, s.reply.answer, qv, tPut, later);
  }

  /** `query(req)`: the handler, over the live cache and vector-store directory. */
  method Query(cache: SemanticCache, dir: VectorStoreDir, req: QueryRequest, b: Backends, tGet: int, tPut: int)
    returns (reply: QueryReply, calls: seq<Step>)
    modifies cache
    ensures Served(reply, cache.store, calls) == Serve(old(cache.store), FilesOf(dir.tenants, req.tenant), req, b, tGet, tPut)
  {
    var cached := cache.Get(req.tenant, req.query, tGet, b.cacheEmbed);
    if cached.Failure? {
      return QueryError(QUERY_FAILED), [CacheLookup];
    }
    if Truthy(cached.value) {
      return Answered(cached.value.value, "cache", []), [CacheLookup];
    }
    reply, calls := AnswerMiss(cache, dir, req, b, tPut);
  }

  /** Steps 2 to 4 of `query(req)`: search, generate, store in the cache. */
  method AnswerMiss(cache: SemanticCache, dir: VectorStoreDir, req: QueryRequest, b: Backends, tPut: int)
    returns (reply: QueryReply, calls: seq<Step>)
    modifies cache
    ensures Served(reply, cache.store, calls) == ServeMiss(old(cache.store), FilesOf(dir.tenants, req.tenant), req, b, tPut)
  {
    ghost var store1 := cache.store;
    ghost var out := ServeMiss(store1, FilesOf(dir.tenants, req.tenant), req, b, tPut);
    calls := [CacheLookup, Retrieve];
    var ctx := Search(dir, req.tenant, req.query, req.topK, b.indexEmbed, b.searcher);
    if ctx.Failure? {
      assert out == Served(QueryError(QUERY_FAILED), store1, calls);
      return QueryError(QUERY_FAILED), calls;
    }
    calls := [CacheLookup, Retrieve, Generate];
    var answer := GenerateFromContext(req.query, ctx.value, b.llm, b.fmt, b.repr);
    if answer.Failure? {
      assert out == Served(QueryError(QUERY_FAILED), store1, calls);
      return QueryError(QUERY_FAILED), calls;
    }
    calls := [CacheLookup, Retrieve, Generate, CacheStore];
    cache.Put(req.tenant, req.query, answer.value, tPut, b.cacheEmbed);
    reply := Answered(answer.value, "rag", ctx.value);
    assert out == Served(reply, cache.store, calls);
  }

  // ---------------------------------------------------------------------------
  // Ingest and tenant deletion
  // ---------------------------------------------------------------------------

  datatype IngestRequest = IngestRequest(tenant: string, datasetType: string, documents: seq<Doc>)

  datatype IngestReply = Ingested(count: nat) | IngestError(error: string)

  /**
   * `ingest(req)`: "ingested" with the count `upsert_documents` returns, which
   * is the batch size; any failure becomes "ingest_failed" with the store
   * untouched.
   */
  method Ingest(dir: VectorStoreDir, req: IngestRequest, embed: Encoder) returns (reply: IngestReply)
    modifies dir
    ensures match Upsert(FilesOf(old(dir.tenants), req.tenant), req.documents, embed)
            case Failure(_) => reply == IngestError(INGEST_FAILED) && dir.tenants == old(dir.tenants)
            case Success(u) => reply == Ingested(|req.documents|)
                               && dir.tenants == old(dir.tenants)[req.tenant := Persisted(u)]
  {
    var count := UpsertDocuments(dir, req.tenant, req.datasetType, req.documents, embed);
    if count.Failure? {
      return IngestError(INGEST_FAILED);
    }
    reply := Ingested(count.value);
  }

  /**
   * `delete_tenant(tenant_id)`: the tenant's folder goes if it exists; the
   * reply is "deleted" either way, so deleting twice is deleting once.
   */
  method DeleteTenant(dir: VectorStoreDir, tenant: string) returns (status: string)
    modifies dir
    ensures status == "deleted"
    ensures dir.tenants == old(dir.tenants) - {tenant}
  {
    if tenant in dir.tenants {
      dir.tenants := dir.tenants - {tenant};
    }
    status := "deleted";
  }

  /** A tenant with no folder has no files left, and the other tenants keep theirs. */
  lemma DeletedTenantIsGone(tenants: map<string, TenantFiles>, tenant: string, other: string)
    requires other != tenant
    ensures FilesOf(tenants - {tenant}, tenant) == NoFiles()
    ensures FilesOf(tenants - {tenant}, other) == FilesOf(tenants, other)
    ensures (tenants - {tenant}) - {tenant} == tenants - {tenant}
  {
  }

  // ---------------------------------------------------------------------------
  // Per-document handlers
  // ---------------------------------------------------------------------------

  /** The error text of the handlers' `NameError`: `_load_artifacts` is not imported. */
  const UNDEFINED_LOADER: string := "name '_load_artifacts' is not defined"

  datatype ListReply = Listed(docs: seq<Doc>) | ListError(error: string)

  datatype DeleteDocReply = DocDeleted(tenant: string, doc: string) | DeleteDocError(error: string)

  /** What `list_docs(tenant_id)` returns as written: the unimported loader raises, whatever is stored. */
  function ListingAsWritten(tenant: string, files: TenantFiles): ListReply {
    ListError(UNDEFINED_LOADER)
  }

  method ListDocsAsWritten(dir: VectorStoreDir, tenant: string) returns (reply: ListReply)
    ensures reply == ListingAsWritten(tenant, FilesOf(dir.tenants, tenant))
  {
    reply := ListError(UNDEFINED_LOADER);
  }

  /** `delete_doc(tenant_id, doc_id)` as written: the unimported loader raises and nothing is deleted. */
  method DeleteDocAsWritten(dir: VectorStoreDir, tenant: string, docId: string) returns (reply: DeleteDocReply)
    ensures reply == DeleteDocError(UNDEFINED_LOADER)
  {
    reply := DeleteDocError(UNDEFINED_LOADER);
  }

  /** `FileNotFoundError`'s message from `_load_artifacts`. */
  function NotFoundMessage(tenant: string): string {
    "No vector store found for tenant '" + tenant + "'. Please ingest first."
  }

  /**
   * What `list_docs(tenant_id)` returns once `_load_artifacts` is imported:
   * the registry's documents in insertion order when all three files exist,
   * the loader's message otherwise.
   */
  function Listing(tenant: string, files: TenantFiles): (r: ListReply)
    ensures r.Listed? <==> files.index.Some? && files.idMap.Some? && files.docs.Some?
    ensures r.Listed? ==>
      && |r.docs| == |files.docs.value.keys|
      && forall i :: 0 <= i < |r.docs| ==> r.docs[i] == files.docs.value.entries[files.docs.value.keys[i]]
    ensures r.ListError? ==> r.error == NotFoundMessage(tenant)
  {
    match LoadArtifacts(files)
    case Success(l) => Listed(Values(l.docs))
    case Failure(_) => ListError(NotFoundMessage(tenant))
  }

  /** For a tenant whose three files exist, the handler as written fails where the corrected one lists. */
  lemma ListDocsDiscrepancy(tenant: string, files: TenantFiles)
    requires files.index.Some? && files.idMap.Some? && files.docs.Some?
    ensures ListingAsWritten(tenant, files).ListError?
    ensures Listing(tenant, files).Listed?
  {
  }

  /** `list_docs(tenant_id)` with the loader imported. */
  method ListDocs(dir: VectorStoreDir, tenant: string) returns (reply: ListReply)
    ensures reply == Listing(tenant, FilesOf(dir.tenants, tenant))
  {
    var loaded := LoadArtifacts(FilesOf(dir.tenants, tenant));
    if loaded.Failure? {
      return ListError(NotFoundMessage(tenant));
    }
    reply := Listed(Values(loaded.value.docs));
  }

  /**
   * `delete_doc(tenant_id, doc_id)` with the loader imported: only the
   * registry loses the document; the index rows and `id_map` stay.
   */
  method DeleteDoc(dir: VectorStoreDir, tenant: string, docId: string) returns (reply: DeleteDocReply)
    modifies dir
    ensures var files := old(FilesOf(dir.tenants, tenant));
      && (LoadArtifacts(files).Failure? ==>
            reply == DeleteDocError(NotFoundMessage(tenant)) && dir.tenants == old(dir.tenants))
      && (LoadArtifacts(files).Success? && docId !in files.docs.value.entries ==>
            reply == DocDeleted(tenant, docId) && dir.tenants == old(dir.tenants))
      && (LoadArtifacts(files).Success? && docId in files.docs.value.entries ==>
            && reply == DocDeleted(tenant, docId)
            && dir.tenants == old(dir.tenants)[tenant := files.(docs := Some(Remove(files.docs.value, docId)))])
  {
    var files := FilesOf(dir.tenants, tenant);
    var loaded := LoadArtifacts(files);
    if loaded.Failure? {
      return DeleteDocError(NotFoundMessage(tenant));
    }
    var docs := loaded.value.docs;
    if docId in docs.entries {
      docs := Remove(docs, docId);
      dir.tenants := dir.tenants[tenant := files.(docs := Some(docs))];
    }
    reply := DocDeleted(tenant, docId);
  }

  /**
   * After the corrected deletion the document's row is still in the index
   * and still mapped, so searches can keep returning its id, but only as a
   * record with no stored document behind it.
   */
  lemma DeletedDocLeavesOrphanRow(files: TenantFiles, docId: string, query: string, topK: int,
                                  embed: Encoder, searcher: Searcher)
    requires LoadArtifacts(files).Success?
    requires docId in files.docs.value.entries
    ensures var after := files.(docs := Some(Remove(files.docs.value, docId)));
      && after.index == files.index && after.idMap == files.idMap
      && docId !in after.docs.value.entries
      && (Retrieved(after, query, topK, embed, searcher).Success? ==>
            var rs := Retrieved(after, query, topK, embed, searcher).value;
            forall j :: 0 <= j < |rs| && rs[j].id == docId ==> rs[j].raw.None? && rs[j].title.None?)
  {
    var after := files.(docs := Some(Remove(files.docs.value, docId)));
    if Retrieved(after, query, topK, embed, searcher).Success? {
      RetrievedFacts(after, query, topK, embed, searcher);
      var l := LoadArtifacts(after).value;
      var hits := searcher(l.index, embed(query).value, topK).value;
      TranslateFacts(hits, l.inv, l.docs);
    }
  }
}
