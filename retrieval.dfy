/**
 * Tenant retrieval (`search`): load the three artifacts, embed the query, ask
 * the index for its nearest rows and translate the rows back into document
 * records.
 */
module Retrieval {
  import opened Wrappers
  import opened PyDict
  import opened Documents
  import opened Artifacts

  /** One `(score, row)` pair of the index search; row -1 is FAISS padding. */
  datatype Hit = Hit(score: real, row: int)

  /** What FAISS promises of a search: at most `k` hits, each a stored row or -1. */
  predicate ValidHits(hits: seq<Hit>, ntotal: int, k: int) {
    |hits| <= k && forall h :: h in hits ==> -1 <= h.row < ntotal
  }

  /** The index search `index.search(qv, top_k)`, or None when FAISS raises. */
  type Searcher = f: (seq<Vec>, Vec, int) -> Option<seq<Hit>>
    | forall index, q, k :: f(index, q, k).Some? ==> ValidHits(f(index, q, k).value, |index|, k)
    witness (index: seq<Vec>, q: Vec, k: int) => None

  // ---------------------------------------------------------------------------
  // Loading
  // ---------------------------------------------------------------------------

  /**
   * The row-to-id inversion of `id_map`, built in the map's insertion order,
   * so that of two ids sharing a row the later one wins.
   */
  function InvertKeys(keys: seq<string>, m: map<string, int>): map<int, string>
    requires forall k :: k in keys ==> k in m
  {
    if keys == [] then map[]
    else
      var n := |keys|;
      InvertKeys(keys[..n - 1], m)[m[keys[n - 1]] := keys[n - 1]]
  }

  function Invert(idMap: PDict<string, int>): map<int, string> {
    InvertKeys(idMap.keys, idMap.entries)
  }

  /**
   * Each row of the inversion names an id that `id_map` sends to that row,
   * and every row `id_map` uses appears in the inversion.
   */
  lemma {:induction false} InvertKeysSound(keys: seq<string>, m: map<string, int>)
    requires forall k :: k in keys ==> k in m
    ensures var inv := InvertKeys(keys, m);
      && (forall row :: row in inv ==> inv[row] in keys && m[inv[row]] == row)
      && (forall k :: k in keys ==> m[k] in inv)
  {
    if keys != [] {
      var n := |keys|;
      InvertKeysSound(keys[..n - 1], m);
      var inv := InvertKeys(keys, m);
      forall k | k in keys ensures m[k] in inv {
        if k != keys[n - 1] {
          var j :| 0 <= j < n && keys[j] == k;
          assert keys[..n - 1][j] == k;
        }
      }
    }
  }

  ghost predicate Injective(m: map<string, int>) {
    forall k1, k2 :: k1 in m && k2 in m && m[k1] == m[k2] ==> k1 == k2
  }

  /**
   * The inversion's domain is exactly the set of rows in use, each row maps
   * back to an id on that row, and when no two ids share a row the inversion
   * is the inverse of `id_map`.
   */
  lemma InvertInverse(idMap: PDict<string, int>)
    ensures var inv := Invert(idMap);
      && (forall row :: row in inv ==> inv[row] in idMap.entries && idMap.entries[inv[row]] == row)
      && (forall k :: k in idMap.entries ==> idMap.entries[k] in inv)
      && (Injective(idMap.entries) ==>
            forall k :: k in idMap.entries ==> inv[idMap.entries[k]] == k)
  {
    InvertKeysSound(idMap.keys, idMap.entries);
  }

  /** What `_load_artifacts` returns: the index rows, the inversion and the registry. */
  datatype Loaded = Loaded(index: seq<Vec>, inv: map<int, string>, docs: PDict<string, Doc>)

  /** Why a search raised. */
  datatype SearchError = NoVectorStore | EncoderFailed | IndexSearchFailed

  /** `_load_artifacts`: all three files or `FileNotFoundError`. */
  function LoadArtifacts(files: TenantFiles): (r: Result<Loaded, SearchError>)
    ensures r.Success? <==> files.index.Some? && files.idMap.Some? && files.docs.Some?
    ensures r.Failure? ==> r.error == NoVectorStore
    ensures r.Success? ==> r.value == Loaded(files.index.value, Invert(files.idMap.value), files.docs.value)
  {
    match files
    case TenantFiles(Some(index), Some(idMap), Some(docs)) => Success(Loaded(index, Invert(idMap), docs))
    case _ => Failure(NoVectorStore)
  }

  // ---------------------------------------------------------------------------
  // Row translation
  // ---------------------------------------------------------------------------

  /** One entry of the result list; `raw` None stands for the empty dict `{}`. */
  datatype SearchResult = SearchResult(
    id: string,
    title: Option<string>,
    url: Option<string>,
    score: real,
    attributes: Option<Attrs>,
    question: Option<string>,
    answer: Option<string>,
    metadata: Option<Attrs>,
    tags: Option<seq<string>>,
    raw: Option<Doc>)

  /** A hit survives when its row is not padding and maps to a non-empty id. */
  predicate Kept(h: Hit, inv: map<int, string>) {
    h.row != -1 && h.row in inv && inv[h.row] != ""
  }

  /**
   * The record for id `id`: the stored document's fields, or, for an id with
   * no registry entry, None fields with empty attributes, metadata and tags.
   */
  function RecordFor(id: string, score: real, docs: PDict<string, Doc>): (r: SearchResult)
    ensures r.id == id && r.score == score
    ensures id in docs.entries ==> r.raw == Some(docs.entries[id])
    ensures id !in docs.entries ==>
      && r.title.None? && r.url.None? && r.question.None? && r.answer.None?
      && r.attributes == Some([]) && r.metadata == Some([]) && r.tags == Some([])
      && r.raw.None?
  {
    if id in docs.entries then
      var d := docs.entries[id];
      SearchResult(id, d.title, d.url, score, d.attributes, d.question, d.answer, d.metadata, d.tags, Some(d))
    else
      SearchResult(id, None, None, score, Some([]), None, None, Some([]), Some([]), None)
  }

  function Record(h: Hit, inv: map<int, string>, docs: PDict<string, Doc>): SearchResult
    requires h.row in inv
  {
    RecordFor(inv[h.row], h.score, docs)
  }

  /** The results loop as a value: one record per kept hit, in hit order. */
  function Translate(hits: seq<Hit>, inv: map<int, string>, docs: PDict<string, Doc>): seq<SearchResult> {
    if hits == [] then []
    else
      var n := |hits|;
      var prev := Translate(hits[..n - 1], inv, docs);
      if Kept(hits[n - 1], inv) then prev + [Record(hits[n - 1], inv, docs)] else prev
  }

  /** The positions of the kept hits, in increasing order. */
  function KeptPositions(hits: seq<Hit>, inv: map<int, string>): seq<int> {
    if hits == [] then []
    else
      var n := |hits|;
      var prev := KeptPositions(hits[..n - 1], inv);
      if Kept(hits[n - 1], inv) then prev + [n - 1] else prev
  }

  /**
   * The results are the kept hits and only those, in the order the index
   * returned them: result j is the record of hit `KeptPositions[j]`, the
   * positions increase strictly, and every kept hit has its position listed.
   */
  lemma {:induction false} TranslateFacts(hits: seq<Hit>, inv: map<int, string>, docs: PDict<string, Doc>)
    ensures var r, ps := Translate(hits, inv, docs), KeptPositions(hits, inv);
      && |r| == |ps| <= |hits|
      && (forall j :: 0 <= j < |ps| ==>
            0 <= ps[j] < |hits| && Kept(hits[ps[j]], inv) && r[j] == Record(hits[ps[j]], inv, docs))
      && (forall j1, j2 :: 0 <= j1 < j2 < |ps| ==> ps[j1] < ps[j2])
      && (forall i :: 0 <= i < |hits| && Kept(hits[i], inv) ==> i in ps)
  {
    if hits != [] {
      var n := |hits|;
      var prefix := hits[..n - 1];
      TranslateFacts(prefix, inv, docs);
      var r, ps := Translate(hits, inv, docs), KeptPositions(hits, inv);
      var r0, ps0 := Translate(prefix, inv, docs), KeptPositions(prefix, inv);
      var last := hits[n - 1];
      assert Kept(last, inv) ==> r == r0 + [Record(last, inv, docs)] && ps == ps0 + [n - 1];
      assert !Kept(last, inv) ==> r == r0 && ps == ps0;
      forall j | 0 <= j < |ps|
        ensures 0 <= ps[j] < n && Kept(hits[ps[j]], inv) && r[j] == Record(hits[ps[j]], inv, docs)
      {
        if j < |ps0| {
          assert ps[j] == ps0[j] && r[j] == r0[j];
          assert hits[ps[j]] == prefix[ps[j]];
        }
      }
      forall i | 0 <= i < n && Kept(hits[i], inv) ensures i in ps {
        if i < n - 1 {
          assert prefix[i] == hits[i];
        }
      }
    }
  }

  /** `search`'s loop over the hits, with its two `continue` skips. */
  method CollectResults(hits: seq<Hit>, inv: map<int, string>, docs: PDict<string, Doc>)
    returns (results: seq<SearchResult>)
    ensures results == Translate(hits, inv, docs)
  {
    results := [];
    for i := 0 to |hits|
      invariant results == Translate(hits[..i], inv, docs)
    {
      assert hits[..i + 1][..i] == hits[..i];
      var h := hits[i];
      if h.row == -1 {
        continue;
      }
      if h.row !in inv || inv[h.row] == "" {
        continue;
      }
      results := results + [RecordFor(inv[h.row], h.score, docs)];
    }
    assert hits[..|hits|] == hits;
  }

  // ---------------------------------------------------------------------------
  // Search
  // ---------------------------------------------------------------------------

  /** What `search(tenant_id, query, top_k)` returns or raises, given the tenant's files. */
  function Retrieved(files: TenantFiles, query: string, topK: int, embed: Encoder, searcher: Searcher)
    : Result<seq<SearchResult>, SearchError>
  {
    match LoadArtifacts(files)
    case Failure(e) => Failure(e)
    case Success(l) =>
      match embed(query)
      case None => Failure(EncoderFailed)
      case Some(qv) =>
        match searcher(l.index, qv, topK)
        case None => Failure(IndexSearchFailed)
        case Some(hits) => Success(Translate(hits, l.inv, l.docs))
  }

  /**
   * A successful search returns at most `top_k` results; each result's id is
   * a non-empty id that `id_map` sends to a row, and the record carries the
   * stored document under that id whenever the registry has one.
   */
  lemma RetrievedFacts(files: TenantFiles, query: string, topK: int, embed: Encoder, searcher: Searcher)
    requires Retrieved(files, query, topK, embed, searcher).Success?
    ensures files.index.Some? && files.idMap.Some? && files.docs.Some?
    ensures var rs := Retrieved(files, query, topK, embed, searcher).value;
      && |rs| <= topK
      && (forall j :: 0 <= j < |rs| ==>
            && rs[j].id != ""
            && rs[j].id in files.idMap.value.entries
            && (rs[j].id in files.docs.value.entries <==> rs[j].raw.Some?)
            && (rs[j].raw.Some? ==> rs[j].raw.value == files.docs.value.entries[rs[j].id]))
  {
    var l := LoadArtifacts(files).value;
    var hits := searcher(l.index, embed(query).value, topK).value;
    TranslateFacts(hits, l.inv, l.docs);
    InvertInverse(files.idMap.value);
  }

  /** `search(tenant_id, query, top_k)` over the vector-store directory. */
  method Search(dir: VectorStoreDir, tenant: string, query: string, topK: int,
                embed: Encoder, searcher: Searcher)
    returns (r: Result<seq<SearchResult>, SearchError>)
    ensures r == Retrieved(FilesOf(dir.tenants, tenant), query, topK, embed, searcher)
  {
    var loaded := LoadArtifacts(FilesOf(dir.tenants, tenant));
    if loaded.Failure? {
      return Failure(loaded.error);
    }
    var l := loaded.value;
    var qv := embed(query);
    if qv.None? {
      return Failure(EncoderFailed);
    }
    var hits := searcher(l.index, qv.value, topK);
    if hits.None? {
      return Failure(IndexSearchFailed);
    }
    var results := CollectResults(hits.value, l.inv, l.docs);
    r := Success(results);
  }
}
