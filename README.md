# EquestrianBot retrieval sidecar, modelled in Dafny

EquestrianBot answers customer questions per tenant with retrieval-augmented
generation. This project models the core of the system:

- The Python sidecar:
  - ingestion into a per-tenant FAISS index (`index.faiss`, `id_map.json` and `docs.json`);
  - retrieval of the top-k records for a query;
  - the semantic answer cache, with its TTL and cosine threshold;
  - grounded prompt building and answer extraction;
  - the FastAPI handlers that chain these steps.
- The earlier single-store product sidecar (`server.legacy.py`).
- The fine-tuning data script (`make_jsonl.py`).
- The API's in-memory ingest controller (C#).

Embedders, the FAISS search, the language model, the clock and file contents
are parameters of the model. Everything the code does with their results is
modelled: the branches, the error replies, the constants and the dictionary
orders.

Modules, one per source file (plus shared helpers):

- `Wrappers`: `Option` and `Result`.
- `PyDict`: Python dicts, keeping insertion order.
- `Text`: `str.strip` over the characters Python's `str.isspace` accepts, `join`, `split(sep)[0]` and `str(int)`.
- `Documents`: the document record and the encoders.
- `Artifacts`: a tenant's three files, and the vector-store directory as a class.
- `Ingestion` models `ingestion.py`. `UpsertDocuments` is a method over the directory, specified by the `Upsert` function.
- `Retrieval` models `retrieval.py`.
- `Cache` models `cache.py`. `SemanticCache` is a class whose `store` is the module-level dict.
- `Generation` models `generation.py`.
- `Server` models `server.py`. Each handler is a method over the cache and the directory, specified by a function such as `Serve`.
- `LegacyServer` models `server.legacy.py`.
- `MakeJsonl` models `make_jsonl.py`.
- `IngestControllerModel` models `IngestController.cs`, as a class with the static `Store`.

## Model

| member | source | states |
|---|---|---|
| Ingestion.MakeText | ml/sidecar/ingestion.py:37-46 | A document renders in the FAQ shape, starting with "Q: ", exactly when its question or answer is truthy. Otherwise the text starts with "Title: ". |
| Ingestion.TextIgnores | ml/sidecar/ingestion.py:37-46 | The embedding text ignores the id and the metadata. An FAQ document's text also ignores its attributes, and any other document's text ignores its tags. |
| Ingestion.MergeFacts | ml/sidecar/ingestion.py:81-82 | After the merge loop the registry holds the old ids plus the batch ids. The last document with each id wins. Stored documents whose id is not in the batch are unchanged. |
| Ingestion.MergeBatch | ml/sidecar/ingestion.py:81-82 | The merge loop computes `Merge` of the registry and the batch. |
| Ingestion.AssignRowsFacts | ml/sidecar/ingestion.py:99-101 | After the row loop every batch id is mapped. The last occurrence of an id at batch position i owns row `start + i`. Ids outside the batch keep their rows. |
| Ingestion.AppendBatch | ml/sidecar/ingestion.py:99-101 | The append loop files each document and gives it row `start + i`, equal to `Merge` and `AssignRows`. |
| Ingestion.RebuildIffStored | ml/sidecar/ingestion.py:74-77 | From consistent artifacts, a rebuild happens exactly when some incoming id is already registered. The `ntotal > 0` conjunct never decides the outcome. |
| Ingestion.RebuildRows | ml/sidecar/ingestion.py:84-93 | The rebuilt `id_map` gives the p-th registry entry row p. It is a bijection onto as many rows as there are registry entries. |
| Ingestion.RebuildShape | ml/sidecar/ingestion.py:79-93 | On the rebuild path the index is re-encoded from the whole merged registry, in registry order. Each id's row is its registry position. The last document of the batch with an id replaces the stored one, and the other stored documents stay. Both the batch and the full registry are encoded. |
| Ingestion.RebuildConsistent | ml/sidecar/ingestion.py:79-93 | The rebuild path yields consistent artifacts: the registry is keyed by id, it has the same ids as `id_map`, `id_map` is a bijection onto the index rows, and each row holds its document's embedding. |
| Ingestion.AppendShape | ml/sidecar/ingestion.py:95-101 | On the append path the old rows stay first and the index grows by the batch size. The last document with a given id at batch position i gets row `ntotal + i`, and that row holds its embedding. Other ids keep their row and their document. Only the batch is encoded. |
| Ingestion.AppendBijective | ml/sidecar/ingestion.py:97-101 | Appending pairwise-distinct new ids to a bijective `id_map` leaves a bijection onto the grown row range. |
| Ingestion.RepeatedIdOrphansRow | ml/sidecar/ingestion.py:98-101 | If an id occurs twice in one appended batch, the row given to its earlier occurrence has no id mapped to it. |
| Ingestion.RepeatedIdOverfillsIndex | ml/sidecar/ingestion.py:95-101 | An append whose batch repeats an id adds more index rows than registry entries. Starting from one row per entry, the index ends with more rows than the registry has documents. |
| Ingestion.AppendConsistent | ml/sidecar/ingestion.py:95-101 | Appending new, pairwise-distinct ids to consistent artifacts keeps them consistent. |
| Ingestion.UpsertKeepsConsistent | ml/sidecar/ingestion.py:48-110 | Every successful upsert from consistent artifacts leaves them consistent, with one index row per registry entry. This holds when the upsert rebuilds or its ids are distinct. |
| Ingestion.UpsertDocuments | ml/sidecar/ingestion.py:48-110 | An encoder failure writes nothing. On success the three files are replaced together by what `Upsert` computes, and the batch size is returned. |
| Retrieval.LoadArtifacts | ml/sidecar/retrieval.py:27-41 | Loading succeeds exactly when all three files exist; otherwise it fails with "no vector store". On success the row-to-id map is the inverse of `id_map`. |
| Retrieval.InvertKeysSound | ml/sidecar/retrieval.py:40 | Each inverted row maps to an id with that row, and every used row is present. |
| Retrieval.InvertInverse | ml/sidecar/retrieval.py:39-41 | The inverse maps every used row back to an id mapped to that row. When `id_map` is injective, it is the exact inverse. |
| Retrieval.RecordFor | ml/sidecar/retrieval.py:59-71 | A record carries the hit's id and score. When the id is stored, `raw` is the stored document. When it is not, the fields are None, `attributes` and `metadata` are empty dicts, `tags` is an empty list, and `raw` is None, standing for the `{}` the source keeps there. |
| Retrieval.TranslateFacts | ml/sidecar/retrieval.py:52-71 | Hits on padding rows or unmapped rows are skipped. Every other hit yields one record, in hit order, for the id its row maps to. |
| Retrieval.CollectResults | ml/sidecar/retrieval.py:52-73 | The loop with its two `continue`s computes `Translate`. |
| Retrieval.RetrievedFacts | ml/sidecar/retrieval.py:44-73 | A successful search needs all three files. It returns at most `top_k` records, each with a non-empty id that `id_map` maps. A record's `raw` is the stored document exactly when its id is stored. |
| Retrieval.Search | ml/sidecar/retrieval.py:44-73 | `search` over the directory equals `Retrieved`. |
| Cache.EvictedFacts | ml/sidecar/cache.py:31-37 | The scan deletes exactly the visited entries of the tenant that are older than the TTL (`now - ts > 1800`). Every other entry stays unchanged. |
| Cache.ScanFacts | ml/sidecar/cache.py:30-40 | The best similarity is at least that of every live entry of the tenant, and it is -1.0 when no answer was found. Otherwise the answer comes from the first entry reaching that similarity. |
| Cache.LookupFacts | ml/sidecar/cache.py:25-44 | `get` returns an answer exactly when some live entry of the tenant has similarity >= 0.92. The answer comes from the first entry with the greatest similarity. |
| Cache.RepeatQueryHits | ml/sidecar/cache.py:42-50 | An entry stored with a normalised embedding is found again for the same vector while within the TTL. |
| Cache.SemanticCache.Get | ml/sidecar/cache.py:25-44 | If the encoder fails, the error propagates and the cache is unchanged. Otherwise the result is `Lookup`, and the store is the old store minus the tenant's expired entries. |
| Cache.SemanticCache.Put | ml/sidecar/cache.py:47-52 | `put` stores exactly the `(tenant, query)` entry with the answer, the embedding and the time. An encoder failure is swallowed and the store is left alone. |
| Generation.ContextTitle | ml/sidecar/generation.py:34 | The heading is the first truthy value of title, URL, id and `Doc<i>`, so it is never empty. |
| Generation.ContextTextShape | ml/sidecar/generation.py:30-45 | Each entry opens with `[title] (score=`. With two or more records the block is the earlier records' block, a blank line, and the last entry. |
| Generation.FormatContext | ml/sidecar/generation.py:30-45 | The numbered loop computes the joined entries `ContextText`. |
| Generation.ContextBlock | ml/sidecar/generation.py:50 | The block is the fixed notice exactly when nothing was retrieved. |
| Generation.BuildPrompt | ml/sidecar/generation.py:48-55 | The prompt is the system head and question, then exactly the context block, then the opened assistant turn. |
| Generation.DecodeAnswer | ml/sidecar/generation.py:95 | The answer is a prefix of the stripped output that never contains `<|end|>`. It is the whole stripped output when the tag is absent, and ends just before the first tag otherwise. |
| Generation.GenerateFromContext | ml/sidecar/generation.py:58-100 | It formats the context, builds the prompt, runs the model and cuts the output, as `Generated` states. A model failure is an error. |
| Server.Query | ml/sidecar/server.py:73-110 | The handler's reply, the cache afterwards and the calls made equal `Serve` over the cache and the tenant's files. |
| Server.AnswerMiss | ml/sidecar/server.py:89-104 | After a miss, it searches, generates and stores in the cache, as `ServeMiss` states. |
| Server.CacheHitShortCircuits | ml/sidecar/server.py:79-87 | A truthy cached answer is returned with strategy "cache" and no context, and nothing else is called. |
| Server.MissRunsPipeline | ml/sidecar/server.py:89-104 | On a miss, including a cached empty string, a successful query: searches with `top_k`; generates from the results; stores the answer under the literal query; and answers "rag" with at most `top_k` records as context and no end tag in the answer. |
| Server.FailureWritesNothing | ml/sidecar/server.py:106-110 | A failed query answers "query_failed" and never reaches the cache store. The entries that remain are unchanged. |
| Server.RagAnswerIsCached | ml/sidecar/server.py:96 | After a "rag" answer, the same question within the TTL finds a cached answer. |
| Server.Ingest | ml/sidecar/server.py:57-70 | On success the reply is "ingested" with the batch size and the tenant's files are replaced. Any failure gives "ingest_failed" with the files unchanged. |
| Server.DeleteTenant | ml/sidecar/server.py:120-130 | The tenant's files are gone and the reply is "deleted" whether or not they existed; other tenants keep their files. |
| Server.DeletedTenantIsGone | ml/sidecar/server.py:126-128 | After deletion the tenant has no files, other tenants keep theirs, and deleting twice is deleting once. |
| Server.ListDocsAsWritten | ml/sidecar/server.py:112-118 | As written, `list_docs` always answers the `NameError` message of the unimported `_load_artifacts`. |
| Server.DeleteDocAsWritten | ml/sidecar/server.py:132-144 | As written, `delete_doc` always answers the `NameError` message and deletes nothing. |
| Server.ListDocsDiscrepancy | ml/sidecar/server.py:112-118 | The imports at lines 10-13 lack `_load_artifacts`. For a tenant whose three files exist, the handler as written fails where the corrected one lists. |
| Server.Listing | ml/sidecar/server.py:112-118 | With the loader imported, the listing succeeds exactly when the three files exist, and it is the registry's documents in insertion order. Otherwise it is the loader's not-found message. |
| Server.ListDocs | ml/sidecar/server.py:112-118 | The corrected `list_docs` equals `Listing`. |
| Server.DeleteDoc | ml/sidecar/server.py:132-144 | In the corrected `delete_doc`, a missing store answers the loader's message. Otherwise the reply is "deleted", and a stored document is removed from the registry alone. |
| Server.DeletedDocLeavesOrphanRow | ml/sidecar/server.py:135-141 | After that deletion the document's row stays indexed and mapped. Searches can still return its id, but only as a record with no document behind it. |
| LegacyServer.LoadPolicyText | ml/sidecar/server.legacy.py:52-57 | The result is the stripped contents of the first existing policy path. When none exists, it is the stripped `SHIP_POLICY`, or "". |
| LegacyServer.Section | ml/sidecar/server.legacy.py:119-122 | An optional section is empty exactly when its body is. Otherwise it is the header line followed by the body. |
| LegacyServer.PromptText | ml/sidecar/server.legacy.py:117-124 | The prompt is the system head, then the policy section and the product section (each only when non-empty), then the user turn with the stripped input. |
| LegacyServer.BuildPrompt | ml/sidecar/server.legacy.py:117-124 | The step-by-step build equals `PromptText`. |
| LegacyServer.ILoc | ml/sidecar/server.legacy.py:102 | `iloc` reads positions -n..n-1, counting negatives from the end, so -1 is the last row. Any other position raises. |
| LegacyServer.Lines | ml/sidecar/server.legacy.py:100-103 | There is one product line per searched position. The lines fail as a whole when any position is out of range. |
| LegacyServer.PaddingRepeatsLastProduct | ml/sidecar/server.legacy.py:98-103 | As written, a -1 padding position is listed as the last product. |
| LegacyServer.SkippingPaddingFacts | ml/sidecar/server.legacy.py:98-103 | With padding skipped, there is one line per non-padding position, each from its own row. |
| LegacyServer.TopProductsFallbacks | ml/sidecar/server.legacy.py:93-107 | With no table, no index or a failed search, both versions return "". |
| LegacyServer.RetrieveTopProductsAsWritten | ml/sidecar/server.legacy.py:93-107 | As written, the loop reads every searched position, padding included, and equals `TopProducts`. A position outside the table makes the whole result "". |
| LegacyServer.NoPaddingSameLines | ml/sidecar/server.legacy.py:98-103 | When the search returns no padding, the lines as written and the corrected lines are the same. |
| LegacyServer.RetrieveTopProducts | ml/sidecar/server.legacy.py:93-107 | The corrected loop over the searched positions equals `TopProductsSkippingPadding`. A padding position is skipped, and a position outside the table makes the whole result "". |
| LegacyServer.GenerateAsWritten | ml/sidecar/server.legacy.py:159-198 | As written, the model is prompted with the policy and the top 4 products as `TopProducts` lists them, repeating the last product for each padding position. The output is cut before the first `<|end|>`, and a model failure gives "generation_failed". |
| LegacyServer.Generate | ml/sidecar/server.legacy.py:159-198 | In the corrected handler, the model is prompted with the policy and the top 4 products, with padding skipped. The output is cut before the first `<|end|>`, and a model failure gives "generation_failed". |
| MakeJsonl.RowToExampleFacts | ml/scripts/make_jsonl.py:14-19 | A row is dropped exactly when its stripped question or answer is empty, with a missing cell counting as empty. Otherwise it becomes the stripped pair with an empty input, with no whitespace at either edge. |
| MakeJsonl.ExampleRoundTrip | ml/scripts/make_jsonl.py:14-19 | Converting an example's fields again gives the same example. |
| MakeJsonl.ValidExamplesBound | ml/scripts/make_jsonl.py:32-37 | There are at most as many examples as rows. |
| MakeJsonl.ValidExamplesOrigin | ml/scripts/make_jsonl.py:32-37 | Every example comes from a row that converts to it. |
| MakeJsonl.ValidExamplesInOrder | ml/scripts/make_jsonl.py:32-37 | Every row that converts is kept, at the position given by the examples of the rows before it. Those positions increase with the row number, and each position holds the example of a row at that position. So the examples are exactly the converting rows' examples, each once, in row order. |
| MakeJsonl.ValidExamplesEmpty | ml/scripts/make_jsonl.py:32-41 | There are no examples exactly when no row converts, which is the script's "no valid rows" exit. |
| MakeJsonl.CollectExamples | ml/scripts/make_jsonl.py:32-37 | The reading loop computes `ValidExamples`. |
| MakeJsonl.SplitSizes | ml/scripts/make_jsonl.py:46-49 | The three sizes are at least 1, and they sum to n from 3 rows up. Below 20 rows validation and test get one row each, and below 3 rows all three sizes are 1. |
| MakeJsonl.SplitRowsFacts | ml/scripts/make_jsonl.py:51-53 | Train, validation and test, concatenated, are exactly the shuffled rows. Train has `min(n_train, n)` rows and is non-empty. |
| MakeJsonl.TwoRowsLeaveNoTest | ml/scripts/make_jsonl.py:46-53 | With two rows, train and validation take one each and test is empty. |
| MakeJsonl.MakeSplits | ml/scripts/make_jsonl.py:27-53 | A missing CSV or no valid rows exits with its error. Otherwise the examples come out as a permutation, split as `SplitRows` states, and train is non-empty. |
| IngestControllerModel.PostedFacts | EquestrianBot.Api/Controllers/IngestController.cs:22-38 | A request is rejected exactly when the tenant id is null or whitespace or the documents are missing or empty, and a rejected request changes nothing. An accepted batch is appended to the tenant's list, whatever the sidecar answers, and no other tenant changes. Success comes exactly with a 2xx status and reports the cumulative count. |
| IngestControllerModel.RepostAccumulates | EquestrianBot.Api/Controllers/IngestController.cs:26-38 | Posting the same batch twice keeps both copies, and the count includes both. |
| IngestControllerModel.IngestController.Post | EquestrianBot.Api/Controllers/IngestController.cs:20-39 | The reply and the new store equal `Posted`. |
| IngestControllerModel.IngestController.Get | EquestrianBot.Api/Controllers/IngestController.cs:41-45 | It returns the tenant's list, or an empty one for an unknown tenant. |
| IngestControllerModel.IngestController.Delete | EquestrianBot.Api/Controllers/IngestController.cs:47-52 | The tenant's list is removed whether or not it exists, the reply is "deleted", and other tenants are unchanged. |

## Left out

- I/O: files are values of `Artifacts.TenantFiles`. FAISS, the sentence-transformer models and Phi-3 are function parameters. The clock readings are integer parameters. JSON and CSV encoding are not modelled.
- Floating point: embeddings are `seq<real>` and similarity is an exact dot product. The `1e-12` normalisation epsilon, `float32` rounding and the `:.3f` score format (a `ScoreFormat` parameter) are not modelled. Neither is `str()` of a dict (a `DocRepr` parameter).
- Generation.GenerateFromContext: the `prompt_len`/`gen_len` metadata, tokenizer truncation to 1536 tokens and the sampling settings are not modelled. The model is a function from prompt to decoded text.
- Server.Query: `latency_ms` and the traceback text in error bodies are not modelled.
- Server.DeleteTenant: the source deletes `vectorstores/<tenant>` relative to the working directory, while ingestion and retrieval use the directory next to the module. The model assumes both name the same store.
- Server.DeleteDoc: the corrected handler keeps `docs.json` a dict keyed by id. As written, the handler would dump it as a list, which `_load_artifacts` later treats as a dict.
- Server routes `/` and `/health`, and the legacy `/`, `/health`, `/reload_products` and `/last_error`, only return constants or report the error text.
- LegacyServer: the product table (pandas `read_csv(...).head(100)`) and `build_product_index` are the `table` and `indexBuilt` parameters. Its embedding texts are not modelled, and cells are strings as pandas renders them.
- MakeJsonl.MakeSplits: `random.shuffle` with seed 42 is an arbitrary permutation. `int(n * 0.10)` is `n / 10`, which agrees for the row counts a CSV can have. Writing the JSONL files and printing are not modelled.
- Cache.EvictedFacts: states which entries survive, not the key order of the surviving entries.
- Ingestion: `dataset_type` is accepted and ignored, as in the source. A batch whose encoding fails (including the empty batch, which has no embedding dimension) is one error value, not a specific exception.
- IngestControllerModel.IngestController.Post: a JSON `null` tenant id is the empty string, which is rejected in the same way. An exception thrown by the HTTP call to the sidecar is not modelled; only its status code is.
- Concurrency: every handler runs atomically; concurrent requests interleaving on the shared dicts or files are not modelled.

## Findings

| source | as written | input that shows it | evidently intended | confidence | as-written member | corrected member |
|---|---|---|---|---|---|---|
| ml/sidecar/server.py:10-13,115,135 | `list_docs` and `delete_doc` call `_load_artifacts`, which the module never imports, so both always answer the `NameError` message | any tenant with all three files present, e.g. right after a successful `/ingest` | list the registry's documents; delete one from it | not executed | Server.ListDocsAsWritten, Server.DeleteDocAsWritten, Server.ListDocsDiscrepancy | Server.ListDocs, Server.Listing, Server.DeleteDoc |
| ml/sidecar/server.legacy.py:98-103 | FAISS pads the result with -1 when there are fewer products than `top_k`, and `iloc[-1]` reads the last product, so it is listed again | a table of 2 products and the default `top_k` 4: positions `[i, j, -1, -1]` | skip the padding, as the tenant retrieval does | not executed | LegacyServer.TopProducts, LegacyServer.RetrieveTopProductsAsWritten, LegacyServer.GenerateAsWritten, LegacyServer.PaddingRepeatsLastProduct | LegacyServer.TopProductsSkippingPadding, LegacyServer.RetrieveTopProducts, LegacyServer.Generate, LegacyServer.SkippingPaddingFacts |
