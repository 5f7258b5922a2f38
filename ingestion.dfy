/**
 * Tenant vector store ingestion (`upsert_documents`): render and embed the
 * incoming documents, then either append them to the index or, when an id is
 * already stored, merge them into the registry and rebuild the whole index.
 */
module Ingestion {
  import opened Wrappers
  import opened PyDict
  import opened Text
  import opened Documents
  import opened Artifacts

  // ---------------------------------------------------------------------------
  // Embedding text
  // ---------------------------------------------------------------------------

  /** The FAQ shape is chosen when the question or the answer is truthy. */
  predicate IsFaq(d: Doc) {
    Truthy(d.question) || Truthy(d.answer)
  }

  /**
   * `_make_text_for_embedding`: FAQ documents render as Q/A/Title/URL/Tags,
   * the others as the title, the attributes joined by spaces, and the URL.
   */
  function MakeText(d: Doc): (r: string)
    ensures IsFaq(d) <==> "Q: " <= r
    ensures !IsFaq(d) ==> "Title: " <= r
  {
    if IsFaq(d) then
      "Q: " + Show(d.question) + "\nA: " + Show(d.answer)
      + "\nTitle: " + Show(d.title) + "\nURL: " + Show(d.url)
      + "\nTags: " + Join(", ", d.tags.GetOr([]))
    else
      var r := "Title: " + Show(d.title) + "\n" + Join(" ", KeyValues(d.attributes.GetOr([])))
               + "\nURL: " + Show(d.url);
      assert r[..3] != "Q: " by { assert r[0] == 'T'; }
      r
  }

  /**
   * The embedding text ignores the id and the metadata, and an FAQ document's
   * text ignores its attributes while any other document's ignores its tags.
   */
  lemma TextIgnores(d: Doc, e: Doc)
    requires d.title == e.title && d.url == e.url
    requires d.question == e.question && d.answer == e.answer
    requires IsFaq(d) ==> d.tags == e.tags
    requires !IsFaq(d) ==> d.attributes == e.attributes
    ensures MakeText(d) == MakeText(e)
  {
  }

  function Texts(docs: seq<Doc>): (r: seq<string>)
    ensures |r| == |docs|
    ensures forall i :: 0 <= i < |docs| ==> r[i] == MakeText(docs[i])
  {
    seq(|docs|, i requires 0 <= i < |docs| => MakeText(docs[i]))
  }

  /** What the encoder gives a single document: the embedding of its text. */
  type DocEncoder = Doc -> Option<Vec>

  function EmbedDoc(embed: Encoder): DocEncoder {
    d => embed(MakeText(d))
  }

  /** `emb` holds, document by document, what `vec` gives the batch. */
  ghost predicate EmbedsAll(vec: DocEncoder, docs: seq<Doc>, emb: seq<Vec>) {
    |emb| == |docs| && forall i :: 0 <= i < |docs| ==> vec(docs[i]) == Some(emb[i])
  }

  /** A successful batch encoding embeds each document's text at its position. */
  lemma EncodedDocs(embed: Encoder, docs: seq<Doc>, emb: seq<Vec>)
    requires EncodeBatch(embed, Texts(docs)) == Some(emb)
    ensures EmbedsAll(EmbedDoc(embed), docs, emb)
  {
    forall i | 0 <= i < |docs| ensures EmbedDoc(embed)(docs[i]) == Some(emb[i]) {
      assert Texts(docs)[i] == MakeText(docs[i]);
    }
  }

  // ---------------------------------------------------------------------------
  // Registry and row bookkeeping
  // ---------------------------------------------------------------------------

  /** Some document among the first `n` of the batch carries id `k`. */
  predicate InFirst(batch: seq<Doc>, n: int, k: string)
    requires n <= |batch|
  {
    exists j :: 0 <= j < n && batch[j].id == k
  }

  /** Some document of the batch carries id `k`. */
  predicate InBatch(batch: seq<Doc>, k: string) {
    InFirst(batch, |batch|, k)
  }

  /** The batch's ids are pairwise distinct. */
  predicate DistinctIds(batch: seq<Doc>) {
    forall i, j :: 0 <= i < j < |batch| ==> batch[i].id != batch[j].id
  }

  /** No document after `i` among the first `n` carries the id of document `i`. */
  predicate LastWithin(batch: seq<Doc>, n: int, i: int)
    requires 0 <= i < n <= |batch|
  {
    forall j :: i < j < n ==> batch[j].id != batch[i].id
  }

  /** No later document of the batch carries the id of document `i`. */
  predicate LastOf(batch: seq<Doc>, i: int)
    requires 0 <= i < |batch|
  {
    LastWithin(batch, |batch|, i)
  }

  lemma InFirstStep(batch: seq<Doc>, n: int, k: string)
    requires 0 < n <= |batch|
    ensures InFirst(batch, n, k) <==> InFirst(batch, n - 1, k) || batch[n - 1].id == k
  {
    if InFirst(batch, n, k) && batch[n - 1].id != k {
      var j :| 0 <= j < n && batch[j].id == k;
      assert 0 <= j < n - 1;
    }
    if InFirst(batch, n - 1, k) {
      var j :| 0 <= j < n - 1 && batch[j].id == k;
      assert 0 <= j < n;
    }
    if batch[n - 1].id == k {
      assert 0 <= n - 1 < n;
    }
  }

  /** The last of the first `n` documents carrying id `k`. */
  lemma {:induction false} LastIndex(batch: seq<Doc>, n: int, k: string) returns (p: int)
    requires n <= |batch| && InFirst(batch, n, k)
    ensures 0 <= p < n && batch[p].id == k && LastWithin(batch, n, p)
  {
    if batch[n - 1].id == k {
      p := n - 1;
    } else {
      InFirstStep(batch, n, k);
      p := LastIndex(batch, n - 1, k);
    }
  }

  /** The merge loop over the first `n` documents: each, in order, is stored under its id. */
  function MergeFirst(docs: PDict<string, Doc>, batch: seq<Doc>, n: nat): (r: PDict<string, Doc>)
    requires n <= |batch|
  {
    if n == 0 then docs
    else PyDict.Set(MergeFirst(docs, batch, n - 1), batch[n - 1].id, batch[n - 1])
  }

  /** The merge loop over the whole batch. */
  function Merge(docs: PDict<string, Doc>, batch: seq<Doc>): (r: PDict<string, Doc>)
  {
    MergeFirst(docs, batch, |batch|)
  }

  /** After `n` steps id `k` is stored iff it was or one of the first `n` carries it; else it is untouched. */
  lemma {:induction false} MergeAt(docs: PDict<string, Doc>, batch: seq<Doc>, n: nat, k: string)
    requires n <= |batch|
    ensures var r := MergeFirst(docs, batch, n);
      && (k in r.entries <==> k in docs.entries || InFirst(batch, n, k))
      && (k in docs.entries && !InFirst(batch, n, k) ==> r.entries[k] == docs.entries[k])
  {
    if n > 0 {
      MergeAt(docs, batch, n - 1, k);
      InFirstStep(batch, n, k);
    }
  }

  /** After `n` steps the last of the first `n` documents with an id is the one stored. */
  lemma {:induction false} MergeLast(docs: PDict<string, Doc>, batch: seq<Doc>, n: nat, i: int)
    requires 0 <= i < n <= |batch| && LastWithin(batch, n, i)
    ensures var r := MergeFirst(docs, batch, n);
      batch[i].id in r.entries && r.entries[batch[i].id] == batch[i]
  {
    if i < n - 1 {
      assert batch[n - 1].id != batch[i].id;
      MergeLast(docs, batch, n - 1, i);
    }
  }

  /**
   * After the merge loop the registry holds the stored ids and the batch's,
   * the last document of the batch with a given id replaces the stored one,
   * and stored documents whose id is not in the batch are kept as they were.
   */
  lemma MergeFacts(docs: PDict<string, Doc>, batch: seq<Doc>)
    ensures var r := Merge(docs, batch);
      forall k :: k in r.entries <==> k in docs.entries || InBatch(batch, k)
    ensures var r := Merge(docs, batch);
      forall k :: k in docs.entries && !InBatch(batch, k) ==> r.entries[k] == docs.entries[k]
    ensures var r := Merge(docs, batch);
      forall i :: 0 <= i < |batch| && LastOf(batch, i) ==>
        batch[i].id in r.entries && r.entries[batch[i].id] == batch[i]
  {
    var r := Merge(docs, batch);
    forall k
      ensures (k in r.entries <==> k in docs.entries || InBatch(batch, k))
      ensures k in docs.entries && !InBatch(batch, k) ==> r.entries[k] == docs.entries[k]
    {
      MergeAt(docs, batch, |batch|, k);
    }
    forall i | 0 <= i < |batch| && LastOf(batch, i)
      ensures batch[i].id in r.entries && r.entries[batch[i].id] == batch[i]
    {
      MergeLast(docs, batch, |batch|, i);
    }
  }

  /** The row loop over the first `n` documents: the i-th gets row `start + i`. */
  function AssignFirst(idMap: PDict<string, int>, batch: seq<Doc>, start: int, n: nat): (r: PDict<string, int>)
    requires n <= |batch|
  {
    if n == 0 then idMap
    else PyDict.Set(AssignFirst(idMap, batch, start, n - 1), batch[n - 1].id, start + (n - 1))
  }

  /**
   * The row loop: the i-th document of the batch gets row `start + i`, a
   * later duplicate id taking the row over. Started from an empty map with
   * `start` 0 it is also the map rebuilt from the whole registry.
   */
  function AssignRows(idMap: PDict<string, int>, batch: seq<Doc>, start: int): (r: PDict<string, int>)
  {
    AssignFirst(idMap, batch, start, |batch|)
  }

  /** After `n` steps id `k` is mapped iff it was or one of the first `n` carries it; else its row is kept. */
  lemma {:induction false} AssignAt(idMap: PDict<string, int>, batch: seq<Doc>, start: int, n: nat, k: string)
    requires n <= |batch|
    ensures var r := AssignFirst(idMap, batch, start, n);
      && (k in r.entries <==> k in idMap.entries || InFirst(batch, n, k))
      && (k in idMap.entries && !InFirst(batch, n, k) ==> r.entries[k] == idMap.entries[k])
  {
    if n > 0 {
      AssignAt(idMap, batch, start, n - 1, k);
      InFirstStep(batch, n, k);
    }
  }

  /** After `n` steps the last of the first `n` documents with an id owns that id's row. */
  lemma {:induction false} AssignLast(idMap: PDict<string, int>, batch: seq<Doc>, start: int, n: nat, i: int)
    requires 0 <= i < n <= |batch| && LastWithin(batch, n, i)
    ensures var r := AssignFirst(idMap, batch, start, n);
      batch[i].id in r.entries && r.entries[batch[i].id] == start + i
  {
    if i < n - 1 {
      assert batch[n - 1].id != batch[i].id;
      AssignLast(idMap, batch, start, n - 1, i);
    }
  }

  /**
   * After the row loop the map holds the old ids and the batch's, the last
   * document of the batch with a given id owns row `start + i`, and ids not in
   * the batch keep their rows.
   */
  lemma AssignRowsFacts(idMap: PDict<string, int>, batch: seq<Doc>, start: int)
    ensures var r := AssignRows(idMap, batch, start);
      forall k :: k in r.entries <==> k in idMap.entries || InBatch(batch, k)
    ensures var r := AssignRows(idMap, batch, start);
      forall k :: k in idMap.entries && !InBatch(batch, k) ==> r.entries[k] == idMap.entries[k]
    ensures var r := AssignRows(idMap, batch, start);
      forall i :: 0 <= i < |batch| && LastOf(batch, i) ==>
        batch[i].id in r.entries && r.entries[batch[i].id] == start + i
  {
    var r := AssignRows(idMap, batch, start);
    forall k
      ensures (k in r.entries <==> k in idMap.entries || InBatch(batch, k))
      ensures k in idMap.entries && !InBatch(batch, k) ==> r.entries[k] == idMap.entries[k]
    {
      AssignAt(idMap, batch, start, |batch|, k);
    }
    forall i | 0 <= i < |batch| && LastOf(batch, i)
      ensures batch[i].id in r.entries && r.entries[batch[i].id] == start + i
    {
      AssignLast(idMap, batch, start, |batch|, i);
    }
  }

  /**
   * `id_map` is a bijection between its ids and the rows `0..n-1`: no gaps, no
   * two ids on one row.
   */
  ghost predicate RowsBijective(m: map<string, int>, n: int) {
    (forall k :: k in m ==> 0 <= m[k] < n)
    && (forall k1, k2 :: k1 in m && k2 in m && m[k1] == m[k2] ==> k1 == k2)
    && (forall row :: 0 <= row < n ==> RowTaken(m, row))
  }

  /** Some id is mapped to `row`. */
  ghost predicate RowTaken(m: map<string, int>, row: int) {
    exists k :: k in m && m[k] == row
  }

  /** Every registry entry is filed under its own document's id. */
  ghost predicate Keyed(docs: PDict<string, Doc>) {
    forall k :: k in docs.entries ==> docs.entries[k].id == k
  }

  /**
   * The three artifacts agree: the registry is keyed by document id, the same
   * ids are mapped to rows, the map is a bijection onto the index rows, there
   * is one row per registry entry, and the row of each id holds the embedding
   * of that id's document.
   */
  ghost predicate Consistent(index: seq<Vec>, idMap: PDict<string, int>, docs: PDict<string, Doc>, vec: DocEncoder) {
    Keyed(docs)
    && (forall k :: k in idMap.entries <==> k in docs.entries)
    && RowsBijective(idMap.entries, |index|)
    && |docs.keys| == |index|
    && (forall k :: k in idMap.entries ==> vec(docs.entries[k]) == Some(index[idMap.entries[k]]))
  }

  /** With pairwise-distinct batch ids, none among the first `n` carries the id of document `n`. */
  lemma FreshInFirst(batch: seq<Doc>, n: int)
    requires 0 <= n < |batch| && DistinctIds(batch)
    ensures !InFirst(batch, n, batch[n].id)
  {
    forall j | 0 <= j < n ensures batch[j].id != batch[n].id {
    }
  }

  /**
   * Where the append path files an id: a mapped id keeps its row, and a batch
   * id (never already mapped) gets the row of its last occurrence.
   */
  lemma AppendRowOf(m: PDict<string, int>, n: int, batch: seq<Doc>, k: string) returns (p: int)
    requires forall i :: 0 <= i < |batch| ==> batch[i].id !in m.entries
    requires k in AssignRows(m, batch, n).entries
    ensures var r := AssignRows(m, batch, n).entries;
      && -1 <= p < |batch|
      && (p == -1 ==> k in m.entries && r[k] == m.entries[k])
      && (p != -1 ==> k !in m.entries && batch[p].id == k && r[k] == n + p)
  {
    AssignAt(m, batch, n, |batch|, k);
    if InBatch(batch, k) {
      p := LastIndex(batch, |batch|, k);
      AssignLast(m, batch, n, |batch|, p);
    } else {
      p := -1;
    }
  }

  /**
   * The append path from a bijective map, with pairwise-distinct ids none of
   * which is mapped yet, leaves a bijection onto the grown row range.
   */
  lemma AppendBijective(m: PDict<string, int>, n: nat, batch: seq<Doc>)
    requires RowsBijective(m.entries, n)
    requires DistinctIds(batch)
    requires forall i :: 0 <= i < |batch| ==> batch[i].id !in m.entries
    ensures RowsBijective(AssignRows(m, batch, n).entries, n + |batch|)
  {
    var r := AssignRows(m, batch, n).entries;
    forall k | k in r ensures 0 <= r[k] < n + |batch| {
      var p := AppendRowOf(m, n, batch, k);
    }
    forall k1, k2 | k1 in r && k2 in r && r[k1] == r[k2] ensures k1 == k2 {
      var p1 := AppendRowOf(m, n, batch, k1);
      var p2 := AppendRowOf(m, n, batch, k2);
    }
    forall row | 0 <= row < n + |batch| ensures RowTaken(r, row) {
      if row < n {
        assert RowTaken(m.entries, row);
        var k :| k in m.entries && m.entries[k] == row;
        AssignAt(m, batch, n, |batch|, k);
        assert r[k] == row;
      } else {
        var p := row - n;
        assert LastOf(batch, p);
        AssignLast(m, batch, n, |batch|, p);
        assert r[batch[p].id] == row;
      }
    }
  }

  /**
   * When an id occurs twice in one appended batch, the row given to its
   * earlier occurrence is left with no id mapped to it.
   */
  lemma RepeatedIdOrphansRow(m: PDict<string, int>, n: int, batch: seq<Doc>, i: int, j: int)
    requires forall k :: k in m.entries ==> m.entries[k] < n
    requires 0 <= i < j < |batch| && batch[i].id == batch[j].id
    ensures !RowTaken(AssignRows(m, batch, n).entries, n + i)
  {
    var r := AssignRows(m, batch, n);
    forall k | k in r.entries ensures r.entries[k] != n + i {
      AssignAt(m, batch, n, |batch|, k);
      if InBatch(batch, k) {
        var p := LastIndex(batch, |batch|, k);
        AssignLast(m, batch, n, |batch|, p);
        assert p != i by {
          assert batch[j].id == batch[i].id;
        }
      }
    }
  }

  /** Documents filed by the merge loop are filed under their own id. */
  lemma MergeKeyed(docs: PDict<string, Doc>, batch: seq<Doc>)
    requires Keyed(docs)
    ensures Keyed(Merge(docs, batch))
  {
    var r := Merge(docs, batch);
    forall k | k in r.entries ensures r.entries[k].id == k {
      MergeAt(docs, batch, |batch|, k);
      if InBatch(batch, k) {
        var p := LastIndex(batch, |batch|, k);
        MergeLast(docs, batch, |batch|, p);
      }
    }
  }

  /**
   * With pairwise-distinct new ids, document `n - 1`'s id is not filed by
   * the steps before it, so its step adds one key.
   */
  lemma MergeStepGrows(docs: PDict<string, Doc>, batch: seq<Doc>, n: nat)
    requires 0 < n <= |batch|
    requires DistinctIds(batch)
    requires batch[n - 1].id !in docs.entries
    requires |MergeFirst(docs, batch, n - 1).keys| == |docs.keys| + (n - 1)
    ensures |MergeFirst(docs, batch, n).keys| == |docs.keys| + n
  {
    FreshInFirst(batch, n - 1);
    MergeAt(docs, batch, n - 1, batch[n - 1].id);
  }

  /** Merging pairwise-distinct new ids adds one registry entry per document. */
  lemma {:induction false} MergeGrows(docs: PDict<string, Doc>, batch: seq<Doc>, n: nat)
    requires n <= |batch|
    requires DistinctIds(batch)
    requires forall i :: 0 <= i < |batch| ==> batch[i].id !in docs.entries
    ensures |MergeFirst(docs, batch, n).keys| == |docs.keys| + n
  {
    if n > 0 {
      MergeGrows(docs, batch, n - 1);
      MergeStepGrows(docs, batch, n);
    }
  }

  /** Each merge step adds at most one registry entry. */
  lemma {:induction false} MergeAtMost(docs: PDict<string, Doc>, batch: seq<Doc>, n: nat)
    requires n <= |batch|
    ensures |MergeFirst(docs, batch, n).keys| <= |docs.keys| + n
  {
    if n > 0 {
      MergeAtMost(docs, batch, n - 1);
    }
  }

  /**
   * When two of the first `n` documents share an id, the later one files no
   * new entry, so the registry grows by fewer than `n`.
   */
  lemma {:induction false} MergeRepeatShrinks(docs: PDict<string, Doc>, batch: seq<Doc>, n: nat, i: int, j: int)
    requires 0 <= i < j < n <= |batch| && batch[i].id == batch[j].id
    ensures |MergeFirst(docs, batch, n).keys| < |docs.keys| + n
  {
    var prev := MergeFirst(docs, batch, n - 1);
    assert MergeFirst(docs, batch, n) == PyDict.Set(prev, batch[n - 1].id, batch[n - 1]);
    if j == n - 1 {
      assert batch[j].id in prev.entries by {
        assert InFirst(batch, n - 1, batch[j].id) by {
          assert 0 <= i < n - 1 && batch[i].id == batch[j].id;
        }
        MergeAt(docs, batch, n - 1, batch[j].id);
      }
      assert |prev.keys| <= |docs.keys| + (n - 1) by {
        MergeAtMost(docs, batch, n - 1);
      }
    } else {
      assert |prev.keys| < |docs.keys| + (n - 1) by {
        MergeRepeatShrinks(docs, batch, n - 1, i, j);
      }
    }
  }

  /** Registry values of a keyed registry carry the ids in key order, each once. */
  lemma KeyedValues(docs: PDict<string, Doc>)
    requires Keyed(docs)
    ensures var all := Values(docs);
      && (forall p :: 0 <= p < |all| ==> all[p].id == docs.keys[p])
      && (forall p :: 0 <= p < |all| ==> LastOf(all, p))
      && (forall k :: InBatch(all, k) <==> k in docs.entries)
  {
    var all := Values(docs);
    var n := |docs.keys|;
    assert forall p :: 0 <= p < n ==> all[p].id == docs.keys[p];
    forall p | 0 <= p < n ensures LastOf(all, p) {
      forall q | p < q < n ensures all[q].id != all[p].id {
        assert docs.keys[q] != docs.keys[p];
      }
    }
    forall k | k in docs.entries ensures InBatch(all, k) {
      var j :| 0 <= j < n && docs.keys[j] == k;
      assert all[j].id == k;
    }
  }

  /**
   * The rebuilt map gives the k-th registry entry row k, so it is a bijection
   * onto as many rows as the registry has entries.
   */
  lemma RebuildRows(docs: PDict<string, Doc>)
    requires Keyed(docs)
    ensures var m := AssignRows(Empty(), Values(docs), 0);
      && (forall k :: k in m.entries <==> k in docs.entries)
      && (forall p :: 0 <= p < |docs.keys| ==> docs.keys[p] in m.entries && m.entries[docs.keys[p]] == p)
      && RowsBijective(m.entries, |docs.keys|)
  {
    var all := Values(docs);
    var m := AssignRows(Empty(), all, 0);
    var n := |docs.keys|;
    KeyedValues(docs);
    forall p | 0 <= p < n ensures docs.keys[p] in m.entries && m.entries[docs.keys[p]] == p {
      AssignLast(Empty(), all, 0, |all|, p);
    }
    forall k ensures k in m.entries <==> k in docs.entries {
      AssignAt(Empty(), all, 0, |all|, k);
    }
    forall k | k in m.entries ensures 0 <= m.entries[k] < n && docs.keys[m.entries[k]] == k {
      var p :| 0 <= p < n && docs.keys[p] == k;
    }
    forall row | 0 <= row < n ensures RowTaken(m.entries, row) {
      assert m.entries[docs.keys[row]] == row;
    }
  }

  // ---------------------------------------------------------------------------
  // upsert_documents
  // ---------------------------------------------------------------------------

  datatype IngestError = EmbeddingFailed

  /** Some incoming id is already mapped and the loaded index has a row. */
  predicate NeedRebuild(idMap: PDict<string, int>, ntotal: int, batch: seq<Doc>) {
    (exists i :: 0 <= i < |batch| && batch[i].id in idMap.entries) && ntotal > 0
  }

  /**
   * The artifacts an upsert writes, whether it rebuilt, and the batches of
   * texts it handed to the encoder, in call order.
   */
  datatype Upserted = Upserted(
    index: seq<Vec>,
    idMap: PDict<string, int>,
    docs: PDict<string, Doc>,
    rebuilt: bool,
    encoded: seq<seq<string>>)

  /** The files as `upsert_documents` loads them: absent ones start empty. */
  function LoadedIndex(files: TenantFiles): seq<Vec> { files.index.GetOr([]) }
  function LoadedIdMap(files: TenantFiles): PDict<string, int> { files.idMap.GetOr(Empty()) }
  function LoadedDocs(files: TenantFiles): PDict<string, Doc> { files.docs.GetOr(Empty()) }

  /** What `upsert_documents` computes from the tenant's files and the batch. */
  function Upsert(files: TenantFiles, batch: seq<Doc>, embed: Encoder): Result<Upserted, IngestError> {
    var texts := Texts(batch);
    match EncodeBatch(embed, texts)
    case None => Failure(EmbeddingFailed)
    case Some(emb) =>
      var index := LoadedIndex(files);
      var idMap := LoadedIdMap(files);
      var docs := LoadedDocs(files);
      if NeedRebuild(idMap, |index|, batch) then
        var merged := Merge(docs, batch);
        var all := Values(merged);
        match EncodeBatch(embed, Texts(all))
        case None => Failure(EmbeddingFailed)
        case Some(allEmb) =>
          Success(Upserted(allEmb, AssignRows(Empty(), all, 0), merged, true, [texts, Texts(all)]))
      else
        Success(Upserted(index + emb, AssignRows(idMap, batch, |index|), Merge(docs, batch), false, [texts]))
  }

  /**
   * In a consistent state the index is empty exactly when nothing is stored,
   * so a rebuild happens exactly when an incoming id is already registered.
   */
  lemma RebuildIffStored(files: TenantFiles, batch: seq<Doc>, vec: DocEncoder)
    requires Consistent(LoadedIndex(files), LoadedIdMap(files), LoadedDocs(files), vec)
    ensures NeedRebuild(LoadedIdMap(files), |LoadedIndex(files)|, batch)
            <==> exists i :: 0 <= i < |batch| && batch[i].id in LoadedDocs(files).entries
  {
    var idMap := LoadedIdMap(files);
    if exists i :: 0 <= i < |batch| && batch[i].id in LoadedDocs(files).entries {
      var i :| 0 <= i < |batch| && batch[i].id in LoadedDocs(files).entries;
      assert 0 <= idMap.entries[batch[i].id] < |LoadedIndex(files)|;
    }
  }

  /**
   * The append path: document i of the batch (the last with its id) gets row
   * `ntotal + i` holding its embedding, the index grows by the batch size
   * with the old rows first, ids outside the batch keep their row and their
   * document, and only the batch texts are encoded.
   */
  lemma AppendShape(files: TenantFiles, batch: seq<Doc>, embed: Encoder)
    requires Upsert(files, batch, embed).Success?
    requires !Upsert(files, batch, embed).value.rebuilt
    ensures var u := Upsert(files, batch, embed).value;
      var index0, idMap0, docs0 := LoadedIndex(files), LoadedIdMap(files), LoadedDocs(files);
      && |u.index| == |index0| + |batch| && u.index[..|index0|] == index0
      && (forall i :: 0 <= i < |batch| && LastOf(batch, i) ==>
            && batch[i].id in u.idMap.entries
            && u.idMap.entries[batch[i].id] == |index0| + i
            && Some(u.index[|index0| + i]) == embed(MakeText(batch[i])))
      && (forall k :: k in idMap0.entries && !InBatch(batch, k) ==>
            k in u.idMap.entries && u.idMap.entries[k] == idMap0.entries[k])
      && (forall k :: k in docs0.entries && !InBatch(batch, k) ==>
            k in u.docs.entries && u.docs.entries[k] == docs0.entries[k])
      && u.encoded == [Texts(batch)]
  {
    AssignRowsFacts(LoadedIdMap(files), batch, |LoadedIndex(files)|);
    MergeFacts(LoadedDocs(files), batch);
  }

  /**
   * The rebuild path: each incoming document (the last with its id) replaces
   * the registry entry with its id, registry documents outside the batch are
   * kept, the k-th registry entry gets row k, there is one row per entry, and
   * the whole merged registry is encoded after the batch.
   */
  lemma RebuildShape(files: TenantFiles, batch: seq<Doc>, embed: Encoder)
    requires Upsert(files, batch, embed).Success?
    requires Upsert(files, batch, embed).value.rebuilt
    requires Keyed(LoadedDocs(files))
    ensures var u := Upsert(files, batch, embed).value;
      var docs0 := LoadedDocs(files);
      && (forall i :: 0 <= i < |batch| && LastOf(batch, i) ==>
            batch[i].id in u.docs.entries && u.docs.entries[batch[i].id] == batch[i])
      && (forall k :: k in docs0.entries && !InBatch(batch, k) ==>
            k in u.docs.entries && u.docs.entries[k] == docs0.entries[k])
      && |u.index| == |u.docs.keys|
      && (forall p :: 0 <= p < |u.docs.keys| ==>
            u.docs.keys[p] in u.idMap.entries && u.idMap.entries[u.docs.keys[p]] == p)
      && u.encoded == [Texts(batch), Texts(Values(u.docs))]
  {
    var docs0 := LoadedDocs(files);
    var merged := Merge(docs0, batch);
    var emb := EncodeBatch(embed, Texts(batch)).value;
    var allEmb := EncodeBatch(embed, Texts(Values(merged))).value;
    assert Upsert(files, batch, embed).value
      == Upserted(allEmb, AssignRows(Empty(), Values(merged), 0), merged, true, [Texts(batch), Texts(Values(merged))]);
    MergeFacts(docs0, batch);
    MergeKeyed(docs0, batch);
    RebuildRows(merged);
  }

  /** The rebuilt artifacts are consistent whatever the batch. */
  lemma RebuildConsistent(docs: PDict<string, Doc>, batch: seq<Doc>, allEmb: seq<Vec>, vec: DocEncoder)
    requires Keyed(docs)
    requires EmbedsAll(vec, Values(Merge(docs, batch)), allEmb)
    ensures var merged := Merge(docs, batch);
      Consistent(allEmb, AssignRows(Empty(), Values(merged), 0), merged, vec)
  {
    var merged := Merge(docs, batch);
    var all := Values(merged);
    var m := AssignRows(Empty(), all, 0);
    MergeKeyed(docs, batch);
    RebuildRows(merged);
    forall k | k in m.entries ensures vec(merged.entries[k]) == Some(allEmb[m.entries[k]]) {
      var p := m.entries[k];
      assert merged.keys[p] == k by {
        var q :| 0 <= q < |merged.keys| && merged.keys[q] == k;
      }
      assert all[p] == merged.entries[k];
    }
  }

  /** The last document of the batch with an id is filed with its id and owns the row of its embedding. */
  lemma AppendedRow(index: seq<Vec>, idMap: PDict<string, int>, docs: PDict<string, Doc>,
                    batch: seq<Doc>, emb: seq<Vec>, vec: DocEncoder, i: int)
    requires EmbedsAll(vec, batch, emb)
    requires 0 <= i < |batch| && LastOf(batch, i)
    ensures var m, merged, k := AssignRows(idMap, batch, |index|), Merge(docs, batch), batch[i].id;
      && k in m.entries && k in merged.entries
      && m.entries[k] == |index| + i && merged.entries[k] == batch[i]
      && vec(batch[i]) == Some((index + emb)[|index| + i])
  {
    AssignLast(idMap, batch, |index|, |batch|, i);
    MergeLast(docs, batch, |batch|, i);
    ConcatRight(index, emb, i);
  }

  /** An id outside the batch keeps its row and its document. */
  lemma KeptRow(index: seq<Vec>, idMap: PDict<string, int>, docs: PDict<string, Doc>,
                batch: seq<Doc>, emb: seq<Vec>, k: string)
    requires k in idMap.entries && k in docs.entries && !InBatch(batch, k)
    requires 0 <= idMap.entries[k] < |index|
    ensures var m, merged := AssignRows(idMap, batch, |index|), Merge(docs, batch);
      && k in m.entries && k in merged.entries
      && m.entries[k] == idMap.entries[k] && merged.entries[k] == docs.entries[k]
      && (index + emb)[m.entries[k]] == index[idMap.entries[k]]
  {
    AssignAt(idMap, batch, |index|, |batch|, k);
    MergeAt(docs, batch, |batch|, k);
  }

  /** An appended row holds the embedding of the document mapped to it. */
  lemma AppendEmbeddingOf(index: seq<Vec>, idMap: PDict<string, int>, docs: PDict<string, Doc>,
                          batch: seq<Doc>, emb: seq<Vec>, vec: DocEncoder, k: string)
    requires EmbedsAll(vec, batch, emb)
    requires k in idMap.entries && !InBatch(batch, k) ==>
               k in docs.entries && 0 <= idMap.entries[k] < |index|
               && vec(docs.entries[k]) == Some(index[idMap.entries[k]])
    requires var m, merged := AssignRows(idMap, batch, |index|), Merge(docs, batch);
      k in m.entries && k in merged.entries && 0 <= m.entries[k] < |index| + |emb|
    ensures var m, merged := AssignRows(idMap, batch, |index|), Merge(docs, batch);
      vec(merged.entries[k]) == Some((index + emb)[m.entries[k]])
  {
    if InBatch(batch, k) {
      var i := LastIndex(batch, |batch|, k);
      AppendedRow(index, idMap, docs, batch, emb, vec, i);
    } else {
      AssignAt(idMap, batch, |index|, |batch|, k);
      KeptRow(index, idMap, docs, batch, emb, k);
    }
  }

  /**
   * An append whose batch repeats an id adds more index rows than registry
   * entries, so from one row per entry the index ends up with more rows than
   * the registry has documents.
   */
  lemma RepeatedIdOverfillsIndex(files: TenantFiles, batch: seq<Doc>, embed: Encoder, i: int, j: int)
    requires Upsert(files, batch, embed).Success?
    requires !Upsert(files, batch, embed).value.rebuilt
    requires 0 <= i < j < |batch| && batch[i].id == batch[j].id
    ensures var u := Upsert(files, batch, embed).value;
      var index0, docs0 := LoadedIndex(files), LoadedDocs(files);
      && |u.docs.keys| - |docs0.keys| < |u.index| - |index0|
      && (|docs0.keys| == |index0| ==> |u.docs.keys| < |u.index|)
  {
    var index0, docs0 := LoadedIndex(files), LoadedDocs(files);
    var emb := EncodeBatch(embed, Texts(batch)).value;
    assert Upsert(files, batch, embed).value
      == Upserted(index0 + emb, AssignRows(LoadedIdMap(files), batch, |index0|), Merge(docs0, batch), false, [Texts(batch)]);
    MergeRepeatShrinks(docs0, batch, |batch|, i, j);
  }

  lemma ConcatRight<T>(a: seq<T>, b: seq<T>, i: int)
    requires 0 <= i < |b|
    ensures (a + b)[|a| + i] == b[i]
  {
  }

  /** Appending pairwise-distinct new ids to consistent artifacts keeps them consistent. */
  lemma AppendConsistent(index: seq<Vec>, idMap: PDict<string, int>, docs: PDict<string, Doc>,
                         batch: seq<Doc>, emb: seq<Vec>, vec: DocEncoder)
    requires Consistent(index, idMap, docs, vec)
    requires DistinctIds(batch)
    requires forall i :: 0 <= i < |batch| ==> batch[i].id !in idMap.entries
    requires EmbedsAll(vec, batch, emb)
    ensures Consistent(index + emb, AssignRows(idMap, batch, |index|), Merge(docs, batch), vec)
  {
    var n := |index|;
    var m := AssignRows(idMap, batch, n);
    var merged := Merge(docs, batch);
    assert RowsBijective(m.entries, |index + emb|) by {
      AppendBijective(idMap, n, batch);
    }
    assert Keyed(merged) by {
      MergeKeyed(docs, batch);
    }
    assert |merged.keys| == |index + emb| by {
      MergeGrows(docs, batch, |batch|);
    }
    assert forall k :: k in m.entries <==> k in merged.entries by {
      AssignRowsFacts(idMap, batch, n);
      MergeFacts(docs, batch);
    }
    forall k | k in m.entries ensures vec(merged.entries[k]) == Some((index + emb)[m.entries[k]]) {
      AppendEmbeddingOf(index, idMap, docs, batch, emb, vec, k);
    }
  }

  /**
   * After any successful upsert from consistent artifacts, whose batch ids are
   * pairwise distinct or which rebuilds, the artifacts are consistent again:
   * one row per registry entry and `id_map` a bijection.
   */
  lemma UpsertKeepsConsistent(files: TenantFiles, batch: seq<Doc>, embed: Encoder)
    requires Consistent(LoadedIndex(files), LoadedIdMap(files), LoadedDocs(files), EmbedDoc(embed))
    requires Upsert(files, batch, embed).Success?
    requires Upsert(files, batch, embed).value.rebuilt || DistinctIds(batch)
    ensures var u := Upsert(files, batch, embed).value;
      Consistent(u.index, u.idMap, u.docs, EmbedDoc(embed)) && |u.index| == |u.docs.keys|
  {
    var index, idMap, docs := LoadedIndex(files), LoadedIdMap(files), LoadedDocs(files);
    var emb := EncodeBatch(embed, Texts(batch)).value;
    if NeedRebuild(idMap, |index|, batch) {
      var all := Values(Merge(docs, batch));
      var allEmb := EncodeBatch(embed, Texts(all)).value;
      EncodedDocs(embed, all, allEmb);
      RebuildConsistent(docs, batch, allEmb, EmbedDoc(embed));
    } else {
      RebuildIffStored(files, batch, EmbedDoc(embed));
      EncodedDocs(embed, batch, emb);
      AppendConsistent(index, idMap, docs, batch, emb, EmbedDoc(embed));
    }
  }

  /** The rebuild path's merge loop. */
  method MergeBatch(docs: PDict<string, Doc>, documents: seq<Doc>) returns (r: PDict<string, Doc>)
    ensures r == Merge(docs, documents)
  {
    r := docs;
    for i := 0 to |documents|
      invariant r == MergeFirst(docs, documents, i)
    {
      r := PyDict.Set(r, documents[i].id, documents[i]);
    }
  }

  /** One turn of the merge loop files document `i`. */
  lemma MergeStep(docs: PDict<string, Doc>, batch: seq<Doc>, i: nat, cur: PDict<string, Doc>)
    requires i < |batch| && cur == MergeFirst(docs, batch, i)
    ensures PyDict.Set(cur, batch[i].id, batch[i]) == MergeFirst(docs, batch, i + 1)
  {
  }

  /** One turn of the row loop gives document `i` row `start + i`. */
  lemma AssignStep(idMap: PDict<string, int>, batch: seq<Doc>, start: int, i: nat, cur: PDict<string, int>)
    requires i < |batch| && cur == AssignFirst(idMap, batch, start, i)
    ensures PyDict.Set(cur, batch[i].id, start + i) == AssignFirst(idMap, batch, start, i + 1)
  {
  }

  /** The append path's loop: file each document and give it row `start + i`. */
  method AppendBatch(docs: PDict<string, Doc>, idMap: PDict<string, int>, documents: seq<Doc>, start: int)
    returns (docs': PDict<string, Doc>, idMap': PDict<string, int>)
    ensures docs' == Merge(docs, documents)
    ensures idMap' == AssignRows(idMap, documents, start)
  {
    docs', idMap' := docs, idMap;
    for i := 0 to |documents|
      invariant docs' == MergeFirst(docs, documents, i)
      invariant idMap' == AssignFirst(idMap, documents, start, i)
    {
      MergeStep(docs, documents, i, docs');
      AssignStep(idMap, documents, start, i, idMap');
      docs' := PyDict.Set(docs', documents[i].id, documents[i]);
      idMap' := PyDict.Set(idMap', documents[i].id, start + i);
    }
  }

  function Persisted(u: Upserted): TenantFiles {
    TenantFiles(Some(u.index), Some(u.idMap), Some(u.docs))
  }

  /** On the append path the upsert appends the batch's embeddings, rows and documents. */
  lemma UpsertAppends(files: TenantFiles, batch: seq<Doc>, embed: Encoder)
    requires EncodeBatch(embed, Texts(batch)).Some?
    requires !NeedRebuild(LoadedIdMap(files), |LoadedIndex(files)|, batch)
    ensures Upsert(files, batch, embed) == Success(Upserted(
      LoadedIndex(files) + EncodeBatch(embed, Texts(batch)).value,
      AssignRows(LoadedIdMap(files), batch, |LoadedIndex(files)|),
      Merge(LoadedDocs(files), batch), false, [Texts(batch)]))
  {
  }

  /** On the rebuild path the upsert re-encodes the merged registry, or fails with it. */
  lemma UpsertRebuilds(files: TenantFiles, batch: seq<Doc>, embed: Encoder)
    requires EncodeBatch(embed, Texts(batch)).Some?
    requires NeedRebuild(LoadedIdMap(files), |LoadedIndex(files)|, batch)
    ensures var all := Values(Merge(LoadedDocs(files), batch));
      && (EncodeBatch(embed, Texts(all)).None? ==> Upsert(files, batch, embed) == Failure(EmbeddingFailed))
      && (EncodeBatch(embed, Texts(all)).Some? ==> Upsert(files, batch, embed) == Success(Upserted(
            EncodeBatch(embed, Texts(all)).value, AssignRows(Empty(), all, 0),
            Merge(LoadedDocs(files), batch), true, [Texts(batch), Texts(all)])))
  {
  }

  /**
   * `upsert_documents(tenant_id, dataset_type, documents)`: on success the
   * three files are replaced together and the batch size is returned; an
   * encoder failure raises before anything is written.
   */
  method UpsertDocuments(dir: VectorStoreDir, tenant: string, datasetType: string,
                         documents: seq<Doc>, embed: Encoder)
    returns (r: Result<nat, IngestError>)
    modifies dir
    ensures match Upsert(FilesOf(old(dir.tenants), tenant), documents, embed)
            case Failure(e) => r == Failure(e) && dir.tenants == old(dir.tenants)
            case Success(u) => r == Success(|documents|)
                               && dir.tenants == old(dir.tenants)[tenant := Persisted(u)]
  {
    var files := FilesOf(dir.tenants, tenant);
    ghost var out := Upsert(files, documents, embed);
    var texts := Texts(documents);
    var emb := EncodeBatch(embed, texts);
    if emb.None? {
      assert out == Failure(EmbeddingFailed);
      return Failure(EmbeddingFailed);
    }
    var index := LoadedIndex(files);
    var idMap := LoadedIdMap(files);
    var docsStore := LoadedDocs(files);

    if NeedRebuild(idMap, |index|, documents) {
      UpsertRebuilds(files, documents, embed);
      docsStore := MergeBatch(docsStore, documents);
      var allDocs := Values(docsStore);
      var allEmb := EncodeBatch(embed, Texts(allDocs));
      if allEmb.None? {
        return Failure(EmbeddingFailed);
      }
      index := allEmb.value;
      idMap := AssignRows(Empty(), allDocs, 0);
    } else {
      UpsertAppends(files, documents, embed);
      var start := |index|;
      index := index + emb.value;
      docsStore, idMap := AppendBatch(docsStore, idMap, documents, start);
    }
    dir.tenants := dir.tenants[tenant := TenantFiles(Some(index), Some(idMap), Some(docsStore))];
    r := Success(|documents|);
  }
}
