/**
 * The API's ingest controller: it keeps every posted document in an
 * in-memory per-tenant list for listing, and forwards each batch to the
 * sidecar's `/ingest`.
 */
module IngestControllerModel {
  import opened Wrappers

  /** A posted document, a JSON object kept as its key/value pairs. */
  datatype JsonDoc = JsonDoc(fields: seq<(string, string)>)

  /** The request body; `documents` is None when the JSON had `null`. */
  datatype IngestReq = IngestReq(tenantId: string, datasetType: string, documents: Option<seq<JsonDoc>>)

  datatype PostReply =
    | BadRequest(message: string)
    | SidecarFailed(statusCode: int, error: string)
    | Ingested(status: string, count: nat)

  const MISSING_INPUT: string := "Missing tenantId or documents."
  const SIDECAR_FAILED: string := "sidecar_ingest_failed"

  /** `char.IsWhiteSpace`: the Unicode space separators, line and paragraph separators, and the ASCII controls TAB to CR and U+0085. */
  predicate DotNetWhiteSpace(c: char) {
    ('\t' <= c <= '\r') || c == ' ' || c == '\U{85}' || c == '\U{A0}' || c == '\U{1680}'
    || ('\U{2000}' <= c <= '\U{200A}') || c == '\U{2028}' || c == '\U{2029}'
    || c == '\U{202F}' || c == '\U{205F}' || c == '\U{3000}'
  }

  /** `string.IsNullOrWhiteSpace` for a non-null string. */
  predicate IsNullOrWhiteSpace(s: string) {
    forall i :: 0 <= i < |s| ==> DotNetWhiteSpace(s[i])
  }

  /** The validation of `Post`: a tenant id with a visible character and a non-empty document list. */
  predicate Accepted(req: IngestReq) {
    !IsNullOrWhiteSpace(req.tenantId) && req.documents.Some? && req.documents.value != []
  }

  /** `IsSuccessStatusCode`: a 2xx status. */
  predicate IsSuccess(status: int) {
    200 <= status <= 299
  }

  function ListOf(store: map<string, seq<JsonDoc>>, tenant: string): seq<JsonDoc> {
    if tenant in store then store[tenant] else []
  }

  /** The reply and the store after `Post(req)`, the sidecar answering `status`. */
  datatype PostOutcome = PostOutcome(reply: PostReply, store: map<string, seq<JsonDoc>>)

  function Posted(store: map<string, seq<JsonDoc>>, req: IngestReq, status: int): PostOutcome {
    if !Accepted(req) then PostOutcome(BadRequest(MISSING_INPUT), store)
    else
      var t := req.tenantId;
      var store' := store[t := ListOf(store, t) + req.documents.value];
      if !IsSuccess(status) then PostOutcome(SidecarFailed(status, SIDECAR_FAILED), store')
      else PostOutcome(Ingested("ingested", |store'[t]|), store')
  }

  /**
   * A rejected request leaves the store as it was; an accepted one appends
   * the batch to the tenant's list whatever the sidecar answers, touches no
   * other tenant, and on success reports the tenant's cumulative count.
   */
  lemma PostedFacts(store: map<string, seq<JsonDoc>>, req: IngestReq, status: int)
    ensures var o := Posted(store, req, status);
      && (!Accepted(req) <==> o.reply.BadRequest?)
      && (!Accepted(req) ==> o.store == store)
      && (Accepted(req) ==>
            && ListOf(o.store, req.tenantId) == ListOf(store, req.tenantId) + req.documents.value
            && (forall t :: t != req.tenantId ==> ListOf(o.store, t) == ListOf(store, t))
            && (IsSuccess(status) <==> o.reply.Ingested?)
            && (o.reply.Ingested? ==> o.reply.count == |ListOf(store, req.tenantId)| + |req.documents.value|))
  {
  }

  /**
   * Posting the same batch twice keeps both copies: documents are not
   * de-duplicated by id, and the second count includes the first batch.
   */
  lemma RepostAccumulates(store: map<string, seq<JsonDoc>>, req: IngestReq, s1: int, s2: int)
    requires Accepted(req) && IsSuccess(s2)
    ensures var once := Posted(store, req, s1).store;
      var twice := Posted(once, req, s2);
      && ListOf(twice.store, req.tenantId) == ListOf(store, req.tenantId) + req.documents.value + req.documents.value
      && twice.reply == Ingested("ingested", |ListOf(store, req.tenantId)| + 2 * |req.documents.value|)
  {
    PostedFacts(store, req, s1);
    var once := Posted(store, req, s1).store;
    PostedFacts(once, req, s2);
  }

  /** The controller's static `Store`. */
  class IngestController {
    var store: map<string, seq<JsonDoc>>

    constructor ()
      ensures store == map[]
    {
      store := map[];
    }

    /** `Post(req)`, the sidecar's `/ingest` answering `sidecarStatus`. */
    method Post(req: IngestReq, sidecarStatus: int) returns (reply: PostReply)
      modifies this
      ensures PostOutcome(reply, store) == Posted(old(store), req, sidecarStatus)
    {
      if IsNullOrWhiteSpace(req.tenantId) || req.documents.None? || |req.documents.value| == 0 {
        return BadRequest(MISSING_INPUT);
      }
      if req.tenantId !in store {
        store := store[req.tenantId := []];
      }
      store := store[req.tenantId := store[req.tenantId] + req.documents.value];
      if !IsSuccess(sidecarStatus) {
        return SidecarFailed(sidecarStatus, SIDECAR_FAILED);
      }
      reply := Ingested("ingested", |store[req.tenantId]|);
    }

    /** `Get(tenantId)`: the tenant's list, or an empty one for an unknown tenant. */
    method Get(tenantId: string) returns (docs: seq<JsonDoc>)
      ensures docs == ListOf(store, tenantId)
      ensures tenantId !in store ==> docs == []
    {
      if tenantId in store {
        return store[tenantId];
      }
      return [];
    }

    /** `Delete(tenantId)`: the tenant's list goes, present or not; the others stay. */
    method Delete(tenantId: string) returns (status: string)
      modifies this
      ensures status == "deleted"
      ensures store == old(store) - {tenantId}
      ensures ListOf(store, tenantId) == []
      ensures forall t :: t != tenantId ==> ListOf(store, t) == ListOf(old(store), t)
    {
      store := store - {tenantId};
      status := "deleted";
    }
  }
}
