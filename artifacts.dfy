/** The persisted per-tenant vector stores under `vectorstores/`. */
module Artifacts {
  import opened Wrappers
  import opened PyDict
  import opened Documents

  /**
   * The three files of one tenant, each present or absent: the FAISS index
   * (its rows), `id_map.json` (document id to row) and `docs.json` (document
   * id to document).
   */
  datatype TenantFiles = TenantFiles(
    index: Option<seq<Vec>>,
    idMap: Option<PDict<string, int>>,
    docs: Option<PDict<string, Doc>>)

  /** A tenant whose folder holds none of the three files. */
  function NoFiles(): TenantFiles {
    TenantFiles(None, None, None)
  }

  function FilesOf(tenants: map<string, TenantFiles>, tenant: string): TenantFiles {
    if tenant in tenants then tenants[tenant] else NoFiles()
  }

  /** The `vectorstores/` directory, shared by ingestion, retrieval and the server. */
  class VectorStoreDir {
    var tenants: map<string, TenantFiles>

    constructor ()
      ensures tenants == map[]
    {
      tenants := map[];
    }
  }
}
