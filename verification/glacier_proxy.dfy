// GlacierProxy.java: the state the handlers share. It holds the blob store, the job index
// (vault -> job id -> submitted job, inner maps created on first use) and the index of
// multipart uploads in progress, keyed by vault and upload id.

module GlacierProxy {
  import opened Options
  import opened Uuids
  import opened Http
  import opened BlobStore

  /** One part the proxy has accepted for an upload: its tree hash and its length in bytes. */
  datatype UploadPart = UploadPart(treeHash: string, size: int)

  /** Multipart.Upload: a multipart upload in progress. Parts accepted so far are appended to
      `parts`; the rest is fixed when the upload is created. */
  class Upload {
    const partSize: int
    const description: Option<string>
    /** The name of the blob the store assembles on completion. */
    const archiveId: Uuid
    var parts: seq<UploadPart>

    constructor (partSize: int, description: Option<string>, archiveId: Uuid)
      ensures this.partSize == partSize && this.description == description
      ensures this.archiveId == archiveId
      ensures parts == []
    {
      this.partSize := partSize;
      this.description := description;
      this.archiveId := archiveId;
      parts := [];
    }
  }

  type JobIndex = map<string, map<Uuid, JobDoc>>

  class Proxy {
    var containers: Store
    var jobMap: JobIndex
    var uploads: map<(string, Uuid), Upload>

    /** Distinct index entries never share an Upload object, so a part added through one entry
        is never seen through another; and every recorded job has a Type that getAsString
        reads, which the job handler checks before it records one. */
    predicate Valid()
      reads this
    {
      && (forall k1, k2 :: k1 in uploads && k2 in uploads && k1 != k2 ==> uploads[k1] != uploads[k2])
      && (forall v, id :: v in jobMap && id in jobMap[v] ==> GetAsString(jobMap[v][id].jobType).Ok?)
    }

    /** getJob: the job submitted under `id` in `vault`, None (null) when the vault has no jobs
        or none under that id. */
    function GetJob(vault: string, id: Uuid): (r: Option<JobDoc>)
      reads this
      ensures vault !in jobMap ==> r == None
      ensures vault in jobMap && id !in jobMap[vault] ==> r == None
      ensures r.Some? ==> vault in jobMap && id in jobMap[vault] && r.value == jobMap[vault][id]
    {
      if vault !in jobMap then None
      else if id !in jobMap[vault] then None
      else Some(jobMap[vault][id])
    }

    /** addJob: records a job, creating the vault's map on first use. Afterwards getJob finds
        the job under (vault, id), every other lookup answers as before, and other vaults' maps
        are untouched; adding under an id already in use replaces the earlier job. */
    method AddJob(vault: string, id: Uuid, doc: JobDoc)
      requires Valid() && GetAsString(doc.jobType).Ok?
      modifies this
      ensures Valid()
      ensures GetJob(vault, id) == Some(doc)
      ensures forall v, i :: (v, i) != (vault, id) ==> GetJob(v, i) == old(GetJob(v, i))
      ensures jobMap.Keys == old(jobMap.Keys) + {vault}
      ensures forall v :: v in old(jobMap) && v != vault ==> jobMap[v] == old(jobMap[v])
      ensures containers == old(containers) && uploads == old(uploads)
    {
      if vault !in jobMap {
        var empty: map<Uuid, JobDoc> := map[];
        jobMap := jobMap[vault := empty];
      }
      var jobs: map<Uuid, JobDoc> := jobMap[vault];
      jobMap := jobMap[vault := jobs[id := doc]];
    }

    /** The jobs of one vault; a vault without jobs has none. */
    function GetVaultJobs(vault: string): (r: map<Uuid, JobDoc>)
      reads this
      ensures forall id :: id in r <==> GetJob(vault, id).Some?
      ensures forall id :: id in r ==> GetJob(vault, id) == Some(r[id])
    {
      if vault in jobMap then jobMap[vault] else map[]
    }

    /** getUpload: the upload in progress under (vault, id), or None. */
    function GetUpload(vault: string, id: Uuid): (r: Option<Upload>)
      reads this
      ensures r.Some? <==> (vault, id) in uploads
      ensures r.Some? ==> r.value == uploads[(vault, id)]
    {
      if (vault, id) in uploads then Some(uploads[(vault, id)]) else None
    }

    /** createMultipartUpload: records a new upload under the given id in the vault. */
    method CreateMultipartUpload(vault: string, upload: Upload, id: Uuid) returns (uploadId: Uuid)
      requires Valid() && upload !in uploads.Values
      modifies this
      ensures Valid()
      ensures uploadId == id && GetUpload(vault, id) == Some(upload)
      ensures forall v, i :: (v, i) != (vault, id) ==> GetUpload(v, i) == old(GetUpload(v, i))
      ensures containers == old(containers) && jobMap == old(jobMap)
    {
      uploads := uploads[(vault, id) := upload];
      uploadId := id;
    }

    /** completeUpload: the upload leaves the index; nothing else changes. */
    method CompleteUpload(vault: string, id: Uuid)
      requires Valid()
      modifies this
      ensures Valid()
      ensures GetUpload(vault, id) == None
      ensures forall v, i :: (v, i) != (vault, id) ==> GetUpload(v, i) == old(GetUpload(v, i))
      ensures containers == old(containers) && jobMap == old(jobMap)
    {
      uploads := uploads - {(vault, id)};
    }
  }
}
